/**
 * Claims and leases: the atomic statements workers run against the shared runtime table, and what holds over every
 * run of them. Times are microseconds on the database clock; a statement's `now` may lie behind the clock.
 */
module Scheduling {
  import opened Arithmetic
  import opened Wrappers

  const SECOND := 1_000_000

  type Worker = nat

  /** `jitterMax` is in seconds, as intervals are. */
  datatype Config = Config(lease: nat, load: nat, timeout: nat, slack: nat, jitterMax: nat)
  {
    /** How long after its claim's `now` a worker can still be busy with a claim (`ProbesEndInTime`). */
    function Deadline(): nat { load + timeout + slack }

    predicate Valid() { Deadline() <= lease }
  }

  datatype Endpoint = Endpoint(interval: nat, enabled: bool)

  datatype Runtime = Runtime(nextRunAt: int, interval: nat, scheduledAt: Option<int>, leasedUntil: Option<int>,
                             leasedBy: Option<Worker>, lastProbeAt: Option<int>)

  /** A row of the claim log, with what the claim computed. */
  datatype Claim = Claim(slot: int, worker: Worker, claimedAt: int, interval: nat, next: int)

  /**
   * How far a worker is with a claim: the claim's rows are on their way to it, the monitor is being loaded until the
   * load timer fires, the probe runs until its own timer fires, or the probe is over and its connection is being torn
   * down. `spent` is the time since the claim's `now` that no timer was armed for.
   */
  datatype Phase =
    | InTransit
    | Loading(spent: int, until: int)
    | Probing(spent: int, until: int)
    | TearingDown(spent: int, since: int)

  /**
   * One endpoint id's rows in every table: the endpoint and its runtime row, its claim log in the order written, the
   * claims some worker is still busy with, and the claims whose result is stored.
   */
  datatype Monitor = Monitor(endpoint: Option<Endpoint>, row: Option<Runtime>, claims: seq<Claim>,
                             probing: map<Claim, Phase>, stored: set<Claim>)

  /** An entry for every id ever used: ids are not reused. */
  datatype State = State(monitors: map<nat, Monitor>, clock: int)

  // ---- The arithmetic of a claim ----

  function Span(interval: nat): nat { interval * SECOND }

  /** `slot + interval * (floor((now - slot) / interval) + 1)`. */
  function NextRun(slot: int, now: int, interval: nat): int
    requires interval > 0
  {
    slot + Span(interval) * ((now - slot) / Span(interval) + 1)
  }

  lemma Multiples(k: int, d: int)
    requires d > 0
    ensures (d * k) % d == 0 && (d * k) / d == k
  {
    QuotientIs(d * k, d, k);
  }

  lemma LeastMultiple(q: int, k: int, d: int, a: int)
    requires d > 0 && d * q <= a < d * k
    ensures d * (q + 1) <= d * k
  {
    if q < k {
      Scaled(q + 1, k, d);
    } else {
      Scaled(k, q, d);
      assert false;
    }
  }

  /** The next slot is the first point of the slot's lattice after `now`, and no more than one interval away. */
  lemma NextRunIsFirstAfter(slot: int, now: int, interval: nat, k: int)
    requires interval > 0
    ensures var n := NextRun(slot, now, interval);
            && now < n <= now + Span(interval) && (n - slot) % Span(interval) == 0
            && (now < slot + Span(interval) * k ==> n <= slot + Span(interval) * k)
            && (slot <= now ==> slot + Span(interval) <= n)
  {
    var d, q := Span(interval), (now - slot) / Span(interval);
    FloorBounds(now - slot, d);
    Multiples(q + 1, d);
    assert d * (q + 1) == d * q + d;
    if now < slot + d * k {
      LeastMultiple(q, k, d, now - slot);
    }
    if slot <= now {
      assert q >= 0;
      assert d * q >= 0;
    }
  }

  // ---- One endpoint's rows under each statement ----

  predicate Free(r: Runtime, now: int) { r.leasedUntil.None? || r.leasedUntil.value < now }

  predicate Due(m: Monitor, now: int) {
    && m.endpoint.Some? && m.endpoint.value.interval > 0 && m.endpoint.value.enabled
    && m.row.Some? && m.row.value.nextRunAt <= now && Free(m.row.value, now)
  }

  function Adopted(m: Monitor, now: int, jitter: nat): Monitor {
    if m.endpoint.Some? && m.row.None?
    then m.(row := Some(Runtime(now + jitter, m.endpoint.value.interval, None, None, None, None)))
    else m
  }

  predicate Stale(m: Monitor, now: int) {
    && m.endpoint.Some? && m.row.Some? && m.row.value.scheduledAt.Some? && Free(m.row.value, now)
    && m.row.value.interval != m.endpoint.value.interval
  }

  function Reconciled(m: Monitor): Monitor
    requires m.endpoint.Some? && m.row.Some? && m.row.value.scheduledAt.Some?
  {
    var r, i := m.row.value, m.endpoint.value.interval;
    m.(row := Some(r.(nextRunAt := r.scheduledAt.value + Span(i), interval := i)))
  }

  function ClaimOf(m: Monitor, worker: Worker, now: int): Claim
    requires Due(m, now)
  {
    var slot, i := m.row.value.nextRunAt, m.endpoint.value.interval;
    Claim(slot, worker, now, i, NextRun(slot, now, i))
  }

  /** The runtime row moves to the next slot under a lease, the slot is logged, and its probe may begin. */
  function Claimed(m: Monitor, worker: Worker, now: int, lease: nat): Monitor
    requires Due(m, now)
  {
    var c := ClaimOf(m, worker, now);
    m.(row := Some(m.row.value.(nextRunAt := c.next, interval := c.interval, scheduledAt := Some(c.slot),
                                leasedUntil := Some(now + lease), leasedBy := Some(worker))),
       claims := m.claims + [c], probing := m.probing[c := InTransit])
  }

  /** Both conjuncts of the fence. */
  predicate Fenced(m: Monitor, worker: Worker, slot: int) {
    m.row.Some? && m.row.value.leasedBy == Some(worker) && m.row.value.scheduledAt == Some(slot)
  }

  function Released(m: Monitor, worker: Worker, slot: int, now: int): Monitor {
    if Fenced(m, worker, slot)
    then m.(row := Some(m.row.value.(leasedUntil := None, leasedBy := None, lastProbeAt := Some(now))))
    else m
  }

  function Abandoned(m: Monitor, worker: Worker, slot: int): Monitor {
    if Fenced(m, worker, slot) then m.(row := Some(m.row.value.(leasedUntil := None, leasedBy := None))) else m
  }

  // ---- A worker's own timers ----

  function Past(t: int, until: int): int { if until < t then t - until else 0 }

  /** The rows reach the worker, and the load timer is armed. */
  function Arrived(cfg: Config, c: Claim, at: int): Phase { Loading(at - c.claimedAt, at + cfg.load) }

  /** The monitor is loaded, if need be before a late load timer is heard of, and the probe's own timer is armed. */
  function Started(p: Phase, at: int, budget: nat): Phase
    requires p.Loading?
  {
    Probing(p.spent + Past(at, p.until), at + budget)
  }

  /** The probe is over, by itself or by its timer, which may have fired late. */
  function Torn(p: Phase, at: int): Phase
    requires p.Probing?
  {
    TearingDown(p.spent + Past(at, p.until), at)
  }

  /** The time since the claim's `now` that no armed timer accounts for. */
  function Untimed(c: Claim, p: Phase, at: int): int {
    match p
    case InTransit => at - c.claimedAt
    case Loading(spent, until) => spent + Past(at, until)
    case Probing(spent, until) => spent + Past(at, until)
    case TearingDown(spent, since) => spent + (at - since)
  }

  // ---- Statements over the whole table ----

  datatype Action =
    | AddEndpoint(id: nat, endpoint: Endpoint)
    | SetEndpoint(id: nat, endpoint: Endpoint)
    | Delete(id: nat)
    | Adopt(now: int, jitter: map<nat, nat>)
    | Reconcile(now: int, locked: set<nat>)
    | ClaimDue(worker: Worker, now: int, batch: nat, locked: set<nat>, picked: set<nat>)
    | Arrive(id: nat, claim: Claim, at: int)
    | StartProbe(id: nat, claim: Claim, at: int, budget: nat)
    | TearDown(id: nat, claim: Claim, at: int)
    | EndProbe(id: nat, claim: Claim)
    | Crash(worker: Worker)
    | Record(id: nat, claim: Claim, now: int)
    | Abandon(id: nat, claim: Claim)
    | Tick(to: int)

  function DueIds(monitors: map<nat, Monitor>, now: int, locked: set<nat>): set<nat> {
    set id | id in monitors && id !in locked && Due(monitors[id], now)
  }

  /** The oldest due rows nobody else has locked, `batch` of them or all there are. */
  predicate Picks(monitors: map<nat, Monitor>, now: int, batch: nat, locked: set<nat>, picked: set<nat>) {
    var due := DueIds(monitors, now, locked);
    && picked <= due && |picked| == (if |due| < batch then |due| else batch)
    && forall p, q :: p in picked && q in due - picked ==>
         monitors[p].row.value.nextRunAt <= monitors[q].row.value.nextRunAt
  }

  function JitterBound(cfg: Config, interval: nat): nat {
    Span(if interval < cfg.jitterMax then interval else cfg.jitterMax)
  }

  predicate IsIn(s: State, id: nat, c: Claim) { id in s.monitors && c in s.monitors[id].probing }

  /** No probe's budget exceeds the cap. */
  predicate Enabled(cfg: Config, s: State, a: Action) {
    match a
    case AddEndpoint(id, ep) => id !in s.monitors && ep.interval > 0
    case SetEndpoint(id, ep) => id in s.monitors && s.monitors[id].endpoint.Some? && ep.interval > 0
    case Delete(id) => id in s.monitors && s.monitors[id].endpoint.Some?
    case Adopt(now, jitter) =>
      && now <= s.clock
      && forall id :: id in s.monitors && s.monitors[id].endpoint.Some? && s.monitors[id].row.None? ==>
           id in jitter && jitter[id] <= JitterBound(cfg, s.monitors[id].endpoint.value.interval)
    case Reconcile(now, _) => now <= s.clock
    case ClaimDue(_, now, batch, locked, picked) => now <= s.clock && Picks(s.monitors, now, batch, locked, picked)
    case Arrive(id, c, at) => at == s.clock && IsIn(s, id, c) && s.monitors[id].probing[c].InTransit?
    case StartProbe(id, c, at, budget) =>
      && at == s.clock && budget <= cfg.timeout
      && IsIn(s, id, c) && s.monitors[id].probing[c].Loading?
    case TearDown(id, c, at) => at == s.clock && IsIn(s, id, c) && s.monitors[id].probing[c].Probing?
    case EndProbe(id, c) => IsIn(s, id, c)
    case Crash(_) => true
    case Record(id, c, now) =>
      id in s.monitors && c in s.monitors[id].claims && c !in s.monitors[id].probing && now <= s.clock
    case Abandon(id, c) => id in s.monitors && c in s.monitors[id].claims && c !in s.monitors[id].probing
    case Tick(to) => s.clock <= to
  }

  function Moved(m: Monitor, c: Claim, p: Phase): Monitor { m.(probing := m.probing[c := p]) }

  /** What a step does to the rows of one endpoint id. */
  function Local(cfg: Config, a: Action, id: nat, m: Monitor): Monitor {
    match a
    case AddEndpoint(_, _) => m
    case SetEndpoint(i, ep) => if i == id then m.(endpoint := Some(ep)) else m
    case Delete(i) => if i == id then m.(endpoint := None, row := None) else m
    case Adopt(now, jitter) => Adopted(m, now, if id in jitter then jitter[id] else 0)
    case Reconcile(now, locked) => if id !in locked && Stale(m, now) then Reconciled(m) else m
    case ClaimDue(w, now, _, _, picked) => if id in picked && Due(m, now) then Claimed(m, w, now, cfg.lease) else m
    case Arrive(i, c, at) => if i == id && c in m.probing then Moved(m, c, Arrived(cfg, c, at)) else m
    case StartProbe(i, c, at, budget) =>
      if i == id && c in m.probing && m.probing[c].Loading? then Moved(m, c, Started(m.probing[c], at, budget)) else m
    case TearDown(i, c, at) =>
      if i == id && c in m.probing && m.probing[c].Probing? then Moved(m, c, Torn(m.probing[c], at)) else m
    case EndProbe(i, c) => if i == id then m.(probing := m.probing - {c}) else m
    case Crash(w) => m.(probing := map c | c in m.probing && c.worker != w :: m.probing[c])
    case Record(i, c, now) => if i == id then Released(m, c.worker, c.slot, now).(stored := m.stored + {c}) else m
    case Abandon(i, c) => if i == id then Abandoned(m, c.worker, c.slot) else m
    case Tick(_) => m
  }

  function Apply(cfg: Config, s: State, a: Action): State {
    var monitors := map id | id in s.monitors :: Local(cfg, a, id, s.monitors[id]);
    match a
    case AddEndpoint(id, ep) => s.(monitors := monitors[id := Monitor(Some(ep), None, [], map[], {})])
    case Tick(to) => State(monitors, to)
    case _ => s.(monitors := monitors)
  }

  /** A step that cannot happen changes nothing. */
  function Step(cfg: Config, s: State, a: Action): State {
    if Enabled(cfg, s, a) then Apply(cfg, s, a) else s
  }

  function Run(cfg: Config, s: State, steps: seq<Action>): State {
    if steps == [] then s else Step(cfg, Run(cfg, s, steps[..|steps| - 1]), steps[|steps| - 1])
  }

  // ---- What every step keeps ----

  function Last(m: Monitor): Claim
    requires m.claims != []
  {
    m.claims[|m.claims| - 1]
  }

  ghost predicate SlotsAscend(claims: seq<Claim>) {
    forall i, j :: 0 <= i < j < |claims| ==> claims[i].slot < claims[j].slot
  }

  /** The runtime row speaks of the latest claim: its slot, its worker and its lease. */
  ghost predicate RowInv(cfg: Config, m: Monitor) {
    m.row.Some? ==>
      var r := m.row.value;
      && m.endpoint.Some?
      && (r.scheduledAt.None? <==> m.claims == [])
      && (m.claims != [] ==> r.scheduledAt == Some(Last(m).slot) && Last(m).slot < r.nextRunAt)
      && (r.leasedBy.Some? <==> r.leasedUntil.Some?)
      && (r.leasedBy.Some? ==> m.claims != [] && r.leasedBy == Some(Last(m).worker)
                               && r.leasedUntil == Some(Last(m).claimedAt + cfg.lease))
  }

  ghost predicate MonitorInv(cfg: Config, m: Monitor) {
    && (m.endpoint.Some? ==> m.endpoint.value.interval > 0)
    && (m.endpoint.Some? && m.row.None? ==> m.claims == [])
    && RowInv(cfg, m)
    && SlotsAscend(m.claims)
    && (forall c :: c in m.probing || c in m.stored ==> c in m.claims)
  }

  ghost predicate Inv(cfg: Config, s: State) {
    forall id :: id in s.monitors ==> MonitorInv(cfg, s.monitors[id])
  }

  lemma ClaimKeepsInv(cfg: Config, m: Monitor, worker: Worker, now: int)
    requires MonitorInv(cfg, m) && Due(m, now)
    ensures MonitorInv(cfg, Claimed(m, worker, now, cfg.lease))
  {
    var c := ClaimOf(m, worker, now);
    NextRunIsFirstAfter(c.slot, now, c.interval, 0);
    var m' := Claimed(m, worker, now, cfg.lease);
    forall i, j | 0 <= i < j < |m'.claims|
      ensures m'.claims[i].slot < m'.claims[j].slot
    {
      if j == |m.claims| {
        assert m.claims[i].slot <= Last(m).slot;
      }
    }
  }

  lemma LocalKeepsInv(cfg: Config, s: State, a: Action, id: nat)
    requires Inv(cfg, s) && Enabled(cfg, s, a) && id in s.monitors
    ensures MonitorInv(cfg, Local(cfg, a, id, s.monitors[id]))
  {
    var m := s.monitors[id];
    if a.ClaimDue? && id in a.picked && Due(m, a.now) {
      ClaimKeepsInv(cfg, m, a.worker, a.now);
    }
  }

  lemma {:induction false} RunKeepsInv(cfg: Config, s: State, steps: seq<Action>)
    requires Inv(cfg, s)
    ensures Inv(cfg, Run(cfg, s, steps))
  {
    if steps != [] {
      var mid, a := Run(cfg, s, steps[..|steps| - 1]), steps[|steps| - 1];
      RunKeepsInv(cfg, s, steps[..|steps| - 1]);
      if Enabled(cfg, mid, a) {
        forall id | id in mid.monitors
          ensures MonitorInv(cfg, Local(cfg, a, id, mid.monitors[id]))
        {
          LocalKeepsInv(cfg, mid, a, id);
        }
      }
    }
  }

  ghost predicate Initial(s: State) { s.monitors == map[] }

  /**
   * Slot uniqueness over whole runs: whatever the workers do, the slots claimed for an endpoint strictly increase, so
   * the claim log never holds an endpoint's slot twice.
   */
  lemma SlotsStrictlyIncrease(cfg: Config, start: State, steps: seq<Action>, id: nat, i: nat, j: nat)
    requires Initial(start) && id in Run(cfg, start, steps).monitors
    requires i < j < |Run(cfg, start, steps).monitors[id].claims|
    ensures var claims := Run(cfg, start, steps).monitors[id].claims; claims[i].slot < claims[j].slot
  {
    RunKeepsInv(cfg, start, steps);
    assert MonitorInv(cfg, Run(cfg, start, steps).monitors[id]);
  }

  /**
   * The fence: in every reachable state, ending a claim clears the endpoint's lease only if that claim is the latest
   * one; once a later claim exists, by whichever worker, the row is left as it was.
   */
  lemma FenceIsTheClaim(cfg: Config, start: State, steps: seq<Action>, id: nat, c: Claim, now: int)
    requires Initial(start) && id in Run(cfg, start, steps).monitors && c in Run(cfg, start, steps).monitors[id].claims
    ensures var m := Run(cfg, start, steps).monitors[id];
            && (c != Last(m) ==> Released(m, c.worker, c.slot, now) == m == Abandoned(m, c.worker, c.slot))
            && (c == Last(m) && m.row.Some? && m.row.value.leasedBy.Some? ==> Fenced(m, c.worker, c.slot))
  {
    RunKeepsInv(cfg, start, steps);
    var m := Run(cfg, start, steps).monitors[id];
    assert MonitorInv(cfg, m);
    var i :| 0 <= i < |m.claims| && m.claims[i] == c;
  }

  lemma LocalLeavesFence(cfg: Config, s: State, a: Action, id: nat, c: Claim)
    requires Inv(cfg, s) && Enabled(cfg, s, a) && id in s.monitors
    requires c in s.monitors[id].claims && !Fenced(s.monitors[id], c.worker, c.slot)
    ensures var m' := Local(cfg, a, id, s.monitors[id]); c in m'.claims && !Fenced(m', c.worker, c.slot)
  {
    var m := s.monitors[id];
    assert MonitorInv(cfg, m);
    if a.ClaimDue? && id in a.picked && Due(m, a.now) {
      var i :| 0 <= i < |m.claims| && m.claims[i] == c;
      assert c.slot <= Last(m).slot < m.row.value.nextRunAt;
    }
  }

  /**
   * A lease once cleared or taken over is never this claim's again: a repeated release or abandon of the claim, however
   * late, finds no row.
   */
  lemma {:induction false} FenceNeverReturns(cfg: Config, s: State, steps: seq<Action>, id: nat, c: Claim)
    requires Inv(cfg, s) && id in s.monitors
    requires c in s.monitors[id].claims && !Fenced(s.monitors[id], c.worker, c.slot)
    ensures id in Run(cfg, s, steps).monitors && c in Run(cfg, s, steps).monitors[id].claims
    ensures !Fenced(Run(cfg, s, steps).monitors[id], c.worker, c.slot)
  {
    if steps != [] {
      var before, a := steps[..|steps| - 1], steps[|steps| - 1];
      FenceNeverReturns(cfg, s, before, id, c);
      RunKeepsInv(cfg, s, before);
      var mid := Run(cfg, s, before);
      if Enabled(cfg, mid, a) {
        LocalLeavesFence(cfg, mid, a, id, c);
      }
    }
  }

  lemma LocalLeavesEnded(cfg: Config, s: State, a: Action, id: nat, c: Claim)
    requires Inv(cfg, s) && Enabled(cfg, s, a) && id in s.monitors
    requires c in s.monitors[id].claims && c !in s.monitors[id].probing
    ensures var m' := Local(cfg, a, id, s.monitors[id]); c in m'.claims && c !in m'.probing
  {
    var m := s.monitors[id];
    assert MonitorInv(cfg, m);
    if a.ClaimDue? && id in a.picked && Due(m, a.now) {
      var i :| 0 <= i < |m.claims| && m.claims[i] == c;
      assert c.slot <= Last(m).slot < m.row.value.nextRunAt;
    }
  }

  /** A claim's probe, once over, never runs again. */
  lemma {:induction false} EndedStaysEnded(cfg: Config, s: State, steps: seq<Action>, id: nat, c: Claim)
    requires Inv(cfg, s) && id in s.monitors && c in s.monitors[id].claims && c !in s.monitors[id].probing
    ensures var s' := Run(cfg, s, steps);
            id in s'.monitors && c in s'.monitors[id].claims && c !in s'.monitors[id].probing
  {
    if steps != [] {
      var before, a := steps[..|steps| - 1], steps[|steps| - 1];
      EndedStaysEnded(cfg, s, before, id, c);
      RunKeepsInv(cfg, s, before);
      var mid := Run(cfg, s, before);
      if Enabled(cfg, mid, a) {
        LocalLeavesEnded(cfg, mid, a, id, c);
      }
    }
  }

  /** `last_probe_at` moves only in a step that stores that very slot's result, and to that step's own instant. */
  lemma ObservationHasResult(cfg: Config, s: State, a: Action, id: nat)
    requires Inv(cfg, s) && Enabled(cfg, s, a) && id in s.monitors
    requires s.monitors[id].row.Some? && Apply(cfg, s, a).monitors[id].row.Some?
    requires s.monitors[id].row.value.lastProbeAt != Apply(cfg, s, a).monitors[id].row.value.lastProbeAt
    ensures var m, m' := s.monitors[id], Apply(cfg, s, a).monitors[id];
            && a.Record? && a.id == id && a.claim == Last(m) && Last(m) in m'.stored
            && m'.row.value.lastProbeAt == Some(a.now) && m.row.value.leasedBy == Some(a.claim.worker)
            && m'.row.value.leasedUntil.None?
  {
    var m := s.monitors[id];
    assert MonitorInv(cfg, m);
    assert Apply(cfg, s, a).monitors[id] == Local(cfg, a, id, m);
    var i :| 0 <= i < |m.claims| && m.claims[i] == a.claim;
  }

  /**
   * Ending the latest claim while its lease stands clears the lease; a result moves the observation time to its own
   * instant and is kept, an abandon does neither. Nothing else of the row changes.
   */
  lemma LatestIsReleased(cfg: Config, start: State, steps: seq<Action>, id: nat, now: int)
    requires Initial(start) && id in Run(cfg, start, steps).monitors
    requires var m := Run(cfg, start, steps).monitors[id];
             m.claims != [] && m.row.Some? && m.row.value.leasedUntil.Some?
    ensures var s := Run(cfg, start, steps);
            var m, c, freed := s.monitors[id], Last(s.monitors[id]),
                               s.monitors[id].row.value.(leasedUntil := None, leasedBy := None);
            && Apply(cfg, s, Record(id, c, now)).monitors[id]
                 == m.(row := Some(freed.(lastProbeAt := Some(now))), stored := m.stored + {c})
            && Apply(cfg, s, Abandon(id, c)).monitors[id] == m.(row := Some(freed))
  {
    RunKeepsInv(cfg, start, steps);
    var s := Run(cfg, start, steps);
    LeasedIsReleased(cfg, s.monitors[id], Last(s.monitors[id]), now);
    EndsLocally(cfg, s, id, Last(s.monitors[id]), now);
  }

  lemma LeasedIsReleased(cfg: Config, m: Monitor, c: Claim, now: int)
    requires MonitorInv(cfg, m) && m.claims != [] && m.row.Some? && m.row.value.leasedUntil.Some? && c == Last(m)
    ensures var freed := m.row.value.(leasedUntil := None, leasedBy := None);
            && Released(m, c.worker, c.slot, now) == m.(row := Some(freed.(lastProbeAt := Some(now))))
            && Abandoned(m, c.worker, c.slot) == m.(row := Some(freed))
  {
  }

  lemma EndsLocally(cfg: Config, s: State, id: nat, c: Claim, now: int)
    requires id in s.monitors
    ensures var m := s.monitors[id];
            && Apply(cfg, s, Record(id, c, now)).monitors[id]
                 == Released(m, c.worker, c.slot, now).(stored := m.stored + {c})
            && Apply(cfg, s, Abandon(id, c)).monitors[id] == Abandoned(m, c.worker, c.slot)
  {
  }

  // ---- Which endpoints are claimed ----

  /** The endpoint is there and not paused, its slot has come, and no lease stands. */
  predicate Claimable(m: Monitor, now: int) {
    && m.endpoint.Some? && m.endpoint.value.enabled && m.row.Some? && m.row.value.nextRunAt <= now
    && (m.row.value.leasedUntil.Some? ==> m.row.value.leasedUntil.value < now)
  }

  /** Every endpoint has an interval. */
  ghost predicate Paced(monitors: map<nat, Monitor>) {
    forall id :: id in monitors && monitors[id].endpoint.Some? ==> monitors[id].endpoint.value.interval > 0
  }

  /** Claimable rows nobody has locked, up to the batch; one is left behind only by a full batch of no younger slots. */
  ghost predicate TakesOldest(monitors: map<nat, Monitor>, now: int, batch: nat, locked: set<nat>, picked: set<nat>) {
    && |picked| <= batch
    && (forall id :: id in picked ==> id in monitors && id !in locked && Claimable(monitors[id], now))
    && forall id :: id in monitors && id !in locked && id !in picked && Claimable(monitors[id], now) ==>
         LeftBehind(monitors, batch, picked, id)
  }

  ghost predicate LeftBehind(monitors: map<nat, Monitor>, batch: nat, picked: set<nat>, id: nat)
    requires id in monitors && monitors[id].row.Some?
  {
    && |picked| == batch
    && forall p :: p in picked ==>
         && p in monitors && monitors[p].row.Some?
         && monitors[p].row.value.nextRunAt <= monitors[id].row.value.nextRunAt
  }

  lemma SmallerByOne<T>(a: set<T>, b: set<T>, x: T)
    requires a <= b && x in b && x !in a
    ensures |a| < |b|
  {
    assert b == a + (b - a);
    assert x in b - a;
  }

  lemma PicksTakeOldest(monitors: map<nat, Monitor>, now: int, batch: nat, locked: set<nat>, picked: set<nat>)
    requires Picks(monitors, now, batch, locked, picked) && Paced(monitors)
    ensures TakesOldest(monitors, now, batch, locked, picked)
  {
    var due := DueIds(monitors, now, locked);
    forall id | id in monitors && id !in locked && id !in picked && Claimable(monitors[id], now)
      ensures LeftBehind(monitors, batch, picked, id)
    {
      assert id in due;
      SmallerByOne(picked, due, id);
    }
  }

  /**
   * In every reachable state, a claim takes the oldest claimable endpoints there is room for. Each of them, and no
   * other, gets one more claim: of the slot its row was due for, by this worker, leased from its own instant.
   */
  lemma ClaimsWhatIsDue(cfg: Config, start: State, steps: seq<Action>, worker: Worker, now: int, batch: nat,
                        locked: set<nat>, picked: set<nat>)
    requires Initial(start) && Enabled(cfg, Run(cfg, start, steps), ClaimDue(worker, now, batch, locked, picked))
    ensures TakesOldest(Run(cfg, start, steps).monitors, now, batch, locked, picked)
    ensures var s := Run(cfg, start, steps);
            forall id :: id in picked ==> ClaimAdded(cfg, s.monitors[id], worker, now,
                           Local(cfg, ClaimDue(worker, now, batch, locked, picked), id, s.monitors[id]))
  {
    var s, a := Run(cfg, start, steps), ClaimDue(worker, now, batch, locked, picked);
    RunKeepsInv(cfg, start, steps);
    forall id | id in s.monitors && s.monitors[id].endpoint.Some?
      ensures s.monitors[id].endpoint.value.interval > 0
    {
      assert MonitorInv(cfg, s.monitors[id]);
    }
    PicksTakeOldest(s.monitors, now, batch, locked, picked);
    forall id | id in picked
      ensures ClaimAdded(cfg, s.monitors[id], worker, now, Local(cfg, a, id, s.monitors[id]))
    {
      ClaimIsAdded(cfg, s.monitors[id], worker, now);
    }
  }

  /** One claim more of the slot that was due, and the row leased to its worker and moved past its instant. */
  ghost predicate ClaimAdded(cfg: Config, m: Monitor, worker: Worker, now: int, m': Monitor) {
    && m.row.Some? && m'.row.Some? && m'.endpoint == m.endpoint && m'.stored == m.stored
    && |m'.claims| == |m.claims| + 1 && m'.claims[..|m.claims|] == m.claims
    && Last(m').slot == m.row.value.nextRunAt && Last(m').worker == worker && Last(m').claimedAt == now
    && m'.row.value.scheduledAt == Some(m.row.value.nextRunAt) && now < m'.row.value.nextRunAt
    && m'.row.value.leasedUntil == Some(now + cfg.lease) && m'.row.value.leasedBy == Some(worker)
    && m'.row.value.lastProbeAt == m.row.value.lastProbeAt
  }

  lemma ClaimIsAdded(cfg: Config, m: Monitor, worker: Worker, now: int)
    requires Due(m, now)
    ensures ClaimAdded(cfg, m, worker, now, Claimed(m, worker, now, cfg.lease))
  {
    NextRunIsFirstAfter(m.row.value.nextRunAt, now, m.endpoint.value.interval, 0);
  }

  /** An endpoint's claims grow only in a claim that picked it, and then it was claimable. */
  lemma ClaimedWhenClaimable(cfg: Config, s: State, a: Action, id: nat)
    requires Enabled(cfg, s, a) && id in s.monitors
    ensures id in Apply(cfg, s, a).monitors
    ensures Apply(cfg, s, a).monitors[id].claims != s.monitors[id].claims ==>
              a.ClaimDue? && id in a.picked && id !in a.locked && Claimable(s.monitors[id], a.now)
  {
  }

  predicate Paused(m: Monitor) { m.endpoint.Some? ==> !m.endpoint.value.enabled }

  /** Steps that do not enable this endpoint. */
  predicate LeavesPaused(a: Action, id: nat) { a.SetEndpoint? && a.id == id ==> !a.endpoint.enabled }

  /** Over any run: from the moment an endpoint is paused or deleted until it is enabled again, nobody claims it. */
  lemma {:induction false} PausedIsNotClaimed(cfg: Config, s: State, steps: seq<Action>, id: nat)
    requires id in s.monitors && Paused(s.monitors[id]) && forall a :: a in steps ==> LeavesPaused(a, id)
    ensures id in Run(cfg, s, steps).monitors && Paused(Run(cfg, s, steps).monitors[id])
    ensures Run(cfg, s, steps).monitors[id].claims == s.monitors[id].claims
  {
    if steps != [] {
      var before, a := steps[..|steps| - 1], steps[|steps| - 1];
      PausedIsNotClaimed(cfg, s, before, id);
      if Enabled(cfg, Run(cfg, s, before), a) {
        ClaimedWhenClaimable(cfg, Run(cfg, s, before), a, id);
        StaysPaused(cfg, Run(cfg, s, before), a, id);
      }
    }
  }

  lemma StaysPaused(cfg: Config, s: State, a: Action, id: nat)
    requires Enabled(cfg, s, a) && id in s.monitors && Paused(s.monitors[id]) && LeavesPaused(a, id)
    ensures Paused(Apply(cfg, s, a).monitors[id])
  {
  }

  // ---- Adoption and reconciliation ----

  /**
   * An endpoint's first slot comes no later than its interval or the jitter bound after its adoption, and adopting
   * again, even with another jitter, changes nothing.
   */
  lemma AdoptionIsBoundedAndOnce(cfg: Config, s: State, now: int, jitter: map<nat, nat>, later: int,
                                 again: map<nat, nat>, id: nat)
    requires Enabled(cfg, s, Adopt(now, jitter)) && id in s.monitors
    ensures var s' := Apply(cfg, s, Adopt(now, jitter));
            var m, m' := s.monitors[id], s'.monitors[id];
            && (m.row.Some? || m.endpoint.None? ==> m' == m)
            && (m.row.None? && m.endpoint.Some? ==>
                  && m'.row.Some? && m'.row.value.interval == m.endpoint.value.interval
                  && m'.row.value.scheduledAt.None? && m'.row.value.leasedUntil.None? && m'.row.value.leasedBy.None?
                  && m'.row.value.lastProbeAt.None?
                  && now <= m'.row.value.nextRunAt == now + jitter[id] <= now + Span(m.endpoint.value.interval)
                  && m'.row.value.nextRunAt <= now + Span(cfg.jitterMax))
            && Apply(cfg, s', Adopt(later, again)).monitors[id] == m'
  {
    var m := s.monitors[id];
    if m.row.None? && m.endpoint.Some? {
      JitterIsLeast(cfg, m.endpoint.value.interval);
    }
  }

  lemma JitterIsLeast(cfg: Config, interval: nat)
    ensures JitterBound(cfg, interval) <= Span(interval) && JitterBound(cfg, interval) <= Span(cfg.jitterMax)
  {
  }

  /**
   * After a reconcile every claimed row that is unleased and not locked is spaced by its endpoint's interval. A row
   * whose interval had not changed is left alone, a caught-up one included, and so is any other; reconciling again
   * changes nothing.
   */
  lemma ReconcileSettles(cfg: Config, s: State, now: int, locked: set<nat>, id: nat)
    requires id in s.monitors && s.monitors[id].endpoint.Some? && s.monitors[id].row.Some?
    ensures var s' := Apply(cfg, s, Reconcile(now, locked));
            var m, m', i := s.monitors[id], s'.monitors[id], s.monitors[id].endpoint.value.interval;
            var r := m.row.value;
            && (if id !in locked && r.scheduledAt.Some? && r.interval != i
                   && (r.leasedUntil.Some? ==> r.leasedUntil.value < now)
                then m' == m.(row := Some(r.(nextRunAt := r.scheduledAt.value + i * SECOND, interval := i)))
                else m' == m)
            && Apply(cfg, s', Reconcile(now, locked)).monitors[id] == m'
  {
  }

  // ---- Mutual exclusion ----

  /**
   * What the slack is sized for, and all that is assumed of time: a claim's way to its worker, the lateness of its two
   * timers and the teardown together take no longer than the slack.
   */
  predicate Timely(cfg: Config, s: State, a: Action) {
    match a
    case Tick(to) => forall id :: id in s.monitors ==> InSlack(cfg, s.monitors[id].probing, to)
    case ClaimDue(_, now, _, _, _) => s.clock <= now + cfg.slack
    case _ => true
  }

  predicate InSlack(cfg: Config, probing: map<Claim, Phase>, at: int) {
    forall c :: c in probing ==> Untimed(c, probing[c], at) <= cfg.slack
  }

  ghost predicate TimelyRun(cfg: Config, s: State, steps: seq<Action>) {
    steps == [] ||
    (TimelyRun(cfg, s, steps[..|steps| - 1]) && Timely(cfg, Run(cfg, s, steps[..|steps| - 1]), steps[|steps| - 1]))
  }

  predicate InContact(p: Phase) { p.Probing? || p.TearingDown? }

  /** What the timers that were armed add up to. */
  ghost predicate PhaseInv(cfg: Config, c: Claim, p: Phase, clock: int) {
    && Untimed(c, p, clock) <= cfg.slack
    && match p
       case InTransit => true
       case Loading(spent, until) => until <= c.claimedAt + spent + cfg.load
       case Probing(spent, until) => until <= c.claimedAt + spent + cfg.load + cfg.timeout
       case TearingDown(spent, since) => since <= c.claimedAt + spent + cfg.load + cfg.timeout
  }

  lemma InTime(cfg: Config, c: Claim, p: Phase, clock: int)
    requires PhaseInv(cfg, c, p, clock)
    ensures clock <= c.claimedAt + cfg.Deadline()
  {
  }

  /** Whoever is busy with a claim is so under the current lease, which outlasts the probe. */
  ghost predicate ProbeInv(cfg: Config, m: Monitor, clock: int) {
    && (forall c :: c in m.probing ==> PhaseInv(cfg, c, m.probing[c], clock))
    && (forall c, d :: c in m.probing && d in m.probing ==> c == d)
    && UnderLease(m)
  }

  ghost predicate UnderLease(m: Monitor) {
    forall c :: c in m.probing && m.row.Some? ==> m.claims != [] && m.row.value.leasedBy.Some? && c == Last(m)
  }

  lemma NobodyProbesWhatIsDue(cfg: Config, m: Monitor, clock: int, now: int, c: Claim)
    requires cfg.Valid() && MonitorInv(cfg, m) && ProbeInv(cfg, m, clock) && Due(m, now) && now <= clock
    ensures c !in m.probing
  {
    if c in m.probing {
      InTime(cfg, c, m.probing[c], clock);
    }
  }

  lemma LocalKeepsPhases(cfg: Config, s: State, a: Action, id: nat, c: Claim)
    requires Enabled(cfg, s, a) && Timely(cfg, s, a) && id in s.monitors
    requires forall d :: d in s.monitors[id].probing ==> PhaseInv(cfg, d, s.monitors[id].probing[d], s.clock)
    requires c in Local(cfg, a, id, s.monitors[id]).probing
    ensures PhaseInv(cfg, c, Local(cfg, a, id, s.monitors[id]).probing[c], Apply(cfg, s, a).clock)
  {
    var m := s.monitors[id];
    if a.Tick? {
      assert Untimed(c, m.probing[c], a.to) <= cfg.slack;
    }
  }

  lemma ClaimKeepsProbeInv(cfg: Config, m: Monitor, worker: Worker, now: int, clock: int)
    requires cfg.Valid() && MonitorInv(cfg, m) && ProbeInv(cfg, m, clock) && Due(m, now)
    requires now <= clock <= now + cfg.slack
    ensures ProbeInv(cfg, Claimed(m, worker, now, cfg.lease), clock)
  {
    var m' := Claimed(m, worker, now, cfg.lease);
    forall c | c in m'.probing
      ensures c == ClaimOf(m, worker, now)
    {
      NobodyProbesWhatIsDue(cfg, m, clock, now, c);
    }
  }

  lemma EndingKeepsProbeInv(cfg: Config, m: Monitor, c: Claim, clock: int, m': Monitor)
    requires MonitorInv(cfg, m) && ProbeInv(cfg, m, clock) && c in m.claims && c !in m.probing
    requires m'.probing == m.probing && m'.claims == m.claims
    requires m'.row == m.row || Fenced(m, c.worker, c.slot)
    ensures ProbeInv(cfg, m', clock)
  {
    if Fenced(m, c.worker, c.slot) {
      FencedIsLast(cfg, m, c);
    }
  }

  /** Nobody gets busy with an endpoint except by claiming it. */
  lemma BusyBefore(cfg: Config, a: Action, id: nat, m: Monitor, c: Claim)
    requires !a.ClaimDue? && c in Local(cfg, a, id, m).probing
    ensures c in m.probing
  {
  }

  /** A claim that stands is the last one still, and holds the lease. */
  lemma LeaseStands(cfg: Config, a: Action, id: nat, m: Monitor)
    requires MonitorInv(cfg, m) && UnderLease(m) && !a.ClaimDue? && !((a.Record? || a.Abandon?) && a.id == id)
    ensures UnderLease(Local(cfg, a, id, m))
  {
    forall c | c in Local(cfg, a, id, m).probing
      ensures c in m.probing
    {
      BusyBefore(cfg, a, id, m, c);
    }
  }

  lemma OtherKeepsProbeInv(cfg: Config, s: State, a: Action, id: nat)
    requires cfg.Valid() && Inv(cfg, s) && Enabled(cfg, s, a) && Timely(cfg, s, a) && id in s.monitors
    requires !a.ClaimDue? && !((a.Record? || a.Abandon?) && a.id == id)
    requires ProbeInv(cfg, s.monitors[id], s.clock)
    ensures ProbeInv(cfg, Local(cfg, a, id, s.monitors[id]), Apply(cfg, s, a).clock)
  {
    var m, m' := s.monitors[id], Local(cfg, a, id, s.monitors[id]);
    assert MonitorInv(cfg, m);
    LeaseStands(cfg, a, id, m);
    forall c | c in m'.probing
      ensures PhaseInv(cfg, c, m'.probing[c], Apply(cfg, s, a).clock) && c in m.probing
    {
      LocalKeepsPhases(cfg, s, a, id, c);
      BusyBefore(cfg, a, id, m, c);
    }
  }

  lemma LocalKeepsProbeInv(cfg: Config, s: State, a: Action, id: nat)
    requires cfg.Valid() && Inv(cfg, s) && Enabled(cfg, s, a) && Timely(cfg, s, a) && id in s.monitors
    requires ProbeInv(cfg, s.monitors[id], s.clock)
    ensures ProbeInv(cfg, Local(cfg, a, id, s.monitors[id]), Apply(cfg, s, a).clock)
  {
    var m := s.monitors[id];
    assert MonitorInv(cfg, m);
    if a.ClaimDue? {
      if id in a.picked && Due(m, a.now) {
        ClaimKeepsProbeInv(cfg, m, a.worker, a.now, s.clock);
      }
    } else if (a.Record? || a.Abandon?) && a.id == id {
      EndingKeepsProbeInv(cfg, m, a.claim, s.clock, Local(cfg, a, id, m));
    } else {
      OtherKeepsProbeInv(cfg, s, a, id);
    }
  }

  lemma FencedIsLast(cfg: Config, m: Monitor, c: Claim)
    requires MonitorInv(cfg, m) && c in m.claims && Fenced(m, c.worker, c.slot)
    ensures c == Last(m)
  {
    var i :| 0 <= i < |m.claims| && m.claims[i] == c;
  }

  lemma {:induction false} RunKeepsProbeInv(cfg: Config, s: State, steps: seq<Action>, id: nat)
    requires cfg.Valid() && Initial(s) && TimelyRun(cfg, s, steps) && id in Run(cfg, s, steps).monitors
    ensures ProbeInv(cfg, Run(cfg, s, steps).monitors[id], Run(cfg, s, steps).clock)
  {
    var before := steps[..|steps| - 1];
    var mid, a := Run(cfg, s, before), steps[|steps| - 1];
    RunKeepsInv(cfg, s, before);
    if id in mid.monitors {
      RunKeepsProbeInv(cfg, s, before, id);
      if Enabled(cfg, mid, a) {
        LocalKeepsProbeInv(cfg, mid, a, id);
      }
    }
  }

  /**
   * The deadline no single timer states: whatever lease is configured, no worker is busy with a claim later than load
   * budget, probe cap and slack together after the claim's own `now`.
   */
  lemma {:induction false} ProbesEndInTime(cfg: Config, start: State, steps: seq<Action>, id: nat, c: Claim)
    requires Initial(start) && TimelyRun(cfg, start, steps) && id in Run(cfg, start, steps).monitors
    requires c in Run(cfg, start, steps).monitors[id].probing
    ensures var s := Run(cfg, start, steps);
            && PhaseInv(cfg, c, s.monitors[id].probing[c], s.clock)
            && s.clock <= c.claimedAt + cfg.load + cfg.timeout + cfg.slack
  {
    var before := steps[..|steps| - 1];
    var mid, a := Run(cfg, start, before), steps[|steps| - 1];
    if Enabled(cfg, mid, a) && id in mid.monitors {
      forall d | d in mid.monitors[id].probing ensures PhaseInv(cfg, d, mid.monitors[id].probing[d], mid.clock) {
        ProbesEndInTime(cfg, start, before, id, d);
      }
      LocalKeepsPhases(cfg, mid, a, id, c);
    } else if id in mid.monitors {
      ProbesEndInTime(cfg, start, before, id, c);
    }
  }

  /**
   * Mutual exclusion over time: with a lease at least as long as load budget, probe cap and slack together, no two
   * claims of one endpoint are ever under way at once, in contact with it or not: across crashes, lease expiry,
   * reconciles, abandons and stragglers.
   */
  lemma NeverProbedTwiceAtOnce(cfg: Config, start: State, steps: seq<Action>, id: nat, c: Claim, d: Claim)
    requires cfg.Valid() && Initial(start) && TimelyRun(cfg, start, steps) && id in Run(cfg, start, steps).monitors
    requires c in Run(cfg, start, steps).monitors[id].probing && d in Run(cfg, start, steps).monitors[id].probing
    ensures c == d
  {
    RunKeepsProbeInv(cfg, start, steps, id);
  }

  /** One endpoint alone, at an instant. */
  function Alone(m: Monitor, clock: int): State { State(map[0 := m], clock) }

  function Fresh(interval: nat): Monitor { Monitor(Some(Endpoint(interval, true)), None, [], map[], {}) }

  function FirstDue(interval: nat): Monitor {
    Fresh(interval).(row := Some(Runtime(0, interval, None, None, None, None)))
  }

  lemma AdoptAlone(cfg: Config, interval: nat) returns (steps: seq<Action>)
    requires interval > 0
    ensures Run(cfg, State(map[], 0), steps) == Alone(FirstDue(interval), 0) && TimelyRun(cfg, State(map[], 0), steps)
  {
    var s0, s1 := State(map[], 0), Alone(Fresh(interval), 0);
    assert Apply(cfg, s0, AddEndpoint(0, Endpoint(interval, true))) == s1;
    steps := Then(cfg, s0, [], s0, AddEndpoint(0, Endpoint(interval, true)), s1);
    assert Enabled(cfg, s1, Adopt(0, map[0 := 0]));
    steps := Then(cfg, s0, steps, s1, Adopt(0, map[0 := 0]), Alone(FirstDue(interval), 0));
  }

  /** Time passes. */
  lemma TickAlone(cfg: Config, start: State, before: seq<Action>, m: Monitor, clock: int, to: int)
    returns (steps: seq<Action>)
    requires Run(cfg, start, before) == Alone(m, clock) && TimelyRun(cfg, start, before)
    requires clock <= to && InSlack(cfg, m.probing, to)
    ensures Run(cfg, start, steps) == Alone(m, to) && TimelyRun(cfg, start, steps)
  {
    assert Apply(cfg, Alone(m, clock), Tick(to)) == Alone(m, to);
    steps := Then(cfg, start, before, Alone(m, clock), Tick(to), Alone(m, to));
  }

  /** The worker gets on with a claim. */
  lemma MoveAlone(cfg: Config, start: State, before: seq<Action>, m: Monitor, clock: int, a: Action, p: Phase)
    returns (steps: seq<Action>)
    requires Run(cfg, start, before) == Alone(m, clock) && TimelyRun(cfg, start, before)
    requires (a.Arrive? || a.StartProbe? || a.TearDown?) && a.id == 0 && Enabled(cfg, Alone(m, clock), a)
    requires Local(cfg, a, 0, m) == Moved(m, a.claim, p)
    ensures Run(cfg, start, steps) == Alone(Moved(m, a.claim, p), clock) && TimelyRun(cfg, start, steps)
  {
    assert Apply(cfg, Alone(m, clock), a) == Alone(Moved(m, a.claim, p), clock);
    steps := Then(cfg, start, before, Alone(m, clock), a, Alone(Moved(m, a.claim, p), clock));
  }

  /** Time passes, then the endpoint is claimed. */
  lemma ClaimAlone(cfg: Config, start: State, before: seq<Action>, m: Monitor, clock: int, now: int, worker: Worker)
    returns (steps: seq<Action>)
    requires Run(cfg, start, before) == Alone(m, clock) && TimelyRun(cfg, start, before)
    requires clock <= now && Due(m, now) && InSlack(cfg, m.probing, now)
    ensures Run(cfg, start, steps) == Alone(Claimed(m, worker, now, cfg.lease), now) && TimelyRun(cfg, start, steps)
  {
    steps := TickAlone(cfg, start, before, m, clock, now);
    OnlyDue(m, now);
    steps := Then(cfg, start, steps, Alone(m, now), ClaimDue(worker, now, 1, {}, {0}),
                  Alone(Claimed(m, worker, now, cfg.lease), now));
  }

  lemma MovedInSlack(cfg: Config, m: Monitor, c: Claim, p: Phase, at: int)
    requires InSlack(cfg, m.probing - {c}, at) && Untimed(c, p, at) <= cfg.slack
    ensures InSlack(cfg, Moved(m, c, p).probing, at)
  {
    assert forall d :: d in m.probing && d != c ==> d in m.probing - {c};
  }

  lemma ArriveAlone(cfg: Config, start: State, before: seq<Action>, m: Monitor, clock: int, c: Claim)
    returns (steps: seq<Action>)
    requires Run(cfg, start, before) == Alone(m, clock) && TimelyRun(cfg, start, before)
    requires c in m.probing && m.probing[c] == InTransit && c.claimedAt == clock
    ensures Run(cfg, start, steps) == Alone(Moved(m, c, Loading(0, clock + cfg.load)), clock)
    ensures TimelyRun(cfg, start, steps)
  {
    steps := MoveAlone(cfg, start, before, m, clock, Arrive(0, c, clock), Arrived(cfg, c, clock));
  }

  /** The claim arrives at once, and its probe starts after `loading`. */
  lemma ProbeAlone(cfg: Config, start: State, before: seq<Action>, m: Monitor, clock: int, c: Claim, loading: nat)
    returns (steps: seq<Action>)
    requires Run(cfg, start, before) == Alone(m, clock) && TimelyRun(cfg, start, before)
    requires c in m.probing && m.probing[c] == InTransit && c.claimedAt == clock && loading <= cfg.load
    requires InSlack(cfg, m.probing - {c}, clock + loading)
    ensures Run(cfg, start, steps)
         == Alone(Moved(m, c, Probing(0, clock + loading + cfg.timeout)), clock + loading)
    ensures TimelyRun(cfg, start, steps)
  {
    var p, begun := Loading(0, clock + cfg.load), clock + loading;
    steps := ArriveAlone(cfg, start, before, m, clock, c);
    var m1 := Moved(m, c, p);
    MovedInSlack(cfg, m, c, p, begun);
    steps := TickAlone(cfg, start, steps, m1, clock, begun);
    var q := Probing(0, begun + cfg.timeout);
    MovedAgain(m, c, p, q);
    steps := MoveAlone(cfg, start, steps, m1, begun, StartProbe(0, c, begun, cfg.timeout), q);
  }

  lemma MovedAgain(m: Monitor, c: Claim, p: Phase, q: Phase)
    ensures Moved(Moved(m, c, p), c, q) == Moved(m, c, q) && Moved(m, c, p).probing[c] == p
  {
    assert m.probing[c := p][c := q] == m.probing[c := q];
  }

  lemma OneInSlack(cfg: Config, m: Monitor, c: Claim, p: Phase, at: int)
    requires m.probing.Keys == {c} && Untimed(c, p, at) <= cfg.slack
    ensures InSlack(cfg, Moved(m, c, p).probing, at)
  {
    assert m.probing[c := p].Keys == {c};
  }

  /** The probe's timer fires at its instant, and tearing it down takes until `late`. */
  lemma TornAlone(cfg: Config, start: State, before: seq<Action>, m: Monitor, c: Claim, until: int, late: int)
    returns (steps: seq<Action>)
    requires m.probing.Keys == {c} && until <= late <= until + cfg.slack
    requires Run(cfg, start, before) == Alone(Moved(m, c, Probing(0, until)), until) && TimelyRun(cfg, start, before)
    ensures Run(cfg, start, steps) == Alone(Moved(m, c, TearingDown(0, until)), late) && TimelyRun(cfg, start, steps)
  {
    var p, q := Probing(0, until), TearingDown(0, until);
    MovedAgain(m, c, p, q);
    steps := MoveAlone(cfg, start, before, Moved(m, c, p), until, TearDown(0, c, until), q);
    OneInSlack(cfg, m, c, q, late);
    steps := TickAlone(cfg, start, steps, Moved(m, c, q), until, late);
  }

  /** A claim can be in contact up to its deadline, every timer firing at its instant. */
  lemma ContactUntil(cfg: Config, start: State, before: seq<Action>, m: Monitor, clock: int, c: Claim, late: int)
    returns (steps: seq<Action>, p: Phase)
    requires Run(cfg, start, before) == Alone(m, clock) && TimelyRun(cfg, start, before)
    requires m.probing == map[c := InTransit] && c.claimedAt == clock <= late <= clock + cfg.Deadline()
    ensures InContact(p) && Untimed(c, p, late) <= cfg.slack
    ensures Run(cfg, start, steps) == Alone(Moved(m, c, p), late) && TimelyRun(cfg, start, steps)
  {
    var loading := if late - clock < cfg.load then late - clock else cfg.load;
    var until := clock + loading + cfg.timeout;
    steps := ProbeAlone(cfg, start, before, m, clock, c, loading);
    p := Probing(0, until);
    var timed := if late <= until then late else until;
    OneInSlack(cfg, m, c, p, timed);
    steps := TickAlone(cfg, start, steps, Moved(m, c, p), clock + loading, timed);
    if until < late {
      p := TearingDown(0, until);
      steps := TornAlone(cfg, start, steps, m, c, until, late);
    }
  }

  lemma LateClaim(interval: nat)
    requires interval > 0
    ensures Due(FirstDue(interval), Span(interval) - 1)
    ensures ClaimOf(FirstDue(interval), 1, Span(interval) - 1)
         == Claim(0, 1, Span(interval) - 1, interval, Span(interval))
  {
    NextRunIsFirstAfter(0, Span(interval) - 1, interval, 1);
  }

  ghost predicate BothInContact(m: Monitor, c: Claim, d: Claim) {
    c != d && c in m.probing && d in m.probing && InContact(m.probing[c]) && InContact(m.probing[d])
  }

  /**
   * A lease one microsecond too short is enough for two workers to probe one endpoint at once, with no timer late. The
   * second claim is made as soon as the lease is over.
   */
  lemma ShortLeaseOverlaps(cfg: Config, interval: nat) returns (start: State, steps: seq<Action>, c: Claim, d: Claim)
    requires cfg.lease < cfg.Deadline() && interval > 0
    ensures Initial(start) && TimelyRun(cfg, start, steps) && 0 in Run(cfg, start, steps).monitors
    ensures BothInContact(Run(cfg, start, steps).monitors[0], c, d)
  {
    start := State(map[], 0);
    var first, late := Span(interval) - 1, Span(interval) + cfg.lease;
    var m := FirstDue(interval);
    LateClaim(interval);
    steps := AdoptAlone(cfg, interval);
    steps := ClaimAlone(cfg, start, steps, m, 0, first, 1);
    c := ClaimOf(m, 1, first);
    var m1 := Claimed(m, 1, first, cfg.lease);
    var p;
    steps, p := ContactUntil(cfg, start, steps, m1, first, c, late);
    var m2 := Moved(m1, c, p);
    steps := ClaimAlone(cfg, start, steps, m2, late, late, 2);
    d := ClaimOf(m2, 2, late);
    var m3 := Claimed(m2, 2, late, cfg.lease);
    assert m3.probing - {d} == map[c := p];
    steps := ProbeAlone(cfg, start, steps, m3, late, d, 0);
  }

  /** No two claims of an endpoint are ever in contact with it at once. */
  ghost predicate Exclusive(cfg: Config) {
    forall start, steps, id ::
      Initial(start) && TimelyRun(cfg, start, steps) && id in Run(cfg, start, steps).monitors ==>
      forall c, d :: !BothInContact(Run(cfg, start, steps).monitors[id], c, d)
  }

  /** The configuration rule is exactly what mutual exclusion needs. */
  lemma LeaseRuleIsExact(cfg: Config)
    ensures Exclusive(cfg) <==> cfg.load + cfg.timeout + cfg.slack <= cfg.lease
  {
    if cfg.Valid() {
      forall start, steps, id, c, d |
        Initial(start) && TimelyRun(cfg, start, steps) && id in Run(cfg, start, steps).monitors
        ensures !BothInContact(Run(cfg, start, steps).monitors[id], c, d)
      {
        if BothInContact(Run(cfg, start, steps).monitors[id], c, d) {
          NeverProbedTwiceAtOnce(cfg, start, steps, id, c, d);
        }
      }
    } else {
      var start, steps, c, d := ShortLeaseOverlaps(cfg, 1);
    }
  }

  lemma OnlyDue(m: Monitor, now: int)
    requires Due(m, now)
    ensures Picks(map[0 := m], now, 1, {}, {0})
  {
    assert DueIds(map[0 := m], now, {}) == {0};
  }

  lemma Then(cfg: Config, start: State, steps: seq<Action>, mid: State, a: Action, next: State)
    returns (more: seq<Action>)
    requires Run(cfg, start, steps) == mid && Enabled(cfg, mid, a) && Apply(cfg, mid, a) == next
    requires TimelyRun(cfg, start, steps) && Timely(cfg, mid, a)
    ensures Run(cfg, start, more) == next && TimelyRun(cfg, start, more)
  {
    more := steps + [a];
    assert more[..|more| - 1] == steps;
  }

  // ---- No drift, no backlog ----

  /** Every claim from the `base`-th on lies on one lattice, and each next slot is the one its claim computed. */
  ghost predicate OnLattice(m: Monitor, base: nat, origin: int, interval: nat) {
    && interval > 0 && m.endpoint.Some? && m.row.Some? && m.endpoint.value.interval == m.row.value.interval == interval
    && base <= |m.claims| && (m.row.value.nextRunAt - origin) % Span(interval) == 0
    && (forall k :: base <= k < |m.claims| ==> InCell(m.claims[k], origin, interval))
    && (forall k :: base <= k < |m.claims| - 1 ==> m.claims[k + 1].slot == m.claims[k].next)
    && (|m.claims| > base ==> m.row.value.nextRunAt == Last(m).next)
  }

  ghost predicate InCell(c: Claim, origin: int, interval: nat)
    requires interval > 0
  {
    && c.interval == interval && (c.slot - origin) % Span(interval) == 0 && (c.next - origin) % Span(interval) == 0
    && c.slot + Span(interval) <= c.next && c.slot <= c.claimedAt < c.next <= c.claimedAt + Span(interval)
  }

  lemma SumOfMultiples(a: int, b: int, d: int)
    requires d > 0 && a % d == 0 && b % d == 0
    ensures (a + b) % d == 0
  {
    var x, y := a / d, b / d;
    assert a == d * x && b == d * y;
    Distribute(x, y, d);
    Multiples(x + y, d);
  }

  lemma Distribute(x: int, y: int, d: int)
    ensures d * (x + y) == d * x + d * y
  {
  }

  lemma OneMore(n: int, d: int)
    ensures (n + 1) * d == n * d + d
  {
  }

  lemma ClaimKeepsLattice(m: Monitor, worker: Worker, now: int, lease: nat, base: nat, origin: int, interval: nat)
    requires OnLattice(m, base, origin, interval) && Due(m, now)
    ensures OnLattice(Claimed(m, worker, now, lease), base, origin, interval)
  {
    var c := ClaimOf(m, worker, now);
    NextRunIsFirstAfter(c.slot, now, interval, 0);
    SumOfMultiples(c.slot - origin, c.next - c.slot, Span(interval));
    assert InCell(c, origin, interval);
  }

  /** Steps that leave an endpoint its interval; it may be paused and resumed. */
  predicate KeepsInterval(a: Action, id: nat, interval: nat) {
    !(a.SetEndpoint? && a.id == id && a.endpoint.interval != interval) && !(a.Delete? && a.id == id)
  }

  lemma {:induction false} RunKeepsLattice(cfg: Config, s: State, steps: seq<Action>, id: nat, base: nat, origin: int,
                                          interval: nat)
    requires id in s.monitors && OnLattice(s.monitors[id], base, origin, interval)
    requires forall a :: a in steps ==> KeepsInterval(a, id, interval)
    ensures id in Run(cfg, s, steps).monitors && OnLattice(Run(cfg, s, steps).monitors[id], base, origin, interval)
  {
    if steps != [] {
      var before, a := steps[..|steps| - 1], steps[|steps| - 1];
      RunKeepsLattice(cfg, s, before, id, base, origin, interval);
      var mid := Run(cfg, s, before);
      if Enabled(cfg, mid, a) {
        LocalKeepsLattice(cfg, mid, a, id, base, origin, interval);
      }
    }
  }

  lemma LocalKeepsLattice(cfg: Config, s: State, a: Action, id: nat, base: nat, origin: int, interval: nat)
    requires id in s.monitors && OnLattice(s.monitors[id], base, origin, interval)
    requires Enabled(cfg, s, a) && KeepsInterval(a, id, interval)
    ensures OnLattice(Local(cfg, a, id, s.monitors[id]), base, origin, interval)
  {
    var m := s.monitors[id];
    if a.ClaimDue? && id in a.picked && Due(m, a.now) {
      ClaimKeepsLattice(m, a.worker, a.now, cfg.lease, base, origin, interval);
    }
  }

  /** The lattice cell an instant falls in. */
  function Cell(t: int, origin: int, interval: nat): int
    requires interval > 0
  {
    (t - origin) / Span(interval)
  }

  lemma CellOfClaim(c: Claim, origin: int, interval: nat)
    requires interval > 0 && InCell(c, origin, interval)
    ensures Cell(c.claimedAt, origin, interval) == (c.next - origin) / Span(interval) - 1
  {
    var span := Span(interval);
    var q := (c.next - origin) / span;
    Distribute(q - 1, 1, span);
    QuotientIs(c.claimedAt - origin, span, q - 1);
  }

  lemma CellsAscend(t: int, u: int, origin: int, interval: nat)
    requires interval > 0 && t <= u
    ensures Cell(t, origin, interval) <= Cell(u, origin, interval)
  {
    var span := Span(interval);
    var q, r := (t - origin) / span, (u - origin) / span;
    FloorBounds(t - origin, span);
    FloorBounds(u - origin, span);
    if r < q {
      Scaled(r + 1, q, span);
      assert false;
    }
  }

  lemma CellsOfNeighbours(c: Claim, d: Claim, origin: int, interval: nat)
    requires interval > 0 && InCell(c, origin, interval) && InCell(d, origin, interval) && c.next <= d.slot
    ensures Cell(c.claimedAt, origin, interval) < Cell(d.claimedAt, origin, interval)
  {
    CellOfClaim(c, origin, interval);
    CellsAscend(c.next, d.claimedAt, origin, interval);
  }

  lemma {:induction false} ClaimsSpread(m: Monitor, base: nat, origin: int, interval: nat, i: nat, j: nat)
    requires OnLattice(m, base, origin, interval) && base <= i < j < |m.claims|
    ensures m.claims[i].next + (j - i - 1) * Span(interval) <= m.claims[j].slot
    ensures Cell(m.claims[i].claimedAt, origin, interval) < Cell(m.claims[j].claimedAt, origin, interval)
    decreases j
  {
    CellsOfNeighbours(m.claims[j - 1], m.claims[j], origin, interval);
    if i < j - 1 {
      ClaimsSpread(m, base, origin, interval, i, j - 1);
      OneMore(j - i - 2, Span(interval));
    }
  }

  lemma StartsOnLattice(m: Monitor, interval: nat)
    requires m.endpoint.Some? && m.row.Some? && interval > 0
    requires m.endpoint.value.interval == m.row.value.interval == interval
    ensures OnLattice(m, |m.claims|, m.row.value.nextRunAt, interval)
  {
  }

  /**
   * No drift and no backlog replay. While an endpoint keeps its interval, through any pauses, every slot lies on the
   * lattice its row was on at the start, each lattice cell holds at most one claim instant, and the claims from the
   * `i`-th to the `j`-th span more than `j - i - 1` intervals, however late, often or crash-ridden the workers are.
   */
  lemma NoDriftNoBacklog(cfg: Config, s: State, steps: seq<Action>, id: nat, interval: nat, i: nat, j: nat)
    requires id in s.monitors && s.monitors[id].endpoint.Some? && s.monitors[id].row.Some? && interval > 0
    requires s.monitors[id].endpoint.value.interval == s.monitors[id].row.value.interval == interval
    requires forall a :: a in steps ==> KeepsInterval(a, id, interval)
    requires |s.monitors[id].claims| <= i < j
    requires id in Run(cfg, s, steps).monitors && j < |Run(cfg, s, steps).monitors[id].claims|
    ensures var origin, claims := s.monitors[id].row.value.nextRunAt, Run(cfg, s, steps).monitors[id].claims;
            && (claims[i].slot - origin) % Span(interval) == 0
            && claims[i].slot <= claims[i].claimedAt < claims[i].next <= claims[i].claimedAt + Span(interval)
            && Cell(claims[i].claimedAt, origin, interval) < Cell(claims[j].claimedAt, origin, interval)
            && claims[j].claimedAt - claims[i].claimedAt > (j - i - 1) * Span(interval)
  {
    var m := s.monitors[id];
    StartsOnLattice(m, interval);
    RunKeepsLattice(cfg, s, steps, id, |m.claims|, m.row.value.nextRunAt, interval);
    ClaimsSpread(Run(cfg, s, steps).monitors[id], |m.claims|, m.row.value.nextRunAt, interval, i, j);
  }
}
