/**
 * A worker's tick loop, its pool of running probes and its stop, step by step between awaits, with every other worker
 * acting on the database in between.
 */
module SchedulerService {
  import opened Wrappers
  import S = Scheduling

  /** `endpointId:scheduledAt`. */
  datatype SlotKey = SlotKey(endpoint: nat, slot: int)

  datatype Settings = Settings(cfg: S.Config, worker: S.Worker, batch: nat, concurrency: nat)

  /** Where the tick is: `Claiming` holds the room the pool had when the claim was sent. */
  datatype Phase = Idle | Armed | Adopting | Reconciling | Claiming(room: nat) | Returning(rows: seq<SlotKey>)

  datatype Stopping =
    | Serving
    | AwaitingTick
    | Draining(atStart: set<SlotKey>)
    | Stopped(settled: set<SlotKey>, stillRunning: set<SlotKey>)

  /** `inFlight` is the pool's own map; `running` is the probes that really are running, by an id never reused. */
  datatype Service = Service(phase: Phase, stopping: Stopping, inFlight: map<SlotKey, nat>, running: map<nat, SlotKey>,
                             nextProbe: nat)

  datatype System = System(service: Service, db: S.State)

  datatype Event =
    | TimerFires
    | AdoptEnds
    | ReconcileEnds
    | ClaimCommits(now: int, locked: set<nat>, order: seq<nat>)
    | ClaimLost(now: int, locked: set<nat>, order: seq<nat>)
    | ClaimFails
    | Dispatch
    | Settles(probe: nat)
    | Stop
    | TickAwaited
    | DrainEnds(timedOut: bool)
    | Others(action: S.Action)

  function Available(st: Settings, v: Service): nat {
    if |v.inFlight| < st.concurrency then st.concurrency - |v.inFlight| else 0
  }

  /** `pool.start`: the key's entry is set whatever was there. */
  function Started(v: Service, key: SlotKey): Service {
    v.(inFlight := v.inFlight[key := v.nextProbe], running := v.running[v.nextProbe := key],
       nextProbe := v.nextProbe + 1)
  }

  function StartedAll(v: Service, rows: seq<SlotKey>): Service {
    if rows == [] then v else Started(StartedAll(v, rows[..|rows| - 1]), rows[|rows| - 1])
  }

  /** A probe ends, and its key's entry goes, whichever probe's entry that is. */
  function Settled(v: Service, probe: nat): Service
    requires probe in v.running
  {
    v.(inFlight := v.inFlight - {v.running[probe]}, running := v.running - {probe})
  }

  /** The end of a tick: the timer is armed again unless the worker is stopping. */
  function TickEnds(v: Service): Service {
    v.(phase := if v.stopping.Serving? then Armed else Idle)
  }

  function Limit(st: Settings, room: nat): nat { if st.batch < room then st.batch else room }

  function ClaimAction(st: Settings, room: nat, e: Event): S.Action
    requires e.ClaimCommits? || e.ClaimLost?
  {
    S.ClaimDue(st.worker, e.now, Limit(st, room), e.locked, set id | id in e.order)
  }

  predicate Distinct<T(==)>(s: seq<T>) { forall i, j :: 0 <= i < j < |s| ==> s[i] != s[j] }

  /** The claimed rows as the statement returns them. */
  function RowsOf(db: S.State, order: seq<nat>): seq<SlotKey> {
    seq(|order|, i requires 0 <= i < |order| => KeyOf(db, order[i]))
  }

  function KeyOf(db: S.State, id: nat): SlotKey {
    if id in db.monitors && db.monitors[id].claims != [] then SlotKey(id, S.Last(db.monitors[id]).slot)
    else SlotKey(id, 0)
  }

  predicate Enabled(st: Settings, y: System, e: Event) {
    var v := y.service;
    match e
    case TimerFires => v.phase.Armed?
    case AdoptEnds => v.phase.Adopting?
    case ReconcileEnds => v.phase.Reconciling?
    case ClaimCommits(_, _, order) =>
      v.phase.Claiming? && Distinct(order) && S.Enabled(st.cfg, y.db, ClaimAction(st, v.phase.room, e))
    case ClaimLost(_, _, order) =>
      v.phase.Claiming? && Distinct(order) && S.Enabled(st.cfg, y.db, ClaimAction(st, v.phase.room, e))
    case ClaimFails => v.phase.Claiming?
    case Dispatch => v.phase.Returning?
    case Settles(p) => p in v.running
    case Stop => v.stopping.Serving?
    case TickAwaited => v.stopping.AwaitingTick? && v.phase.Idle?
    case DrainEnds(timedOut) => v.stopping.Draining? && (timedOut || v.inFlight.Keys !! v.stopping.atStart)
    case Others(a) => S.Enabled(st.cfg, y.db, a)
  }

  function Apply(st: Settings, y: System, e: Event): System
    requires Enabled(st, y, e)
  {
    var v := y.service;
    match e
    case TimerFires => y.(service := v.(phase := Adopting))
    case AdoptEnds => y.(service := v.(phase := Reconciling))
    case ReconcileEnds => y.(service := AfterReconcile(st, v))
    case ClaimCommits(_, _, order) =>
      var db := S.Apply(st.cfg, y.db, ClaimAction(st, v.phase.room, e));
      System(v.(phase := Returning(RowsOf(db, order))), db)
    case ClaimLost(_, _, _) =>
      System(TickEnds(v), S.Apply(st.cfg, y.db, ClaimAction(st, v.phase.room, e)))
    case ClaimFails => y.(service := TickEnds(v))
    case Dispatch => y.(service := TickEnds(StartedAll(v, v.phase.rows)))
    case Settles(p) => y.(service := Settled(v, p))
    case Stop => y.(service := AfterStop(v))
    case TickAwaited => y.(service := v.(stopping := Draining(v.inFlight.Keys)))
    case DrainEnds(_) => y.(service := Drained(v))
    case Others(a) => y.(db := S.Apply(st.cfg, y.db, a))
  }

  /** The stop flag is asked again once the awaits are over, then the claim is sized to the pool's room. */
  function AfterReconcile(st: Settings, v: Service): Service {
    if !v.stopping.Serving? || Available(st, v) == 0 then TickEnds(v) else v.(phase := Claiming(Available(st, v)))
  }

  /** The timer is cleared; a tick already under way is awaited. */
  function AfterStop(v: Service): Service {
    v.(stopping := AwaitingTick, phase := if v.phase.Armed? then Idle else v.phase)
  }

  function Drained(v: Service): Service
    requires v.stopping.Draining?
  {
    var still := set k | k in v.stopping.atStart && k in v.inFlight;
    v.(stopping := Stopped(v.stopping.atStart - still, still))
  }

  function Step(st: Settings, y: System, e: Event): System {
    if Enabled(st, y, e) then Apply(st, y, e) else y
  }

  function Run(st: Settings, y: System, events: seq<Event>): System {
    if events == [] then y else Step(st, Run(st, y, events[..|events| - 1]), events[|events| - 1])
  }

  ghost predicate Initial(y: System) {
    && y.service == Service(Armed, Serving, map[], map[], 0)
    && S.Initial(y.db)
  }

  // ---- What every step keeps ----

  /** The claim log has the key's slot. */
  ghost predicate InLog(db: S.State, key: SlotKey) {
    key.endpoint in db.monitors && exists c :: c in db.monitors[key.endpoint].claims && c.slot == key.slot
  }

  /** The pool's map names exactly the running probes, one each. */
  ghost predicate Faithful(v: Service) {
    OneToOne(v.inFlight, v.running) && AllBelow(v.running.Keys, v.nextProbe)
  }

  predicate AllBelow(ids: set<nat>, n: nat) { forall i :: i in ids ==> i < n }

  lemma OneMoreBelow(ids: set<nat>, n: nat)
    requires AllBelow(ids, n)
    ensures n !in ids && AllBelow(ids + {n}, n + 1)
  {
  }

  ghost predicate OneToOne<K, V>(a: map<K, V>, b: map<V, K>) {
    (forall k :: k in a ==> a[k] in b && b[a[k]] == k) && (forall v :: v in b ==> b[v] in a && a[b[v]] == v)
  }

  lemma PairMore<K, V>(a: map<K, V>, b: map<V, K>, k: K, v: V)
    requires OneToOne(a, b) && k !in a && v !in b
    ensures OneToOne(a[k := v], b[v := k])
  {
  }

  lemma PairLess<K, V>(a: map<K, V>, b: map<V, K>, k: K)
    requires OneToOne(a, b) && k in a
    ensures OneToOne(a - {k}, b - {a[k]})
  {
  }

  lemma OneMore<K, V>(m: map<K, V>, k: K, v: V)
    requires k !in m
    ensures m[k := v].Keys == m.Keys + {k} && |m[k := v]| == |m| + 1
  {
  }

  lemma OneLess<K, V>(m: map<K, V>, k: K)
    requires k in m
    ensures m.Keys == (m - {k}).Keys + {k} && |m - {k}| == |m| - 1
  {
    assert m.Keys == (m - {k}).Keys + {k};
  }

  ghost predicate PhaseInv(st: Settings, y: System) {
    var v := y.service;
    match v.phase
    case Claiming(room) => room + |v.inFlight| <= st.concurrency
    case Returning(rows) =>
      && |rows| + |v.inFlight| <= st.concurrency && Distinct(rows)
      && forall k :: k in rows ==> k !in v.inFlight && InLog(y.db, k)
    case _ => true
  }

  ghost predicate StopInv(v: Service) {
    match v.stopping
    case Serving => !v.phase.Idle?
    case AwaitingTick => !v.phase.Armed?
    case Draining(atStart) => v.phase.Idle? && v.inFlight.Keys <= atStart
    case Stopped(settled, still) => v.phase.Idle? && settled !! still && v.inFlight.Keys <= still
  }

  ghost predicate Inv(st: Settings, y: System) {
    && S.Inv(st.cfg, y.db)
    && Faithful(y.service) && |y.service.inFlight| <= st.concurrency
    && (forall k :: k in y.service.inFlight ==> InLog(y.db, k))
    && PhaseInv(st, y) && StopInv(y.service)
  }

  /** No statement takes a slot out of the log. */
  lemma LogGrows(cfg: S.Config, db: S.State, a: S.Action, key: SlotKey)
    requires S.Enabled(cfg, db, a) && InLog(db, key)
    ensures InLog(S.Apply(cfg, db, a), key)
  {
    var m := db.monitors[key.endpoint];
    var c :| c in m.claims && c.slot == key.slot;
    assert c in S.Local(cfg, a, key.endpoint, m).claims;
  }

  /** A claimed slot is new to the log. */
  lemma ClaimedKeyIsNew(cfg: S.Config, db: S.State, a: S.Action, id: nat)
    requires S.Inv(cfg, db) && S.Enabled(cfg, db, a) && a.ClaimDue? && id in a.picked
    ensures var db' := S.Apply(cfg, db, a); InLog(db', KeyOf(db', id)) && !InLog(db, KeyOf(db', id))
  {
    var m := db.monitors[id];
    assert S.MonitorInv(cfg, m) && S.Due(m, a.now);
    var db' := S.Apply(cfg, db, a);
    var c := S.ClaimOf(m, a.worker, a.now);
    assert db'.monitors[id].claims == m.claims + [c];
    assert c in db'.monitors[id].claims;
    forall d | d in m.claims
      ensures d.slot < c.slot
    {
      var i :| 0 <= i < |m.claims| && m.claims[i] == d;
    }
  }

  lemma DistinctSize<T>(s: seq<T>)
    requires Distinct(s)
    ensures |set x | x in s| == |s|
  {
    if s != [] {
      var front, last := s[..|s| - 1], s[|s| - 1];
      FrontIsDistinct(s);
      DistinctSize(front);
      assert (set x | x in s) == (set x | x in front) + {last};
    }
  }

  lemma ClaimReturnsNewKeys(st: Settings, y: System, e: Event)
    requires Inv(st, y) && e.ClaimCommits? && Enabled(st, y, e)
    ensures PhaseInv(st, Apply(st, y, e))
  {
    var a := ClaimAction(st, y.service.phase.room, e);
    var db := S.Apply(st.cfg, y.db, a);
    DistinctSize(e.order);
    RowsDistinct(db, e.order);
    forall k | k in RowsOf(db, e.order)
      ensures k !in y.service.inFlight && InLog(db, k)
    {
      var i :| 0 <= i < |e.order| && RowsOf(db, e.order)[i] == k;
      assert e.order[i] in a.picked;
      ClaimedKeyIsNew(st.cfg, y.db, a, e.order[i]);
    }
  }

  lemma RowsDistinct(db: S.State, order: seq<nat>)
    requires Distinct(order)
    ensures |RowsOf(db, order)| == |order| && Distinct(RowsOf(db, order))
  {
    assert forall i :: 0 <= i < |order| ==> RowsOf(db, order)[i].endpoint == order[i];
  }

  lemma StartKeeps(v: Service, key: SlotKey)
    requires Faithful(v) && key !in v.inFlight
    ensures var v' := Started(v, key);
            Faithful(v') && v'.inFlight.Keys == v.inFlight.Keys + {key} && |v'.inFlight| == |v.inFlight| + 1
            && v'.phase == v.phase && v'.stopping == v.stopping
  {
    OneMoreBelow(v.running.Keys, v.nextProbe);
    PairMore(v.inFlight, v.running, key, v.nextProbe);
    OneMore(v.running, v.nextProbe, key);
    OneMore(v.inFlight, key, v.nextProbe);
  }

  lemma FrontIsDistinct<T>(s: seq<T>)
    requires Distinct(s) && s != []
    ensures var front, last := s[..|s| - 1], s[|s| - 1];
            Distinct(front) && last !in front && forall x :: x in s <==> x in front || x == last
  {
    assert s == s[..|s| - 1] + [s[|s| - 1]];
  }

  lemma {:induction false} StartAllKeeps(v: Service, rows: seq<SlotKey>)
    requires Faithful(v) && Distinct(rows) && forall k :: k in rows ==> k !in v.inFlight
    ensures var v' := StartedAll(v, rows);
            && Faithful(v') && |v'.inFlight| == |v.inFlight| + |rows|
            && v'.phase == v.phase && v'.stopping == v.stopping
            && forall k :: k in v'.inFlight <==> k in v.inFlight || k in rows
  {
    if rows != [] {
      var front, last := rows[..|rows| - 1], rows[|rows| - 1];
      FrontIsDistinct(rows);
      StartAllKeeps(v, front);
      StartKeeps(StartedAll(v, front), last);
    }
  }

  lemma SettleKeeps(v: Service, p: nat)
    requires Faithful(v) && p in v.running
    ensures var v' := Settled(v, p);
            Faithful(v') && v'.inFlight.Keys <= v.inFlight.Keys && |v'.inFlight| < |v.inFlight|
  {
    PairLess(v.inFlight, v.running, v.running[p]);
    OneLess(v.inFlight, v.running[p]);
  }

  lemma DispatchKeepsInv(st: Settings, y: System)
    requires Inv(st, y) && y.service.phase.Returning?
    ensures Inv(st, Apply(st, y, Dispatch))
  {
    var rows, v' := y.service.phase.rows, StartedAll(y.service, y.service.phase.rows);
    StartAllKeeps(y.service, rows);
    forall k | k in v'.inFlight
      ensures InLog(y.db, k)
    {
      assert k in y.service.inFlight || k in rows;
    }
  }

  lemma SettleKeepsInv(st: Settings, y: System, p: nat)
    requires Inv(st, y) && p in y.service.running
    ensures Inv(st, Apply(st, y, Settles(p)))
  {
    SettleKeeps(y.service, p);
  }

  lemma ClaimKeepsInv(st: Settings, y: System, e: Event)
    requires Inv(st, y) && (e.ClaimCommits? || e.ClaimLost?) && Enabled(st, y, e)
    ensures Inv(st, Apply(st, y, e))
  {
    DatabaseStep(st, y.db, ClaimAction(st, y.service.phase.room, e));
    if e.ClaimCommits? {
      ClaimReturnsNewKeys(st, y, e);
    }
  }

  ghost predicate LogKept(a: S.State, b: S.State) {
    forall k :: InLog(a, k) ==> InLog(b, k)
  }

  /** Nothing of the worker's own depends on more of the tables than the log. */
  lemma DatabaseMovesOn(st: Settings, y: System, db: S.State)
    requires Inv(st, y) && S.Inv(st.cfg, db) && LogKept(y.db, db)
    ensures Inv(st, System(y.service, db))
  {
  }

  lemma OthersKeepInv(st: Settings, y: System, a: S.Action)
    requires Inv(st, y) && S.Enabled(st.cfg, y.db, a)
    ensures Inv(st, System(y.service, S.Apply(st.cfg, y.db, a)))
  {
    DatabaseStep(st, y.db, a);
    DatabaseMovesOn(st, y, S.Apply(st.cfg, y.db, a));
  }

  /** With the pool and the tables as they were, only the tick and the stop are to be looked at. */
  lemma SamePool(st: Settings, y: System, y': System)
    requires Inv(st, y) && y'.db == y.db && y'.service.inFlight == y.service.inFlight
    requires y'.service.running == y.service.running && y'.service.nextProbe == y.service.nextProbe
    requires PhaseInv(st, y') && StopInv(y'.service)
    ensures Inv(st, y')
  {
  }

  lemma TickEndsStands(st: Settings, y: System)
    requires StopInv(y.service)
    ensures var y' := y.(service := TickEnds(y.service)); PhaseInv(st, y') && StopInv(y'.service)
  {
  }

  lemma ReconcileEndsStands(st: Settings, y: System)
    requires StopInv(y.service) && y.service.phase.Reconciling?
    ensures var y' := y.(service := AfterReconcile(st, y.service)); PhaseInv(st, y') && StopInv(y'.service)
  {
    TickEndsStands(st, y);
  }

  lemma TickKeepsInv(st: Settings, y: System, e: Event)
    requires Inv(st, y) && Enabled(st, y, e) && (e.TimerFires? || e.AdoptEnds? || e.ReconcileEnds? || e.ClaimFails?)
    ensures Inv(st, Apply(st, y, e))
  {
    if e.ReconcileEnds? {
      ReconcileEndsStands(st, y);
    } else if e.ClaimFails? {
      TickEndsStands(st, y);
    }
    SamePool(st, y, Apply(st, y, e));
  }

  lemma StopKeepsInv(st: Settings, y: System, e: Event)
    requires Inv(st, y) && Enabled(st, y, e) && (e.Stop? || e.TickAwaited? || e.DrainEnds?)
    ensures Inv(st, Apply(st, y, e))
  {
    SamePool(st, y, Apply(st, y, e));
  }

  lemma StepKeepsInv(st: Settings, y: System, e: Event)
    requires Inv(st, y)
    ensures Inv(st, Step(st, y, e))
  {
    if Enabled(st, y, e) {
      match e
      case ClaimCommits(_, _, _) => ClaimKeepsInv(st, y, e);
      case ClaimLost(_, _, _) => ClaimKeepsInv(st, y, e);
      case Others(a) => OthersKeepInv(st, y, a);
      case Dispatch => DispatchKeepsInv(st, y);
      case Settles(p) => SettleKeepsInv(st, y, p);
      case Stop => StopKeepsInv(st, y, e);
      case TickAwaited => StopKeepsInv(st, y, e);
      case DrainEnds(_) => StopKeepsInv(st, y, e);
      case _ => TickKeepsInv(st, y, e);
    }
  }

  lemma DatabaseStep(st: Settings, db: S.State, a: S.Action)
    requires S.Inv(st.cfg, db) && S.Enabled(st.cfg, db, a)
    ensures S.Inv(st.cfg, S.Apply(st.cfg, db, a))
    ensures LogKept(db, S.Apply(st.cfg, db, a))
  {
    assert [a][..0] == [] && S.Run(st.cfg, db, [a]) == S.Step(st.cfg, S.Run(st.cfg, db, []), a);
    S.RunKeepsInv(st.cfg, db, [a]);
    forall k | InLog(db, k)
      ensures InLog(S.Apply(st.cfg, db, a), k)
    {
      LogGrows(st.cfg, db, a, k);
    }
  }

  lemma {:induction false} RunKeepsInv(st: Settings, y: System, events: seq<Event>)
    requires Inv(st, y)
    ensures Inv(st, Run(st, y, events))
  {
    if events != [] {
      RunKeepsInv(st, y, events[..|events| - 1]);
      StepKeepsInv(st, Run(st, y, events[..|events| - 1]), events[|events| - 1]);
    }
  }

  lemma InverseSize<K, V>(a: map<K, V>, b: map<V, K>)
    requires OneToOne(a, b)
    ensures |a| == |b|
    decreases |a|
  {
    if a == map[] {
      assert b.Keys == {};
    } else {
      var k :| k in a;
      OneLess(a, k);
      OneLess(b, a[k]);
      PairLess(a, b, k);
      InverseSize(a - {k}, b - {a[k]});
    }
  }

  /**
   * The pool bound: over every run of ticks, completions and shutdown, with other workers at the same tables, no more
   * probes run than the configured concurrency, and the pool's map names exactly those that do.
   */
  lemma PoolBounded(st: Settings, start: System, events: seq<Event>)
    requires Initial(start)
    ensures var v := Run(st, start, events).service;
            |v.running| == |v.inFlight| <= st.concurrency && forall p :: p in v.running ==> v.running[p] in v.inFlight
  {
    RunKeepsInv(st, start, events);
    var v := Run(st, start, events).service;
    InverseSize(v.inFlight, v.running);
  }

  // ---- The tick ----

  function Members(keys: seq<SlotKey>): set<SlotKey> { set k | k in keys }

  /** The probes running, by key. */
  function Running(v: Service): set<SlotKey> { v.running.Values }

  /**
   * In every reachable state a serving worker is in a tick or its timer is armed, and every way a tick can end arms the
   * timer again: nothing to claim, a claim that failed or whose answer was lost, or rows to start. Once it is stopping
   * no tick arms it.
   */
  lemma TickArmsAgain(st: Settings, start: System, events: seq<Event>, e: Event)
    requires Initial(start) && Enabled(st, Run(st, start, events), e)
    ensures TickGoesOn(st, Run(st, start, events).service, e, Apply(st, Run(st, start, events), e).service)
  {
    RunKeepsInv(st, start, events);
    StepTicks(st, Run(st, start, events), e);
  }

  ghost predicate TickGoesOn(st: Settings, v: Service, e: Event, v': Service) {
    && (v.stopping.Serving? ==> v.phase != Idle)
    && (v.stopping.Serving? && (e.ClaimFails? || e.ClaimLost? || e.Dispatch?) ==> v'.phase == Armed)
    && (v.stopping.Serving? && e.ReconcileEnds? ==>
          v'.phase == if |v.inFlight| < st.concurrency then Claiming(st.concurrency - |v.inFlight|) else Armed)
    && (!v.stopping.Serving? && (e.ReconcileEnds? || e.ClaimFails? || e.ClaimLost? || e.Dispatch?) ==> v'.phase == Idle)
    && (v'.phase == Armed ==> v'.stopping.Serving?)
  }

  lemma StepTicks(st: Settings, y: System, e: Event)
    requires Inv(st, y) && Enabled(st, y, e)
    ensures TickGoesOn(st, y.service, e, Apply(st, y, e).service)
  {
    StepKeepsInv(st, y, e);
    ArmedIsServing(y.service);
    ArmedIsServing(Apply(st, y, e).service);
    if e.ReconcileEnds? || e.ClaimFails? || e.ClaimLost? || e.Dispatch? {
      TickEnd(st, y, e);
    }
  }

  lemma ArmedIsServing(v: Service)
    requires StopInv(v)
    ensures v.phase == Armed ==> v.stopping.Serving?
    ensures v.stopping.Serving? ==> v.phase != Idle
  {
  }

  lemma TickEnd(st: Settings, y: System, e: Event)
    requires Inv(st, y) && Enabled(st, y, e) && (e.ReconcileEnds? || e.ClaimFails? || e.ClaimLost? || e.Dispatch?)
    ensures var v, v' := y.service, Apply(st, y, e).service;
            if !v.stopping.Serving? then v'.phase == Idle
            else if e.ReconcileEnds? && |v.inFlight| < st.concurrency
            then v'.phase == Claiming(st.concurrency - |v.inFlight|)
            else v'.phase == Armed
  {
    if e.Dispatch? {
      StartAllKeeps(y.service, y.service.phase.rows);
    }
  }

  /** A claim takes as many of the oldest claimable endpoints as the batch and the room it was sent with allow. */
  lemma ClaimFillsRoom(st: Settings, start: System, events: seq<Event>, now: int, locked: set<nat>, order: seq<nat>)
    requires Initial(start) && Enabled(st, Run(st, start, events), ClaimCommits(now, locked, order))
    ensures var y := Run(st, start, events);
            var room, picked := y.service.phase.room, set id | id in order;
            && room <= st.concurrency - |y.service.inFlight| && |order| == |picked|
            && S.TakesOldest(y.db.monitors, now, if st.batch < room then st.batch else room, locked, picked)
  {
    RunKeepsInv(st, start, events);
    ClaimFills(st, Run(st, start, events), now, locked, order);
  }

  lemma ClaimFills(st: Settings, y: System, now: int, locked: set<nat>, order: seq<nat>)
    requires Inv(st, y) && Enabled(st, y, ClaimCommits(now, locked, order))
    ensures var room, picked := y.service.phase.room, set id | id in order;
            && room <= st.concurrency - |y.service.inFlight| && |order| == |picked|
            && S.TakesOldest(y.db.monitors, now, if st.batch < room then st.batch else room, locked, picked)
  {
    DistinctSize(order);
    AllPaced(st.cfg, y.db);
    S.PicksTakeOldest(y.db.monitors, now, Limit(st, y.service.phase.room), locked, set id | id in order);
  }

  lemma AllPaced(cfg: S.Config, db: S.State)
    requires S.Inv(cfg, db)
    ensures S.Paced(db.monitors)
  {
    forall id | id in db.monitors && db.monitors[id].endpoint.Some?
      ensures db.monitors[id].endpoint.value.interval > 0
    {
      assert S.MonitorInv(cfg, db.monitors[id]);
    }
  }

  /** Every claimed row gets a probe of its own, beside those already running. */
  lemma EveryRowStarts(st: Settings, start: System, events: seq<Event>)
    requires Initial(start) && Enabled(st, Run(st, start, events), Dispatch)
    ensures var v, v' := Run(st, start, events).service, Apply(st, Run(st, start, events), Dispatch).service;
            && Running(v') == Running(v) + Members(v.phase.rows)
            && |v'.running| == |v.running| + |v.phase.rows|
  {
    RunKeepsInv(st, start, events);
    RowsStart(Run(st, start, events).service, Run(st, start, events).service.phase.rows);
  }

  lemma RowsStart(v: Service, rows: seq<SlotKey>)
    requires Faithful(v) && Distinct(rows) && forall k :: k in rows ==> k !in v.inFlight
    ensures var v' := StartedAll(v, rows);
            Running(v') == Running(v) + Members(rows) && |v'.running| == |v.running| + |rows|
  {
    var v' := StartedAll(v, rows);
    StartAllKeeps(v, rows);
    InverseSize(v.inFlight, v.running);
    InverseSize(v'.inFlight, v'.running);
    InverseKeys(v);
    InverseKeys(v');
  }

  lemma InverseKeys(v: Service)
    requires Faithful(v)
    ensures v.inFlight.Keys == Running(v)
  {
    forall k | k in v.inFlight
      ensures k in v.running.Values
    {
      assert v.running[v.inFlight[k]] == k;
    }
  }

  predicate PastLastTick(v: Service) { v.stopping.Draining? || v.stopping.Stopped? }

  lemma StepStartsNothing(st: Settings, y: System, e: Event)
    requires StopInv(y.service) && PastLastTick(y.service)
    ensures var v, v' := y.service, Step(st, y, e).service;
            v'.nextProbe == v.nextProbe && v'.running.Keys <= v.running.Keys && PastLastTick(v')
  {
  }

  /** Past the wait for the last tick, nothing starts. */
  lemma {:induction false} NothingStartsAfterStop(st: Settings, y: System, events: seq<Event>)
    requires Inv(st, y) && PastLastTick(y.service)
    ensures var v, v' := y.service, Run(st, y, events).service;
            v'.nextProbe == v.nextProbe && v'.running.Keys <= v.running.Keys && PastLastTick(v')
  {
    if events != [] {
      NothingStartsAfterStop(st, y, events[..|events| - 1]);
      RunKeepsInv(st, y, events[..|events| - 1]);
      StepStartsNothing(st, Run(st, y, events[..|events| - 1]), events[|events| - 1]);
    }
  }

  /**
   * The drain: its two sets split what was in flight when it began. Those still running are exactly the probes that
   * are; without a timeout there are none.
   */
  lemma DrainSplits(st: Settings, start: System, events: seq<Event>, timedOut: bool)
    requires Initial(start) && Enabled(st, Run(st, start, events), DrainEnds(timedOut))
    ensures var v, v' := Run(st, start, events).service, Step(st, Run(st, start, events), DrainEnds(timedOut)).service;
            && v'.stopping.Stopped? && v'.stopping.settled !! v'.stopping.stillRunning
            && v'.stopping.settled + v'.stopping.stillRunning == v.stopping.atStart
            && v'.stopping.stillRunning == v.running.Values
            && (!timedOut ==> v'.stopping.stillRunning == {})
  {
    RunKeepsInv(st, start, events);
    var v := Run(st, start, events).service;
    InverseKeys(v);
  }

  // ---- The worker's own fields ----

  class ProbePool {
    const concurrency: nat
    var inFlight: map<SlotKey, nat>

    constructor (concurrency: nat)
      ensures this.concurrency == concurrency && inFlight == map[]
    {
      this.concurrency, this.inFlight := concurrency, map[];
    }

    function Room(): nat
      reads this
    {
      if concurrency < |inFlight| then 0 else concurrency - |inFlight|
    }

    method Start(key: SlotKey, probe: nat)
      modifies this
      ensures inFlight == old(inFlight)[key := probe]
    {
      inFlight := inFlight[key := probe];
    }

    method Settle(key: SlotKey)
      modifies this
      ensures inFlight == old(inFlight) - {key}
    {
      inFlight := inFlight - {key};
    }

    /** Waits while the probes of `ends` settle, up to the grace; keys in flight at the start are split in two. */
    method Drain(ends: seq<SlotKey>) returns (settled: set<SlotKey>, stillRunning: set<SlotKey>)
      modifies this
      ensures inFlight == old(inFlight) - Members(ends)
      ensures settled !! stillRunning && settled + stillRunning == old(inFlight).Keys
      ensures stillRunning == inFlight.Keys
    {
      var atStart := inFlight.Keys;
      if atStart == {} {
        return {}, {};
      }
      for i := 0 to |ends|
        invariant inFlight == old(inFlight) - Members(ends[..i])
      {
        assert ends[..i + 1] == ends[..i] + [ends[i]];
        Settle(ends[i]);
      }
      assert ends[..|ends|] == ends;
      stillRunning := set k | k in atStart && k in inFlight;
      settled := set k | k in atStart && k !in stillRunning;
    }
  }

  class SchedulerService {
    const st: Settings
    const pool: ProbePool
    var phase: Phase
    var stopping: Stopping
    ghost var running: map<nat, SlotKey>
    var nextProbe: nat

    constructor (st: Settings)
      ensures this.st == st && fresh(pool) && pool.concurrency == st.concurrency
      ensures View() == Service(Armed, Serving, map[], map[], 0)
    {
      this.st := st;
      pool := new ProbePool(st.concurrency);
      phase, stopping, running, nextProbe := Armed, Serving, map[], 0;
    }

    ghost function View(): Service
      reads this, pool
    {
      Service(phase, stopping, pool.inFlight, running, nextProbe)
    }

    /** Re-arms the timer, unless stopping. */
    method EndTick()
      modifies this`phase
      ensures View() == TickEnds(old(View()))
    {
      phase := if stopping.Serving? then Armed else Idle;
    }

    /** The tick between its second await and its claim: `room` is zero when there is nothing to claim. */
    method BeforeClaim() returns (room: nat)
      requires phase.Reconciling? && pool.concurrency == st.concurrency
      modifies this`phase
      ensures View() == AfterReconcile(st, old(View()))
      ensures if phase.Claiming? then 0 < room == phase.room else room == 0
      ensures room == if stopping.Serving? && |pool.inFlight| < st.concurrency
                      then st.concurrency - |pool.inFlight| else 0
    {
      room := 0;
      if !stopping.Serving? {
        EndTick();
        return;
      }
      room := pool.Room();
      if room > 0 {
        phase := Claiming(room);
      } else {
        EndTick();
      }
    }

    /** Starts every claimed row, then ends the tick. */
    method AfterClaim(rows: seq<SlotKey>)
      requires phase == Returning(rows)
      modifies this, pool
      ensures View() == TickEnds(StartedAll(old(View()), rows))
    {
      ghost var before := View();
      for i := 0 to |rows|
        invariant View() == StartedAll(before, rows[..i]) && phase == before.phase && stopping == before.stopping
      {
        assert rows[..i + 1][..i] == rows[..i];
        pool.Start(rows[i], nextProbe);
        running := running[nextProbe := rows[i]];
        nextProbe := nextProbe + 1;
      }
      assert rows[..|rows|] == rows;
      EndTick();
    }

    /** A running probe settles. */
    method OnSettled(probe: nat, key: SlotKey)
      requires probe in running && running[probe] == key
      modifies this`running, pool
      ensures View() == Settled(old(View()), probe)
    {
      pool.Settle(key);
      running := running - {probe};
    }

    /** The first half of the stop, up to the wait for the tick. A second call changes nothing. */
    method Stop()
      modifies this`phase, this`stopping
      ensures View() == if old(stopping).Serving? then AfterStop(old(View())) else old(View())
    {
      if stopping.Serving? {
        stopping := AwaitingTick;
        if phase.Armed? {
          phase := Idle;
        }
      }
    }
  }
}
