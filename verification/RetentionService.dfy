/** Retention by partition removal: recover interrupted detaches, guard, detach, drop. */
module RetentionService {
  import opened Warehouse
  import opened RollupRepository

  datatype RetentionResult = RetentionResult(dropped: seq<Part>, blocked: seq<Part>, deferred: seq<Part>)

  /**
   * How a statement on the lock-owning session ends: it finishes, it times out, or the session is lost with it.
   * A detach that does not finish may or may not have marked the partition pending.
   */
  datatype Outcome = Finished | TimedOut(marked: bool) | SessionLost(marked: bool)

  predicate InState(parts: map<Part, PartState>, p: Part, s: PartState) {
    p in parts && parts[p] == s
  }

  /** Partitions keep their state, except those in `touched`; new ones may appear. */
  ghost predicate PartsFrame(a: map<Part, PartState>, b: map<Part, PartState>, touched: set<Part>) {
    forall p :: p in a ==> p in b && (p !in touched ==> a[p] == b[p])
  }

  lemma {:induction false} RunConcat(cfg: Config, db: Db, a: seq<Action>, b: seq<Action>)
    ensures Run(cfg, Run(cfg, db, a), b) == Run(cfg, db, a + b)
  {
    if b == [] {
      assert a + b == a;
    } else {
      assert (a + b)[..|a + b| - 1] == a + b[..|b| - 1];
      RunConcat(cfg, db, a, b[..|b| - 1]);
    }
  }

  /** Other sessions neither detach nor clear partitions while this one holds the retention lock. */
  lemma {:induction false} OthersSpareRetention(cfg: Config, db: Db, steps: seq<Action>)
    ensures var d := Run(cfg, db, Others(steps, RetentionSession));
            PartsFrame(db.parts, d.parts, {}) && d.cleared == db.cleared && db.clock <= d.clock
  {
    if steps != [] {
      OthersSpareRetention(cfg, db, steps[..|steps| - 1]);
      var rest, a := Others(steps[..|steps| - 1], RetentionSession), steps[|steps| - 1];
      if !a.OfRetention() {
        assert (rest + [a])[..|rest|] == rest;
        StepSparesParts(cfg, Run(cfg, db, rest), a);
      }
    }
  }

  lemma StepSparesParts(cfg: Config, db: Db, a: Action)
    requires !a.OfRetention()
    ensures var d := Step(cfg, db, a);
            PartsFrame(db.parts, d.parts, {}) && d.cleared == db.cleared && db.clock <= d.clock
  {
  }

  /** Rows stay, committed transactions stay committed, and the watermark does not go back. */
  ghost predicate History(a: Db, b: Db) {
    && a.rows <= b.rows && a.lastXid <= b.lastXid
    && forall x :: IsCommitted(a.tx, x) ==> IsCommitted(b.tx, x)
  }

  lemma {:induction false} RunHistory(cfg: Config, db: Db, steps: seq<Action>)
    requires Inv(cfg, db)
    ensures History(db, Run(cfg, db, steps))
  {
    if steps != [] {
      var mid := Run(cfg, db, steps[..|steps| - 1]);
      RunKeepsInv(cfg, db, steps[..|steps| - 1]);
      RunHistory(cfg, db, steps[..|steps| - 1]);
      if Enabled(cfg, mid, steps[|steps| - 1]) {
        assert mid.rows <= Apply(cfg, mid, steps[|steps| - 1]).rows;
      }
    }
  }

  /** Somewhere along the run from `start`, the guard on `p` found an unfolded row. */
  ghost predicate WasBlocked(cfg: Config, start: Db, steps: seq<Action>, p: Part) {
    exists n :: 0 <= n <= |steps| && p in Run(cfg, start, steps[..n]).parts && Blocked(Run(cfg, start, steps[..n]), p)
  }

  /** A committed row of the partition, or of the range it aggregates, that is at or above the watermark. */
  ghost predicate HoldsUnfolded(db: Db, watermark: nat, p: Part) {
    exists r :: r in db.rows && PartOf(p.family, r.startedAt) == p && IsCommitted(db.tx, r.xid) && watermark <= r.xid
  }

  lemma BlockedHoldsUnfolded(db: Db, watermark: nat, p: Part)
    requires TxInv(db) && p in db.parts && Blocked(db, p) && watermark <= db.lastXid
    ensures HoldsUnfolded(db, watermark, p)
  {
    var r :| r in db.rows && Blocks(db, p, r);
    PartIsItsRange(p, r.startedAt);
  }

  lemma UnfoldedStays(a: Db, b: Db, watermark: nat, p: Part)
    requires History(a, b) && HoldsUnfolded(a, watermark, p)
    ensures HoldsUnfolded(b, watermark, p)
  {
    var r :| r in a.rows && PartOf(p.family, r.startedAt) == p && IsCommitted(a.tx, r.xid) && watermark <= r.xid;
    assert r in b.rows;
  }

  lemma RunFacts(cfg: Config, start: Db, steps: seq<Action>, n: nat)
    requires Inv(cfg, start) && n <= |steps|
    ensures TxInv(Run(cfg, start, steps[..n])) && start.lastXid <= Run(cfg, start, steps[..n]).lastXid
    ensures History(Run(cfg, start, steps[..n]), Run(cfg, start, steps))
  {
    RunKeepsInv(cfg, start, steps[..n]);
    RunHistory(cfg, start, steps[..n]);
    RunHistory(cfg, Run(cfg, start, steps[..n]), steps[n..]);
    RunInParts(cfg, start, steps, n);
  }

  lemma RunInParts(cfg: Config, start: Db, steps: seq<Action>, n: nat)
    requires n <= |steps|
    ensures Run(cfg, Run(cfg, start, steps[..n]), steps[n..]) == Run(cfg, start, steps)
  {
    RunConcat(cfg, start, steps[..n], steps[n..]);
    assert steps[..n] + steps[n..] == steps;
  }

  /** A partition is only ever kept back for a committed row that was not folded when the run began. */
  lemma BlockedForCause(cfg: Config, start: Db, steps: seq<Action>, p: Part)
    requires Inv(cfg, start) && WasBlocked(cfg, start, steps, p)
    ensures HoldsUnfolded(Run(cfg, start, steps), start.lastXid, p)
  {
    var n :| 0 <= n <= |steps| && p in Run(cfg, start, steps[..n]).parts && Blocked(Run(cfg, start, steps[..n]), p);
    RunFacts(cfg, start, steps, n);
    BlockedHoldsUnfolded(Run(cfg, start, steps[..n]), start.lastXid, p);
    UnfoldedStays(Run(cfg, start, steps[..n]), Run(cfg, start, steps), start.lastXid, p);
  }

  // ---- What a pass does with each partition ----

  /**
   * A partition a pass came to: kept back by its guard, a detach that did not finish, a detach that did and how the
   * drop after it ended, or how the drop of one found detached ended.
   */
  datatype Attempt =
    | Kept(part: Part)
    | Detaching(part: Part, end: Outcome)
    | Dropping(part: Part, end: Outcome)
    | Leftover(part: Part, end: Outcome)
  {
    /** The session went with it, or the drop failed: either ends the pass. */
    predicate Fatal() {
      if Detaching? then end.SessionLost? else !Kept? && !end.Finished?
    }

    /** How its statements ended, in order. */
    function Ends(): seq<Outcome> {
      match this
      case Kept(_) => []
      case Dropping(_, e) => [Finished, e]
      case Detaching(_, e) => [e]
      case Leftover(_, e) => [e]
    }
  }

  function AllEnds(log: seq<Attempt>): seq<Outcome> {
    if log == [] then [] else AllEnds(log[..|log| - 1]) + log[|log| - 1].Ends()
  }

  /** What is reported: drops that finished, partitions a guard kept, detaches that timed out. */
  function Reported(r: RetentionResult, a: Attempt): RetentionResult {
    match a
    case Kept(p) => r.(blocked := r.blocked + [p])
    case Detaching(p, e) => if e.TimedOut? then r.(deferred := r.deferred + [p]) else r
    case _ => if a.end.Finished? then r.(dropped := r.dropped + [a.part]) else r
  }

  function ResultOf(log: seq<Attempt>): RetentionResult {
    if log == [] then RetentionResult([], [], []) else Reported(ResultOf(log[..|log| - 1]), log[|log| - 1])
  }

  lemma LogOneMore(log: seq<Attempt>, a: Attempt)
    ensures AllEnds(log + [a]) == AllEnds(log) + a.Ends()
    ensures ResultOf(log + [a]) == Reported(ResultOf(log), a)
  {
    assert (log + [a])[..|log|] == log;
  }

  /** A partition reported is one of an attempt that says so, and the other way round. */
  lemma {:induction false} ReportedForCause(log: seq<Attempt>, p: Part)
    ensures p in ResultOf(log).blocked <==> Kept(p) in log
    ensures p in ResultOf(log).deferred <==> exists m :: Detaching(p, TimedOut(m)) in log
    ensures p in ResultOf(log).dropped <==> Dropping(p, Finished) in log || Leftover(p, Finished) in log
  {
    if log != [] {
      var front, last := log[..|log| - 1], log[|log| - 1];
      ReportedForCause(front, p);
      assert log == front + [last];
      LogOneMore(front, last);
      OneMoreReported(ResultOf(front), last, p);
      assert forall a :: a in log <==> a in front || a == last;
    }
  }

  lemma OneMoreReported(r: RetentionResult, a: Attempt, p: Part)
    ensures p in Reported(r, a).blocked <==> p in r.blocked || a == Kept(p)
    ensures p in Reported(r, a).deferred <==> p in r.deferred || exists m :: a == Detaching(p, TimedOut(m))
    ensures p in Reported(r, a).dropped <==> p in r.dropped || a == Dropping(p, Finished) || a == Leftover(p, Finished)
  {
  }

  lemma {:induction false} EndsAreIn(log: seq<Attempt>, a: Attempt, e: Outcome)
    requires a in log && e in a.Ends()
    ensures e in AllEnds(log)
  {
    var front, last := log[..|log| - 1], log[|log| - 1];
    assert log == front + [last];
    if a != last {
      EndsAreIn(front, a, e);
    }
  }

  /** The first `n` outcomes of a script; past its end every statement finishes. */
  function Scheduled(plan: seq<Outcome>, n: nat): seq<Outcome> {
    seq(n, i requires 0 <= i < n => if i < |plan| then plan[i] else Finished)
  }

  function Rest(plan: seq<Outcome>, n: nat): seq<Outcome> { if n < |plan| then plan[n..] else [] }

  /** The report is of what was done, whose statements, `extra` the latest, ended as the script says. */
  ghost predicate LogSays(result: RetentionResult, log: seq<Attempt>, plan: seq<Outcome>, script: seq<Outcome>,
                          extra: seq<Outcome>) {
    var ends := AllEnds(log) + extra;
    result == ResultOf(log) && ends == Scheduled(plan, |ends|) && script == Rest(plan, |ends|)
  }

  function Head(script: seq<Outcome>): Outcome { if script == [] then Finished else script[0] }

  function Tail(script: seq<Outcome>): seq<Outcome> { if script == [] then [] else script[1..] }

  lemma OneMoreEnd(result: RetentionResult, log: seq<Attempt>, plan: seq<Outcome>, script: seq<Outcome>,
                   extra: seq<Outcome>)
    requires LogSays(result, log, plan, script, extra)
    ensures LogSays(result, log, plan, Tail(script), extra + [Head(script)])
  {
    var ends := AllEnds(log) + extra;
    var more := AllEnds(log) + (extra + [Head(script)]);
    assert more == ends + [Head(script)];
    var next := if |ends| < |plan| then plan[|ends|] else Finished;
    assert Scheduled(plan, |ends| + 1) == Scheduled(plan, |ends|) + [next];
  }

  lemma OneMoreAttempt(result: RetentionResult, log: seq<Attempt>, plan: seq<Outcome>, script: seq<Outcome>, a: Attempt)
    requires LogSays(result, log, plan, script, a.Ends())
    ensures LogSays(Reported(result, a), log + [a], plan, script, [])
  {
    LogOneMore(log, a);
    assert AllEnds(log + [a]) + [] == AllEnds(log) + a.Ends();
  }

  /** When no statement is scripted to fail, nothing is deferred and no attempt is fatal. */
  lemma NothingFails(result: RetentionResult, log: seq<Attempt>, script: seq<Outcome>)
    requires LogSays(result, log, [], script, [])
    ensures result.deferred == [] && forall a :: a in log ==> !a.Fatal()
  {
    assert AllEnds(log) + [] == AllEnds(log);
    assert forall e :: e in AllEnds(log) ==> e == Finished;
    forall a | a in log
      ensures !a.Fatal()
    {
      if !a.Kept? {
        EndsAreIn(log, a, a.end);
      }
    }
    if result.deferred != [] {
      var p := result.deferred[0];
      ReportedForCause(log, p);
      var m :| Detaching(p, TimedOut(m)) in log;
      EndsAreIn(log, Detaching(p, TimedOut(m)), TimedOut(m));
      assert false;
    }
  }

  /** How an attempt leaves a partition that was in state `was`. */
  predicate Left(a: Attempt, was: PartState, parts: map<Part, PartState>) {
    match a
    case Kept(p) => InState(parts, p, was)
    case Detaching(p, e) => InState(parts, p, if !e.Finished? && e.marked then Pending else was)
    case _ => InState(parts, a.part, if a.end.Finished? then Dropped else Detached)
  }

  /** Which attempts a partition's state calls for; a detach that finished goes on to the drop. */
  predicate Suits(a: Attempt, was: PartState) {
    && (a.Detaching? ==> !a.end.Finished?)
    && match was
       case Pending => a.Detaching? || a.Dropping?
       case Attached => !a.Leftover?
       case Detached => a.Leftover?
       case Dropped => false
  }

  predicate Called(cfg: Config, p: Part, was: PartState, now: int) {
    was.Pending? || (!was.Dropped? && Expired(cfg, p, now))
  }

  predicate Answers(a: Attempt, p: Part, was: PartState, parts: map<Part, PartState>) {
    a.part == p && Suits(a, was) && Left(a, was, parts) && !a.Fatal()
  }

  /** What one pass over a family does with each partition it had: attempts it, when its state calls for that. */
  ghost predicate Settled(cfg: Config, p: Part, was: PartState, now: int, parts: map<Part, PartState>,
                          log: seq<Attempt>) {
    if Called(cfg, p, was, now) then exists a :: a in log && Answers(a, p, was, parts) else InState(parts, p, was)
  }

  ghost predicate SettledAll(cfg: Config, done: set<Part>, was: map<Part, PartState>, now: int,
                             parts: map<Part, PartState>, log: seq<Attempt>) {
    forall p :: p in done ==> p in was && Settled(cfg, p, was[p], now, parts, log)
  }

  lemma SettledStays(cfg: Config, p: Part, was: PartState, now: int, a: map<Part, PartState>, log: seq<Attempt>,
                     b: map<Part, PartState>, log': seq<Attempt>)
    requires Settled(cfg, p, was, now, a, log) && p in b && p in a && a[p] == b[p] && log <= log'
    ensures Settled(cfg, p, was, now, b, log')
  {
    if Called(cfg, p, was, now) {
      var x :| x in log && Answers(x, p, was, a);
      assert x in log' && Answers(x, p, was, b);
    }
  }

  function InFamily(parts: map<Part, PartState>, family: Family, state: PartState): set<Part> {
    set p | p in parts && p.family == family && parts[p] == state
  }

  function ExpiredIn(cfg: Config, parts: map<Part, PartState>, family: Family, state: PartState, now: int): set<Part> {
    set p | p in parts && p.family == family && parts[p] == state && Expired(cfg, p, now)
  }

  /** Each partition once, no younger one before an older. */
  ghost predicate OldestFirst(log: seq<Attempt>) {
    forall i, j :: 0 <= i < j < |log| ==> log[i].part != log[j].part && log[i].part.lo <= log[j].part.lo
  }

  function Tried(log: seq<Attempt>): set<Part> { set a | a in log :: a.part }

  lemma TriedInBoth(a: seq<Attempt>, b: seq<Attempt>)
    ensures Tried(a + b) == Tried(a) + Tried(b)
  {
    assert forall x :: x in a + b <==> x in a || x in b;
  }

  lemma TriedOneMore(log: seq<Attempt>, a: Attempt)
    ensures Tried(log + [a]) == Tried(log) + {a.part}
  {
    TriedInBoth(log, [a]);
    assert Tried([a]) == {a.part};
  }

  /** Attempts on the partitions of `done`, none younger than what is still to do. */
  ghost predicate InOrder(log: seq<Attempt>, done: set<Part>, todo: set<Part>) {
    OldestFirst(log) && done == Tried(log) && forall p, q :: p in done && q in todo ==> p.lo <= q.lo
  }

  lemma OneMoreInOrder(log: seq<Attempt>, done: set<Part>, todo: set<Part>, a: Attempt)
    requires InOrder(log, done, todo) && a.part in todo && done !! todo && forall q :: q in todo ==> a.part.lo <= q.lo
    ensures InOrder(log + [a], done + {a.part}, todo - {a.part})
  {
    TriedOneMore(log, a);
    forall i, j | 0 <= i < j < |log + [a]|
      ensures (log + [a])[i].part != (log + [a])[j].part && (log + [a])[i].part.lo <= (log + [a])[j].part.lo
    {
      assert log[i] in log;
    }
  }

  /** The three phases deal with every partition the family had, each in the phase its state called for. */
  lemma PhasesSettle(cfg: Config, family: Family, now: int, p0: map<Part, PartState>, p1: map<Part, PartState>,
                     p2: map<Part, PartState>, p3: map<Part, PartState>, s1: set<Part>, s2: set<Part>, s3: set<Part>,
                     l1: seq<Attempt>, l2: seq<Attempt>, l3: seq<Attempt>, p: Part)
    requires PartsFrame(p0, p1, s1) && PartsFrame(p1, p2, s2) && PartsFrame(p2, p3, s3)
    requires s1 == InFamily(p0, family, Pending) && s2 == ExpiredIn(cfg, p1, family, Attached, now)
    requires s3 == ExpiredIn(cfg, p2, family, Detached, now)
    requires SettledAll(cfg, s1, p0, now, p1, l1) && SettledAll(cfg, s2, p1, now, p2, l2)
    requires SettledAll(cfg, s3, p2, now, p3, l3) && l1 <= l2 <= l3
    requires p in p0 && p.family == family
    ensures Settled(cfg, p, p0[p], now, p3, l3)
  {
    assert p in p1 && p in p2;
    match p0[p] {
      case Pending =>
        assert p in s1 && Settled(cfg, p, Pending, now, p1, l1);
        SettledStays(cfg, p, Pending, now, p1, l1, p2, l2);
        SettledStays(cfg, p, Pending, now, p2, l2, p3, l3);
      case Attached =>
        if Expired(cfg, p, now) {
          assert p in s2 && Settled(cfg, p, Attached, now, p2, l2);
          SettledStays(cfg, p, Attached, now, p2, l2, p3, l3);
        }
      case Detached =>
        if Expired(cfg, p, now) {
          assert p in s3;
        }
      case Dropped =>
    }
  }

  /** Attempts of phase `i`, on partitions of the family: pending ones, expired live ones, or expired detached ones. */
  ghost predicate Belongs(cfg: Config, family: Family, now: int, was: map<Part, PartState>, parts: map<Part, PartState>,
                          i: nat, phase: seq<Attempt>)
    requires i < 3
  {
    forall a :: a in phase ==>
      && a.part in parts && a.part.family == family && (i > 0 ==> Expired(cfg, a.part, now))
      && Suits(a, [Pending, Attached, Detached][i])
      && (a.part in was ==> was[a.part] == [Pending, Attached, Detached][i])
  }

  /** Only this session acted, and on partitions there were. */
  ghost predicate Alone(a: Db, b: Db) {
    b == a.(parts := b.parts, cleared := b.cleared) && b.parts.Keys == a.parts.Keys
  }

  /** From one statement to another only `touched` changed state, and without others only this session acted. */
  ghost predicate Moves(a: Db, b: Db, touched: set<Part>, alone: bool) {
    PartsFrame(a.parts, b.parts, touched) && a.clock <= b.clock && (alone ==> Alone(a, b))
  }

  lemma MovesOn(a: Db, b: Db, c: Db, s: set<Part>, t: set<Part>, alone: bool)
    requires Moves(a, b, s, alone) && Moves(b, c, t, alone)
    ensures Moves(a, c, s + t, alone)
  {
  }

  /** What this session's own steps do to their partition, and to nothing else. */
  lemma OwnStep(cfg: Config, db: Db, a: Action)
    requires a.OfRetention()
    ensures Moves(db, Step(cfg, db, a), {a.part}, true)
    ensures a.Guard? ==>
              && Step(cfg, db, a).parts == db.parts
              && (Enabled(cfg, db, a) ==> a.part in Step(cfg, db, a).cleared)
    ensures !a.Guard? ==> Step(cfg, db, a).cleared == db.cleared
    ensures a.DetachBegin? && InState(db.parts, a.part, Attached) && a.part in db.cleared ==>
              InState(Step(cfg, db, a).parts, a.part, Pending)
    ensures a.DetachFinish? && InState(db.parts, a.part, Pending) ==> InState(Step(cfg, db, a).parts, a.part, Detached)
    ensures a.Drop? && InState(db.parts, a.part, Detached) ==> InState(Step(cfg, db, a).parts, a.part, Dropped)
  {
  }

  /** A phase under way: `done` of `all` attempted, oldest first, and dealt with unless the last attempt was fatal. */
  ghost predicate Ongoing(cfg: Config, now: int, v0: Db, v: Db, all: set<Part>, done: set<Part>, todo: set<Part>,
                          more: seq<Attempt>, log: seq<Attempt>, lost: bool, alone: bool) {
    && todo !! done && todo + done == all && Moves(v0, v, done, alone) && InOrder(more, done, todo)
    && AllSuit(v0, more) && SettledOrLost(cfg, now, v0, v, done, log, lost)
  }

  ghost predicate AllSuit(v0: Db, more: seq<Attempt>) {
    forall a :: a in more ==> a.part in v0.parts && Suits(a, v0.parts[a.part])
  }

  ghost predicate SettledOrLost(cfg: Config, now: int, v0: Db, v: Db, done: set<Part>, log: seq<Attempt>, lost: bool) {
    if lost then log != [] && log[|log| - 1].Fatal() else SettledAll(cfg, done, v0.parts, now, v.parts, log)
  }

  lemma SettleOneMore(cfg: Config, now: int, v0: Db, v: Db, v': Db, done: set<Part>, log: seq<Attempt>, a: Attempt)
    requires SettledAll(cfg, done, v0.parts, now, v.parts, log)
    requires PartsFrame(v0.parts, v.parts, done) && PartsFrame(v.parts, v'.parts, {a.part})
    requires a.part in v0.parts && a.part !in done && Called(cfg, a.part, v0.parts[a.part], now)
    requires Answers(a, a.part, v0.parts[a.part], v'.parts)
    ensures SettledAll(cfg, done + {a.part}, v0.parts, now, v'.parts, log + [a])
  {
    assert a in log + [a];
    forall q | q in done
      ensures q in v0.parts && Settled(cfg, q, v0.parts[q], now, v'.parts, log + [a])
    {
      assert q in v.parts;
      SettledStays(cfg, q, v0.parts[q], now, v.parts, log, v'.parts, log + [a]);
    }
  }

  lemma SettlesOrLoses(cfg: Config, now: int, v0: Db, v: Db, v': Db, done: set<Part>, log: seq<Attempt>, a: Attempt)
    requires SettledAll(cfg, done, v0.parts, now, v.parts, log)
    requires PartsFrame(v0.parts, v.parts, done) && PartsFrame(v.parts, v'.parts, {a.part})
    requires a.part in v0.parts && a.part !in done && Called(cfg, a.part, v0.parts[a.part], now)
    requires Suits(a, v0.parts[a.part]) && Left(a, v0.parts[a.part], v'.parts)
    ensures SettledOrLost(cfg, now, v0, v', done + {a.part}, log + [a], a.Fatal())
  {
    if !a.Fatal() {
      SettleOneMore(cfg, now, v0, v, v', done, log, a);
    }
  }

  lemma MoveOne(todo: set<Part>, done: set<Part>, all: set<Part>, p: Part)
    requires todo !! done && todo + done == all && p in todo
    ensures (todo - {p}) !! (done + {p}) && (todo - {p}) + (done + {p}) == all && |todo - {p}| < |todo|
  {
  }

  lemma OneMoreSuits(v0: Db, more: seq<Attempt>, a: Attempt)
    requires AllSuit(v0, more) && a.part in v0.parts && Suits(a, v0.parts[a.part])
    ensures AllSuit(v0, more + [a])
  {
  }

  lemma PhaseBegins(cfg: Config, now: int, v: Db, all: set<Part>, log: seq<Attempt>, alone: bool)
    ensures Ongoing(cfg, now, v, v, all, {}, all, [], log, false, alone)
  {
    assert Tried([]) == {};
  }

  lemma OneMoreDone(cfg: Config, now: int, v0: Db, v: Db, v': Db, all: set<Part>, done: set<Part>, todo: set<Part>,
                    more: seq<Attempt>, log: seq<Attempt>, alone: bool, a: Attempt)
    requires Ongoing(cfg, now, v0, v, all, done, todo, more, log, false, alone) && Moves(v, v', {a.part}, alone)
    requires a.part in todo && (forall q :: q in todo ==> a.part.lo <= q.lo)
    requires a.part in v0.parts && Called(cfg, a.part, v0.parts[a.part], now)
    requires Suits(a, v0.parts[a.part]) && Left(a, v0.parts[a.part], v'.parts)
    ensures Ongoing(cfg, now, v0, v', all, done + {a.part}, todo - {a.part}, more + [a], log + [a], a.Fatal(), alone)
    ensures |todo - {a.part}| < |todo|
  {
    OneMoreInOrder(more, done, todo, a);
    MoveOne(todo, done, all, a.part);
    OneMoreSuits(v0, more, a);
    MovesOn(v0, v, v', done, {a.part}, alone);
    SettlesOrLoses(cfg, now, v0, v, v', done, log, a);
  }

  lemma Snoc(a: seq<Attempt>, b: seq<Attempt>, x: Attempt)
    ensures a + b + [x] == a + (b + [x])
  {
  }

  /** A phase at its end. */
  ghost predicate Ended(cfg: Config, now: int, v0: Db, v: Db, all: set<Part>, done: set<Part>, more: seq<Attempt>,
                        log: seq<Attempt>, lost: bool, alone: bool) {
    && done <= all && (!lost ==> done == all) && Moves(v0, v, done, alone)
    && OldestFirst(more) && done == Tried(more) && AllSuit(v0, more)
    && SettledOrLost(cfg, now, v0, v, done, log, lost)
  }

  lemma PhaseEnds(cfg: Config, now: int, v0: Db, v: Db, all: set<Part>, done: set<Part>, todo: set<Part>,
                  more: seq<Attempt>, log: seq<Attempt>, lost: bool, alone: bool)
    requires Ongoing(cfg, now, v0, v, all, done, todo, more, log, lost, alone) && (todo == {} || lost)
    ensures Ended(cfg, now, v0, v, all, done, more, log, lost, alone)
  {
  }

  /** The log is three phases, each in order and on partitions that belong in it. */
  ghost predicate InPhases(cfg: Config, family: Family, now: int, v0: Db, v: Db, phases: seq<seq<Attempt>>,
                           log: seq<Attempt>) {
    && |phases| == 3 && log == phases[0] + phases[1] + phases[2]
    && forall i :: 0 <= i < 3 ==> OldestFirst(phases[i]) && Belongs(cfg, family, now, v0.parts, v.parts, i, phases[i])
  }

  /** What no attempt was on is as it was, other families' partitions with it. */
  ghost predicate Spares(family: Family, v0: Db, v: Db, log: seq<Attempt>, alone: bool) {
    && (forall p :: p in v0.parts && p !in Tried(log) ==> InState(v.parts, p, v0.parts[p]))
    && (forall p :: p in v0.parts && p.family != family ==> p in v.parts && v.parts[p] == v0.parts[p])
    && (alone ==> Alone(v0, v))
  }

  /** What a pass over a family leaves. */
  ghost predicate Passed(cfg: Config, family: Family, now: int, v0: Db, v: Db, phases: seq<seq<Attempt>>,
                         log: seq<Attempt>, lost: bool, alone: bool) {
    && InPhases(cfg, family, now, v0, v, phases, log) && Spares(family, v0, v, log, alone)
    && if lost then log != [] && log[|log| - 1].Fatal()
       else forall p :: p in v0.parts && p.family == family ==> Settled(cfg, p, v0.parts[p], now, v.parts, log)
  }

  lemma PhasesAre(cfg: Config, family: Family, now: int, v0: Db, v: Db, l1: seq<Attempt>, l2: seq<Attempt>,
                  l3: seq<Attempt>)
    requires OldestFirst(l1) && OldestFirst(l2) && OldestFirst(l3)
    requires Belongs(cfg, family, now, v0.parts, v.parts, 0, l1) && Belongs(cfg, family, now, v0.parts, v.parts, 1, l2)
    requires Belongs(cfg, family, now, v0.parts, v.parts, 2, l3)
    ensures InPhases(cfg, family, now, v0, v, [l1, l2, l3], l1 + l2 + l3)
  {
  }

  lemma TouchedAreTried(family: Family, v0: Db, v: Db, log: seq<Attempt>, touched: set<Part>, alone: bool)
    requires Moves(v0, v, touched, alone) && touched == Tried(log) && forall p :: p in touched ==> p.family == family
    ensures Spares(family, v0, v, log, alone)
  {
  }

  lemma EachIsTried(log: seq<Attempt>)
    ensures forall a :: a in log ==> a.part in Tried(log)
  {
  }

  lemma BelongsStays(cfg: Config, family: Family, now: int, was: map<Part, PartState>, a: map<Part, PartState>,
                     b: map<Part, PartState>, touched: set<Part>, i: nat, phase: seq<Attempt>)
    requires i < 3 && Belongs(cfg, family, now, was, a, i, phase) && PartsFrame(a, b, touched)
    ensures Belongs(cfg, family, now, was, b, i, phase)
  {
  }

  /** A pending partition the first phase dealt with is pending still, or dropped; the others are as they were. */
  lemma FirstLeaves(cfg: Config, family: Family, now: int, v0: Db, v1: Db, s1: set<Part>, l1: seq<Attempt>, alone: bool,
                    p: Part)
    requires Ended(cfg, now, v0, v1, InFamily(v0.parts, family, Pending), s1, l1, l1, false, alone) && p in v0.parts
    ensures if p in s1 then InState(v1.parts, p, Pending) || InState(v1.parts, p, PartState.Dropped)
            else InState(v1.parts, p, v0.parts[p])
  {
    if p in s1 {
      assert Settled(cfg, p, v0.parts[p], now, v1.parts, l1);
    }
  }

  /** A live partition the second phase dealt with is live still, pending or dropped; the others are as they were. */
  lemma SecondLeaves(cfg: Config, family: Family, now: int, v1: Db, v2: Db, s2: set<Part>, l2: seq<Attempt>,
                     log: seq<Attempt>, alone: bool, p: Part)
    requires Ended(cfg, now, v1, v2, ExpiredIn(cfg, v1.parts, family, Attached, now), s2, l2, log, false, alone)
    requires p in v1.parts
    ensures if p in s2 then p in v2.parts && !v2.parts[p].Detached? else InState(v2.parts, p, v1.parts[p])
  {
    if p in s2 {
      assert Settled(cfg, p, v1.parts[p], now, v2.parts, log);
    }
  }

  lemma FirstBelongs(cfg: Config, family: Family, now: int, v0: Db, v1: Db, s1: set<Part>, l1: seq<Attempt>, lost: bool,
                     alone: bool)
    requires Ended(cfg, now, v0, v1, InFamily(v0.parts, family, Pending), s1, l1, l1, lost, alone)
    ensures Belongs(cfg, family, now, v0.parts, v1.parts, 0, l1)
  {
    EachIsTried(l1);
  }

  lemma SecondBelongs(cfg: Config, family: Family, now: int, v0: Db, v1: Db, v2: Db, s1: set<Part>, s2: set<Part>,
                      l1: seq<Attempt>, l2: seq<Attempt>, log: seq<Attempt>, lost: bool, alone: bool)
    requires Ended(cfg, now, v0, v1, InFamily(v0.parts, family, Pending), s1, l1, l1, false, alone)
    requires Ended(cfg, now, v1, v2, ExpiredIn(cfg, v1.parts, family, Attached, now), s2, l2, log, lost, alone)
    ensures Belongs(cfg, family, now, v0.parts, v2.parts, 1, l2)
  {
    EachIsTried(l2);
    forall a | a in l2 && a.part in v0.parts
      ensures v0.parts[a.part] == Attached
    {
      FirstLeaves(cfg, family, now, v0, v1, s1, l1, alone, a.part);
    }
  }

  lemma ThirdBelongs(cfg: Config, family: Family, now: int, v0: Db, v1: Db, v2: Db, v3: Db, s1: set<Part>,
                     s2: set<Part>, s3: set<Part>, l1: seq<Attempt>, l2: seq<Attempt>, l3: seq<Attempt>,
                     log2: seq<Attempt>, log3: seq<Attempt>, lost: bool, alone: bool)
    requires Ended(cfg, now, v0, v1, InFamily(v0.parts, family, Pending), s1, l1, l1, false, alone)
    requires Ended(cfg, now, v1, v2, ExpiredIn(cfg, v1.parts, family, Attached, now), s2, l2, log2, false, alone)
    requires Ended(cfg, now, v2, v3, ExpiredIn(cfg, v2.parts, family, Detached, now), s3, l3, log3, lost, alone)
    ensures Belongs(cfg, family, now, v0.parts, v3.parts, 2, l3)
  {
    EachIsTried(l3);
    forall a | a in l3 && a.part in v0.parts
      ensures v0.parts[a.part] == Detached
    {
      SecondLeaves(cfg, family, now, v1, v2, s2, l2, log2, alone, a.part);
      FirstLeaves(cfg, family, now, v0, v1, s1, l1, alone, a.part);
    }
  }

  lemma LostInFirst(cfg: Config, family: Family, now: int, v0: Db, v1: Db, s1: set<Part>, l1: seq<Attempt>, alone: bool)
    requires Ended(cfg, now, v0, v1, InFamily(v0.parts, family, Pending), s1, l1, l1, true, alone)
    ensures Passed(cfg, family, now, v0, v1, [l1, [], []], l1, true, alone)
  {
    FirstBelongs(cfg, family, now, v0, v1, s1, l1, true, alone);
    PhasesAre(cfg, family, now, v0, v1, l1, [], []);
    TouchedAreTried(family, v0, v1, l1, s1, alone);
    assert l1 + [] + [] == l1;
  }

  lemma LostInSecond(cfg: Config, family: Family, now: int, v0: Db, v1: Db, v2: Db, s1: set<Part>, s2: set<Part>,
                     l1: seq<Attempt>, l2: seq<Attempt>, alone: bool)
    requires Ended(cfg, now, v0, v1, InFamily(v0.parts, family, Pending), s1, l1, l1, false, alone)
    requires Ended(cfg, now, v1, v2, ExpiredIn(cfg, v1.parts, family, Attached, now), s2, l2, l1 + l2, true, alone)
    ensures Passed(cfg, family, now, v0, v2, [l1, l2, []], l1 + l2, true, alone)
  {
    FirstBelongs(cfg, family, now, v0, v1, s1, l1, false, alone);
    BelongsStays(cfg, family, now, v0.parts, v1.parts, v2.parts, s2, 0, l1);
    SecondBelongs(cfg, family, now, v0, v1, v2, s1, s2, l1, l2, l1 + l2, true, alone);
    MovesOn(v0, v1, v2, s1, s2, alone);
    PhasesAre(cfg, family, now, v0, v2, l1, l2, []);
    TriedInBoth(l1, l2);
    TouchedAreTried(family, v0, v2, l1 + l2, s1 + s2, alone);
    assert l1 + l2 + [] == l1 + l2;
  }

  lemma AllSettle(cfg: Config, family: Family, now: int, v0: Db, v1: Db, v2: Db, v3: Db, s1: set<Part>, s2: set<Part>,
                  s3: set<Part>, l1: seq<Attempt>, l2: seq<Attempt>, l3: seq<Attempt>, alone: bool)
    requires Ended(cfg, now, v0, v1, InFamily(v0.parts, family, Pending), s1, l1, l1, false, alone)
    requires Ended(cfg, now, v1, v2, ExpiredIn(cfg, v1.parts, family, Attached, now), s2, l2, l1 + l2, false, alone)
    requires Ended(cfg, now, v2, v3, ExpiredIn(cfg, v2.parts, family, Detached, now), s3, l3, l1 + l2 + l3, false,
                   alone)
    ensures forall p :: p in v0.parts && p.family == family ==>
              Settled(cfg, p, v0.parts[p], now, v3.parts, l1 + l2 + l3)
  {
    forall p | p in v0.parts && p.family == family
      ensures Settled(cfg, p, v0.parts[p], now, v3.parts, l1 + l2 + l3)
    {
      PhasesSettle(cfg, family, now, v0.parts, v1.parts, v2.parts, v3.parts, s1, s2, s3, l1, l1 + l2, l1 + l2 + l3, p);
    }
  }

  lemma ThreePhases(cfg: Config, family: Family, now: int, v0: Db, v1: Db, v2: Db, v3: Db, s1: set<Part>, s2: set<Part>,
                    s3: set<Part>, l1: seq<Attempt>, l2: seq<Attempt>, l3: seq<Attempt>, lost: bool, alone: bool)
    requires Ended(cfg, now, v0, v1, InFamily(v0.parts, family, Pending), s1, l1, l1, false, alone)
    requires Ended(cfg, now, v1, v2, ExpiredIn(cfg, v1.parts, family, Attached, now), s2, l2, l1 + l2, false, alone)
    requires Ended(cfg, now, v2, v3, ExpiredIn(cfg, v2.parts, family, Detached, now), s3, l3, l1 + l2 + l3, lost, alone)
    ensures Passed(cfg, family, now, v0, v3, [l1, l2, l3], l1 + l2 + l3, lost, alone)
  {
    FirstBelongs(cfg, family, now, v0, v1, s1, l1, false, alone);
    BelongsStays(cfg, family, now, v0.parts, v1.parts, v2.parts, s2, 0, l1);
    BelongsStays(cfg, family, now, v0.parts, v2.parts, v3.parts, s3, 0, l1);
    SecondBelongs(cfg, family, now, v0, v1, v2, s1, s2, l1, l2, l1 + l2, false, alone);
    BelongsStays(cfg, family, now, v0.parts, v2.parts, v3.parts, s3, 1, l2);
    ThirdBelongs(cfg, family, now, v0, v1, v2, v3, s1, s2, s3, l1, l2, l3, l1 + l2, l1 + l2 + l3, lost, alone);
    MovesOn(v0, v1, v2, s1, s2, alone);
    MovesOn(v0, v2, v3, s1 + s2, s3, alone);
    PhasesAre(cfg, family, now, v0, v3, l1, l2, l3);
    TriedInBoth(l1, l2);
    TriedInBoth(l1 + l2, l3);
    TouchedAreTried(family, v0, v3, l1 + l2 + l3, s1 + s2 + s3, alone);
    if !lost {
      AllSettle(cfg, family, now, v0, v1, v2, v3, s1, s2, s3, l1, l2, l3, alone);
    }
  }

  /** A partition that was live goes only past the setting of its own family, however the pass ends. */
  ghost predicate KeepsItsDays(cfg: Config, now: int, was: map<Part, PartState>, parts: map<Part, PartState>) {
    forall p :: InState(was, p, Attached) ==> InState(parts, p, Attached) || PastItsOwn(cfg, p, now)
  }

  lemma PassKeepsItsDays(cfg: Config, family: Family, now: int, v0: Db, v: Db, phases: seq<seq<Attempt>>,
                         log: seq<Attempt>, lost: bool, alone: bool)
    requires Passed(cfg, family, now, v0, v, phases, log, lost, alone)
    ensures KeepsItsDays(cfg, now, v0.parts, v.parts)
  {
    forall p | InState(v0.parts, p, Attached) && p in Tried(log)
      ensures PastItsOwn(cfg, p, now)
    {
      var a :| a in log && a.part == p;
      var i :| 0 <= i < 3 && a in phases[i];
      assert Belongs(cfg, family, now, v0.parts, v.parts, i, phases[i]);
      ExpiredIsPastItsOwn(cfg, p, now);
    }
  }

  /** Dropped are those left pending and those past the setting of their own family, and no others. */
  ghost predicate DropsExactly(cfg: Config, family: Family, now: int, was: map<Part, PartState>,
                               parts: map<Part, PartState>) {
    forall p :: p in was && p.family == family ==>
      (InState(parts, p, Dropped) <==> was[p].Dropped? || was[p].Pending? || PastItsOwn(cfg, p, now))
  }

  /** Where no statement fails and no guard keeps anything back, an attempt ends in the drop. */
  lemma EndsInDrop(result: RetentionResult, log: seq<Attempt>, script: seq<Outcome>, a: Attempt, was: PartState)
    requires LogSays(result, log, [], script, []) && result.blocked == [] && a in log && Suits(a, was)
    ensures (a.Dropping? || a.Leftover?) && a.end.Finished?
  {
    ReportedForCause(log, a.part);
    AllFinish(result, log, script);
    if !a.Kept? {
      EndsAreIn(log, a, a.end);
    }
  }

  lemma AllFinish(result: RetentionResult, log: seq<Attempt>, script: seq<Outcome>)
    requires LogSays(result, log, [], script, [])
    ensures forall e :: e in AllEnds(log) ==> e == Finished
  {
    assert AllEnds(log) + [] == AllEnds(log);
  }

  lemma PassDropsExactly(cfg: Config, family: Family, now: int, v0: Db, v: Db, phases: seq<seq<Attempt>>,
                         result: RetentionResult, log: seq<Attempt>, script: seq<Outcome>, alone: bool)
    requires Passed(cfg, family, now, v0, v, phases, log, false, alone)
    requires LogSays(result, log, [], script, []) && result.blocked == []
    ensures DropsExactly(cfg, family, now, v0.parts, v.parts)
  {
    forall p | p in v0.parts && p.family == family
      ensures InState(v.parts, p, Dropped) <==> v0.parts[p].Dropped? || v0.parts[p].Pending? || PastItsOwn(cfg, p, now)
    {
      ExpiredIsPastItsOwn(cfg, p, now);
      assert Settled(cfg, p, v0.parts[p], now, v.parts, log);
      if Called(cfg, p, v0.parts[p], now) {
        var a :| a in log && Answers(a, p, v0.parts[p], v.parts);
        EndsInDrop(result, log, script, a, v0.parts[p]);
      }
    }
  }

  lemma StillWasBlocked(cfg: Config, start: Db, earlier: seq<Action>, steps: seq<Action>, p: Part)
    requires earlier <= steps && WasBlocked(cfg, start, earlier, p)
    ensures WasBlocked(cfg, start, steps, p)
  {
    var n :| 0 <= n <= |earlier|
          && p in Run(cfg, start, earlier[..n]).parts && Blocked(Run(cfg, start, earlier[..n]), p);
    assert steps[..n] == earlier[..n];
  }

  lemma FoundBlocked(cfg: Config, start: Db, steps: seq<Action>, p: Part)
    requires p in Run(cfg, start, steps).parts && Blocked(Run(cfg, start, steps), p)
    ensures WasBlocked(cfg, start, steps, p)
  {
    assert steps[..|steps|] == steps;
  }

  class Retention {
    const db: Database
    var result: RetentionResult
    var script: seq<Outcome>
    var env: seq<seq<Action>>
    /** The steps taken by anyone since `start`. */
    ghost var start: Db
    ghost var trace: seq<Action>
    /** The script as it was, and what has been done about each partition come to. */
    ghost var plan: seq<Outcome>
    ghost var log: seq<Attempt>

    /** `script` is how each DDL statement ends, `env` what other sessions do before each of ours. */
    constructor (db: Database, script: seq<Outcome>, env: seq<seq<Action>>)
      ensures this.db == db && result == RetentionResult([], [], []) && this.script == script && this.env == env
    {
      this.db, this.script, this.env := db, script, env;
      result := RetentionResult([], [], []);
      start, trace, plan, log := db.View(), [], script, [];
    }

    ghost predicate Traced()
      reads this, db
    {
      db.View() == Run(db.cfg, start, trace)
    }

    ghost predicate Logged(extra: seq<Outcome>)
      reads this
    {
      LogSays(result, log, plan, script, extra)
    }

    /** Other sessions act before the next statement. */
    method Gap()
      requires Traced()
      modifies this`env, this`trace, db
      ensures Traced() && old(trace) <= trace && (old(env) == [] ==> env == [])
      ensures Moves(old(db.View()), db.View(), {}, old(env) == []) && db.cleared == old(db.cleared)
    {
      if env != [] {
        OthersSpareRetention(db.cfg, db.View(), env[0]);
        RunConcat(db.cfg, start, trace, Others(env[0], RetentionSession));
        db.Interleave(env[0], RetentionSession);
        trace := trace + Others(env[0], RetentionSession);
        env := env[1..];
      }
    }

    method NextOutcome(ghost extra: seq<Outcome>) returns (o: Outcome)
      requires Logged(extra)
      modifies this`script
      ensures Logged(extra + [o])
    {
      OneMoreEnd(result, log, plan, script, extra);
      o := Head(script);
      script := Tail(script);
    }

    /** Reports what came of a partition. */
    method Report(a: Attempt)
      requires Logged(a.Ends())
      modifies this`result, this`log
      ensures Logged([]) && log == old(log) + [a] && result == Reported(old(result), a)
    {
      OneMoreAttempt(result, log, plan, script, a);
      result := match a
        case Kept(p) => result.(blocked := result.blocked + [p])
        case Detaching(p, e) => if e.TimedOut? then result.(deferred := result.deferred + [p]) else result
        case _ => if a.end.Finished? then result.(dropped := result.dropped + [a.part]) else result;
      log := log + [a];
    }

    /** One of this session's own steps. */
    method Do(a: Action)
      requires Traced() && a.OfRetention()
      modifies this`trace, db
      ensures Traced() && old(trace) <= trace && db.View() == Step(db.cfg, old(db.View()), a)
      ensures Moves(old(db.View()), db.View(), {a.part}, true)
    {
      assert (trace + [a])[..|trace|] == trace;
      OwnStep(db.cfg, db.View(), a);
      db.Execute(a);
      trace := trace + [a];
    }

    /** `DROP TABLE IF EXISTS` of a detached partition. */
    method DropTable(p: Part, ghost extra: seq<Outcome>) returns (o: Outcome)
      requires Traced() && InState(db.parts, p, Detached) && Logged(extra)
      modifies this`env, this`script, this`trace, db
      ensures Traced() && old(trace) <= trace && (old(env) == [] ==> env == []) && Logged(extra + [o])
      ensures Moves(old(db.View()), db.View(), {p}, old(env) == [])
      ensures InState(db.parts, p, if o.Finished? then PartState.Dropped else PartState.Detached)
    {
      ghost var v0, alone := db.View(), env == [];
      Gap();
      ghost var v1 := db.View();
      o := NextOutcome(extra);
      if o.Finished? {
        OwnStep(db.cfg, v1, Action.Drop(p));
        Do(Action.Drop(p));
        MovesOn(v0, v1, db.View(), {}, {p}, alone);
      }
    }

    /** Drops a partition, just detached or found so, and reports it. */
    method DropPart(p: Part, detached: bool) returns (lost: bool, ghost a: Attempt)
      requires Traced() && InState(db.parts, p, Detached) && Logged(if detached then [Finished] else [])
      modifies this`env, this`script, this`result, this`trace, this`log, db
      ensures Traced() && old(trace) <= trace && (old(env) == [] ==> env == [])
      ensures Moves(old(db.View()), db.View(), {p}, old(env) == [])
      ensures Logged([]) && log == old(log) + [a] && result.blocked == old(result.blocked)
      ensures a.part == p && (if detached then a.Dropping? else a.Leftover?) && lost == a.Fatal()
      ensures forall was :: Left(a, was, db.parts)
    {
      var o := DropTable(p, if detached then [Finished] else []);
      lost := !o.Finished?;
      var b := if detached then Dropping(p, o) else Leftover(p, o);
      assert (if detached then [Finished] else []) + [o] == b.Ends();
      Report(b);
      a := b;
    }

    /** `DETACH PARTITION`: `CONCURRENTLY` marks the partition pending first, `FINALIZE` finds it marked. */
    method Detach(p: Part) returns (o: Outcome)
      requires Traced() && (InState(db.parts, p, Pending) || (InState(db.parts, p, Attached) && p in db.cleared))
      requires Logged([])
      modifies this`env, this`script, this`trace, db
      ensures Traced() && old(trace) <= trace && (old(env) == [] ==> env == []) && Logged([o])
      ensures Moves(old(db.View()), db.View(), {p}, old(env) == [])
      ensures InState(db.parts, p, if o.Finished? then Detached else if o.marked then Pending else old(db.parts)[p])
    {
      ghost var v0, alone := db.View(), env == [];
      Gap();
      ghost var v1 := db.View();
      o := NextOutcome([]);
      assert [] + [o] == [o];
      if db.parts[p].Attached? && (o.Finished? || o.marked) {
        OwnStep(db.cfg, v1, DetachBegin(p));
        Do(DetachBegin(p));
      }
      MovesOn(v0, v1, db.View(), {}, {p}, alone);
      if o.Finished? {
        FinishDetach(p, v0, alone);
      }
    }

    /** The second half of a detach, others having acted since the first. */
    method FinishDetach(p: Part, ghost v0: Db, ghost alone: bool)
      requires Traced() && InState(db.parts, p, Pending) && Moves(v0, db.View(), {p}, alone) && (alone ==> env == [])
      modifies this`env, this`trace, db
      ensures Traced() && old(trace) <= trace && (old(env) == [] ==> env == [])
      ensures Moves(v0, db.View(), {p}, alone) && InState(db.parts, p, Detached)
    {
      ghost var v1 := db.View();
      Gap();
      ghost var v2 := db.View();
      MovesOn(v0, v1, v2, {p}, {}, alone);
      OwnStep(db.cfg, v2, DetachFinish(p));
      Do(DetachFinish(p));
      MovesOn(v0, v2, db.View(), {p}, {p}, alone);
    }

    /** A detach that does not finish defers the partition; a lost session ends the pass. */
    method DetachAndDrop(p: Part) returns (lost: bool, ghost a: Attempt)
      requires Traced() && (InState(db.parts, p, Pending) || (InState(db.parts, p, Attached) && p in db.cleared))
      requires Logged([])
      modifies this`env, this`script, this`result, this`trace, this`log, db
      ensures Traced() && old(trace) <= trace && (old(env) == [] ==> env == [])
      ensures Moves(old(db.View()), db.View(), {p}, old(env) == [])
      ensures Logged([]) && log == old(log) + [a] && result.blocked == old(result.blocked)
      ensures a.part == p && (a.Detaching? || a.Dropping?) && lost == a.Fatal()
      ensures Suits(a, old(db.parts)[p]) && Left(a, old(db.parts)[p], db.parts)
    {
      ghost var v0, alone := db.View(), env == [];
      var o := Detach(p);
      if o.Finished? {
        ghost var v1 := db.View();
        lost, a := DropPart(p, true);
        MovesOn(v0, v1, db.View(), {p}, {p}, alone);
      } else {
        lost := o.SessionLost?;
        Report(Detaching(p, o));
        a := Detaching(p, o);
      }
    }

    ghost predicate BlockedOnly()
      reads this, db
    {
      forall p :: p in result.blocked ==> WasBlocked(db.cfg, start, trace, p)
    }

    lemma BlockedStays(blocked: seq<Part>, earlier: seq<Action>)
      requires earlier <= trace && forall p :: p in blocked ==> WasBlocked(db.cfg, start, earlier, p)
      ensures forall p :: p in blocked ==> WasBlocked(db.cfg, start, trace, p)
    {
      forall p | p in blocked
        ensures WasBlocked(db.cfg, start, trace, p)
      {
        StillWasBlocked(db.cfg, start, earlier, trace, p);
      }
    }

    /** First, detaches left pending are finished; their partitions were cleared before. */
    method Recover(family: Family, now: int) returns (lost: bool, ghost done: set<Part>)
      requires Traced() && Logged([]) && log == [] && result.blocked == []
      modifies this`env, this`script, this`result, this`trace, this`log, db
      ensures Traced() && Logged([]) && result.blocked == [] && (old(env) == [] ==> env == [])
      ensures Ended(db.cfg, now, old(db.View()), db.View(), InFamily(old(db.parts), family, Pending), done, log, log,
                    lost, old(env) == [])
    {
      ghost var v0, alone := db.View(), env == [];
      var todo := InFamily(db.parts, family, Pending);
      ghost var all := todo;
      done, lost := {}, false;
      PhaseBegins(db.cfg, now, v0, all, log, alone);
      while todo != {} && !lost
        invariant Traced() && Logged([]) && result.blocked == [] && (alone ==> env == [])
        invariant Ongoing(db.cfg, now, v0, db.View(), all, done, todo, log, log, lost, alone)
        decreases |todo|
      {
        var p := Oldest(todo);
        ghost var v, before := db.View(), log;
        ghost var a;
        lost, a := DetachAndDrop(p);
        OneMoreDone(db.cfg, now, v0, v, db.View(), all, done, todo, before, before, alone, a);
        todo, done := todo - {p}, done + {p};
      }
      PhaseEnds(db.cfg, now, v0, db.View(), all, done, todo, log, log, lost, alone);
    }

    /** Guard, then detach and drop. */
    method ExpireOne(p: Part, now: int) returns (lost: bool, ghost a: Attempt)
      requires Traced() && InState(db.parts, p, Attached) && Expired(db.cfg, p, now) && now <= db.clock
      requires BlockedOnly() && Logged([])
      modifies this`env, this`script, this`result, this`trace, this`log, db
      ensures Traced() && BlockedOnly() && (old(env) == [] ==> env == [])
      ensures Moves(old(db.View()), db.View(), {p}, old(env) == [])
      ensures Logged([]) && log == old(log) + [a] && lost == a.Fatal()
      ensures a.part == p && Suits(a, Attached) && Left(a, Attached, db.parts)
    {
      ghost var was, trace0, v0, alone := result.blocked, trace, db.View(), env == [];
      Gap();
      if Blocked(db.View(), p) {
        FoundBlocked(db.cfg, start, trace, p);
        lost := false;
        Report(Kept(p));
        a := Kept(p);
      } else {
        lost, a := Clear(p, now, v0, alone);
      }
      BlockedStays(was, trace0);
    }

    /** What the guard lets go is detached and dropped. */
    method Clear(p: Part, now: int, ghost v0: Db, ghost alone: bool) returns (lost: bool, ghost a: Attempt)
      requires Traced() && InState(db.parts, p, Attached) && Expired(db.cfg, p, now) && now <= db.clock
      requires Logged([]) && !Blocked(db.View(), p) && Moves(v0, db.View(), {}, alone) && (alone ==> env == [])
      modifies this`env, this`script, this`result, this`trace, this`log, db
      ensures Traced() && old(trace) <= trace && (old(env) == [] ==> env == [])
      ensures Moves(v0, db.View(), {p}, alone)
      ensures Logged([]) && log == old(log) + [a] && result.blocked == old(result.blocked)
      ensures a.part == p && (a.Detaching? || a.Dropping?) && lost == a.Fatal()
      ensures Suits(a, Attached) && Left(a, Attached, db.parts)
    {
      ghost var v1 := db.View();
      OwnStep(db.cfg, v1, Guard(p, now));
      Do(Guard(p, now));
      ghost var v2 := db.View();
      MovesOn(v0, v1, v2, {}, {p}, alone);
      lost, a := DetachAndDrop(p);
      MovesOn(v0, v2, db.View(), {p}, {p}, alone);
    }

    /** Then expired live partitions, oldest first. */
    method Expire(family: Family, now: int) returns (lost: bool, ghost done: set<Part>, ghost more: seq<Attempt>)
      requires Traced() && now <= db.clock && Logged([]) && result.blocked == []
      modifies this`env, this`script, this`result, this`trace, this`log, db
      ensures Traced() && BlockedOnly() && Logged([]) && log == old(log) + more && (old(env) == [] ==> env == [])
      ensures Ended(db.cfg, now, old(db.View()), db.View(), ExpiredIn(db.cfg, old(db.parts), family, Attached, now),
                    done, more, log, lost, old(env) == [])
    {
      ghost var v0, log0, alone := db.View(), log, env == [];
      var todo := ExpiredIn(db.cfg, db.parts, family, Attached, now);
      ghost var all := todo;
      done, lost, more := {}, false, [];
      PhaseBegins(db.cfg, now, v0, all, log, alone);
      while todo != {} && !lost
        invariant Traced() && BlockedOnly() && Logged([]) && log == log0 + more && (alone ==> env == [])
        invariant Ongoing(db.cfg, now, v0, db.View(), all, done, todo, more, log, lost, alone)
        decreases |todo|
      {
        var p := Oldest(todo);
        ghost var v, before := db.View(), log;
        ghost var a;
        lost, a := ExpireOne(p, now);
        OneMoreDone(db.cfg, now, v0, v, db.View(), all, done, todo, more, before, alone, a);
        Snoc(log0, more, a);
        todo, done, more := todo - {p}, done + {p}, more + [a];
      }
      PhaseEnds(db.cfg, now, v0, db.View(), all, done, todo, more, log, lost, alone);
    }

    /** Last, what a crash between detach and drop left detached. */
    method DropLeftovers(family: Family, now: int) returns (lost: bool, ghost done: set<Part>, ghost more: seq<Attempt>)
      requires Traced() && Logged([])
      modifies this`env, this`script, this`result, this`trace, this`log, db
      ensures Traced() && old(trace) <= trace && Logged([]) && log == old(log) + more && (old(env) == [] ==> env == [])
      ensures result.blocked == old(result.blocked)
      ensures Ended(db.cfg, now, old(db.View()), db.View(), ExpiredIn(db.cfg, old(db.parts), family, Detached, now),
                    done, more, log, lost, old(env) == [])
    {
      ghost var v0, log0, trace0, alone := db.View(), log, trace, env == [];
      ghost var blocked := result.blocked;
      var todo := ExpiredIn(db.cfg, db.parts, family, Detached, now);
      ghost var all := todo;
      done, lost, more := {}, false, [];
      PhaseBegins(db.cfg, now, v0, all, log, alone);
      while todo != {} && !lost
        invariant Traced() && trace0 <= trace && Logged([]) && log == log0 + more && (alone ==> env == [])
        invariant result.blocked == blocked
        invariant Ongoing(db.cfg, now, v0, db.View(), all, done, todo, more, log, lost, alone)
        decreases |todo|
      {
        var p := Oldest(todo);
        ghost var v, before := db.View(), log;
        ghost var a;
        lost, a := DropPart(p, false);
        OneMoreDone(db.cfg, now, v0, v, db.View(), all, done, todo, more, before, alone, a);
        Snoc(log0, more, a);
        todo, done, more := todo - {p}, done + {p}, more + [a];
      }
      PhaseEnds(db.cfg, now, v0, db.View(), all, done, todo, more, log, lost, alone);
    }

    method Oldest(todo: set<Part>) returns (p: Part)
      requires todo != {}
      ensures p in todo && forall q :: q in todo ==> p.lo <= q.lo
    {
      p :| p in todo;
      var rest := todo - {p};
      while rest != {}
        invariant p in todo && rest <= todo && forall q :: q in todo - rest ==> p.lo <= q.lo
      {
        var q :| q in rest;
        if q.lo < p.lo {
          p := q;
        }
        rest := rest - {q};
      }
    }

    /**
     * One pass over a family with the lock held: every partition the family had is attempted as its state calls for, or
     * left as it was. The report is of those attempts: dropped, kept by the guard, or deferred by a detach of its own
     * that timed out. A lost session ends the pass early and breaks nothing.
     */
    method RunFamily(family: Family, now: int) returns (lost: bool, ghost phases: seq<seq<Attempt>>)
      requires Inv(db.cfg, db.View()) && now <= db.clock && result == RetentionResult([], [], [])
      modifies this, db
      ensures start == old(db.View()) && Traced() && Inv(db.cfg, db.View())
      ensures BlockedOnly()
      ensures plan == old(script) && Logged([])
      ensures Passed(db.cfg, family, now, old(db.View()), db.View(), phases, log, lost, old(env) == [])
      ensures old(script) == [] ==> !lost && result.deferred == []
      ensures KeepsItsDays(db.cfg, now, old(db.parts), db.parts)
      ensures old(script) == [] && result.blocked == [] ==>
                DropsExactly(db.cfg, family, now, old(db.parts), db.parts)
    {
      start, trace, plan, log := db.View(), [], script, [];
      lost, phases := Phases(family, now);
      RunKeepsInv(db.cfg, start, trace);
      PassKeepsItsDays(db.cfg, family, now, start, db.View(), phases, log, lost, old(env) == []);
      if plan == [] {
        NothingFails(result, log, script);
        if result.blocked == [] {
          PassDropsExactly(db.cfg, family, now, start, db.View(), phases, result, log, script, old(env) == []);
        }
      }
    }

    method Phases(family: Family, now: int) returns (lost: bool, ghost phases: seq<seq<Attempt>>)
      requires Traced() && now <= db.clock && result == RetentionResult([], [], []) && log == [] && plan == script
      modifies this`env, this`script, this`result, this`trace, this`log, db
      ensures Traced() && BlockedOnly() && Logged([])
      ensures Passed(db.cfg, family, now, old(db.View()), db.View(), phases, log, lost, old(env) == [])
    {
      ghost var v0, alone := db.View(), env == [];
      ghost var s1, s2, s3, l2, l3;
      lost, s1 := Recover(family, now);
      ghost var v1, l1 := db.View(), log;
      if lost {
        phases := [l1, [], []];
        LostInFirst(db.cfg, family, now, v0, v1, s1, l1, alone);
        return;
      }
      lost, s2, l2 := Expire(family, now);
      ghost var v2, trace2 := db.View(), trace;
      if lost {
        phases := [l1, l2, []];
        LostInSecond(db.cfg, family, now, v0, v1, v2, s1, s2, l1, l2, alone);
        return;
      }
      lost, s3, l3 := DropLeftovers(family, now);
      phases := [l1, l2, l3];
      BlockedStays(result.blocked, trace2);
      ThreePhases(db.cfg, family, now, v0, v1, v2, db.View(), s1, s2, s3, l1, l2, l3, lost, alone);
    }
  }
}
