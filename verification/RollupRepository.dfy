/** The rollup pass, statement by statement, with every other session free to act between two statements. */
module RollupRepository {
  import opened Wrappers
  import opened Calendar
  import opened Aggregate
  import opened Warehouse

  datatype RollupPass = RollupPass(skipped: bool, folded: nat, lagMs: int)

  datatype PassFailure = StatementFailed | NoPartitionFound

  /** The session holding the lock on the state row, the one holding the retention lock, or one holding neither. */
  datatype Session = RollupSession | RetentionSession | Reader

  predicate Owns(s: Session, a: Action) {
    match s
    case RollupSession => a.OfPass()
    case RetentionSession => a.OfRetention()
    case Reader => false
  }

  /** What sessions other than `s` do among `steps`: the lock `s` holds keeps its own steps to itself. */
  function Others(steps: seq<Action>, s: Session): seq<Action> {
    if steps == [] then []
    else
      var rest, a := Others(steps[..|steps| - 1], s), steps[|steps| - 1];
      if Owns(s, a) then rest else rest + [a]
  }

  function At(env: seq<seq<Action>>, gap: nat): seq<Action> {
    if gap < |env| then env[gap] else []
  }

  /** The transactions with a row a query on `probe_results` returns. */
  function VisibleXids(db: Db): nat -> bool {
    (x: nat) => exists r :: r in db.rows && r.xid == x && Visible(db, r)
  }

  /** `SELECT DISTINCT insert_xid ... ORDER BY insert_xid`. */
  function DistinctXids(has: nat -> bool, lower: nat, upper: nat): (xs: seq<nat>)
    ensures forall i :: 0 <= i < |xs| ==> lower + i <= xs[i] < upper && has(xs[i])
    decreases upper - lower
  {
    if lower >= upper then []
    else (if has(lower) then [lower] else []) + DistinctXids(has, lower + 1, upper)
  }

  /** `OFFSET n LIMIT 1`. */
  function NthXid(has: nat -> bool, lower: nat, upper: nat, n: nat): Option<nat> {
    var xs := DistinctXids(has, lower, upper);
    if n < |xs| then Some(xs[n]) else None
  }

  /** A batch that ends at the n-th transaction is exactly the n whole transactions before it. */
  lemma {:induction false} BatchIsWholeTransactions(has: nat -> bool, lower: nat, upper: nat, n: nat)
    requires NthXid(has, lower, upper, n).Some?
    ensures var end := NthXid(has, lower, upper, n).value;
            lower + n <= end < upper && DistinctXids(has, lower, end) == DistinctXids(has, lower, upper)[..n]
    decreases upper - lower
  {
    var rest := DistinctXids(has, lower + 1, upper);
    if !has(lower) {
      SkipsXid(has, lower, upper);
      BatchIsWholeTransactions(has, lower + 1, upper, n);
      SkipsXid(has, lower, NthXid(has, lower, upper, n).value);
    } else if n == 0 {
      TakesXid(has, lower, upper);
      assert DistinctXids(has, lower, lower) == [];
    } else {
      TakesXid(has, lower, upper);
      PrefixOfCons(lower, rest, n);
      BatchIsWholeTransactions(has, lower + 1, upper, n - 1);
      TakesXid(has, lower, NthXid(has, lower, upper, n).value);
    }
  }

  lemma SkipsXid(has: nat -> bool, lower: nat, upper: nat)
    requires !has(lower) && lower < upper
    ensures DistinctXids(has, lower, upper) == DistinctXids(has, lower + 1, upper)
  {
  }

  lemma TakesXid(has: nat -> bool, lower: nat, upper: nat)
    requires has(lower) && lower < upper
    ensures DistinctXids(has, lower, upper) == [lower] + DistinctXids(has, lower + 1, upper)
  {
  }

  lemma PrefixOfCons(x: nat, rest: seq<nat>, n: nat)
    requires 0 < n <= |rest| + 1
    ensures ([x] + rest)[..n] == [x] + rest[..n - 1] && (n <= |rest| ==> ([x] + rest)[n] == rest[n - 1])
  {
  }

  /** What a query on `probe_results` returns: a committed row that lies in an attached raw partition. */
  predicate Queried(db: Db, r: Row) {
    && r.xid in db.tx && db.tx[r.xid].Committed?
    && exists p :: p in db.parts && db.parts[p].Attached? && p.family.Raw? && p.lo <= r.startedAt < p.hi
  }

  predicate HasQueried(db: Db, x: nat) {
    exists r :: r in db.rows && r.xid == x && Queried(db, r)
  }

  /** The transactions with a row such a query returns. */
  function QueriedXids(db: Db, lower: nat, upper: nat): set<nat> {
    set x: nat | lower <= x < upper && HasQueried(db, x)
  }

  lemma VisibleIffQueried(db: Db, r: Row)
    requires TxInv(db) && FIRST <= r.startedAt
    ensures Visible(db, r) <==> Queried(db, r)
  {
    PartContains(Raw, r.startedAt);
    forall p | p in db.parts && p.family.Raw? && p.lo <= r.startedAt < p.hi
      ensures p == PartOf(Raw, r.startedAt)
    {
      PartIsItsRange(p, r.startedAt);
    }
  }

  lemma VisibleXidsAreQueried(db: Db, x: nat)
    requires TxInv(db)
    ensures VisibleXids(db)(x) <==> HasQueried(db, x)
  {
    forall r | r in db.rows
      ensures Visible(db, r) <==> Queried(db, r)
    {
      VisibleIffQueried(db, r);
    }
  }

  function XidsHaving(has: nat -> bool, lower: nat, upper: nat): set<nat> { set x: nat | lower <= x < upper && has(x) }

  lemma XidsOneMore(has: nat -> bool, lower: nat, upper: nat)
    requires lower < upper
    ensures |XidsHaving(has, lower, upper)| == |XidsHaving(has, lower + 1, upper)| + if has(lower) then 1 else 0
  {
    var rest := XidsHaving(has, lower + 1, upper);
    assert XidsHaving(has, lower, upper) == if has(lower) then rest + {lower} else rest;
  }

  lemma {:induction false} CountsDistinct(has: nat -> bool, lower: nat, upper: nat)
    ensures |DistinctXids(has, lower, upper)| == |XidsHaving(has, lower, upper)|
    decreases upper - lower
  {
    if lower < upper {
      CountsDistinct(has, lower + 1, upper);
      XidsOneMore(has, lower, upper);
    } else {
      assert XidsHaving(has, lower, upper) == {};
    }
  }

  lemma CountsXids(db: Db, lower: nat, upper: nat)
    requires TxInv(db)
    ensures |DistinctXids(VisibleXids(db), lower, upper)| == |QueriedXids(db, lower, upper)|
  {
    CountsDistinct(VisibleXids(db), lower, upper);
    forall x: nat
      ensures VisibleXids(db)(x) <==> HasQueried(db, x)
    {
      VisibleXidsAreQueried(db, x);
    }
    assert XidsHaving(VisibleXids(db), lower, upper) == QueriedXids(db, lower, upper);
  }

  /** A batch holds `n` transactions a query returns, or all there are. */
  lemma NthIsQueried(db: Db, lower: nat, upper: nat, n: nat)
    requires TxInv(db)
    ensures match NthXid(VisibleXids(db), lower, upper, n)
            case Some(end) => |QueriedXids(db, lower, end)| == n && HasQueried(db, end)
            case None => |QueriedXids(db, lower, upper)| <= n
  {
    CountsXids(db, lower, upper);
    match NthXid(VisibleXids(db), lower, upper, n)
    case Some(end) =>
      BatchIsWholeTransactions(VisibleXids(db), lower, upper, n);
      CountsXids(db, lower, end);
      VisibleXidsAreQueried(db, end);
    case None =>
  }

  /** What other sessions leave alone while a pass holds the lock on the state row. */
  ghost predicate PassUndisturbed(a: Db, b: Db) {
    && a.pass == b.pass && a.stats == b.stats && a.lastXid == b.lastXid && a.advancedAt == b.advancedAt
    && a.pass.Some? && SameBelow(a, b, a.pass.value.horizon)
  }

  lemma {:induction false} OthersUndisturbing(cfg: Config, db: Db, steps: seq<Action>)
    requires Inv(cfg, db) && db.pass.Some?
    ensures Inv(cfg, Run(cfg, db, Others(steps, RollupSession)))
    ensures PassUndisturbed(db, Run(cfg, db, Others(steps, RollupSession)))
  {
    RunKeepsInv(cfg, db, Others(steps, RollupSession));
    RunLeavesFinalRows(cfg, db, Others(steps, RollupSession), db.pass.value.horizon);
    OthersKeepPass(cfg, db, steps);
  }

  lemma StepKeepsPass(cfg: Config, db: Db, a: Action)
    requires db.pass.Some? && !a.OfPass()
    ensures var d := Step(cfg, db, a);
            d.pass == db.pass && d.stats == db.stats && d.lastXid == db.lastXid && d.advancedAt == db.advancedAt
  {
  }

  lemma {:induction false} OthersKeepPass(cfg: Config, db: Db, steps: seq<Action>)
    requires db.pass.Some?
    ensures var d := Run(cfg, db, Others(steps, RollupSession));
            d.pass == db.pass && d.stats == db.stats && d.lastXid == db.lastXid && d.advancedAt == db.advancedAt
  {
    if steps != [] {
      OthersKeepPass(cfg, db, steps[..|steps| - 1]);
      var rest, a := Others(steps[..|steps| - 1], RollupSession), steps[|steps| - 1];
      if !a.OfPass() {
        assert (rest + [a])[..|rest|] == rest;
        StepKeepsPass(cfg, Run(cfg, db, rest), a);
      }
    }
  }

  lemma CountFrame(a: Db, b: Db, lower: nat, upper: nat)
    requires SameBelow(a, b, upper)
    ensures Count(a.rows, Between(a.tx, lower, upper)) == Count(b.rows, Between(b.tx, lower, upper))
  {
    var more := b.rows[|a.rows|..];
    assert b.rows == a.rows + more;
    forall r | r in a.rows
      ensures Between(a.tx, lower, upper)(r) == Between(b.tx, lower, upper)(r)
    {
      assert Below(a.tx, upper)(r) == Below(b.tx, upper)(r);
    }
    forall r | r in more
      ensures !Between(b.tx, lower, upper)(r)
    {
      assert !Below(b.tx, upper)(r);
    }
    AggSame(a.rows, Between(a.tx, lower, upper), Between(b.tx, lower, upper));
    AggExtend(a.rows, more, Between(b.tx, lower, upper));
  }

  lemma CountBatch(cfg: Config, db: Db, lower: nat, mid: nat, upper: nat)
    requires Inv(cfg, db) && db.lastXid <= lower <= mid <= upper
    ensures Count(db.rows, Between(db.tx, lower, upper))
         == Count(db.rows, Between(db.tx, lower, mid)) + Count(db.rows, InBatch(db, mid, upper))
  {
    forall r | r in db.rows
      ensures InBatch(db, mid, upper)(r) == Between(db.tx, mid, upper)(r)
    {
      BatchIsBetween(cfg, db, mid, upper, r);
    }
    CountSplit(db.rows, Between(db.tx, lower, upper), Between(db.tx, lower, mid), InBatch(db, mid, upper));
  }

  lemma FoldCounts(cfg: Config, db: Db, upper: nat)
    requires Inv(cfg, db) && Enabled(cfg, db, PassFold(upper))
    ensures Inv(cfg, Apply(cfg, db, PassFold(upper)))
    ensures var last := db.pass.value.last;
            Count(db.rows, Between(db.tx, db.lastXid, upper))
              == Count(db.rows, Between(db.tx, db.lastXid, last)) + Count(db.rows, InBatch(db, last, upper))
  {
    StepKeepsInv(cfg, db, PassFold(upper));
    CountBatch(cfg, db, db.lastXid, db.pass.value.last, upper);
  }

  /** The database as the pass reads its horizon: its lock taken, and others having acted since. */
  function Opened(cfg: Config, db: Db, env: seq<Action>): Db {
    Run(cfg, Step(cfg, db, PassLock), Others(env, RollupSession))
  }

  /** No transaction older than those before the pass is under way, and what the pass found is as it was. */
  lemma OpenedKeeps(cfg: Config, db: Db, env: seq<Action>)
    requires Inv(cfg, db) && db.pass.None?
    ensures var d := Opened(cfg, db, env);
            && Inv(cfg, d) && Xmin(db) <= Xmin(d)
            && d.pass == Some(Pass(db.nextXid, db.lastXid, db.lastXid, db.stats, db.clock))
            && d.stats == db.stats && d.lastXid == db.lastXid && d.advancedAt == db.advancedAt
  {
    var locked := Step(cfg, db, PassLock);
    StepKeepsInv(cfg, db, PassLock);
    StepKeepsAbove(cfg, db, PassLock, Xmin(db));
    OthersUndisturbing(cfg, locked, env);
    OthersKeepPass(cfg, locked, env);
    RunKeepsAbove(cfg, locked, Others(env, RollupSession), Xmin(db));
  }

  lemma HorizonRead(cfg: Config, db: Db)
    requires db.pass.Some? && db.pass.value.last == db.lastXid && db.pass.value.horizon == db.lastXid
    requires db.pass.value.stats == db.stats
    ensures Step(cfg, db, PassHorizon) == db.(pass := Some(db.pass.value.(horizon := Xmin(db))))
  {
  }

  /** The horizon of a pass: nothing about it depends on how the pass cuts its batches. */
  function HorizonOf(cfg: Config, db: Db, env: seq<Action>): nat { Xmin(Opened(cfg, db, env)) }

  /** Every transaction older than all that were running is below the watermark. */
  ghost predicate ReachesSettled(start: Db, watermark: nat) {
    forall x: nat :: IsCommitted(start.tx, x) && x < start.nextXid && (forall y :: IsRunning(start.tx, y) ==> x < y) ==>
      x < watermark
  }

  lemma SettledBelowXmin(start: Db, watermark: nat)
    requires Xmin(start) <= watermark
    ensures ReachesSettled(start, watermark)
  {
  }

  /** No statement before this gap fails. */
  ghost predicate FirstFault(faults: set<nat>, gap: nat) { forall g: nat :: g < gap ==> g !in faults }

  lemma OneMoreGap(faults: set<nat>, gap: nat)
    requires FirstFault(faults, gap) && gap !in faults
    ensures FirstFault(faults, gap + 1)
  {
  }

  /** An unfolded row one of whose aggregate partitions is not there. */
  ghost predicate LacksTarget(db: Db) {
    exists r :: r in db.rows && Untargeted(db, r)
  }

  predicate Untargeted(db: Db, r: Row) {
    && Visible(db, r) && db.lastXid <= r.xid
    && !(IsAttached(db.parts, PartOf(MinuteStats, r.startedAt)) && IsAttached(db.parts, PartOf(HourStats, r.startedAt)))
  }

  /** A rollback takes nothing with it but the pass. */
  lemma AbortLeavesRows(cfg: Config, db: Db)
    requires PassInv(db) && Enabled(cfg, db, PassAbort)
    ensures var d := Apply(cfg, db, PassAbort);
            && d.pass.None? && d.stats == db.stats && d.lastXid == db.lastXid && d.advancedAt == db.advancedAt
            && (LacksTarget(db) ==> LacksTarget(d))
  {
    if LacksTarget(db) {
      var r :| r in db.rows && Untargeted(db, r);
      AbortLeavesRow(cfg, db, r);
      assert r in Apply(cfg, db, PassAbort).rows;
    }
  }

  lemma AbortLeavesRow(cfg: Config, db: Db, r: Row)
    requires PassInv(db) && Enabled(cfg, db, PassAbort) && Untargeted(db, r)
    ensures Untargeted(Apply(cfg, db, PassAbort), r)
  {
  }

  class Database {
    const cfg: Config
    var nextXid: nat
    var tx: TxTable
    var rows: seq<Row>
    var stats: map<Key, Stat>
    var lastXid: nat
    var advancedAt: int
    var pass: Option<Pass>
    var parts: map<Part, PartState>
    var cleared: set<Part>
    var clock: int

    constructor (cfg: Config, clock: int)
      ensures this.cfg == cfg && this.clock == clock && Initial(View())
    {
      this.cfg, this.clock := cfg, clock;
      nextXid, tx, rows, stats := 0, map[], [], map[];
      lastXid, advancedAt, pass := 0, clock, None;
      parts, cleared := map[], {};
    }

    function View(): Db
      reads this
    {
      Db(nextXid, tx, rows, stats, lastXid, advancedAt, pass, parts, cleared, clock)
    }

    /** One statement of some session, or nothing when it cannot happen. */
    method Execute(a: Action)
      modifies this
      ensures View() == Step(cfg, old(View()), a)
    {
      if !Enabled(cfg, View(), a) {
        return;
      }
      if a.OfPass() {
        ExecuteOwn(a);
      } else if a.OfRetention() {
        ExecuteRetention(a);
      } else {
        match a {
          case Begin => tx, nextXid := tx[nextXid := Running], nextXid + 1;
          case Insert(r) => rows := rows + [r];
          case Commit(x) => tx := tx[x := Committed];
          case Abort(x) => tx := tx[x := Aborted];
          case Advance(to) => clock := to;
          case Create(p) => parts := parts[p := Attached];
          case PassLock =>
            pass := Some(Pass(nextXid, lastXid, lastXid, stats, clock));
            tx, nextXid := tx[nextXid := Running], nextXid + 1;
        }
      }
    }

    /** A statement of the pass under way. */
    method ExecuteOwn(a: Action)
      requires a.OfPass() && Enabled(cfg, View(), a)
      modifies this
      ensures View() == Apply(cfg, old(View()), a)
    {
      match a {
        case PassHorizon => pass := Some(pass.value.(horizon := Xmin(View())));
        case PassFold(upper) => var _ := Fold(upper);
        case PassCommit =>
          tx := tx[pass.value.xid := Committed];
          if pass.value.last != lastXid {
            advancedAt := pass.value.startedAt;
          }
          stats, lastXid, pass := pass.value.stats, pass.value.last, None;
        case PassAbort => tx, pass := tx[pass.value.xid := Aborted], None;
      }
    }

    method ExecuteRetention(a: Action)
      requires a.OfRetention() && Enabled(cfg, View(), a)
      modifies this
      ensures View() == Apply(cfg, old(View()), a)
    {
      match a {
        case Guard(p, now) => cleared := cleared + {p};
        case DetachBegin(p) => parts := parts[p := Pending];
        case DetachFinish(p) => parts := parts[p := Detached];
        case Drop(p) => parts := parts[p := Dropped];
      }
    }

    /** The three upserts of one batch, group by group, and the number of rows they folded. */
    method Fold(upper: nat) returns (folded: nat)
      requires Enabled(cfg, View(), PassFold(upper))
      modifies this`pass
      ensures View() == Apply(cfg, old(View()), PassFold(upper))
      ensures folded == Count(rows, InBatch(old(View()), old(pass.value.last), upper))
    {
      var was := pass.value;
      var batch := InBatch(View(), was.last, upper);
      folded := Count(rows, batch);
      var work := was.stats;
      work := UpsertGrain(M1, work, batch, was.stats, {});
      work := UpsertGrain(H1, work, batch, was.stats, GroupsOf(M1, rows, batch));
      work := UpsertGrain(D1, work, batch, was.stats, GroupsOf(M1, rows, batch) + GroupsOf(H1, rows, batch));
      pass := Some(was.(last := upper, stats := work));
    }

    /** `INSERT ... GROUP BY ... ON CONFLICT DO UPDATE` for one grain. */
    method UpsertGrain(g: Grain, stats: map<Key, Stat>, batch: Row -> bool,
                       ghost was: map<Key, Stat>, ghost done: set<Key>) returns (work: map<Key, Stat>)
      requires stats == FoldKeys(was, rows, batch, done)
      requires forall k :: k in done ==> k.grain != g
      ensures work == FoldKeys(was, rows, batch, done + GroupsOf(g, rows, batch))
    {
      work := stats;
      var todo := GroupsOf(g, rows, batch);
      ghost var finished: set<Key> := {};
      assert done + finished == done;
      while todo != {}
        invariant todo !! finished && todo + finished == GroupsOf(g, rows, batch)
        invariant work == FoldKeys(was, rows, batch, done + finished)
      {
        var k :| k in todo;
        var group := Agg(rows, InGroup(batch, k));
        FoldOneMoreKey(was, rows, batch, done + finished, k);
        work := work[k := if k in work then Merge(work[k], group) else group];
        assert done + (finished + {k}) == done + finished + {k};
        todo, finished := todo - {k}, finished + {k};
      }
      assert finished == GroupsOf(g, rows, batch);
    }

    /** Statements of sessions other than `s`. */
    method Interleave(steps: seq<Action>, s: Session)
      modifies this
      ensures View() == Run(cfg, old(View()), Others(steps, s))
    {
      for i := 0 to |steps|
        invariant View() == Run(cfg, old(View()), Others(steps[..i], s))
      {
        assert steps[..i + 1][..i] == steps[..i];
        if !Owns(s, steps[i]) {
          ghost var before := Others(steps[..i], s);
          assert (before + [steps[i]])[..|before|] == before;
          Execute(steps[i]);
        }
      }
      assert steps[..|steps|] == steps;
    }

    /** A pass that began at `start` is under way, and nothing it will commit is visible yet. */
    ghost predicate Underway(start: Db)
      reads this
    {
      && Inv(cfg, View()) && pass.Some? && pass.value.startedAt == start.clock
      && stats == start.stats && lastXid == start.lastXid && advancedAt == start.advancedAt
    }

    /** The rows the pass has folded so far. */
    ghost function FoldedSoFar(): nat
      requires pass.Some?
      reads this
    {
      Count(rows, Between(tx, lastXid, pass.value.last))
    }

    /** Takes the lock on the state row, then reads the horizon once. */
    method Open(env: seq<Action>)
      requires Inv(cfg, View()) && pass.None?
      modifies this
      ensures Underway(old(View())) && pass.value.last == lastXid
      ensures old(Xmin(View())) <= pass.value.horizon == HorizonOf(cfg, old(View()), env)
    {
      OpenedKeeps(cfg, View(), env);
      Execute(PassLock);
      Interleave(env, RollupSession);
      HorizonRead(cfg, View());
      StepKeepsInv(cfg, View(), PassHorizon);
      Execute(PassHorizon);
    }

    /** Other sessions act between two statements of the pass. */
    method Gap(env: seq<Action>, ghost start: Db)
      requires Underway(start)
      modifies this
      ensures Underway(start) && pass == old(pass) && FoldedSoFar() == old(FoldedSoFar())
    {
      ghost var before := View();
      OthersUndisturbing(cfg, View(), env);
      Interleave(env, RollupSession);
      SameBelowNarrows(before, View(), pass.value.horizon, pass.value.last);
      CountFrame(before, View(), lastXid, pass.value.last);
    }

    /** The n-th transaction at or above the last one folded, or the horizon when there are fewer. */
    method NextUpper(batchXids: nat) returns (upper: nat, done: bool)
      requires TxInv(View()) && batchXids >= 1 && pass.Some? && pass.value.last <= pass.value.horizon
      ensures if done then |QueriedXids(View(), pass.value.last, upper)| <= batchXids
              else |QueriedXids(View(), pass.value.last, upper)| == batchXids && HasQueried(View(), upper)
      ensures var nth := NthXid(VisibleXids(View()), pass.value.last, pass.value.horizon, batchXids);
              upper == nth.GetOr(pass.value.horizon) && done == nth.None?
      ensures pass.value.last <= upper <= pass.value.horizon && (!done ==> pass.value.last < upper)
    {
      var nth := NthXid(VisibleXids(View()), pass.value.last, pass.value.horizon, batchXids);
      upper, done := nth.GetOr(pass.value.horizon), nth.None?;
      NthIsQueried(View(), pass.value.last, pass.value.horizon, batchXids);
    }

    /** Folds a batch, unless a partition it writes to is missing. */
    method FoldTo(upper: nat, ghost start: Db) returns (ok: bool, n: nat)
      requires Underway(start) && pass.value.last <= upper <= pass.value.horizon
      modifies this`pass
      ensures Underway(start) && pass.value.horizon == old(pass.value.horizon)
      ensures ok ==> pass.value.last == upper && FoldedSoFar() == old(FoldedSoFar()) + n
      ensures !ok ==> LacksTarget(View())
    {
      n := 0;
      ok := Enabled(cfg, View(), PassFold(upper));
      if ok {
        FoldCounts(cfg, View(), upper);
        n := Fold(upper);
      }
    }

    /** Writes the watermark and commits. */
    method Close(ghost start: Db)
      requires Underway(start) && pass.value.last == pass.value.horizon
      modifies this
      ensures Inv(cfg, View()) && pass.None? && lastXid == old(pass.value.horizon)
      ensures advancedAt == if lastXid == start.lastXid then start.advancedAt else start.clock
      ensures Count(rows, Between(tx, start.lastXid, lastXid)) == old(FoldedSoFar())
    {
      ghost var before := View();
      StepKeepsInv(cfg, before, PassCommit);
      StepsLeaveFinalRows(cfg, before, PassCommit, before.pass.value.horizon);
      Execute(PassCommit);
      CountFrame(before, View(), before.lastXid, before.pass.value.last);
    }

    /**
     * One pass. `env[n]` is what other sessions do in the n-th gap between two of its statements, the last gap being
     * the one before the commit; `faults` are the gaps after which the next statement fails. `gap` is the last gap the
     * pass got to.
     */
    method RunOnce(batchXids: nat, env: seq<seq<Action>>, faults: set<nat>)
      returns (r: Result<RollupPass, PassFailure>, ghost gap: nat)
      requires batchXids >= 1 && Inv(cfg, View())
      modifies this
      ensures Inv(cfg, View())
      ensures old(pass).Some? ==> r == Ok(RollupPass(true, 0, 0)) && View() == old(View())
      ensures old(pass).None? ==> pass.None?
      ensures old(pass).None? && r.Err? ==>
                stats == old(stats) && lastXid == old(lastXid) && advancedAt == old(advancedAt)
      ensures old(pass).None? && r.Ok? ==>
                && !r.value.skipped && r.value.lagMs == old(clock - advancedAt)
                && r.value.folded == Count(rows, Between(tx, old(lastXid), lastXid))
                && old(lastXid) <= lastXid && old(Xmin(View())) <= lastXid == HorizonOf(cfg, old(View()), At(env, 0))
                && advancedAt == if lastXid == old(lastXid) then old(advancedAt) else old(clock)
      ensures old(pass).None? && r.Ok? ==> ReachesSettled(old(View()), lastXid)
      ensures r == Err(NoPartitionFound) ==> LacksTarget(View())
      ensures old(pass).None? ==> (r == Err(StatementFailed) <==> gap in faults) && FirstFault(faults, gap)
      ensures old(pass).None? ==> 2 * old(lastXid) + gap <= 2 * HorizonOf(cfg, old(View()), At(env, 0)) + 3
    {
      if pass.Some? {
        return Ok(RollupPass(true, 0, 0)), 0;
      }
      r, gap := Roll(batchXids, env, faults);
    }

    /** The pass proper, nobody else being at it. */
    method Roll(batchXids: nat, env: seq<seq<Action>>, faults: set<nat>)
      returns (r: Result<RollupPass, PassFailure>, ghost gap: nat)
      requires batchXids >= 1 && Inv(cfg, View()) && pass.None?
      modifies this
      ensures Inv(cfg, View()) && pass.None?
      ensures r.Err? ==> stats == old(stats) && lastXid == old(lastXid) && advancedAt == old(advancedAt)
      ensures r.Ok? ==>
                && !r.value.skipped && r.value.lagMs == old(clock - advancedAt)
                && r.value.folded == Count(rows, Between(tx, old(lastXid), lastXid))
                && old(lastXid) <= lastXid && old(Xmin(View())) <= lastXid == HorizonOf(cfg, old(View()), At(env, 0))
                && advancedAt == if lastXid == old(lastXid) then old(advancedAt) else old(clock)
      ensures r.Ok? ==> ReachesSettled(old(View()), lastXid)
      ensures r == Err(NoPartitionFound) ==> LacksTarget(View())
      ensures (r == Err(StatementFailed) <==> gap in faults) && FirstFault(faults, gap)
      ensures 2 * old(lastXid) + gap <= 2 * HorizonOf(cfg, old(View()), At(env, 0)) + 3
    {
      ghost var start := View();
      var lag := clock - advancedAt;
      Open(At(env, 0));
      var failure, folded;
      failure, folded, gap := FoldBatches(batchXids, env, faults, start);
      if failure.Some? {
        Rollback();
        return Err(failure.value), gap;
      }
      Close(start);
      SettledBelowXmin(start, lastXid);
      return Ok(RollupPass(false, folded, lag)), gap;
    }

    /** Other sessions act before the next statement, which fails when it is to. */
    method Reach(env: seq<seq<Action>>, faults: set<nat>, gap: nat, ghost start: Db) returns (failed: bool)
      requires Underway(start) && FirstFault(faults, gap)
      modifies this
      ensures Underway(start) && pass == old(pass) && FoldedSoFar() == old(FoldedSoFar())
      ensures failed <==> gap in faults
      ensures FirstFault(faults, gap) && (!failed ==> FirstFault(faults, gap + 1))
    {
      Gap(At(env, gap), start);
      failed := gap in faults;
      if !failed {
        OneMoreGap(faults, gap);
      }
    }

    /** The second statement of a batch, other sessions acting before it. */
    method FoldNext(upper: nat, env: seq<seq<Action>>, faults: set<nat>, gap: nat, ghost start: Db)
      returns (failure: Option<PassFailure>, n: nat)
      requires Underway(start) && pass.value.last <= upper <= pass.value.horizon && FirstFault(faults, gap)
      modifies this
      ensures Underway(start) && pass.value.horizon == old(pass.value.horizon)
      ensures failure.None? ==>
                pass.value.last == upper && FoldedSoFar() == old(FoldedSoFar()) + n && FirstFault(faults, gap + 1)
      ensures failure == Some(NoPartitionFound) ==> LacksTarget(View())
      ensures failure == Some(StatementFailed) <==> gap in faults
    {
      n := 0;
      var failed := Reach(env, faults, gap, start);
      if failed {
        return Some(StatementFailed), n;
      }
      var ok;
      ok, n := FoldTo(upper, start);
      failure := if ok then None else Some(NoPartitionFound);
    }

    /** One batch, other sessions acting before each of its two statements. */
    method NextBatch(batchXids: nat, env: seq<seq<Action>>, faults: set<nat>, gap: nat, ghost start: Db)
      returns (failure: Option<PassFailure>, done: bool, n: nat, ghost last: nat)
      requires batchXids >= 1 && Underway(start) && FirstFault(faults, gap)
      modifies this
      ensures Underway(start) && pass.value.horizon == old(pass.value.horizon)
      ensures failure.None? ==>
                FoldedSoFar() == old(FoldedSoFar()) + n && last == gap + 1 && FirstFault(faults, gap + 2)
      ensures failure.None? && done ==> old(pass.value.last) <= pass.value.last == pass.value.horizon
      ensures failure.None? && !done ==> old(pass.value.last) < pass.value.last
      ensures failure == Some(NoPartitionFound) ==> LacksTarget(View())
      ensures gap <= last <= gap + 1
      ensures (failure == Some(StatementFailed) <==> last in faults) && FirstFault(faults, last)
    {
      done, n := false, 0;
      var failed := Reach(env, faults, gap, start);
      if failed {
        return Some(StatementFailed), done, n, gap;
      }
      var upper;
      upper, done := NextUpper(batchXids);
      last := gap + 1;
      failure, n := FoldNext(upper, env, faults, gap + 1, start);
    }

    /** Batch after batch up to the horizon, other sessions acting before each statement and before the commit. */
    method FoldBatches(batchXids: nat, env: seq<seq<Action>>, faults: set<nat>, ghost start: Db)
      returns (failure: Option<PassFailure>, folded: nat, ghost last: nat)
      requires batchXids >= 1 && Underway(start) && pass.value.last == lastXid
      modifies this
      ensures Underway(start) && pass.value.horizon == old(pass.value.horizon)
      ensures failure.None? ==> pass.value.last == pass.value.horizon && folded == FoldedSoFar()
      ensures failure == Some(NoPartitionFound) ==> LacksTarget(View())
      ensures (failure == Some(StatementFailed) <==> last in faults) && FirstFault(faults, last)
      ensures 2 * start.lastXid + last <= 2 * pass.value.horizon + 3
    {
      ghost var horizon := pass.value.horizon;
      AggNone(rows, Between(tx, lastXid, lastXid));
      folded, last := 0, 0;
      if 0 in faults {
        return Some(StatementFailed), folded, last;
      }
      OneMoreGap(faults, 0);
      var gap, done := 1, false;
      while !done
        invariant gap >= 1 && Underway(start) && pass.value.horizon == horizon && folded == FoldedSoFar()
        invariant done ==> pass.value.last == horizon
        invariant FirstFault(faults, gap)
        invariant 2 * start.lastXid + gap <= 2 * pass.value.last + (if done then 3 else 1)
        decreases !done, horizon - pass.value.last
      {
        var n;
        failure, done, n, last := NextBatch(batchXids, env, faults, gap, start);
        if failure.Some? {
          return;
        }
        folded, gap := folded + n, gap + 2;
      }
      Gap(At(env, gap), start);
      failure, last := if gap in faults then Some(StatementFailed) else None, gap;
    }

    /** The pass's transaction is rolled back, and the lock on the state row released. */
    method Rollback()
      requires Inv(cfg, View()) && pass.Some?
      modifies this
      ensures Inv(cfg, View()) && View() == Apply(cfg, old(View()), PassAbort)
      ensures pass.None? && stats == old(stats) && lastXid == old(lastXid) && advancedAt == old(advancedAt)
      ensures old(LacksTarget(View())) ==> LacksTarget(View())
    {
      StepKeepsInv(cfg, View(), PassAbort);
      AbortLeavesRows(cfg, View());
      Execute(PassAbort);
    }
  }

  lemma SameBelowNarrows(a: Db, b: Db, watermark: nat, lower: nat)
    requires SameBelow(a, b, watermark) && lower <= watermark
    ensures SameBelow(a, b, lower)
  {
    forall r | r in a.rows
      ensures Below(a.tx, lower)(r) == Below(b.tx, lower)(r)
    {
      assert Below(a.tx, watermark)(r) == Below(b.tx, watermark)(r);
    }
    forall i | |a.rows| <= i < |b.rows|
      ensures !Below(b.tx, lower)(b.rows[i])
    {
      assert !Below(b.tx, watermark)(b.rows[i]);
    }
  }
}
