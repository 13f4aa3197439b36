/**
 * Raw results, aggregates and partitions as one shared database: the atomic steps of writers, of the rollup
 * pass and of retention, and what every step keeps.
 */
module Warehouse {
  import opened Arithmetic
  import opened Wrappers
  import opened Calendar
  import opened Aggregate

  datatype TxState = Running | Committed | Aborted

  type TxTable = map<nat, TxState>

  datatype Grain = M1 | H1 | D1

  datatype Key = Key(endpoint: int, grain: Grain, start: int)

  datatype Family = Raw | MinuteStats | HourStats

  /** A partition and its bounds: `lo` included, `hi` excluded. */
  datatype Part = Part(family: Family, lo: int, hi: int)

  /** A partition never created has no entry. */
  datatype PartState = Attached | Pending | Detached | Dropped

  datatype Config = Config(rawDays: nat, minuteDays: nat, hourDays: nat)
  {
    predicate Valid() { rawDays <= minuteDays && rawDays <= hourDays }

    function Days(family: Family): nat {
      match family
      case Raw => rawDays
      case MinuteStats => minuteDays
      case HourStats => hourDays
    }
  }

  /** A rollup pass holding the lock on the state row; its writes are not committed yet. */
  datatype Pass = Pass(xid: nat, last: nat, horizon: nat, stats: map<Key, Stat>, startedAt: int)

  /**
   * `rows` is every result row ever written, whatever became of its partition: the table a query sees is the
   * committed rows whose raw partition is attached. `cleared` is the partitions a retention guard has passed.
   */
  datatype Db = Db(nextXid: nat, tx: TxTable, rows: seq<Row>, stats: map<Key, Stat>, lastXid: nat, advancedAt: int,
                   pass: Option<Pass>, parts: map<Part, PartState>, cleared: set<Part>, clock: int)

  function KindOf(family: Family): PeriodKind {
    if family.HourStats? then MonthPeriod else DayPeriod
  }

  function PartOf(family: Family, t: int): Part {
    var lo := PeriodStart(KindOf(family), t);
    Part(family, lo, NextPeriodStart(KindOf(family), lo))
  }

  function Width(g: Grain): int {
    match g case M1 => MINUTE case H1 => HOUR case D1 => DAY
  }

  /** `date_trunc` in UTC. */
  function Trunc(g: Grain, t: int): int { t - t % Width(g) }

  function KeyOf(g: Grain, r: Row): Key { Key(r.endpoint, g, Trunc(g, r.startedAt)) }

  /** The day grain is one table; the other two are partitioned. */
  predicate KeyGone(parts: map<Part, PartState>, k: Key) {
    match k.grain
    case M1 => Gone(parts, PartOf(MinuteStats, k.start))
    case H1 => Gone(parts, PartOf(HourStats, k.start))
    case D1 => false
  }

  predicate IsAttached(parts: map<Part, PartState>, p: Part) { p in parts && parts[p].Attached? }

  predicate Gone(parts: map<Part, PartState>, p: Part) { p in parts && !parts[p].Attached? }

  predicate IsRunning(tx: TxTable, x: nat) { x in tx && tx[x].Running? }

  predicate IsCommitted(tx: TxTable, x: nat) { x in tx && tx[x].Committed? }

  /** Rows a query on `probe_results` returns. */
  predicate Visible(db: Db, r: Row) {
    IsCommitted(db.tx, r.xid) && IsAttached(db.parts, PartOf(Raw, r.startedAt))
  }

  /** The rows of one batch: whole transactions from `lower` up to, not including, `upper`. */
  function InBatch(db: Db, lower: nat, upper: nat): Row -> bool {
    (r: Row) => Visible(db, r) && lower <= r.xid < upper
  }

  function InGroup(p: Row -> bool, k: Key): Row -> bool {
    (r: Row) => p(r) && KeyOf(k.grain, r) == k
  }

  /** Committed rows below a watermark. */
  function Below(tx: TxTable, watermark: nat): Row -> bool {
    (r: Row) => IsCommitted(tx, r.xid) && r.xid < watermark
  }

  function Between(tx: TxTable, lower: nat, upper: nat): Row -> bool {
    (r: Row) => IsCommitted(tx, r.xid) && lower <= r.xid < upper
  }

  function Get(stats: map<Key, Stat>, k: Key): Stat {
    if k in stats then stats[k] else ZERO
  }

  /** The groups of one grain's `GROUP BY`. */
  function GroupsOf(g: Grain, rows: seq<Row>, p: Row -> bool): set<Key> {
    set r | r in rows && p(r) :: KeyOf(g, r)
  }

  function AllGroups(rows: seq<Row>, p: Row -> bool): set<Key> {
    GroupsOf(M1, rows, p) + GroupsOf(H1, rows, p) + GroupsOf(D1, rows, p)
  }

  /** The rows of `p` folded into the aggregate rows of `keys`: each is inserted, or merged into what is there. */
  function FoldKeys(stats: map<Key, Stat>, rows: seq<Row>, p: Row -> bool, keys: set<Key>): map<Key, Stat> {
    map k | k in stats.Keys + keys ::
      if k in keys then Merge(Get(stats, k), Agg(rows, InGroup(p, k))) else stats[k]
  }

  /** One batch folded into all three grains. */
  function FoldStats(stats: map<Key, Stat>, rows: seq<Row>, p: Row -> bool): map<Key, Stat> {
    FoldKeys(stats, rows, p, AllGroups(rows, p))
  }

  /** The aggregate row of a key is exactly the committed rows below the watermark that fall in its bucket. */
  ghost predicate Holds(rows: seq<Row>, tx: TxTable, stats: map<Key, Stat>, watermark: nat, k: Key) {
    && Get(stats, k) == Agg(rows, InGroup(Below(tx, watermark), k))
    && (k in stats <==> Count(rows, InGroup(Below(tx, watermark), k)) > 0)
  }

  ghost predicate Materialised(db: Db, stats: map<Key, Stat>, watermark: nat) {
    forall k :: !KeyGone(db.parts, k) ==> Holds(db.rows, db.tx, stats, watermark, k)
  }

  /** `pg_snapshot_xmin`: the least running transaction, or the next one to start. */
  function OldestRunning(tx: TxTable, nextXid: nat, from: nat): (x: nat)
    requires from <= nextXid
    ensures from <= x <= nextXid
    ensures forall y :: from <= y < x ==> !IsRunning(tx, y)
    ensures x < nextXid ==> IsRunning(tx, x)
    decreases nextXid - from
  {
    if from == nextXid || IsRunning(tx, from) then from else OldestRunning(tx, nextXid, from + 1)
  }

  function Xmin(db: Db): nat { OldestRunning(db.tx, db.nextXid, 0) }

  /** The raw partition of an instant ended more than the raw retention before `clock`. */
  predicate RawExpired(cfg: Config, t: int, clock: int) {
    PartOf(Raw, t).hi <= clock - cfg.rawDays * DAY
  }

  predicate Expired(cfg: Config, p: Part, now: int) {
    p.hi <= now - cfg.Days(p.family) * DAY
  }

  /** A visible row at or above the committed watermark that a guard on `p` must not lose. */
  predicate Blocks(db: Db, p: Part, r: Row) {
    && db.lastXid <= r.xid
    && if p.family.Raw? then IsCommitted(db.tx, r.xid) && PartOf(Raw, r.startedAt) == p
       else Visible(db, r) && p.lo <= r.startedAt < p.hi
  }

  predicate Blocked(db: Db, p: Part) {
    exists r :: r in db.rows && Blocks(db, p, r)
  }

  datatype Action =
    | Begin
    | Insert(row: Row)
    | Commit(xid: nat)
    | Abort(xid: nat)
    | Advance(to: int)
    | Create(part: Part)
    | PassLock
    | PassHorizon
    | PassFold(upper: nat)
    | PassCommit
    | PassAbort
    | Guard(part: Part, now: int)
    | DetachBegin(part: Part)
    | DetachFinish(part: Part)
    | Drop(part: Part)
  {
    /** Steps only the pass holding the state row's lock can take. */
    predicate OfPass() { PassHorizon? || PassFold? || PassCommit? || PassAbort? }

    /** Steps only the session holding the retention lock can take. */
    predicate OfRetention() { Guard? || DetachBegin? || DetachFinish? || Drop? }
  }

  /** A transaction other than the pass's own. */
  predicate Writer(db: Db, x: nat) {
    IsRunning(db.tx, x) && (db.pass.Some? ==> x != db.pass.value.xid)
  }

  /** Every aggregate partition the batch writes to exists. */
  predicate HasTargets(db: Db, lower: nat, upper: nat) {
    forall r :: r in db.rows && InBatch(db, lower, upper)(r) ==>
      IsAttached(db.parts, PartOf(MinuteStats, r.startedAt)) && IsAttached(db.parts, PartOf(HourStats, r.startedAt))
  }

  /**
   * When a step can happen. A writer neither inserts into a raw partition past retention nor is still running
   * when one of its rows gets there: the clock cannot move past it.
   */
  predicate Enabled(cfg: Config, db: Db, a: Action) {
    match a
    case Begin => true
    case Insert(r) =>
      && Writer(db, r.xid) && FIRST <= r.startedAt && IsAttached(db.parts, PartOf(Raw, r.startedAt))
      && !RawExpired(cfg, r.startedAt, db.clock)
    case Commit(x) => Writer(db, x)
    case Abort(x) => Writer(db, x)
    case Advance(to) =>
      db.clock <= to && forall r :: r in db.rows && IsRunning(db.tx, r.xid) ==> !RawExpired(cfg, r.startedAt, to)
    case Create(p) => p !in db.parts && FIRST <= p.lo && p == PartOf(p.family, p.lo)
    case PassLock => db.pass.None?
    case PassHorizon => db.pass.Some?
    case PassFold(upper) =>
      && db.pass.Some? && db.pass.value.last <= upper <= db.pass.value.horizon
      && HasTargets(db, db.pass.value.last, upper)
    case PassCommit => db.pass.Some?
    case PassAbort => db.pass.Some?
    case Guard(p, now) => IsAttached(db.parts, p) && now <= db.clock && Expired(cfg, p, now) && !Blocked(db, p)
    case DetachBegin(p) => IsAttached(db.parts, p) && p in db.cleared
    case DetachFinish(p) => p in db.parts && db.parts[p].Pending?
    case Drop(p) => p in db.parts && db.parts[p].Detached?
  }

  function Apply(cfg: Config, db: Db, a: Action): Db
    requires Enabled(cfg, db, a)
  {
    match a
    case Begin => db.(tx := db.tx[db.nextXid := Running], nextXid := db.nextXid + 1)
    case Insert(r) => db.(rows := db.rows + [r])
    case Commit(x) => db.(tx := db.tx[x := Committed])
    case Abort(x) => db.(tx := db.tx[x := Aborted])
    case Advance(to) => db.(clock := to)
    case Create(p) => db.(parts := db.parts[p := Attached])
    case PassLock =>
      db.(tx := db.tx[db.nextXid := Running], nextXid := db.nextXid + 1,
          pass := Some(Pass(db.nextXid, db.lastXid, db.lastXid, db.stats, db.clock)))
    case PassHorizon => db.(pass := Some(db.pass.value.(horizon := Xmin(db))))
    case PassFold(upper) =>
      var p := db.pass.value;
      db.(pass := Some(p.(last := upper, stats := FoldStats(p.stats, db.rows, InBatch(db, p.last, upper)))))
    case PassCommit =>
      var p := db.pass.value;
      db.(tx := db.tx[p.xid := Committed], stats := p.stats, lastXid := p.last, pass := None,
          advancedAt := if p.last == db.lastXid then db.advancedAt else p.startedAt)
    case PassAbort => db.(tx := db.tx[db.pass.value.xid := Aborted], pass := None)
    case Guard(p, now) => db.(cleared := db.cleared + {p})
    case DetachBegin(p) => db.(parts := db.parts[p := Pending])
    case DetachFinish(p) => db.(parts := db.parts[p := Detached])
    case Drop(p) => db.(parts := db.parts[p := Dropped])
  }

  /** A step that cannot happen changes nothing. */
  function Step(cfg: Config, db: Db, a: Action): Db {
    if Enabled(cfg, db, a) then Apply(cfg, db, a) else db
  }

  function Run(cfg: Config, db: Db, steps: seq<Action>): Db {
    if steps == [] then db else Step(cfg, Run(cfg, db, steps[..|steps| - 1]), steps[|steps| - 1])
  }

  ghost predicate Initial(db: Db) {
    && db.tx == map[] && db.rows == [] && db.stats == map[] && db.lastXid == 0 && db.pass.None?
    && db.parts == map[] && db.cleared == {}
  }

  // ---- The invariant ----

  ghost predicate TxInv(db: Db) {
    && (forall x :: x in db.tx ==> x < db.nextXid)
    && (forall r :: r in db.rows ==> r.xid in db.tx && FIRST <= r.startedAt && PartOf(Raw, r.startedAt) in db.parts)
    && (forall p :: p in db.parts ==> FIRST <= p.lo && p == PartOf(p.family, p.lo))
  }

  /** Nothing that could still commit lies below the watermark. */
  ghost predicate AboveWatermark(db: Db, watermark: nat) {
    watermark <= db.nextXid && forall x :: IsRunning(db.tx, x) ==> watermark <= x
  }

  ghost predicate PassInv(db: Db) {
    db.pass.Some? ==>
      var p := db.pass.value;
      && IsRunning(db.tx, p.xid) && db.lastXid <= p.last <= p.horizon && AboveWatermark(db, p.horizon)
      && Materialised(db, p.stats, p.last)
  }

  /** No row of the partition is, or can become, a committed row at or above the watermark. */
  ghost predicate Sealed(db: Db, p: Part) {
    forall r :: r in db.rows && PartOf(p.family, r.startedAt) == p ==>
      (IsCommitted(db.tx, r.xid) && r.xid < db.lastXid) || (r.xid in db.tx && db.tx[r.xid].Aborted?)
  }

  ghost predicate Past(cfg: Config, db: Db, p: Part) {
    p.hi <= db.clock - cfg.rawDays * DAY
  }

  ghost predicate RetentionInv(cfg: Config, db: Db) {
    && (forall r :: r in db.rows && IsRunning(db.tx, r.xid) ==> !RawExpired(cfg, r.startedAt, db.clock))
    && (forall p :: p in db.cleared ==> p in db.parts)
    && (forall p :: p in db.cleared || Gone(db.parts, p) ==> p in db.cleared && Sealed(db, p) && Past(cfg, db, p))
  }

  ghost predicate Inv(cfg: Config, db: Db) {
    && cfg.Valid()
    && TxInv(db)
    && AboveWatermark(db, db.lastXid)
    && Materialised(db, db.stats, db.lastXid)
    && PassInv(db)
    && RetentionInv(cfg, db)
  }

  lemma InitialInv(cfg: Config, db: Db)
    requires cfg.Valid() && Initial(db)
    ensures Inv(cfg, db)
  {
  }

  // ---- Aggregates under steps that leave final rows alone ----

  /** The two histories agree on every committed row below the watermark. */
  ghost predicate SameBelow(a: Db, b: Db, watermark: nat) {
    && a.rows <= b.rows
    && (forall r :: r in a.rows ==> Below(a.tx, watermark)(r) == Below(b.tx, watermark)(r))
    && (forall i :: |a.rows| <= i < |b.rows| ==> !Below(b.tx, watermark)(b.rows[i]))
  }

  lemma HoldsFrame(a: Db, b: Db, stats: map<Key, Stat>, watermark: nat, k: Key)
    requires SameBelow(a, b, watermark)
    ensures Holds(a.rows, a.tx, stats, watermark, k) <==> Holds(b.rows, b.tx, stats, watermark, k)
  {
    var more := b.rows[|a.rows|..];
    assert b.rows == a.rows + more;
    AggSame(a.rows, InGroup(Below(a.tx, watermark), k), InGroup(Below(b.tx, watermark), k));
    AggExtend(a.rows, more, InGroup(Below(b.tx, watermark), k));
  }

  /** Partitions only ever leave: one that is not gone later was not gone before. */
  ghost predicate PartsLeave(a: Db, b: Db) {
    forall p :: Gone(a.parts, p) ==> Gone(b.parts, p)
  }

  lemma MaterialisedFrame(a: Db, b: Db, stats: map<Key, Stat>, watermark: nat)
    requires SameBelow(a, b, watermark) && PartsLeave(a, b) && Materialised(a, stats, watermark)
    ensures Materialised(b, stats, watermark)
  {
    forall k | !KeyGone(b.parts, k)
      ensures Holds(b.rows, b.tx, stats, watermark, k)
    {
      HoldsFrame(a, b, stats, watermark, k);
    }
  }

  lemma StepKeepsAbove(cfg: Config, db: Db, a: Action, watermark: nat)
    requires TxInv(db) && AboveWatermark(db, watermark) && Enabled(cfg, db, a)
    ensures AboveWatermark(Apply(cfg, db, a), watermark)
  {
    var db' := Apply(cfg, db, a);
    forall x | IsRunning(db'.tx, x)
      ensures watermark <= x
    {
      assert x == db.nextXid || IsRunning(db.tx, x);
    }
  }

  /** Only a running transaction changes state, and none is below the watermark. */
  lemma StepKeepsBelow(cfg: Config, db: Db, a: Action, watermark: nat, x: nat)
    requires TxInv(db) && AboveWatermark(db, watermark) && Enabled(cfg, db, a)
    requires (a.PassCommit? || a.PassAbort?) ==> IsRunning(db.tx, db.pass.value.xid)
    requires x < watermark
    ensures IsCommitted(db.tx, x) == IsCommitted(Apply(cfg, db, a).tx, x)
  {
  }

  lemma StepLeavesParts(cfg: Config, db: Db, a: Action)
    requires Enabled(cfg, db, a)
    ensures PartsLeave(db, Apply(cfg, db, a))
  {
  }

  /** A step adds at most one row, of a transaction still running. */
  lemma StepGrowsRows(cfg: Config, db: Db, a: Action)
    requires Enabled(cfg, db, a)
    ensures var db' := Apply(cfg, db, a);
            && db.rows <= db'.rows
            && forall i :: |db.rows| <= i < |db'.rows| ==> !IsCommitted(db'.tx, db'.rows[i].xid)
  {
  }

  lemma StepsLeaveFinalRows(cfg: Config, db: Db, a: Action, watermark: nat)
    requires TxInv(db) && AboveWatermark(db, watermark) && Enabled(cfg, db, a)
    requires (a.PassCommit? || a.PassAbort?) ==> IsRunning(db.tx, db.pass.value.xid)
    ensures SameBelow(db, Apply(cfg, db, a), watermark) && PartsLeave(db, Apply(cfg, db, a))
    ensures AboveWatermark(Apply(cfg, db, a), watermark)
  {
    StepKeepsAbove(cfg, db, a, watermark);
    StepLeavesParts(cfg, db, a);
    StepGrowsRows(cfg, db, a);
    forall r: Row
      ensures Below(db.tx, watermark)(r) == Below(Apply(cfg, db, a).tx, watermark)(r)
    {
      if r.xid < watermark {
        StepKeepsBelow(cfg, db, a, watermark, r.xid);
      }
    }
  }

  // ---- Partitions and buckets ----

  lemma PartContains(family: Family, t: int)
    requires FIRST <= t
    ensures var p := PartOf(family, t); FIRST <= p.lo <= t < p.hi
  {
    ContainsSinceFirst(KindOf(family), t, PeriodStart(KindOf(family), t));
  }

  /** A partition holds exactly the instants between its bounds. */
  lemma PartIsItsRange(p: Part, t: int)
    requires FIRST <= t && FIRST <= p.lo && p == PartOf(p.family, p.lo)
    ensures PartOf(p.family, t) == p <==> p.lo <= t < p.hi
  {
    ContainsSinceFirst(KindOf(p.family), t, p.lo);
    ContainsSinceFirst(KindOf(p.family), p.lo, p.lo);
  }

  /** A bucket lies in the partition its rows lie in. */
  lemma BucketInPart(g: Grain, t: int, family: Family)
    ensures PartOf(family, Trunc(g, t)) == PartOf(family, t)
  {
    SameDay(g, t);
  }

  lemma SameDay(g: Grain, t: int)
    ensures Trunc(g, t) / DAY == t / DAY
  {
    var q := t / DAY;
    FloorBounds(t, DAY);
    match g
    case D1 => FloorBelow(t, Width(g), q);
    case H1 => FloorBelow(t, Width(g), 24 * q);
    case M1 => FloorBelow(t, Width(g), 1440 * q);
    QuotientIs(Trunc(g, t), DAY, q);
  }

  /** Rounding down to a step never crosses a multiple of the step. */
  lemma FloorBelow(t: int, step: int, j: int)
    requires step > 0 && step * j <= t
    ensures step * j <= t - t % step <= t
  {
    FloorBounds(t, step);
    assert t - t % step == step * (t / step);
    if t / step < j {
      Scaled(t / step + 1, j, step);
    }
    Scaled(j, if t / step < j then j else t / step, step);
  }

  // ---- What retention may not touch ----

  lemma GonePartIsFolded(cfg: Config, db: Db, p: Part, r: Row)
    requires RetentionInv(cfg, db) && Gone(db.parts, p) && r in db.rows && PartOf(p.family, r.startedAt) == p
    ensures IsCommitted(db.tx, r.xid) ==> r.xid < db.lastXid
  {
    assert Sealed(db, p);
  }

  /** A committed row at or above the watermark is still visible, and its aggregate partitions are not gone. */
  lemma UnfoldedRowIsSafe(cfg: Config, db: Db, r: Row)
    requires TxInv(db) && RetentionInv(cfg, db)
    requires r in db.rows && IsCommitted(db.tx, r.xid) && db.lastXid <= r.xid
    ensures Visible(db, r)
    ensures !Gone(db.parts, PartOf(MinuteStats, r.startedAt)) && !Gone(db.parts, PartOf(HourStats, r.startedAt))
  {
    var p, m, h := PartOf(Raw, r.startedAt), PartOf(MinuteStats, r.startedAt), PartOf(HourStats, r.startedAt);
    assert p in db.parts;
    if Gone(db.parts, p) { GonePartIsFolded(cfg, db, p, r); }
    if Gone(db.parts, m) { GonePartIsFolded(cfg, db, m, r); }
    if Gone(db.parts, h) { GonePartIsFolded(cfg, db, h, r); }
  }

  lemma KeyParts(r: Row, parts: map<Part, PartState>, g: Grain)
    ensures KeyGone(parts, KeyOf(g, r)) <==>
              match g
              case M1 => Gone(parts, PartOf(MinuteStats, r.startedAt))
              case H1 => Gone(parts, PartOf(HourStats, r.startedAt))
              case D1 => false
  {
    BucketInPart(M1, r.startedAt, MinuteStats);
    BucketInPart(H1, r.startedAt, HourStats);
  }

  /** A raw day past retention lies in aggregate partitions past retention, and not the other way round. */
  lemma RawExpiresFirst(cfg: Config, p: Part, t: int, clock: int)
    requires cfg.Valid() && FIRST <= t && FIRST <= p.lo && p == PartOf(p.family, p.lo)
    requires p.lo <= t < p.hi <= clock - cfg.rawDays * DAY
    ensures RawExpired(cfg, t, clock)
  {
    DaysNestInMonths(t);
    PartIsItsRange(p, t);
  }

  lemma ExpiredIsPast(cfg: Config, p: Part, now: int, clock: int)
    requires cfg.Valid() && Expired(cfg, p, now) && now <= clock
    ensures p.hi <= clock - cfg.rawDays * DAY
  {
    assert cfg.rawDays * DAY <= cfg.Days(p.family) * DAY;
  }

  /** A partition its guard lets go holds nothing that is, or can become, unfolded. */
  lemma GuardSeals(cfg: Config, db: Db, p: Part, now: int)
    requires Inv(cfg, db) && Enabled(cfg, db, Guard(p, now))
    ensures Sealed(db, p) && Past(cfg, db, p)
  {
    ExpiredIsPast(cfg, p, now, db.clock);
    forall r | r in db.rows && PartOf(p.family, r.startedAt) == p && !db.tx[r.xid].Aborted?
      ensures IsCommitted(db.tx, r.xid) && r.xid < db.lastXid
    {
      PartContains(p.family, r.startedAt);
      RawExpiresFirst(cfg, p, r.startedAt, db.clock);
      if db.lastXid <= r.xid {
        UnfoldedRowIsSafe(cfg, db, r);
        assert Blocks(db, p, r);
      }
    }
  }

  /** Nothing lands in a partition once its guard has let it go. */
  lemma InsertMissesSealed(cfg: Config, db: Db, r: Row, p: Part)
    requires Inv(cfg, db) && Enabled(cfg, db, Insert(r)) && p in db.cleared
    ensures PartOf(p.family, r.startedAt) != p
  {
    if PartOf(p.family, r.startedAt) == p {
      PartContains(p.family, r.startedAt);
      RawExpiresFirst(cfg, p, r.startedAt, db.clock);
    }
  }

  lemma SealedKept(cfg: Config, db: Db, a: Action, p: Part)
    requires Inv(cfg, db) && Enabled(cfg, db, a) && p in db.cleared
    ensures Sealed(Apply(cfg, db, a), p)
  {
    var db' := Apply(cfg, db, a);
    assert Sealed(db, p);
    if a.Insert? {
      InsertMissesSealed(cfg, db, a.row, p);
    }
    forall r | r in db'.rows && PartOf(p.family, r.startedAt) == p
      ensures (IsCommitted(db'.tx, r.xid) && r.xid < db'.lastXid) || (r.xid in db'.tx && db'.tx[r.xid].Aborted?)
    {
      assert r in db.rows;
    }
  }

  lemma NoLateWriterKept(cfg: Config, db: Db, a: Action, r: Row)
    requires Inv(cfg, db) && Enabled(cfg, db, a)
    requires r in Apply(cfg, db, a).rows && IsRunning(Apply(cfg, db, a).tx, r.xid)
    ensures !RawExpired(cfg, r.startedAt, Apply(cfg, db, a).clock)
  {
    if r in db.rows {
      assert r.xid in db.tx && IsRunning(db.tx, r.xid);
    }
  }

  lemma RetentionInvKept(cfg: Config, db: Db, a: Action)
    requires Inv(cfg, db) && Enabled(cfg, db, a)
    ensures RetentionInv(cfg, Apply(cfg, db, a))
  {
    var db' := Apply(cfg, db, a);
    forall r | r in db'.rows && IsRunning(db'.tx, r.xid)
      ensures !RawExpired(cfg, r.startedAt, db'.clock)
    {
      NoLateWriterKept(cfg, db, a, r);
    }
    forall p | p in db'.cleared || Gone(db'.parts, p)
      ensures p in db'.cleared && Sealed(db', p) && Past(cfg, db', p)
    {
      if a.Guard? && p == a.part {
        GuardSeals(cfg, db, p, a.now);
      } else {
        assert p in db.cleared || Gone(db.parts, p);
        SealedKept(cfg, db, a, p);
      }
    }
  }

  // ---- Folding ----

  lemma GroupHasRow(g: Grain, rows: seq<Row>, p: Row -> bool, k: Key)
    ensures k in GroupsOf(g, rows, p) <==> g == k.grain && exists r :: r in rows && InGroup(p, k)(r)
  {
    if k in GroupsOf(g, rows, p) {
      var r :| r in rows && p(r) && k == KeyOf(g, r);
      assert InGroup(p, k)(r);
    }
    if g == k.grain && exists r :: r in rows && InGroup(p, k)(r) {
      var r :| r in rows && InGroup(p, k)(r);
      assert k == KeyOf(g, r);
    }
  }

  lemma GroupsTouched(rows: seq<Row>, p: Row -> bool, k: Key)
    ensures k in AllGroups(rows, p) <==> Count(rows, InGroup(p, k)) > 0
  {
    ProbesCountRows(rows, InGroup(p, k));
    GroupHasRow(M1, rows, p, k);
    GroupHasRow(H1, rows, p, k);
    GroupHasRow(D1, rows, p, k);
  }

  /** Folding a batch moves the aggregates from one watermark to the next, in every grain at once. */
  lemma FoldMaterialises(cfg: Config, db: Db, stats: map<Key, Stat>, lower: nat, upper: nat)
    requires Inv(cfg, db) && db.lastXid <= lower <= upper && Materialised(db, stats, lower)
    ensures Materialised(db, FoldStats(stats, db.rows, InBatch(db, lower, upper)), upper)
  {
    forall k | !KeyGone(db.parts, k)
      ensures Holds(db.rows, db.tx, FoldStats(stats, db.rows, InBatch(db, lower, upper)), upper, k)
    {
      FoldHolds(cfg, db, stats, lower, upper, k);
    }
  }

  lemma BatchIsBetween(cfg: Config, db: Db, lower: nat, upper: nat, r: Row)
    requires Inv(cfg, db) && db.lastXid <= lower && r in db.rows
    ensures InBatch(db, lower, upper)(r) == Between(db.tx, lower, upper)(r)
  {
    if IsCommitted(db.tx, r.xid) && lower <= r.xid {
      UnfoldedRowIsSafe(cfg, db, r);
    }
  }

  /** The rows below the higher watermark are those below the lower one and those of the batch. */
  lemma BatchAddsUp(cfg: Config, db: Db, lower: nat, upper: nat, k: Key)
    requires Inv(cfg, db) && db.lastXid <= lower <= upper
    ensures var all, folded, batch := InGroup(Below(db.tx, upper), k), InGroup(Below(db.tx, lower), k),
                                   InGroup(InBatch(db, lower, upper), k);
            && Agg(db.rows, all) == Merge(Agg(db.rows, folded), Agg(db.rows, batch))
            && Count(db.rows, all) == Count(db.rows, folded) + Count(db.rows, batch)
  {
    var all, folded, batch := InGroup(Below(db.tx, upper), k), InGroup(Below(db.tx, lower), k),
                           InGroup(InBatch(db, lower, upper), k);
    forall r | r in db.rows
      ensures !(folded(r) && batch(r)) && (all(r) <==> folded(r) || batch(r))
    {
      BatchIsBetween(cfg, db, lower, upper, r);
    }
    AggSplit(db.rows, all, folded, batch);
    CountSplit(db.rows, all, folded, batch);
  }

  lemma UntouchedGroup(rows: seq<Row>, p: Row -> bool, k: Key)
    requires k !in AllGroups(rows, p)
    ensures Count(rows, InGroup(p, k)) == 0 && Agg(rows, InGroup(p, k)) == ZERO
  {
    GroupsTouched(rows, p, k);
    ProbesCountRows(rows, InGroup(p, k));
    AggNone(rows, InGroup(p, k));
  }

  lemma FoldKeysRow(stats: map<Key, Stat>, rows: seq<Row>, p: Row -> bool, keys: set<Key>, k: Key)
    ensures k in FoldKeys(stats, rows, p, keys) <==> k in stats || k in keys
    ensures Get(FoldKeys(stats, rows, p, keys), k)
         == if k in keys then Merge(Get(stats, k), Agg(rows, InGroup(p, k))) else Get(stats, k)
  {
  }

  lemma FoldedRow(stats: map<Key, Stat>, rows: seq<Row>, p: Row -> bool, k: Key)
    ensures Get(FoldStats(stats, rows, p), k) == Merge(Get(stats, k), Agg(rows, InGroup(p, k)))
    ensures k in FoldStats(stats, rows, p) <==> k in stats || Count(rows, InGroup(p, k)) > 0
  {
    var keys := AllGroups(rows, p);
    FoldKeysRow(stats, rows, p, keys, k);
    if k in keys {
      GroupsTouched(rows, p, k);
    } else {
      UntouchedGroup(rows, p, k);
      MergeIsCommutativeMonoid(Get(stats, k), ZERO, ZERO);
    }
  }

  /** Both maps have the key with one value, or neither has it. */
  predicate SameAt(m: map<Key, Stat>, n: map<Key, Stat>, j: Key) {
    (j in m <==> j in n) && (j in m ==> m[j] == n[j])
  }

  lemma SameMaps(m: map<Key, Stat>, n: map<Key, Stat>)
    requires forall j :: SameAt(m, n, j)
    ensures m == n
  {
    forall j
      ensures j in m.Keys <==> j in n.Keys
    {
      assert SameAt(m, n, j);
    }
    assert m.Keys == n.Keys;
    forall j | j in m
      ensures m[j] == n[j]
    {
      assert SameAt(m, n, j);
    }
  }

  /** Another key changes nothing for this one. */
  lemma FoldOtherKey(was: map<Key, Stat>, rows: seq<Row>, p: Row -> bool, keys: set<Key>, k: Key, j: Key)
    requires j != k
    ensures SameAt(FoldKeys(was, rows, p, keys), FoldKeys(was, rows, p, keys + {k}), j)
  {
    assert j in keys <==> j in keys + {k};
  }

  lemma FoldNewKey(was: map<Key, Stat>, rows: seq<Row>, p: Row -> bool, keys: set<Key>, k: Key)
    requires k !in keys
    ensures var work, group := FoldKeys(was, rows, p, keys), Agg(rows, InGroup(p, k));
            var n := FoldKeys(was, rows, p, keys + {k});
            k in n && n[k] == if k in work then Merge(work[k], group) else group
  {
    FoldKeysRow(was, rows, p, keys, k);
    MergeIsCommutativeMonoid(Agg(rows, InGroup(p, k)), ZERO, ZERO);
  }

  lemma UpdateOneKey(work: map<Key, Stat>, n: map<Key, Stat>, k: Key, s: Stat)
    requires k in n && n[k] == s && forall j :: j != k ==> SameAt(work, n, j)
    ensures n == work[k := s]
  {
    var next := work[k := s];
    forall j
      ensures SameAt(next, n, j)
    {
      assert j != k ==> SameAt(work, n, j);
    }
    SameMaps(next, n);
  }

  /** One more group upserted. */
  lemma FoldOneMoreKey(was: map<Key, Stat>, rows: seq<Row>, p: Row -> bool, keys: set<Key>, k: Key)
    requires k !in keys
    ensures var work, group := FoldKeys(was, rows, p, keys), Agg(rows, InGroup(p, k));
            FoldKeys(was, rows, p, keys + {k}) == work[k := if k in work then Merge(work[k], group) else group]
  {
    var work, group := FoldKeys(was, rows, p, keys), Agg(rows, InGroup(p, k));
    FoldNewKey(was, rows, p, keys, k);
    forall j | j != k
      ensures SameAt(work, FoldKeys(was, rows, p, keys + {k}), j)
    {
      FoldOtherKey(was, rows, p, keys, k, j);
    }
    UpdateOneKey(work, FoldKeys(was, rows, p, keys + {k}), k, if k in work then Merge(work[k], group) else group);
  }

  lemma FoldHolds(cfg: Config, db: Db, stats: map<Key, Stat>, lower: nat, upper: nat, k: Key)
    requires Inv(cfg, db) && db.lastXid <= lower <= upper && Holds(db.rows, db.tx, stats, lower, k)
    ensures Holds(db.rows, db.tx, FoldStats(stats, db.rows, InBatch(db, lower, upper)), upper, k)
  {
    BatchAddsUp(cfg, db, lower, upper, k);
    FoldedRow(stats, db.rows, InBatch(db, lower, upper), k);
  }

  // ---- Every step keeps the invariant ----

  lemma MaterialisedKept(cfg: Config, db: Db, a: Action)
    requires Inv(cfg, db) && Enabled(cfg, db, a)
    ensures var db' := Apply(cfg, db, a); Materialised(db', db'.stats, db'.lastXid)
  {
    var db' := Apply(cfg, db, a);
    if a.PassCommit? {
      StepsLeaveFinalRows(cfg, db, a, db.pass.value.horizon);
      StepsLeaveFinalRows(cfg, db, a, db.pass.value.last);
      MaterialisedFrame(db, db', db.pass.value.stats, db.pass.value.last);
    } else {
      StepsLeaveFinalRows(cfg, db, a, db.lastXid);
      MaterialisedFrame(db, db', db.stats, db.lastXid);
    }
  }

  lemma PassInvKept(cfg: Config, db: Db, a: Action)
    requires Inv(cfg, db) && Enabled(cfg, db, a)
    ensures PassInv(Apply(cfg, db, a))
  {
    var db' := Apply(cfg, db, a);
    if db.pass.Some? && db'.pass.Some? {
      var p := db.pass.value;
      if a.PassFold? {
        FoldMaterialises(cfg, db, p.stats, p.last, a.upper);
        MaterialisedFrame(db, db', db'.pass.value.stats, a.upper);
      } else {
        StepsLeaveFinalRows(cfg, db, a, p.horizon);
        StepsLeaveFinalRows(cfg, db, a, p.last);
        MaterialisedFrame(db, db', p.stats, p.last);
      }
    } else if a.PassLock? {
      StepsLeaveFinalRows(cfg, db, a, db.lastXid);
      MaterialisedFrame(db, db', db.stats, db.lastXid);
    }
  }

  lemma WatermarkKept(cfg: Config, db: Db, a: Action)
    requires Inv(cfg, db) && Enabled(cfg, db, a)
    ensures AboveWatermark(Apply(cfg, db, a), Apply(cfg, db, a).lastXid)
    ensures db.lastXid <= Apply(cfg, db, a).lastXid
    ensures TxInv(Apply(cfg, db, a))
  {
    StepsLeaveFinalRows(cfg, db, a, db.lastXid);
    if a.PassCommit? {
      StepsLeaveFinalRows(cfg, db, a, db.pass.value.horizon);
    }
  }

  lemma StepKeepsInv(cfg: Config, db: Db, a: Action)
    requires Inv(cfg, db)
    ensures Inv(cfg, Step(cfg, db, a)) && db.lastXid <= Step(cfg, db, a).lastXid
  {
    if Enabled(cfg, db, a) {
      MaterialisedKept(cfg, db, a);
      PassInvKept(cfg, db, a);
      WatermarkKept(cfg, db, a);
      RetentionInvKept(cfg, db, a);
    }
  }

  /**
   * Whatever writers, passes and retention do, in whatever order, the invariant holds throughout and the watermark
   * never goes back.
   */
  lemma {:induction false} RunKeepsInv(cfg: Config, db: Db, steps: seq<Action>)
    requires Inv(cfg, db)
    ensures Inv(cfg, Run(cfg, db, steps)) && db.lastXid <= Run(cfg, db, steps).lastXid
  {
    if steps != [] {
      RunKeepsInv(cfg, db, steps[..|steps| - 1]);
      StepKeepsInv(cfg, Run(cfg, db, steps[..|steps| - 1]), steps[|steps| - 1]);
    }
  }

  lemma ReachableInv(cfg: Config, start: Db, steps: seq<Action>)
    requires cfg.Valid() && Initial(start)
    ensures Inv(cfg, Run(cfg, start, steps))
  {
    InitialInv(cfg, start);
    RunKeepsInv(cfg, start, steps);
  }

  lemma {:induction false} RunKeepsAbove(cfg: Config, db: Db, steps: seq<Action>, watermark: nat)
    requires Inv(cfg, db) && AboveWatermark(db, watermark)
    ensures AboveWatermark(Run(cfg, db, steps), watermark)
  {
    if steps != [] {
      var mid := Run(cfg, db, steps[..|steps| - 1]);
      RunKeepsInv(cfg, db, steps[..|steps| - 1]);
      RunKeepsAbove(cfg, db, steps[..|steps| - 1], watermark);
      if Enabled(cfg, mid, steps[|steps| - 1]) {
        StepKeepsAbove(cfg, mid, steps[|steps| - 1], watermark);
      }
    }
  }

  /** No row commits below a watermark once every running transaction is at or above it. */
  lemma {:induction false} RunLeavesFinalRows(cfg: Config, db: Db, steps: seq<Action>, watermark: nat)
    requires Inv(cfg, db) && AboveWatermark(db, watermark)
    ensures SameBelow(db, Run(cfg, db, steps), watermark) && PartsLeave(db, Run(cfg, db, steps))
  {
    if steps != [] {
      var before, a := steps[..|steps| - 1], steps[|steps| - 1];
      var mid, end := Run(cfg, db, before), Run(cfg, db, steps);
      RunKeepsInv(cfg, db, before);
      RunLeavesFinalRows(cfg, db, before, watermark);
      RunKeepsAbove(cfg, db, before, watermark);
      if Enabled(cfg, mid, a) {
        StepsLeaveFinalRows(cfg, mid, a, watermark);
        SameBelowChains(db, mid, end, watermark);
      }
    }
  }

  lemma SameBelowChains(a: Db, b: Db, c: Db, watermark: nat)
    requires SameBelow(a, b, watermark) && SameBelow(b, c, watermark)
    ensures SameBelow(a, c, watermark)
  {
    forall i | |a.rows| <= i < |c.rows|
      ensures !Below(c.tx, watermark)(c.rows[i])
    {
      if i < |b.rows| {
        assert c.rows[i] == b.rows[i] && b.rows[i] in b.rows;
      }
    }
    assert forall r :: r in a.rows ==> r in b.rows;
  }

  // ---- A folded row had its aggregate partitions ----

  ghost predicate HadTargets(parts: map<Part, PartState>, r: Row) {
    PartOf(MinuteStats, r.startedAt) in parts && PartOf(HourStats, r.startedAt) in parts
  }

  ghost predicate TargetsBelow(db: Db, watermark: nat) {
    forall r :: r in db.rows && Below(db.tx, watermark)(r) ==> HadTargets(db.parts, r)
  }

  ghost predicate TargetsInv(db: Db) {
    TargetsBelow(db, db.lastXid) && (db.pass.Some? ==> TargetsBelow(db, db.pass.value.last))
  }

  /** A partition once created keeps its entry. */
  lemma StepKeepsParts(cfg: Config, db: Db, a: Action)
    requires Enabled(cfg, db, a)
    ensures db.parts.Keys <= Apply(cfg, db, a).parts.Keys
  {
  }

  lemma TargetsFrame(a: Db, b: Db, watermark: nat)
    requires SameBelow(a, b, watermark) && a.parts.Keys <= b.parts.Keys && TargetsBelow(a, watermark)
    ensures TargetsBelow(b, watermark)
  {
    forall r | r in b.rows && Below(b.tx, watermark)(r)
      ensures HadTargets(b.parts, r)
    {
      var i :| 0 <= i < |b.rows| && b.rows[i] == r;
      assert i < |a.rows| && a.rows[i] == r;
      assert r in a.rows;
    }
  }

  lemma TargetsLast(cfg: Config, db: Db, a: Action, watermark: nat)
    requires Inv(cfg, db) && Enabled(cfg, db, a) && AboveWatermark(db, watermark) && TargetsBelow(db, watermark)
    ensures TargetsBelow(Apply(cfg, db, a), watermark)
  {
    StepKeepsParts(cfg, db, a);
    StepsLeaveFinalRows(cfg, db, a, watermark);
    TargetsFrame(db, Apply(cfg, db, a), watermark);
  }

  lemma FoldHasTargets(cfg: Config, db: Db, upper: nat)
    requires Inv(cfg, db) && TargetsInv(db) && Enabled(cfg, db, PassFold(upper))
    ensures TargetsBelow(db, upper)
  {
    var last := db.pass.value.last;
    forall r | r in db.rows && Below(db.tx, upper)(r)
      ensures HadTargets(db.parts, r)
    {
      if r.xid < last {
        assert Below(db.tx, last)(r);
      } else {
        BatchIsBetween(cfg, db, last, upper, r);
      }
    }
  }

  lemma TargetsKept(cfg: Config, db: Db, a: Action)
    requires Inv(cfg, db) && Enabled(cfg, db, a) && TargetsInv(db)
    ensures TargetsInv(Apply(cfg, db, a))
  {
    TargetsLast(cfg, db, a, db.lastXid);
    if db.pass.Some? {
      TargetsLast(cfg, db, a, db.pass.value.last);
      if a.PassFold? {
        FoldHasTargets(cfg, db, a.upper);
      }
    }
  }

  /** In every reachable state the partitions a folded row was folded into were once created. */
  lemma {:induction false} FoldedHadTargets(cfg: Config, start: Db, steps: seq<Action>)
    requires cfg.Valid() && Initial(start)
    ensures TargetsInv(Run(cfg, start, steps))
  {
    if steps != [] {
      var mid := Run(cfg, start, steps[..|steps| - 1]);
      FoldedHadTargets(cfg, start, steps[..|steps| - 1]);
      ReachableInv(cfg, start, steps[..|steps| - 1]);
      if Enabled(cfg, mid, steps[|steps| - 1]) {
        TargetsKept(cfg, mid, steps[|steps| - 1]);
      }
    }
  }

  /** What an aggregate query for one bucket sees: nothing, once the bucket's partition is gone. */
  function ReadStat(db: Db, k: Key): Option<Stat> {
    if k in db.stats && !KeyGone(db.parts, k) then Some(db.stats[k]) else None
  }

  /**
   * Exactly once, under any commit order: after any run, each aggregate row that is still stored is the direct
   * aggregate of the committed rows of its bucket below the watermark, and is absent only when there are none.
   */
  lemma FoldedExactlyOnce(cfg: Config, start: Db, steps: seq<Action>, k: Key)
    requires cfg.Valid() && Initial(start)
    ensures var db := Run(cfg, start, steps);
            var rows := InGroup(Below(db.tx, db.lastXid), k);
            !KeyGone(db.parts, k) ==>
              ReadStat(db, k) == if Count(db.rows, rows) > 0 then Some(Agg(db.rows, rows)) else None
  {
    ReachableInv(cfg, start, steps);
    var db := Run(cfg, start, steps);
    if !KeyGone(db.parts, k) {
      assert Holds(db.rows, db.tx, db.stats, db.lastXid, k);
    }
  }

  /** Two histories with the same rows and watermark store the same aggregates, however they were batched. */
  lemma BatchingDoesNotMatter(cfg: Config, a: Db, b: Db, k: Key)
    requires Inv(cfg, a) && Inv(cfg, b)
    requires a.rows == b.rows && a.tx == b.tx && a.lastXid == b.lastXid && a.parts == b.parts
    ensures ReadStat(a, k) == ReadStat(b, k)
  {
    if !KeyGone(a.parts, k) {
      assert Holds(a.rows, a.tx, a.stats, a.lastXid, k);
      assert Holds(b.rows, b.tx, b.stats, b.lastXid, k);
    }
  }

  /**
   * Retention loses nothing unfolded: in every reachable state, a committed row whose raw partition is being
   * detached, detached or dropped is below the watermark, and a row at or above it still has both its
   * aggregate partitions to be folded into.
   */
  lemma RetentionLosesNothing(cfg: Config, start: Db, steps: seq<Action>, r: Row)
    requires cfg.Valid() && Initial(start)
    requires r in Run(cfg, start, steps).rows && IsCommitted(Run(cfg, start, steps).tx, r.xid)
    ensures var db := Run(cfg, start, steps);
            && (!Visible(db, r) ==> r.xid < db.lastXid)
            && (Gone(db.parts, PartOf(MinuteStats, r.startedAt)) ==> r.xid < db.lastXid)
            && (Gone(db.parts, PartOf(HourStats, r.startedAt)) ==> r.xid < db.lastXid)
  {
    ReachableInv(cfg, start, steps);
    var db := Run(cfg, start, steps);
    if db.lastXid <= r.xid {
      UnfoldedRowIsSafe(cfg, db, r);
    }
  }

  // ---- Which setting governs which family ----

  /** The partition ended at least so many days before `now`. */
  predicate EndedDaysAgo(p: Part, days: nat, now: int) { p.hi + days * DAY <= now }

  /** Raw partitions go by the raw retention, minute ones by the minute retention, hour ones by the hour retention. */
  predicate PastItsOwn(cfg: Config, p: Part, now: int) {
    || (p.family == Raw && EndedDaysAgo(p, cfg.rawDays, now))
    || (p.family == MinuteStats && EndedDaysAgo(p, cfg.minuteDays, now))
    || (p.family == HourStats && EndedDaysAgo(p, cfg.hourDays, now))
  }

  lemma ExpiredIsPastItsOwn(cfg: Config, p: Part, now: int)
    ensures Expired(cfg, p, now) <==> PastItsOwn(cfg, p, now)
  {
  }

  lemma StaysPastItsOwn(cfg: Config, p: Part, now: int, later: int)
    requires PastItsOwn(cfg, p, now) && now <= later
    ensures PastItsOwn(cfg, p, later)
  {
  }

  lemma {:induction false} ClearedPastItsOwn(cfg: Config, start: Db, steps: seq<Action>, p: Part)
    requires Initial(start) && p in Run(cfg, start, steps).cleared
    ensures PastItsOwn(cfg, p, Run(cfg, start, steps).clock)
  {
    var before := steps[..|steps| - 1];
    var mid, a := Run(cfg, start, before), steps[|steps| - 1];
    if p in mid.cleared {
      ClearedPastItsOwn(cfg, start, before, p);
      ClockGoesOn(cfg, mid, a);
      StaysPastItsOwn(cfg, p, mid.clock, Step(cfg, mid, a).clock);
    } else {
      ExpiredIsPastItsOwn(cfg, p, a.now);
      StaysPastItsOwn(cfg, p, a.now, mid.clock);
    }
  }

  lemma ClockGoesOn(cfg: Config, db: Db, a: Action)
    ensures db.clock <= Step(cfg, db, a).clock
  {
  }

  /** In every reachable state each family keeps a partition for as long as the family's own setting says. */
  lemma EachKeepsItsDays(cfg: Config, start: Db, steps: seq<Action>, p: Part)
    requires cfg.Valid() && Initial(start) && p in Run(cfg, start, steps).parts
    ensures var db := Run(cfg, start, steps); db.parts[p].Attached? || PastItsOwn(cfg, p, db.clock)
  {
    ReachableInv(cfg, start, steps);
    if Gone(Run(cfg, start, steps).parts, p) {
      ClearedPastItsOwn(cfg, start, steps, p);
    }
  }

  /** Raw and minute partitions are days; hour partitions are months, from the first to the next first. */
  lemma PartsAreDaysAndMonths(family: Family, t: int)
    requires FIRST <= t
    ensures var p := PartOf(family, t);
            && p.family == family && p.lo <= t < p.hi
            && (family != HourStats ==> p.lo % DAY == 0 && p.hi == p.lo + DAY)
            && (family == HourStats ==>
                  CivilAt(p.lo) == CivilAt(t).(day := 1) && CivilAt(p.hi) == NextMonth(CivilAt(t).(day := 1))
                  && p.lo % DAY == p.hi % DAY == 0)
  {
    PartContains(family, t);
    StartDate(KindOf(family), t);
    NextDate(KindOf(family), PartOf(family, t).lo);
  }
}
