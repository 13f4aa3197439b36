/**
 * When a window's answer is exact, told from the catalogue alone; and the runs in which a window passes both of its
 * checks and is answered wrongly. They detach a minute partition while an older one stays live, as one retention pass
 * does when the older one's detach gives up before marking it.
 */
module RetentionGap {
  import opened Wrappers
  import opened Calendar
  import opened Aggregate
  import opened Window
  import opened Warehouse
  import opened StatsRepository
  import opened PartitionHistory

  /** What the plan of a window reads is the direct aggregate of the folded rows that started in it. */
  ghost predicate Exact(db: Db, endpoint: int, from: int, to: int)
    requires MinuteAligned(from, to)
  {
    MergeAll(ReadRows(db, endpoint, PlanOf(Greedy(from, to)))) == Agg(db.rows, InWindow(db, endpoint, from, to))
  }

  ghost predicate Reachable(cfg: Config, db: Db) {
    exists start, steps :: Initial(start) && Run(cfg, start, steps) == db
  }

  // ---- Losing a bucket ----

  /** Its partition is gone, and a row of it could once be stored and folded. */
  ghost predicate Losable(parts: map<Part, PartState>, tile: Tile) {
    && FIRST <= tile.start && KeyGone(parts, TileKey(0, tile))
    && forall f: Family :: PartOf(f, tile.start) in parts
  }

  /** A bucket in a partition that is gone is lost once a row of it has been folded. */
  lemma RowLosesTile(db: Db, row: Row, tile: Tile)
    requires HasFolded(db, row, db.parts) && row.xid == 0
    requires KeyGone(db.parts, TileKey(row.endpoint, tile))
    requires TileKey(row.endpoint, tile) == KeyOf(GrainOf(tile.len), row)
    ensures Lost(db, row.endpoint, tile)
  {
    var p := InTile(db, row.endpoint, tile);
    assert p(row) && row in db.rows;
    ProbesCountRows(db.rows, p);
  }

  lemma StartIsTrunc(tile: Tile)
    requires tile.Aligned()
    ensures Trunc(GrainOf(tile.len), tile.start) == tile.start
  {
    TruncIsTile(tile, tile.start);
  }

  /** Whatever its partitions' states, a bucket that can be lost is lost in some run. */
  lemma LosableIsLost(cfg: Config, parts: map<Part, PartState>, tile: Tile) returns (db: Db, endpoint: int)
    requires cfg.Valid() && PartsNamed(parts) && tile.Aligned() && Losable(parts, tile)
    ensures Reachable(cfg, db) && Inv(cfg, db) && db.parts == parts && Lost(db, endpoint, tile)
  {
    endpoint := 0;
    var row := Row(endpoint, tile.start, 0, Up, 0, 0, None, 0);
    StartIsTrunc(tile);
    var start := Empty(tile.start);
    var steps := ReachesParts(cfg, row, parts);
    db := Run(cfg, start, steps);
    ReachableInv(cfg, start, steps);
    RowLosesTile(db, row, tile);
  }

  /** A lost bucket's folded row tells that its partitions were created. */
  lemma LostIsLosable(cfg: Config, db: Db, endpoint: int, tile: Tile)
    requires Inv(cfg, db) && TargetsInv(db) && tile.Aligned() && Lost(db, endpoint, tile)
    ensures Losable(db.parts, tile)
  {
    var r := LostRow(db, endpoint, tile);
    FoldedRowLeaves(db, r);
    FirstIsFloor(GrainOf(tile.len), r.startedAt);
    forall f: Family
      ensures PartOf(f, tile.start) in db.parts
    {
      BucketInPart(GrainOf(tile.len), r.startedAt, f);
    }
  }

  /** A folded row that a lost bucket should count. */
  lemma LostRow(db: Db, endpoint: int, tile: Tile) returns (r: Row)
    requires Lost(db, endpoint, tile)
    ensures r in db.rows && Below(db.tx, db.lastXid)(r) && Trunc(GrainOf(tile.len), r.startedAt) == tile.start
  {
    r := CountedRow(db.rows, InTile(db, endpoint, tile));
  }

  /** A folded row's three partitions are on record. */
  lemma FoldedRowLeaves(db: Db, r: Row)
    requires TxInv(db) && TargetsInv(db) && r in db.rows && Below(db.tx, db.lastXid)(r)
    ensures FIRST <= r.startedAt && forall f: Family :: PartOf(f, r.startedAt) in db.parts
  {
    assert HadTargets(db.parts, r);
    forall f: Family
      ensures PartOf(f, r.startedAt) in db.parts
    {
      match f case Raw => case MinuteStats => case HourStats =>
    }
  }

  // ---- The exact condition on the catalogue ----

  /** With these partitions the window is answered exactly, whatever came before and for every endpoint. */
  ghost predicate AlwaysExact(cfg: Config, parts: map<Part, PartState>, from: int, to: int)
    requires MinuteAligned(from, to)
  {
    forall db, endpoint :: Reachable(cfg, db) && db.parts == parts ==> Exact(db, endpoint, from, to)
  }

  lemma TilesAligned(from: int, to: int)
    requires from <= to && MinuteAligned(from, to)
    ensures forall t :: t in Greedy(from, to) ==> t.Aligned() && from <= t.start
  {
    GreedyTiles(from, to);
    TilingEnds(Greedy(from, to), from, to);
  }

  lemma ReachableHolds(cfg: Config, db: Db)
    requires cfg.Valid() && Reachable(cfg, db)
    ensures Inv(cfg, db) && TargetsInv(db)
  {
    var start, steps :| Initial(start) && Run(cfg, start, steps) == db;
    ReachableInv(cfg, start, steps);
    FoldedHadTargets(cfg, start, steps);
  }

  lemma LosesTile(cfg: Config, parts: map<Part, PartState>, tile: Tile, from: int, to: int)
    returns (db: Db, endpoint: int)
    requires cfg.Valid() && PartsNamed(parts) && from <= to && MinuteAligned(from, to)
    requires tile in Greedy(from, to) && Losable(parts, tile)
    ensures Reachable(cfg, db) && db.parts == parts && !Exact(db, endpoint, from, to)
  {
    TilesAligned(from, to);
    db, endpoint := LosableIsLost(cfg, parts, tile);
    ExactUnlessLost(db, endpoint, from, to);
    assert AnyLost(db, endpoint, Greedy(from, to));
  }

  /**
   * Never a partial answer, told from the catalogue: with these partitions every reachable database answers the
   * window exactly, for every endpoint, if and only if no hour or minute bucket of its plan lies in a partition that
   * is gone and was, with the others its rows need, once there.
   */
  lemma ExactIffNoneLosable(cfg: Config, parts: map<Part, PartState>, from: int, to: int)
    requires cfg.Valid() && PartsNamed(parts) && from <= to && MinuteAligned(from, to)
    ensures AlwaysExact(cfg, parts, from, to) <==> forall t :: t in Greedy(from, to) ==> !Losable(parts, t)
  {
    if t :| t in Greedy(from, to) && Losable(parts, t) {
      var db, endpoint := LosesTile(cfg, parts, t, from, to);
    } else {
      TilesAligned(from, to);
      forall db, endpoint | Reachable(cfg, db) && db.parts == parts
        ensures Exact(db, endpoint, from, to)
      {
        ReachableHolds(cfg, db);
        forall t | t in Greedy(from, to)
          ensures !Lost(db, endpoint, t)
        {
          if Lost(db, endpoint, t) {
            LostIsLosable(cfg, db, endpoint, t);
          }
        }
        ExactUnlessLost(db, endpoint, from, to);
      }
    }
  }

  ghost predicate ExactWhileLive(cfg: Config, live: set<Part>, from: int, to: int)
    requires MinuteAligned(from, to)
  {
    forall db, endpoint :: Reachable(cfg, db) && Live(db.parts) == live ==> Exact(db, endpoint, from, to)
  }

  /** The partitions a row that starts at `t` needs. */
  function TargetsAt(t: int): set<Part> { {PartOf(Raw, t), PartOf(MinuteStats, t), PartOf(HourStats, t)} }

  /** The live partitions, and others dropped. */
  function WithDropped(live: set<Part>, others: set<Part>): map<Part, PartState> {
    map p | p in live + others :: if p in live then Attached else Dropped
  }

  lemma DroppedBeside(live: set<Part>, others: set<Part>)
    ensures var parts := WithDropped(live, others);
            && parts.Keys == live + others && Live(parts) == live
            && forall p :: p in others && p !in live ==> Gone(parts, p)
  {
  }

  lemma PartIsNamed(f: Family, t: int)
    requires FIRST <= t
    ensures var p := PartOf(f, t); FIRST <= p.lo && p == PartOf(f, p.lo)
  {
    StartDate(KindOf(f), t);
    ContainsSinceFirst(KindOf(f), PartOf(f, t).lo, PartOf(f, t).lo);
    NextDate(KindOf(f), PartOf(f, t).lo);
  }

  lemma OneNamed(f: Family, t: int)
    requires FIRST <= t
    ensures Named({PartOf(f, t)})
  {
    PartIsNamed(f, t);
  }

  lemma NamedWith(some: set<Part>, a: Part, b: Part, c: Part)
    requires Named(some) && Named({a}) && Named({b}) && Named({c})
    ensures Named(some + {a, b, c})
  {
    assert forall p :: p in some + {a, b, c} ==> p in some || p in {a} || p in {b} || p in {c};
  }

  lemma TargetsAreAll(t: int)
    ensures forall f: Family :: PartOf(f, t) in TargetsAt(t)
  {
    forall f: Family
      ensures PartOf(f, t) in TargetsAt(t)
    {
      match f case Raw => case MinuteStats => case HourStats =>
    }
  }

  /** The partition a bucket is stored in; days are stored outside partitions. */
  lemma UnservedIsGone(live: set<Part>, parts: map<Part, PartState>, tile: Tile)
    requires !Served(live, tile) && forall p :: p in TargetsAt(tile.start) && p !in live ==> Gone(parts, p)
    ensures FIRST <= tile.start && KeyGone(parts, TileKey(0, tile))
  {
    TargetsAreAll(tile.start);
  }

  lemma UnservedIsLosable(live: set<Part>, tile: Tile)
    requires Named(live) && !Served(live, tile)
    ensures var parts := WithDropped(live, TargetsAt(tile.start));
            PartsNamed(parts) && Live(parts) == live && Losable(parts, tile)
  {
    var t := tile.start;
    OneNamed(Raw, t);
    OneNamed(MinuteStats, t);
    OneNamed(HourStats, t);
    NamedWith(live, PartOf(Raw, t), PartOf(MinuteStats, t), PartOf(HourStats, t));
    DroppedBeside(live, TargetsAt(t));
    UnservedIsGone(live, WithDropped(live, TargetsAt(t)), tile);
    TargetsAreAll(t);
  }

  lemma ServedIsNotLost(cfg: Config, db: Db, endpoint: int, tile: Tile)
    requires Inv(cfg, db) && TargetsInv(db) && tile.Aligned() && Served(Live(db.parts), tile)
    ensures !Lost(db, endpoint, tile)
  {
    if Lost(db, endpoint, tile) {
      LostIsLosable(cfg, db, endpoint, tile);
    }
  }

  /**
   * The check a reader could make: knowing only which partitions are live, the answer is exact whatever the history if
   * and only if every hour and minute bucket of the plan lies in a live one. Comparing with the oldest start, as the
   * code does, is not enough (`AcceptedButPartial`).
   */
  lemma ExactIffServed(cfg: Config, live: set<Part>, from: int, to: int)
    requires cfg.Valid() && Named(live) && from <= to && MinuteAligned(from, to)
    ensures ExactWhileLive(cfg, live, from, to) <==> forall t :: t in Greedy(from, to) ==> Served(live, t)
  {
    TilesAligned(from, to);
    if t :| t in Greedy(from, to) && !Served(live, t) {
      UnservedIsLosable(live, t);
      var db, endpoint := LosesTile(cfg, WithDropped(live, TargetsAt(t.start)), t, from, to);
    } else {
      forall db, endpoint | Reachable(cfg, db) && Live(db.parts) == live
        ensures Exact(db, endpoint, from, to)
      {
        ReachableHolds(cfg, db);
        forall t | t in Greedy(from, to)
          ensures !Lost(db, endpoint, t)
        {
          ServedIsNotLost(cfg, db, endpoint, t);
        }
        ExactUnlessLost(db, endpoint, from, to);
      }
    }
  }

  // ---- A window that passes both checks ----

  /** The partition an instant's minutes are in is being detached, the one of the day before is not. */
  function GapParts(t: int): map<Part, PartState> {
    map[PartOf(Raw, t) := Attached, PartOf(HourStats, t) := Attached, PartOf(MinuteStats, t - DAY) := Attached,
        PartOf(MinuteStats, t) := Pending]
  }

  lemma DayStart(t: int)
    requires FIRST <= t
    ensures PeriodStart(DayPeriod, t) == t / DAY * DAY
  {
    StartDate(DayPeriod, t);
    BeforeNextStart(DayPeriod, t);
    NextDate(DayPeriod, PeriodStart(DayPeriod, t));
  }

  lemma OlderPart(t: int)
    requires FIRST + DAY <= t
    ensures PartOf(MinuteStats, t - DAY).lo < PartOf(MinuteStats, t).lo
    ensures PartOf(MinuteStats, t - DAY).lo <= Trunc(M1, t)
  {
    DayStart(t);
    DayStart(t - DAY);
  }

  lemma FourNamed(a: Part, b: Part, c: Part, d: Part, parts: map<Part, PartState>)
    requires Named({a}) && Named({b}) && Named({c}) && Named({d}) && parts.Keys == {a, b, c, d}
    ensures Named(parts.Keys)
  {
  }

  lemma GapIsNamed(t: int)
    requires FIRST + DAY <= t
    ensures Named(GapParts(t).Keys)
  {
    OneNamed(Raw, t);
    OneNamed(HourStats, t);
    OneNamed(MinuteStats, t - DAY);
    OneNamed(MinuteStats, t);
    FourNamed(PartOf(Raw, t), PartOf(HourStats, t), PartOf(MinuteStats, t - DAY), PartOf(MinuteStats, t), GapParts(t));
  }

  lemma GapScene(row: Row)
    requires FIRST + DAY <= row.startedAt && row.xid == 0
    ensures Scene(row, GapParts(row.startedAt).Keys).Valid()
  {
    GapIsNamed(row.startedAt);
    forall f: Family
      ensures PartOf(f, row.startedAt) in GapParts(row.startedAt).Keys
    {
      match f case Raw => case MinuteStats => case HourStats =>
    }
  }

  /** Every result from the second day on meets the gap in some run. */
  lemma ReachesGap(cfg: Config, row: Row) returns (steps: seq<Action>, db: Db)
    requires cfg.Valid() && FIRST + DAY <= row.startedAt && row.xid == 0
    ensures Initial(Empty(row.startedAt)) && Run(cfg, Empty(row.startedAt), steps) == db
    ensures HasFolded(db, row, GapParts(row.startedAt)) && Inv(cfg, db)
  {
    GapScene(row);
    steps := ReachesParts(cfg, row, GapParts(row.startedAt));
    db := Run(cfg, Empty(row.startedAt), steps);
    ReachableInv(cfg, Empty(row.startedAt), steps);
  }

  lemma GapLosesTile(row: Row, db: Db)
    requires HasFolded(db, row, GapParts(row.startedAt)) && row.xid == 0
    ensures Lost(db, row.endpoint, Tile(Trunc(M1, row.startedAt), MINUTE))
  {
    KeyParts(row, db.parts, M1);
    RowLosesTile(db, row, Tile(Trunc(M1, row.startedAt), MINUTE));
  }

  /** What the reader then takes to be retained: the older partition hides the gap behind it. */
  function GapRetained(t: int): Retained {
    Retained(Some(PartOf(MinuteStats, t - DAY).lo), Some(PartOf(HourStats, t).lo))
  }

  lemma GapKeepsOldest(parts: map<Part, PartState>, t: int)
    requires FIRST + DAY <= t && parts == GapParts(t)
    ensures IsOldest(parts, MinuteStats, GapRetained(t).m1) && IsOldest(parts, HourStats, GapRetained(t).h1)
  {
    OlderPart(t);
    FirstOfEach(PartOf(Raw, t), PartOf(HourStats, t), PartOf(MinuteStats, t - DAY), PartOf(MinuteStats, t));
  }

  lemma FirstOfEach(raw: Part, hours: Part, p: Part, q: Part)
    requires raw.family == Raw && hours.family == HourStats && p.family == q.family == MinuteStats && p != q
    ensures var parts := map[raw := Attached, hours := Attached, p := Attached, q := Pending];
            IsOldest(parts, MinuteStats, Some(p.lo)) && IsOldest(parts, HourStats, Some(hours.lo))
  {
    var parts := map[raw := Attached, hours := Attached, p := Attached, q := Pending];
    assert IsAttached(parts, p) && IsAttached(parts, hours);
  }

  lemma TruncAligned(at: int)
    ensures Trunc(M1, at) % MINUTE == 0 && (Trunc(M1, at) + MINUTE) % MINUTE == 0
  {
  }

  /** The tiles of the one-minute window around an instant. */
  function MinuteOf(at: int): seq<Tile> {
    TruncAligned(at);
    Greedy(Trunc(M1, at), Trunc(M1, at) + MINUTE)
  }

  lemma MinuteWindow(at: int)
    ensures var t := Trunc(M1, at); MinuteAligned(t, t + MINUTE) && MinuteOf(at) == [Tile(t, MINUTE)]
  {
    var t := Trunc(M1, at);
    TruncAligned(at);
    CoarsestFits(t, t + MINUTE);
    assert Greedy(t + MINUTE, t + MINUTE) == [];
  }

  /** The window of one minute passes both checks, and its answer is not the aggregate of its folded rows. */
  ghost predicate AnsweredWrongly(db: Db, endpoint: int, at: int, retained: Retained) {
    && IsOldest(db.parts, MinuteStats, retained.m1) && IsOldest(db.parts, HourStats, retained.h1)
    && AllRetained(MinuteOf(at), retained) && StillRetained(PlanOf(MinuteOf(at)), retained)
    && var t := Trunc(M1, at);
       MergeAll(ReadRows(db, endpoint, PlanOf(MinuteOf(at)))) != Agg(db.rows, InWindow(db, endpoint, t, t + MINUTE))
  }

  lemma OneMinutePasses(at: int, retained: Retained)
    requires !Window.Missing(retained.m1, Trunc(M1, at))
    ensures var tiles := MinuteOf(at);
            AllRetained(tiles, retained) && StillRetained(PlanOf(tiles), retained)
  {
    MinuteWindow(at);
    RecheckCoversEveryTile(Trunc(M1, at), Trunc(M1, at) + MINUTE, retained);
  }

  lemma OneMinuteLost(db: Db, endpoint: int, at: int)
    requires Materialised(db, db.stats, db.lastXid) && Lost(db, endpoint, Tile(Trunc(M1, at), MINUTE))
    ensures var t := Trunc(M1, at);
            MergeAll(ReadRows(db, endpoint, PlanOf(MinuteOf(at))))
              != Agg(db.rows, InWindow(db, endpoint, t, t + MINUTE))
  {
    MinuteWindow(at);
    OneTileLost(db, endpoint, Tile(Trunc(M1, at), MINUTE));
    ExactUnlessLost(db, endpoint, Trunc(M1, at), Trunc(M1, at) + MINUTE);
  }

  lemma OneTileLost(db: Db, endpoint: int, tile: Tile)
    requires Lost(db, endpoint, tile)
    ensures AnyLost(db, endpoint, [tile])
  {
    assert tile in [tile];
  }

  lemma GapPasses(t: int)
    requires FIRST + DAY <= t
    ensures var tiles := MinuteOf(t); AllRetained(tiles, GapRetained(t)) && StillRetained(PlanOf(tiles), GapRetained(t))
  {
    OlderPart(t);
    OneMinutePasses(t, GapRetained(t));
  }

  lemma WrongIfLost(db: Db, endpoint: int, at: int, retained: Retained)
    requires Materialised(db, db.stats, db.lastXid) && Lost(db, endpoint, Tile(Trunc(M1, at), MINUTE))
    requires IsOldest(db.parts, MinuteStats, retained.m1) && IsOldest(db.parts, HourStats, retained.h1)
    requires AllRetained(MinuteOf(at), retained) && StillRetained(PlanOf(MinuteOf(at)), retained)
    ensures AnsweredWrongly(db, endpoint, at, retained)
  {
    OneMinuteLost(db, endpoint, at);
  }

  lemma GapIsWrong(row: Row, db: Db)
    requires FIRST + DAY <= row.startedAt && row.xid == 0 && HasFolded(db, row, GapParts(row.startedAt))
    requires Materialised(db, db.stats, db.lastXid)
    ensures AnsweredWrongly(db, row.endpoint, row.startedAt, GapRetained(row.startedAt))
  {
    GapKeepsOldest(db.parts, row.startedAt);
    GapPasses(row.startedAt);
    GapLosesTile(row, db);
    WrongIfLost(db, row.endpoint, row.startedAt, GapRetained(row.startedAt));
  }

  /**
   * An accepted window is not always answered exactly. For any result at all there is a run after which the window
   * of the minute it started in passes the check before the read and the check after it, and the answer is wrong.
   */
  lemma AcceptedButPartial(cfg: Config, row: Row) returns (steps: seq<Action>, db: Db, retained: Retained)
    requires cfg.Valid() && FIRST + DAY <= row.startedAt && row.xid == 0
    ensures Initial(Empty(row.startedAt)) && Run(cfg, Empty(row.startedAt), steps) == db
    ensures AnsweredWrongly(db, row.endpoint, row.startedAt, retained)
  {
    steps, db := ReachesGap(cfg, row);
    retained := GapRetained(row.startedAt);
    GapIsWrong(row, db);
  }
}
