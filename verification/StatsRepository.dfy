/** Answering a window from stored aggregates, and when the answer is exact. */
module StatsRepository {
  import opened Wrappers
  import opened Calendar
  import opened Histogram
  import opened Percentile
  import opened Aggregate
  import opened Window
  import opened Warehouse
  import opened RollupRepository

  datatype WindowStats = WindowStats(
    up: int, down: int, degraded: int, unknown: int,
    coveredSeconds: int, upSeconds: int, degradedSeconds: int,
    count: nat, avgTotal: Option<real>, avgTtfb: Option<real>, min: Option<int>, max: Option<int>,
    p50: Option<real>, p95: Option<real>, p99: Option<real>,
    histogram: Hist, rowsRead: nat, tiles: (nat, nat, nat))

  datatype ReadError = BadWindow(error: WindowError) | NotFound

  function GrainOf(len: int): Grain {
    if len == DAY then D1 else if len == HOUR then H1 else M1
  }

  function TileKey(endpoint: int, tile: Tile): Key { Key(endpoint, GrainOf(tile.len), tile.start) }

  /** `bucket_start = ANY(starts)` for one grain: a row for each bucket that is stored. */
  function ReadGrain(db: Db, endpoint: int, g: Grain, starts: seq<int>): seq<Stat> {
    if starts == [] then []
    else
      var rest, k := ReadGrain(db, endpoint, g, starts[..|starts| - 1]), Key(endpoint, g, starts[|starts| - 1]);
      match ReadStat(db, k)
      case Some(s) => rest + [s]
      case None => rest
  }

  /** The union over the three grains. */
  function ReadRows(db: Db, endpoint: int, plan: Plan): seq<Stat> {
    ReadGrain(db, endpoint, D1, plan.d1) + ReadGrain(db, endpoint, H1, plan.h1) + ReadGrain(db, endpoint, M1, plan.m1)
  }

  function MergeAll(stats: seq<Stat>): Stat {
    if stats == [] then ZERO else Merge(MergeAll(stats[..|stats| - 1]), stats[|stats| - 1])
  }

  lemma {:induction false} MergeAllConcat(a: seq<Stat>, b: seq<Stat>)
    ensures MergeAll(a + b) == Merge(MergeAll(a), MergeAll(b))
  {
    if b == [] {
      assert a + b == a;
      MergeIsCommutativeMonoid(MergeAll(a), ZERO, ZERO);
    } else {
      var ab := a + b;
      assert ab[..|ab| - 1] == a + b[..|b| - 1] && ab[|ab| - 1] == b[|b| - 1];
      MergeAllConcat(a, b[..|b| - 1]);
      MergeSlides(MergeAll(a), MergeAll(b[..|b| - 1]), b[|b| - 1]);
    }
  }

  function Average(total: int, count: nat): Option<real> {
    if count > 0 then Some(total as real / count as real) else None
  }

  /** `v` is a percentile of the histogram, absent exactly when the histogram is empty. */
  ghost predicate IsPercentile(v: Option<real>, p: real, s: Stat) {
    match v
    case None => Sum(s.hist) == 0
    case Some(x) => Sum(s.hist) > 0 && AtPercentile(s.hist, Rank(p, Sum(s.hist)), Extremes(s.minTotal, s.maxTotal), x)
  }

  /** A summary of `s`, given its percentiles and what was read. */
  function SummaryOf(s: Stat, p50: Option<real>, p95: Option<real>, p99: Option<real>, rowsRead: nat,
                     tiles: (nat, nat, nat)): WindowStats {
    var count := Sum(s.hist);
    WindowStats(s.up, s.down, s.degraded, s.unknown, s.coveredSeconds, s.upSeconds, s.degradedSeconds,
                count, Average(s.sumTotal, count), Average(s.sumTtfb, count), s.minTotal, s.maxTotal, p50, p95, p99,
                s.hist, rowsRead, tiles)
  }

  /** The answer says what one aggregate `s` of the whole window would say. */
  ghost predicate Reports(w: WindowStats, s: Stat) {
    && w == SummaryOf(s, w.p50, w.p95, w.p99, w.rowsRead, w.tiles)
    && IsPercentile(w.p50, 0.5, s) && IsPercentile(w.p95, 0.95, s) && IsPercentile(w.p99, 0.99, s)
  }

  method PercentileOf(s: Stat, p: real) returns (v: Option<real>)
    requires 0.0 < p <= 1.0
    ensures IsPercentile(v, p, s)
  {
    var r := Percentile.Percentile(s.hist, p, Extremes(s.minTotal, s.maxTotal));
    v := r.value;
  }

  method Summarise(rows: seq<Stat>, plan: Plan) returns (w: WindowStats)
    ensures Reports(w, MergeAll(rows)) && w.rowsRead == |rows| && w.tiles == (|plan.d1|, |plan.h1|, |plan.m1|)
  {
    var hist, min, max := EMPTY, None, None;
    var total, ttfb := 0, 0;
    var sums := ZERO;
    for i := 0 to |rows|
      invariant var s := MergeAll(rows[..i]);
                && hist == s.hist && min == s.minTotal && max == s.maxTotal && total == s.sumTotal && ttfb == s.sumTtfb
                && sums == s.(hist := EMPTY, minTotal := None, maxTotal := None, sumTotal := 0, sumTtfb := 0)
    {
      var r := rows[i];
      assert rows[..i + 1][..i] == rows[..i];
      hist := MergeHistograms(hist, r.hist);
      if r.minTotal.Some? {
        min := Some(if min.None? then r.minTotal.value else Percentile.Min(min.value, r.minTotal.value));
      }
      if r.maxTotal.Some? {
        max := Some(if max.None? then r.maxTotal.value else Percentile.Max(max.value, r.maxTotal.value));
      }
      total, ttfb := total + r.sumTotal, ttfb + r.sumTtfb;
      sums := sums.(up := sums.up + r.up, down := sums.down + r.down, degraded := sums.degraded + r.degraded,
                    unknown := sums.unknown + r.unknown, coveredSeconds := sums.coveredSeconds + r.coveredSeconds,
                    upSeconds := sums.upSeconds + r.upSeconds,
                    degradedSeconds := sums.degradedSeconds + r.degradedSeconds);
    }
    assert rows[..|rows|] == rows;
    var s := sums.(hist := hist, minTotal := min, maxTotal := max, sumTotal := total, sumTtfb := ttfb);
    assert s == MergeAll(rows);
    var count := HistogramCount(hist);
    var p50 := PercentileOf(s, 0.5);
    var p95 := PercentileOf(s, 0.95);
    var p99 := PercentileOf(s, 0.99);
    w := WindowStats(s.up, s.down, s.degraded, s.unknown, s.coveredSeconds, s.upSeconds, s.degradedSeconds,
                     count, Average(total, count), Average(ttfb, count), min, max, p50, p95, p99,
                     hist, |rows|, (|plan.d1|, |plan.h1|, |plan.m1|));
  }

  // ---- The window as the sum of its tiles ----

  /** The folded rows of an endpoint that started in `[from, to)`. */
  function InWindow(db: Db, endpoint: int, from: int, to: int): Row -> bool {
    (r: Row) => Below(db.tx, db.lastXid)(r) && r.endpoint == endpoint && from <= r.startedAt < to
  }

  function InTile(db: Db, endpoint: int, tile: Tile): Row -> bool {
    InGroup(Below(db.tx, db.lastXid), TileKey(endpoint, tile))
  }

  /** An aligned bucket holds exactly the instants it spans. */
  lemma TruncIsTile(tile: Tile, t: int)
    requires tile.Aligned()
    ensures Trunc(GrainOf(tile.len), t) == tile.start <==> tile.start <= t < tile.End()
  {
  }

  function SumTiles(db: Db, endpoint: int, tiles: seq<Tile>): Stat {
    if tiles == [] then ZERO
    else Merge(Agg(db.rows, InTile(db, endpoint, tiles[0])), SumTiles(db, endpoint, tiles[1..]))
  }

  /** The rows of an aligned tiling's window add up tile by tile: hours to days and minutes to hours included. */
  lemma {:induction false} WindowIsItsTiles(db: Db, endpoint: int, tiles: seq<Tile>, from: int, to: int)
    requires Tiling(tiles, from, to)
    ensures Agg(db.rows, InWindow(db, endpoint, from, to)) == SumTiles(db, endpoint, tiles)
  {
    var all := InWindow(db, endpoint, from, to);
    if tiles == [] {
      AggNone(db.rows, all);
    } else {
      var t := tiles[0];
      var first, rest := InTile(db, endpoint, t), InWindow(db, endpoint, t.End(), to);
      TilingEnds(tiles, from, to);
      TilingEnds(tiles[1..], t.End(), to);
      WindowIsItsTiles(db, endpoint, tiles[1..], t.End(), to);
      forall r | r in db.rows
        ensures !(first(r) && rest(r)) && (all(r) <==> first(r) || rest(r))
      {
        TruncIsTile(t, r.startedAt);
      }
      AggSplit(db.rows, all, first, rest);
    }
  }

  /** What the store says of a bucket, nothing counting as zero. */
  function Stored(db: Db, k: Key): Stat { ReadStat(db, k).GetOr(ZERO) }

  function SumStored(db: Db, endpoint: int, tiles: seq<Tile>): Stat {
    if tiles == [] then ZERO
    else Merge(SumStored(db, endpoint, tiles[..|tiles| - 1]), Stored(db, TileKey(endpoint, tiles[|tiles| - 1])))
  }

  lemma ReadOneMore(db: Db, endpoint: int, g: Grain, starts: seq<int>, start: int)
    ensures MergeAll(ReadGrain(db, endpoint, g, starts + [start]))
         == Merge(MergeAll(ReadGrain(db, endpoint, g, starts)), Stored(db, Key(endpoint, g, start)))
  {
    var more := starts + [start];
    assert more[..|more| - 1] == starts;
    var rows := ReadGrain(db, endpoint, g, starts);
    match ReadStat(db, Key(endpoint, g, start)) {
      case Some(s) => assert (rows + [s])[..|rows|] == rows;
      case None => MergeIsCommutativeMonoid(MergeAll(rows), ZERO, ZERO);
    }
  }

  lemma MergeThree(a: Stat, b: Stat, c: Stat, x: Stat)
    ensures var all := Merge(Merge(a, b), c);
            && Merge(all, x) == Merge(Merge(Merge(a, x), b), c)
            && Merge(all, x) == Merge(Merge(a, Merge(b, x)), c)
            && Merge(all, x) == Merge(Merge(a, b), Merge(c, x))
  {
    MergeSlides(Merge(a, b), c, x);
    MergeSlides(a, b, x);
  }

  lemma ReadRowsMerge(db: Db, endpoint: int, plan: Plan)
    ensures MergeAll(ReadRows(db, endpoint, plan))
         == Merge(Merge(MergeAll(ReadGrain(db, endpoint, D1, plan.d1)), MergeAll(ReadGrain(db, endpoint, H1, plan.h1))),
                  MergeAll(ReadGrain(db, endpoint, M1, plan.m1)))
  {
    var d, h, m := ReadGrain(db, endpoint, D1, plan.d1), ReadGrain(db, endpoint, H1, plan.h1),
                   ReadGrain(db, endpoint, M1, plan.m1);
    MergeAllConcat(d + h, m);
    MergeAllConcat(d, h);
  }

  lemma DayRead(db: Db, endpoint: int, plan: Plan, start: int)
    ensures MergeAll(ReadRows(db, endpoint, plan.(d1 := plan.d1 + [start])))
         == Merge(MergeAll(ReadRows(db, endpoint, plan)), Stored(db, Key(endpoint, D1, start)))
  {
    ReadRowsMerge(db, endpoint, plan);
    ReadRowsMerge(db, endpoint, plan.(d1 := plan.d1 + [start]));
    ReadOneMore(db, endpoint, D1, plan.d1, start);
    MergeThree(MergeAll(ReadGrain(db, endpoint, D1, plan.d1)), MergeAll(ReadGrain(db, endpoint, H1, plan.h1)),
               MergeAll(ReadGrain(db, endpoint, M1, plan.m1)), Stored(db, Key(endpoint, D1, start)));
  }

  lemma HourRead(db: Db, endpoint: int, plan: Plan, start: int)
    ensures MergeAll(ReadRows(db, endpoint, plan.(h1 := plan.h1 + [start])))
         == Merge(MergeAll(ReadRows(db, endpoint, plan)), Stored(db, Key(endpoint, H1, start)))
  {
    ReadRowsMerge(db, endpoint, plan);
    ReadRowsMerge(db, endpoint, plan.(h1 := plan.h1 + [start]));
    ReadOneMore(db, endpoint, H1, plan.h1, start);
    MergeThree(MergeAll(ReadGrain(db, endpoint, D1, plan.d1)), MergeAll(ReadGrain(db, endpoint, H1, plan.h1)),
               MergeAll(ReadGrain(db, endpoint, M1, plan.m1)), Stored(db, Key(endpoint, H1, start)));
  }

  lemma MinuteRead(db: Db, endpoint: int, plan: Plan, start: int)
    ensures MergeAll(ReadRows(db, endpoint, plan.(m1 := plan.m1 + [start])))
         == Merge(MergeAll(ReadRows(db, endpoint, plan)), Stored(db, Key(endpoint, M1, start)))
  {
    ReadRowsMerge(db, endpoint, plan);
    ReadRowsMerge(db, endpoint, plan.(m1 := plan.m1 + [start]));
    ReadOneMore(db, endpoint, M1, plan.m1, start);
    MergeThree(MergeAll(ReadGrain(db, endpoint, D1, plan.d1)), MergeAll(ReadGrain(db, endpoint, H1, plan.h1)),
               MergeAll(ReadGrain(db, endpoint, M1, plan.m1)), Stored(db, Key(endpoint, M1, start)));
  }

  lemma PlanOneMore(tiles: seq<Tile>)
    requires tiles != [] && tiles[|tiles| - 1].Aligned()
    ensures PlanOf(tiles) == AddTile(PlanOf(tiles[..|tiles| - 1]), tiles[|tiles| - 1])
  {
  }

  lemma ReadOneTile(db: Db, endpoint: int, plan: Plan, t: Tile)
    ensures MergeAll(ReadRows(db, endpoint, AddTile(plan, t)))
         == Merge(MergeAll(ReadRows(db, endpoint, plan)), Stored(db, TileKey(endpoint, t)))
  {
    if t.len == DAY {
      DayRead(db, endpoint, plan, t.start);
    } else if t.len == HOUR {
      HourRead(db, endpoint, plan, t.start);
    } else {
      MinuteRead(db, endpoint, plan, t.start);
    }
  }

  lemma NothingRead(db: Db, endpoint: int)
    ensures MergeAll(ReadRows(db, endpoint, PlanOf([]))) == ZERO
  {
  }

  /** The three reads of a plan add up to its tiles, whatever order the grains come in. */
  lemma {:induction false} ReadsAddUp(db: Db, endpoint: int, tiles: seq<Tile>)
    requires forall t :: t in tiles ==> t.Aligned()
    ensures MergeAll(ReadRows(db, endpoint, PlanOf(tiles))) == SumStored(db, endpoint, tiles)
  {
    if tiles == [] {
      NothingRead(db, endpoint);
    } else {
      var rest, t := tiles[..|tiles| - 1], tiles[|tiles| - 1];
      assert t in tiles && forall u :: u in rest ==> u in tiles;
      ReadsAddUp(db, endpoint, rest);
      PlanOneMore(tiles);
      ReadOneTile(db, endpoint, PlanOf(rest), t);
    }
  }

  // ---- When the answer is exact ----

  /** A bucket that has folded rows but whose partition is gone: the one thing a read cannot see. */
  ghost predicate Lost(db: Db, endpoint: int, tile: Tile) {
    KeyGone(db.parts, TileKey(endpoint, tile)) && Count(db.rows, InTile(db, endpoint, tile)) > 0
  }

  lemma StoredBucket(db: Db, k: Key)
    requires Materialised(db, db.stats, db.lastXid) && !KeyGone(db.parts, k)
    ensures Stored(db, k) == Agg(db.rows, InGroup(Below(db.tx, db.lastXid), k))
  {
    assert Holds(db.rows, db.tx, db.stats, db.lastXid, k);
  }

  lemma EmptyOrCounted(rows: seq<Row>, p: Row -> bool)
    ensures if Count(rows, p) > 0 then Agg(rows, p).Probes() > 0 else Agg(rows, p) == ZERO
  {
    ProbesCountRows(rows, p);
    if Count(rows, p) == 0 {
      AggNone(rows, p);
    }
  }

  lemma StoredTile(db: Db, endpoint: int, tile: Tile)
    requires Materialised(db, db.stats, db.lastXid)
    ensures var a, s := Agg(db.rows, InTile(db, endpoint, tile)), Stored(db, TileKey(endpoint, tile));
            if Lost(db, endpoint, tile) then s == ZERO && a.Probes() > 0 else s == a
  {
    if KeyGone(db.parts, TileKey(endpoint, tile)) {
      EmptyOrCounted(db.rows, InTile(db, endpoint, tile));
    } else {
      StoredBucket(db, TileKey(endpoint, tile));
    }
  }

  lemma {:induction false} SumTilesSnoc(db: Db, endpoint: int, tiles: seq<Tile>, t: Tile)
    ensures SumTiles(db, endpoint, tiles + [t])
         == Merge(SumTiles(db, endpoint, tiles), Agg(db.rows, InTile(db, endpoint, t)))
  {
    var last, more := Agg(db.rows, InTile(db, endpoint, t)), tiles + [t];
    if tiles == [] {
      assert more[1..] == [];
      MergeIsCommutativeMonoid(last, ZERO, ZERO);
    } else {
      assert more[0] == tiles[0] && more[1..] == tiles[1..] + [t];
      SumTilesSnoc(db, endpoint, tiles[1..], t);
      MergeIsCommutativeMonoid(Agg(db.rows, InTile(db, endpoint, tiles[0])), SumTiles(db, endpoint, tiles[1..]), last);
    }
  }

  ghost predicate AnyLost(db: Db, endpoint: int, tiles: seq<Tile>) {
    exists t :: t in tiles && Lost(db, endpoint, t)
  }

  /** `have` is `want`, or reports fewer probes when something is missing. */
  ghost predicate ShortIf(have: Stat, want: Stat, missing: bool) {
    if missing then have.Probes() < want.Probes() else have == want
  }

  lemma ShortStep(have: Stat, want: Stat, missing: bool, s: Stat, a: Stat, lost: bool)
    requires ShortIf(have, want, missing)
    requires if lost then s == ZERO && a.Probes() > 0 else s == a
    ensures ShortIf(Merge(have, s), Merge(want, a), missing || lost)
  {
  }

  lemma AnyLostSnoc(db: Db, endpoint: int, rest: seq<Tile>, t: Tile)
    ensures AnyLost(db, endpoint, rest + [t]) <==> AnyLost(db, endpoint, rest) || Lost(db, endpoint, t)
  {
    var all := rest + [t];
    assert t in all && forall u :: u in rest ==> u in all;
  }

  /** Stored buckets add up to the window's rows, short by exactly the lost buckets. */
  lemma {:induction false} SumsCompare(db: Db, endpoint: int, tiles: seq<Tile>)
    requires Materialised(db, db.stats, db.lastXid)
    ensures ShortIf(SumStored(db, endpoint, tiles), SumTiles(db, endpoint, tiles), AnyLost(db, endpoint, tiles))
  {
    if tiles != [] {
      var rest, t := tiles[..|tiles| - 1], tiles[|tiles| - 1];
      assert tiles == rest + [t];
      SumsCompare(db, endpoint, rest);
      SumTilesSnoc(db, endpoint, rest, t);
      AnyLostSnoc(db, endpoint, rest, t);
      StoredTile(db, endpoint, t);
      ShortStep(SumStored(db, endpoint, rest), SumTiles(db, endpoint, rest), AnyLost(db, endpoint, rest),
                Stored(db, TileKey(endpoint, t)), Agg(db.rows, InTile(db, endpoint, t)), Lost(db, endpoint, t));
    }
  }

  lemma ExactUnlessLost(db: Db, endpoint: int, from: int, to: int)
    requires Materialised(db, db.stats, db.lastXid) && from <= to && MinuteAligned(from, to)
    ensures MergeAll(ReadRows(db, endpoint, PlanOf(Greedy(from, to))))
              == Agg(db.rows, InWindow(db, endpoint, from, to))
       <==> !AnyLost(db, endpoint, Greedy(from, to))
  {
    var tiles := Greedy(from, to);
    GreedyTiles(from, to);
    TilingEnds(tiles, from, to);
    ReadsAddUp(db, endpoint, tiles);
    WindowIsItsTiles(db, endpoint, tiles, from, to);
    SumsCompare(db, endpoint, tiles);
  }

  /**
   * End-to-end agreement: after any run, what the plan of a window reads is the direct aggregate of the folded raw
   * rows that started in it, if and only if none of its buckets is lost.
   */
  lemma WindowIsExact(cfg: Config, start: Db, steps: seq<Action>, endpoint: int, from: int, to: int)
    requires cfg.Valid() && Initial(start) && from <= to && MinuteAligned(from, to)
    ensures var db := Run(cfg, start, steps);
            !AnyLost(db, endpoint, Greedy(from, to)) <==>
              MergeAll(ReadRows(db, endpoint, PlanOf(Greedy(from, to))))
                == Agg(db.rows, InWindow(db, endpoint, from, to))
  {
    ReachableInv(cfg, start, steps);
    ExactUnlessLost(Run(cfg, start, steps), endpoint, from, to);
  }

  /**
   * A percentile of an aggregate lies in the bucket of the true order statistic of its rows' latencies, cut down to
   * the range they span.
   */
  lemma PercentileOfRows(rows: seq<Row>, p: Row -> bool, q: real, v: Option<real>, k: nat, truth: int)
    requires IsPercentile(v, q, Agg(rows, p)) && forall x :: x in Latencies(rows, p) ==> 0 <= x
    requires (k - 1) as real < Rank(q, |Latencies(rows, p)|) <= k as real
    requires KthSmallest(Latencies(rows, p), k, truth)
    ensures v.Some? && Agg(rows, p).minTotal.Some? && Agg(rows, p).maxTotal.Some?
    ensures var lo, hi := Agg(rows, p).minTotal.value, Agg(rows, p).maxTotal.value;
            && Percentile.Max(EdgeBelow(Bucket(truth)), lo) <= truth <= Percentile.Min(EdgeAbove(Bucket(truth), hi), hi)
            && Percentile.Max(EdgeBelow(Bucket(truth)), lo) as real
                 <= v.value <= Percentile.Min(EdgeAbove(Bucket(truth), hi), hi) as real
            && Placed(Latencies(rows, p), Rank(q, |Latencies(rows, p)|), Bucket(truth), lo, hi, v.value)
  {
    var xs, s := Latencies(rows, p), Agg(rows, p);
    AggKeepsLatencies(rows, p);
    HistCountsSamples(xs);
    PercentileBracketsTruth(xs, Rank(q, |xs|), k, truth, s.minTotal.value, s.maxTotal.value, v.value);
  }

  /** `v` is the q-th percentile read off the histogram of these samples, absent when there are none. */
  ghost predicate PercentileOfSamples(v: Option<real>, q: real, samples: seq<int>, ends: Extremes) {
    match v
    case None => samples == []
    case Some(x) => samples != [] && AtPercentile(HistOf(samples), Rank(q, |samples|), ends, x)
  }

  /** What an answer says of the selected rows, figure by figure. */
  ghost predicate CountsRows(w: WindowStats, rows: seq<Row>, p: Row -> bool) {
    && w.up == Count(rows, Having(p, {Up})) && w.down == Count(rows, Having(p, {Down}))
    && w.degraded == Count(rows, Having(p, {Degraded})) && w.unknown == Count(rows, Having(p, {Unknown}))
    && w.coveredSeconds == Total(rows, Having(p, {Up, Down, Degraded}), Interval())
    && w.upSeconds == Total(rows, Having(p, {Up}), Interval())
    && w.degradedSeconds == Total(rows, Having(p, {Degraded}), Interval())
  }

  ghost predicate TimesRows(w: WindowStats, rows: seq<Row>, p: Row -> bool) {
    var samples, n := Latencies(rows, p), Count(rows, Answered(p));
    && w.count == n == |samples| && w.histogram == HistOf(samples)
    && (n == 0 ==> w.avgTotal.None? && w.avgTtfb.None?)
    && (n > 0 ==> w.avgTotal == Some(Total(rows, Answered(p), WholeTime()) as real / n as real))
    && (n > 0 ==> w.avgTtfb == Some(Total(rows, Answered(p), HeaderTime()) as real / n as real))
    && Extreme(samples, w.min, true) && Extreme(samples, w.max, false)
  }

  ghost predicate RanksRows(w: WindowStats, rows: seq<Row>, p: Row -> bool) {
    var samples, ends := Latencies(rows, p), Extremes(w.min, w.max);
    && PercentileOfSamples(w.p50, 0.5, samples, ends) && PercentileOfSamples(w.p95, 0.95, samples, ends)
    && PercentileOfSamples(w.p99, 0.99, samples, ends)
  }

  /** The summary of an aggregate gives its rows' own counts, seconds, averages, extremes and percentiles. */
  lemma SummaryIsOfRows(w: WindowStats, rows: seq<Row>, p: Row -> bool)
    requires Reports(w, Agg(rows, p))
    ensures CountsRows(w, rows, p) && TimesRows(w, rows, p) && RanksRows(w, rows, p)
  {
    CountColumns(rows, p);
    SecondsColumns(rows, p);
    TimeColumns(rows, p);
    AggKeepsLatencies(rows, p);
    HistCountsSamples(Latencies(rows, p));
  }

  // ---- Partitions that still exist ----

  /** `o` is the start of the family's oldest live partition. */
  ghost predicate IsOldest(parts: map<Part, PartState>, family: Family, o: Option<int>) {
    match o
    case None => forall p :: p in parts && p.family == family ==> !IsAttached(parts, p)
    case Some(lo) =>
      && (exists p :: IsAttached(parts, p) && p.family == family && p.lo == lo)
      && forall p :: IsAttached(parts, p) && p.family == family ==> lo <= p.lo
  }

  /** No partition of the family went while an older one stayed. */
  ghost predicate Contiguous(parts: map<Part, PartState>, family: Family) {
    forall p, q :: IsAttached(parts, p) && Gone(parts, q) && p.family == q.family == family ==> q.lo < p.lo
  }

  ghost predicate PartsNamed(parts: map<Part, PartState>) {
    forall p :: p in parts ==> FIRST <= p.lo && p == PartOf(p.family, p.lo)
  }

  /** An instant at or after a period's start lies in a period that starts no earlier. */
  lemma StartsNest(kind: PeriodKind, lo: int, at: int)
    requires FIRST <= lo <= at && lo == PeriodStart(kind, lo)
    ensures lo <= PeriodStart(kind, at)
  {
    var s := PeriodStart(kind, at);
    ContainsSinceFirst(kind, at, s);
    if s < lo {
      ContainsSinceFirst(kind, lo, s);
    }
  }

  /** With contiguous partitions, an instant at or after the oldest live start is in no partition that is gone. */
  lemma RetainedIsThere(parts: map<Part, PartState>, family: Family, o: Option<int>, at: int)
    requires PartsNamed(parts) && Contiguous(parts, family) && IsOldest(parts, family, o) && !Window.Missing(o, at)
    ensures !Gone(parts, PartOf(family, at))
  {
    var p :| IsAttached(parts, p) && p.family == family && p.lo == o.value;
    StartsNest(KindOf(family), p.lo, at);
  }

  /** A plan that passes the re-check has lost no bucket, provided retention left no gap. */
  lemma RecheckedPlanIsWhole(db: Db, later: Db, retained: Retained, endpoint: int, from: int, to: int)
    requires PartsNamed(later.parts) && PartsLeave(db, later) && from <= to && MinuteAligned(from, to)
    requires IsOldest(later.parts, MinuteStats, retained.m1) && IsOldest(later.parts, HourStats, retained.h1)
    requires Contiguous(later.parts, MinuteStats) && Contiguous(later.parts, HourStats)
    requires StillRetained(PlanOf(Greedy(from, to)), retained)
    ensures !AnyLost(db, endpoint, Greedy(from, to))
  {
    RecheckCoversEveryTile(from, to, retained);
    GreedyTiles(from, to);
    TilingEnds(Greedy(from, to), from, to);
    forall t | t in Greedy(from, to)
      ensures !KeyGone(db.parts, TileKey(endpoint, t))
    {
      assert t.Aligned() && !Retired(t, retained);
      if t.len == HOUR {
        RetainedIsThere(later.parts, HourStats, retained.h1, t.start);
      } else if t.len == MINUTE {
        RetainedIsThere(later.parts, MinuteStats, retained.m1, t.start);
      }
    }
  }

  /** The partitions a catalogue query lists: attached, and not being detached. */
  function Live(parts: map<Part, PartState>): set<Part> { set p | p in parts && parts[p].Attached? }

  /** The bucket's partition is among them. Days are in one table that always is; nothing starts before `FIRST`. */
  predicate Served(live: set<Part>, tile: Tile) {
    tile.start < FIRST ||
    match GrainOf(tile.len)
    case M1 => PartOf(MinuteStats, tile.start) in live
    case H1 => PartOf(HourStats, tile.start) in live
    case D1 => true
  }

  ghost predicate AllServed(parts: map<Part, PartState>, tiles: seq<Tile>) {
    forall t :: t in tiles ==> Served(Live(parts), t)
  }

  lemma FirstIsFloor(g: Grain, t: int)
    requires FIRST <= t
    ensures FIRST <= Trunc(g, t)
  {
    match g
    case D1 => FloorBelow(t, DAY, FIRST / DAY);
    case H1 => FloorBelow(t, HOUR, FIRST / HOUR);
    case M1 => FloorBelow(t, MINUTE, FIRST / MINUTE);
  }

  lemma {:induction false} CountedRow(rows: seq<Row>, p: Row -> bool) returns (r: Row)
    requires Count(rows, p) > 0
    ensures r in rows && p(r)
  {
    var last := rows[|rows| - 1];
    if p(last) {
      r := last;
    } else {
      r := CountedRow(rows[..|rows| - 1], p);
    }
  }

  /** A lost bucket starts no earlier than any row. */
  lemma LostStartsLate(db: Db, endpoint: int, tile: Tile)
    requires TxInv(db) && tile.Aligned() && Lost(db, endpoint, tile)
    ensures FIRST <= tile.start
  {
    var r := CountedRow(db.rows, InTile(db, endpoint, tile));
    FirstIsFloor(GrainOf(tile.len), r.startedAt);
  }

  lemma ServedTileIsWhole(db: Db, later: Db, endpoint: int, tile: Tile)
    requires TxInv(db) && PartsLeave(db, later) && tile.Aligned() && Served(Live(later.parts), tile)
    ensures !Lost(db, endpoint, tile)
  {
    if Lost(db, endpoint, tile) {
      LostStartsLate(db, endpoint, tile);
    }
  }

  /** A plan whose buckets all lie in partitions live after the read had lost none during it. */
  lemma ServedPlanIsWhole(db: Db, later: Db, endpoint: int, from: int, to: int)
    requires TxInv(db) && PartsLeave(db, later) && from <= to && MinuteAligned(from, to)
    requires AllServed(later.parts, Greedy(from, to))
    ensures !AnyLost(db, endpoint, Greedy(from, to))
  {
    GreedyTiles(from, to);
    TilingEnds(Greedy(from, to), from, to);
    forall t | t in Greedy(from, to)
      ensures !Lost(db, endpoint, t)
    {
      ServedTileIsWhole(db, later, endpoint, t);
    }
  }

  /** What of the catalogue after the read is enough: every bucket's partition is live, or no partition left a gap. */
  ghost predicate NoneMissed(parts: map<Part, PartState>, tiles: seq<Tile>) {
    AllServed(parts, tiles) || (Contiguous(parts, MinuteStats) && Contiguous(parts, HourStats))
  }

  /** The figures are those of the window's folded rows. */
  ghost predicate OfWindow(w: WindowStats, seen: Db, endpoint: int, from: int, to: int) {
    var p := InWindow(seen, endpoint, from, to);
    CountsRows(w, seen.rows, p) && TimesRows(w, seen.rows, p) && RanksRows(w, seen.rows, p)
  }

  /** The answer says what the plan's reads add up to, and then what the window's folded rows do. */
  ghost predicate Tells(w: WindowStats, seen: Db, later: Db, endpoint: int, from: int, to: int)
    requires MinuteAligned(from, to)
  {
    && Reports(w, MergeAll(ReadRows(seen, endpoint, PlanOf(Greedy(from, to)))))
    && w.rowsRead == |ReadRows(seen, endpoint, PlanOf(Greedy(from, to)))|
    && w.tiles == (|PlanOf(Greedy(from, to)).d1|, |PlanOf(Greedy(from, to)).h1|, |PlanOf(Greedy(from, to)).m1|)
    && (NoneMissed(later.parts, Greedy(from, to)) ==> OfWindow(w, seen, endpoint, from, to))
  }

  lemma RecheckedTells(w: WindowStats, seen: Db, later: Db, after: Retained, endpoint: int, from: int, to: int)
    requires TxInv(seen) && Materialised(seen, seen.stats, seen.lastXid)
    requires PartsNamed(later.parts) && PartsLeave(seen, later)
    requires from <= to && MinuteAligned(from, to)
    requires IsOldest(later.parts, MinuteStats, after.m1) && IsOldest(later.parts, HourStats, after.h1)
    requires StillRetained(PlanOf(Greedy(from, to)), after)
    requires Reports(w, MergeAll(ReadRows(seen, endpoint, PlanOf(Greedy(from, to)))))
    requires w.rowsRead == |ReadRows(seen, endpoint, PlanOf(Greedy(from, to)))|
    requires w.tiles == (|PlanOf(Greedy(from, to)).d1|, |PlanOf(Greedy(from, to)).h1|, |PlanOf(Greedy(from, to)).m1|)
    ensures Tells(w, seen, later, endpoint, from, to)
  {
    if NoneMissed(later.parts, Greedy(from, to)) {
      if AllServed(later.parts, Greedy(from, to)) {
        ServedPlanIsWhole(seen, later, endpoint, from, to);
      } else {
        RecheckedPlanIsWhole(seen, later, after, endpoint, from, to);
      }
      ExactUnlessLost(seen, endpoint, from, to);
      SummaryIsOfRows(w, seen.rows, InWindow(seen, endpoint, from, to));
    }
  }

  // ---- The read itself ----

  /** What a valid window gets: the first retired tile's error, no endpoint, a changed catalogue, or an answer. */
  ghost predicate Answers(r: Result<WindowStats, ReadError>, owned: bool, tiles: seq<Tile>, before: Retained,
                          after: Retained) {
    if !AllRetained(tiles, before) then
      exists i :: FirstRetired(tiles, before, i) && r == Err(BadWindow(RetiredError(tiles[i])))
    else if !owned then r == Err(NotFound)
    else if !StillRetained(PlanOf(tiles), after) then r == Err(BadWindow(ChangedDuringRead))
    else r.Ok?
  }

  ghost predicate StoredBoth(tiles: seq<Tile>, before: Retained, after: Retained) {
    AllStored(tiles, before) && AllStored(tiles, after)
  }

  /** A valid window is answered exactly when the endpoint is owned and every tile is stored, before and after. */
  lemma AnswersWhenStored(r: Result<WindowStats, ReadError>, owned: bool, from: int, to: int, before: Retained,
                          after: Retained)
    requires from <= to && MinuteAligned(from, to) && Answers(r, owned, Greedy(from, to), before, after)
    ensures r.Ok? <==> owned && StoredBoth(Greedy(from, to), before, after)
  {
    StoredUnlessRetired(Greedy(from, to), before);
    RecheckCoversEveryTile(from, to, after);
  }

  lemma AnswersWhenPlanned(planned: Result<Plan, WindowError>, from: int, to: int, before: Retained)
    requires from <= to && MinuteAligned(from, to) && Planned(Greedy(from, to), before, planned)
    ensures planned.Ok? <==> AllStored(Greedy(from, to), before)
  {
    StoredUnlessRetired(Greedy(from, to), before);
  }

  predicate ValidWindow(from: Option<int>, to: Option<int>) {
    from.Some? && to.Some? && from.value < to.value && MinuteAligned(from.value, to.value)
  }

  class StatsReader {
    const db: Database

    constructor (db: Database)
      ensures this.db == db
    {
      this.db := db;
    }

    /** The start of the oldest live partition of a family. */
    method OldestLive(family: Family) returns (o: Option<int>)
      ensures IsOldest(db.parts, family, o)
    {
      o := None;
      var todo := set p | p in db.parts && p.family == family && IsAttached(db.parts, p);
      ghost var all := todo;
      while todo != {}
        invariant todo <= all
        invariant o.None? ==> todo == all
        invariant o.Some? ==>
                    (exists p :: p in all && p.lo == o.value) && forall p :: p in all - todo ==> o.value <= p.lo
      {
        var p :| p in todo;
        if o.None? || p.lo < o.value {
          o := Some(p.lo);
        }
        todo := todo - {p};
      }
      assert forall p :: IsAttached(db.parts, p) && p.family == family ==> p in all;
    }

    /** What the catalogue query found is how things stand. */
    ghost predicate Found(r: Retained)
      reads this, db
    {
      IsOldest(db.parts, MinuteStats, r.m1) && IsOldest(db.parts, HourStats, r.h1)
    }

    method RetainedFrom() returns (r: Retained)
      ensures Found(r)
    {
      var m1 := OldestLive(MinuteStats);
      var h1 := OldestLive(HourStats);
      r := Retained(m1, h1);
    }

    /** The read of a plan, and the check after it. */
    method ReadAndRecheck(endpoint: int, from: int, to: int, plan: Plan, env1: seq<Action>)
      returns (r: Result<WindowStats, ReadError>, ghost after: Retained)
      requires Inv(db.cfg, db.View())
      requires from <= to && MinuteAligned(from, to) && plan == PlanOf(Greedy(from, to))
      modifies db
      ensures Inv(db.cfg, db.View()) && db.View() == Run(db.cfg, old(db.View()), Others(env1, Reader)) && Found(after)
      ensures if StillRetained(plan, after) then r.Ok? else r == Err(BadWindow(ChangedDuringRead))
      ensures r.Ok? ==> Tells(r.value, old(db.View()), db.View(), endpoint, from, to)
    {
      ghost var seen := db.View();
      var rows := ReadRows(db.View(), endpoint, plan);
      PartsLeaveRun(db.cfg, seen, Others(env1, Reader));
      db.Interleave(env1, Reader);
      var now := RetainedFrom();
      after := now;
      if !StillRetained(plan, now) {
        return Err(BadWindow(ChangedDuringRead)), after;
      }
      var w := Summarise(rows, plan);
      RecheckedTells(w, seen, db.View(), now, endpoint, from, to);
      r := Ok(w);
    }

    /** A window that is well formed: planned, owned, read and checked again, or the first of these that fails. */
    method AnswerPlanned(owned: bool, endpoint: int, from: int, to: int, planned: Result<Plan, WindowError>,
                         ghost before: Retained, env1: seq<Action>)
      returns (r: Result<WindowStats, ReadError>, ghost after: Retained)
      requires Inv(db.cfg, db.View()) && from < to && MinuteAligned(from, to)
      requires Planned(Greedy(from, to), before, planned)
      modifies db
      ensures Inv(db.cfg, db.View()) && Answers(r, owned, Greedy(from, to), before, after)
      ensures r != Err(BadWindow(Invalid)) && r != Err(BadWindow(NotMinuteAligned))
      ensures r.Ok? || r == Err(BadWindow(ChangedDuringRead)) ==>
                db.View() == Run(db.cfg, old(db.View()), Others(env1, Reader)) && Found(after)
      ensures r.Ok? ==> Tells(r.value, old(db.View()), db.View(), endpoint, from, to)
      ensures r.Ok? <==> owned && StoredBoth(Greedy(from, to), before, after)
    {
      after := before;
      AnswersWhenPlanned(planned, from, to, before);
      if planned.Err? {
        return Err(BadWindow(planned.error)), after;
      }
      if !owned {
        return Err(NotFound), after;
      }
      r, after := ReadAndRecheck(endpoint, from, to, planned.value, env1);
      AnswersWhenStored(r, owned, from, to, before, after);
    }

    /** The first catalogue query, and what other sessions do before the read. */
    method Availability(env0: seq<Action>) returns (retained: Retained)
      requires Inv(db.cfg, db.View())
      modifies db
      ensures Inv(db.cfg, db.View()) && db.View() == Run(db.cfg, old(db.View()), Others(env0, Reader))
      ensures old(Found(retained))
    {
      retained := RetainedFrom();
      RunKeepsInv(db.cfg, db.View(), Others(env0, Reader));
      db.Interleave(env0, Reader);
    }

    /** The plan of a window, or how it is malformed. */
    method PlanRead(from: Option<int>, to: Option<int>, retained: Retained) returns (r: Result<Plan, WindowError>)
      ensures r == Err(Invalid) <==> from.None? || to.None? || from.value >= to.value
      ensures r == Err(NotMinuteAligned)
         <==> from.Some? && to.Some? && from.value < to.value && !MinuteAligned(from.value, to.value)
      ensures ValidWindow(from, to) ==> Planned(Greedy(from.value, to.value), retained, r)
    {
      r := PlanWindow(from, to, retained);
    }

    /**
     * The statistics of a window. The three statements are not one snapshot: other sessions do `env0` before the
     * read and `env1` after it. `seen` is the database as the read saw it; `before` and `after` are what the two
     * catalogue queries found.
     */
    method WindowStatsOf(owned: bool, endpoint: int, from: Option<int>, to: Option<int>,
                         env0: seq<Action>, env1: seq<Action>)
      returns (r: Result<WindowStats, ReadError>, ghost seen: Db, ghost before: Retained, ghost after: Retained)
      requires Inv(db.cfg, db.View())
      modifies db
      ensures Inv(db.cfg, db.View()) && seen == Run(db.cfg, old(db.View()), Others(env0, Reader)) && old(Found(before))
      ensures r == Err(BadWindow(Invalid)) <==> from.None? || to.None? || from.value >= to.value
      ensures r == Err(BadWindow(NotMinuteAligned))
         <==> from.Some? && to.Some? && from.value < to.value && !MinuteAligned(from.value, to.value)
      ensures ValidWindow(from, to) ==> Answers(r, owned, Greedy(from.value, to.value), before, after)
      ensures r.Ok? || r == Err(BadWindow(ChangedDuringRead)) ==>
                db.View() == Run(db.cfg, seen, Others(env1, Reader)) && Found(after)
      ensures r.Ok? ==> ValidWindow(from, to) && Tells(r.value, seen, db.View(), endpoint, from.value, to.value)
      ensures r.Ok? <==> ValidWindow(from, to) && owned && StoredBoth(Greedy(from.value, to.value), before, after)
    {
      var retained := Availability(env0);
      seen, before, after := db.View(), retained, retained;
      var planned := PlanRead(from, to, retained);
      if planned == Err(Invalid) || planned == Err(NotMinuteAligned) {
        return Err(BadWindow(planned.error)), seen, before, after;
      }
      r, after := AnswerPlanned(owned, endpoint, from.value, to.value, planned, before, env1);
    }
  }

  lemma PartsLeaveRun(cfg: Config, db: Db, steps: seq<Action>)
    requires Inv(cfg, db)
    ensures Inv(cfg, Run(cfg, db, steps)) && PartsNamed(Run(cfg, db, steps).parts)
    ensures PartsLeave(db, Run(cfg, db, steps))
  {
    RunKeepsInv(cfg, db, steps);
    RunLeavesFinalRows(cfg, db, steps, db.lastXid);
  }
}
