/** Result rows, the aggregate the rollup keeps of them, and the algebra that lets aggregates be added up. */
module Aggregate {
  import opened Wrappers
  import opened Histogram

  datatype Outcome = Up | Down | Degraded | Unknown

  /** One stored probe result: `xid` is the transaction that inserted it, times are milliseconds. */
  datatype Row = Row(endpoint: int, startedAt: int, attempt: int, outcome: Outcome, intervalS: int,
                     totalMs: int, ttfbMs: Option<int>, xid: nat)
  {
    /** The latency population: the endpoint produced response headers. */
    predicate Responded() { ttfbMs.Some? }
  }

  datatype Stat = Stat(up: int, down: int, degraded: int, unknown: int,
                       coveredSeconds: int, upSeconds: int, degradedSeconds: int,
                       sumTotal: int, minTotal: Option<int>, maxTotal: Option<int>, sumTtfb: int, hist: Hist)
  {
    function Probes(): int { up + down + degraded + unknown }
  }

  const ZERO := Stat(0, 0, 0, 0, 0, 0, 0, 0, None, None, 0, EMPTY)

  /** SQL `least`: a null operand is ignored. */
  function Least(a: Option<int>, b: Option<int>): Option<int> {
    if a.None? then b else if b.None? then a else if a.value <= b.value then a else b
  }

  function Greatest(a: Option<int>, b: Option<int>): Option<int> {
    if a.None? then b else if b.None? then a else if a.value >= b.value then a else b
  }

  /** The `DO UPDATE` arm of the upsert: counters and sums add, extremes combine, histograms add by position. */
  function Merge(a: Stat, b: Stat): Stat {
    Stat(a.up + b.up, a.down + b.down, a.degraded + b.degraded, a.unknown + b.unknown,
         a.coveredSeconds + b.coveredSeconds, a.upSeconds + b.upSeconds, a.degradedSeconds + b.degradedSeconds,
         a.sumTotal + b.sumTotal, Least(a.minTotal, b.minTotal), Greatest(a.maxTotal, b.maxTotal),
         a.sumTtfb + b.sumTtfb, MergeHistograms(a.hist, b.hist))
  }

  lemma MergeIsCommutativeMonoid(a: Stat, b: Stat, c: Stat)
    ensures Merge(a, ZERO) == a && Merge(ZERO, a) == a
    ensures Merge(a, b) == Merge(b, a)
    ensures Merge(Merge(a, b), c) == Merge(a, Merge(b, c))
  {
    MergeLaws(a.hist, b.hist, c.hist);
  }

  lemma MergeSlides(a: Stat, b: Stat, c: Stat)
    ensures Merge(Merge(a, b), c) == Merge(a, Merge(b, c)) == Merge(Merge(a, c), b)
  {
    MergeIsCommutativeMonoid(a, b, c);
    MergeIsCommutativeMonoid(a, c, b);
    MergeIsCommutativeMonoid(b, c, ZERO);
  }

  function One(r: Row): Stat {
    Stat(if r.outcome.Up? then 1 else 0, if r.outcome.Down? then 1 else 0,
         if r.outcome.Degraded? then 1 else 0, if r.outcome.Unknown? then 1 else 0,
         if r.outcome.Unknown? then 0 else r.intervalS,
         if r.outcome.Up? then r.intervalS else 0, if r.outcome.Degraded? then r.intervalS else 0,
         if r.Responded() then r.totalMs else 0,
         if r.Responded() then Some(r.totalMs) else None, if r.Responded() then Some(r.totalMs) else None,
         r.ttfbMs.GetOr(0),
         if r.Responded() then OneHot(Bucket(r.totalMs)) else EMPTY)
  }

  /** One more row, when it is selected. */
  function AddIf(s: Stat, r: Row, keep: bool): Stat {
    if keep then Merge(s, One(r)) else s
  }

  /** The direct aggregate of the rows that satisfy `p`. */
  function Agg(rows: seq<Row>, p: Row -> bool): Stat {
    if rows == [] then ZERO
    else
      var rest, r := rows[..|rows| - 1], rows[|rows| - 1];
      AddIf(Agg(rest, p), r, p(r))
  }

  function Count(rows: seq<Row>, p: Row -> bool): nat {
    if rows == [] then 0
    else Count(rows[..|rows| - 1], p) + (if p(rows[|rows| - 1]) then 1 else 0)
  }

  /** Nested selections agree when they keep the same rows. */
  lemma {:induction false} AggSame(rows: seq<Row>, p: Row -> bool, q: Row -> bool)
    requires forall r :: r in rows ==> p(r) == q(r)
    ensures Agg(rows, p) == Agg(rows, q) && Count(rows, p) == Count(rows, q)
  {
    if rows != [] {
      Prefix(rows);
      AggSame(rows[..|rows| - 1], p, q);
    }
  }

  lemma Prefix(rows: seq<Row>)
    requires rows != []
    ensures rows[|rows| - 1] in rows
    ensures forall r :: r in rows[..|rows| - 1] ==> r in rows
  {
  }

  lemma SplitStep(a: Stat, b: Stat, r: Row, keepA: bool, keepB: bool)
    requires !(keepA && keepB)
    ensures AddIf(Merge(a, b), r, keepA || keepB) == Merge(AddIf(a, r, keepA), AddIf(b, r, keepB))
  {
    MergeSlides(a, b, One(r));
  }

  ghost predicate Splits(rows: seq<Row>, p: Row -> bool, a: Row -> bool, b: Row -> bool) {
    forall r :: r in rows ==> !(a(r) && b(r)) && (p(r) <==> a(r) || b(r))
  }

  /** Disjoint selections add up to the selection that keeps either's rows. */
  lemma {:induction false} AggSplit(rows: seq<Row>, p: Row -> bool, a: Row -> bool, b: Row -> bool)
    requires Splits(rows, p, a, b)
    ensures Agg(rows, p) == Merge(Agg(rows, a), Agg(rows, b))
  {
    if rows == [] {
      MergeIsCommutativeMonoid(ZERO, ZERO, ZERO);
    } else {
      var rest, r := rows[..|rows| - 1], rows[|rows| - 1];
      Prefix(rows);
      assert !(a(r) && b(r)) && (p(r) <==> a(r) || b(r));
      AggSplit(rest, p, a, b);
      var sp, sa, sb := Agg(rest, p), Agg(rest, a), Agg(rest, b);
      assert Agg(rows, p) == AddIf(sp, r, p(r));
      assert Agg(rows, a) == AddIf(sa, r, a(r)) && Agg(rows, b) == AddIf(sb, r, b(r));
      SplitStep(sa, sb, r, a(r), b(r));
    }
  }

  lemma {:induction false} CountSplit(rows: seq<Row>, p: Row -> bool, a: Row -> bool, b: Row -> bool)
    requires Splits(rows, p, a, b)
    ensures Count(rows, p) == Count(rows, a) + Count(rows, b)
  {
    if rows != [] {
      Prefix(rows);
      CountSplit(rows[..|rows| - 1], p, a, b);
    }
  }

  lemma {:induction false} AggNone(rows: seq<Row>, p: Row -> bool)
    requires forall r :: r in rows ==> !p(r)
    ensures Agg(rows, p) == ZERO && Count(rows, p) == 0
  {
    if rows != [] {
      Prefix(rows);
      AggNone(rows[..|rows| - 1], p);
    }
  }

  /** Appending rows the selection leaves out changes nothing. */
  lemma {:induction false} AggExtend(rows: seq<Row>, more: seq<Row>, p: Row -> bool)
    requires forall r :: r in more ==> !p(r)
    ensures Agg(rows + more, p) == Agg(rows, p) && Count(rows + more, p) == Count(rows, p)
  {
    if more == [] {
      assert rows + more == rows;
    } else {
      var all := rows + more;
      Prefix(more);
      assert all[..|all| - 1] == rows + more[..|more| - 1] && all[|all| - 1] == more[|more| - 1];
      AggExtend(rows, more[..|more| - 1], p);
    }
  }

  /** Every selected row is counted once among the four outcomes. */
  lemma {:induction false} ProbesCountRows(rows: seq<Row>, p: Row -> bool)
    ensures Agg(rows, p).Probes() == Count(rows, p)
    ensures (exists r :: r in rows && p(r)) <==> Count(rows, p) > 0
  {
    if rows != [] {
      Prefix(rows);
      ProbesCountRows(rows[..|rows| - 1], p);
    }
  }

  // ---- What each column is of the selected rows ----

  /** The selected rows of one of these outcomes. */
  function Having(p: Row -> bool, outcomes: set<Outcome>): Row -> bool {
    (r: Row) => p(r) && r.outcome in outcomes
  }

  /** The selected rows with response headers. */
  function Answered(p: Row -> bool): Row -> bool {
    (r: Row) => p(r) && r.ttfbMs.Some?
  }

  /** The sum of a figure over the selected rows. */
  function Total(rows: seq<Row>, p: Row -> bool, figure: Row -> int): int {
    if rows == [] then 0
    else
      var r := rows[|rows| - 1];
      Total(rows[..|rows| - 1], p, figure) + if p(r) then figure(r) else 0
  }

  function Interval(): Row -> int { (r: Row) => r.intervalS }

  function WholeTime(): Row -> int { (r: Row) => r.totalMs }

  function HeaderTime(): Row -> int { (r: Row) => r.ttfbMs.GetOr(0) }

  /** Each count is the number of rows of its own outcome. */
  lemma {:induction false} CountColumns(rows: seq<Row>, p: Row -> bool)
    ensures Agg(rows, p).up == Count(rows, Having(p, {Up})) && Agg(rows, p).down == Count(rows, Having(p, {Down}))
    ensures Agg(rows, p).degraded == Count(rows, Having(p, {Degraded}))
    ensures Agg(rows, p).unknown == Count(rows, Having(p, {Unknown}))
  {
    if rows != [] {
      CountColumns(rows[..|rows| - 1], p);
    }
  }

  /** Seconds are the intervals of rows by outcome, an unknown one covering nothing. */
  lemma {:induction false} SecondsColumns(rows: seq<Row>, p: Row -> bool)
    ensures Agg(rows, p).coveredSeconds == Total(rows, Having(p, {Up, Down, Degraded}), Interval())
    ensures Agg(rows, p).upSeconds == Total(rows, Having(p, {Up}), Interval())
    ensures Agg(rows, p).degradedSeconds == Total(rows, Having(p, {Degraded}), Interval())
  {
    if rows != [] {
      SecondsColumns(rows[..|rows| - 1], p);
    }
  }

  /** The two sums are over the rows with response headers. */
  lemma {:induction false} TimeColumns(rows: seq<Row>, p: Row -> bool)
    ensures Agg(rows, p).sumTotal == Total(rows, Answered(p), WholeTime())
    ensures Agg(rows, p).sumTtfb == Total(rows, Answered(p), HeaderTime())
    ensures |Latencies(rows, p)| == Count(rows, Answered(p))
  {
    if rows != [] {
      TimeColumns(rows[..|rows| - 1], p);
    }
  }

  /** The latencies of the selected rows that responded. */
  function Latencies(rows: seq<Row>, p: Row -> bool): seq<int> {
    if rows == [] then []
    else
      var rest, r := Latencies(rows[..|rows| - 1], p), rows[|rows| - 1];
      if p(r) && r.Responded() then rest + [r.totalMs] else rest
  }

  ghost predicate Extreme(samples: seq<int>, e: Option<int>, least: bool) {
    match e
    case None => samples == []
    case Some(v) => v in samples && forall x :: x in samples ==> if least then v <= x else x <= v
  }

  ghost predicate Carries(s: Stat, samples: seq<int>) {
    s.hist == HistOf(samples) && Extreme(samples, s.minTotal, true) && Extreme(samples, s.maxTotal, false)
  }

  lemma HistOneMore(samples: seq<int>, x: int)
    ensures HistOf(samples + [x]) == MergeHistograms(HistOf(samples), OneHot(Bucket(x)))
  {
    var more := samples + [x];
    assert more[..|more| - 1] == samples && more[|more| - 1] == x;
  }

  lemma ExtremesOneMore(samples: seq<int>, lo: Option<int>, hi: Option<int>, x: int)
    requires Extreme(samples, lo, true) && Extreme(samples, hi, false)
    ensures Extreme(samples + [x], Least(lo, Some(x)), true)
    ensures Extreme(samples + [x], Greatest(hi, Some(x)), false)
  {
    assert x in samples + [x];
    assert forall y :: y in samples + [x] <==> y in samples || y == x;
  }

  lemma CarriesOneMore(s: Stat, samples: seq<int>, r: Row, keep: bool)
    requires Carries(s, samples)
    ensures Carries(AddIf(s, r, keep), if keep && r.Responded() then samples + [r.totalMs] else samples)
  {
    if keep && r.Responded() {
      HistOneMore(samples, r.totalMs);
      ExtremesOneMore(samples, s.minTotal, s.maxTotal, r.totalMs);
    } else {
      MergeLaws(s.hist, EMPTY, EMPTY);
    }
  }

  /** An aggregate carries exactly the histogram and the extremes of its rows' latencies. */
  lemma {:induction false} AggKeepsLatencies(rows: seq<Row>, p: Row -> bool)
    ensures Carries(Agg(rows, p), Latencies(rows, p))
  {
    if rows != [] {
      var rest, r := rows[..|rows| - 1], rows[|rows| - 1];
      AggKeepsLatencies(rest, p);
      CarriesOneMore(Agg(rest, p), Latencies(rest, p), r, p(r));
    }
  }
}
