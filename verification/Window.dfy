/** Tiling a query window with day, hour and minute buckets. */
module Window {
  import opened Wrappers
  import opened Calendar

  /** The oldest bucket start each retention-bound grain still has. */
  datatype Retained = Retained(m1: Option<int>, h1: Option<int>)

  /** Bucket starts, oldest first. */
  datatype Plan = Plan(d1: seq<int>, h1: seq<int>, m1: seq<int>)

  datatype WindowError = Invalid | NotMinuteAligned | HourRetired(at: int) | MinuteRetired(at: int) | ChangedDuringRead

  datatype Tile = Tile(start: int, len: int)
  {
    function End(): int { start + len }

    predicate Aligned() {
      Grain(len) && start % len == 0
    }
  }

  predicate Grain(len: int) { len == DAY || len == HOUR || len == MINUTE }

  /** Whole days are whole hours, and whole hours whole minutes. */
  lemma GrainsDivide(t: int)
    ensures t % DAY == 0 ==> t % HOUR == 0
    ensures t % HOUR == 0 ==> t % MINUTE == 0
  {
    assert t % DAY == 0 ==> t == HOUR * (24 * (t / DAY));
    assert t % HOUR == 0 ==> t == MINUTE * (60 * (t / HOUR));
  }

  lemma MultiplesApart(a: int, b: int, len: int)
    requires Grain(len) && a < b && a % len == 0 && b % len == 0
    ensures a + len <= b
  {
  }

  lemma NextMultiple(t: int, len: int)
    requires Grain(len) && t % len == 0
    ensures (t + len) % len == 0
  {
  }

  /** Aligned tiles, end to end from `a` to `b`. */
  ghost predicate Tiling(tiles: seq<Tile>, a: int, b: int) {
    if tiles == [] then a == b
    else tiles[0].start == a && tiles[0].Aligned() && Tiling(tiles[1..], tiles[0].End(), b)
  }

  /** The coarsest tile that starts at `t` and stays inside the window. */
  function Coarsest(t: int, end: int): Tile {
    Tile(t, if t % DAY == 0 && t + DAY <= end then DAY else if t % HOUR == 0 && t + HOUR <= end then HOUR else MINUTE)
  }

  function Greedy(t: int, end: int): (tiles: seq<Tile>)
    requires t % MINUTE == 0 && end % MINUTE == 0
    decreases end - t
  {
    if t >= end then []
    else
      CoarsestFits(t, end);
      [Coarsest(t, end)] + Greedy(Coarsest(t, end).End(), end)
  }

  /** The starts of the tiles of one length, in order. */
  function Starts(tiles: seq<Tile>, len: int): (s: seq<int>)
    ensures |s| <= |tiles|
  {
    if tiles == [] then []
    else
      var rest := Starts(tiles[..|tiles| - 1], len);
      if tiles[|tiles| - 1].len == len then rest + [tiles[|tiles| - 1].start] else rest
  }

  function PlanOf(tiles: seq<Tile>): Plan {
    Plan(Starts(tiles, DAY), Starts(tiles, HOUR), Starts(tiles, MINUTE))
  }

  predicate Missing(oldest: Option<int>, at: int) {
    oldest.None? || at < oldest.value
  }

  predicate Retired(tile: Tile, retained: Retained) {
    || (tile.len == HOUR && Missing(retained.h1, tile.start))
    || (tile.len == MINUTE && Missing(retained.m1, tile.start))
  }

  predicate MinuteAligned(from: int, to: int) {
    from % MINUTE == 0 && to % MINUTE == 0
  }

  /** Tile `i` is the first the retained partitions cannot serve. */
  ghost predicate FirstRetired(tiles: seq<Tile>, retained: Retained, i: int) {
    && 0 <= i < |tiles| && Retired(tiles[i], retained)
    && forall j :: 0 <= j < i ==> !Retired(tiles[j], retained)
  }

  ghost predicate AllRetained(tiles: seq<Tile>, retained: Retained) {
    forall j :: 0 <= j < |tiles| ==> !Retired(tiles[j], retained)
  }

  function RetiredError(tile: Tile): WindowError {
    if tile.len == HOUR then HourRetired(tile.start) else MinuteRetired(tile.start)
  }

  /** The plan of these tiles, or the error of the first that is no longer stored. */
  ghost predicate Planned(tiles: seq<Tile>, retained: Retained, r: Result<Plan, WindowError>) {
    if AllRetained(tiles, retained) then r == Ok(PlanOf(tiles))
    else exists i :: FirstRetired(tiles, retained, i) && r == Err(RetiredError(tiles[i]))
  }

  /** The oldest start still stored of the tile's grain is no later than the tile; days are always stored. */
  predicate Stored(tile: Tile, retained: Retained) {
    && (tile.len == HOUR ==> retained.h1.Some? && retained.h1.value <= tile.start)
    && (tile.len == MINUTE ==> retained.m1.Some? && retained.m1.value <= tile.start)
  }

  ghost predicate AllStored(tiles: seq<Tile>, retained: Retained) {
    forall t :: t in tiles ==> Stored(t, retained)
  }

  lemma StoredUnlessRetired(tiles: seq<Tile>, retained: Retained)
    ensures AllRetained(tiles, retained) <==> AllStored(tiles, retained)
    ensures forall i :: FirstRetired(tiles, retained, i) ==> NamesTile(tiles, retained, RetiredError(tiles[i]))
  {
    assert AllStored(tiles, retained) ==> forall j :: 0 <= j < |tiles| ==> tiles[j] in tiles;
    forall i | FirstRetired(tiles, retained, i)
      ensures NamesTile(tiles, retained, RetiredError(tiles[i]))
    {
      FirstIsNamed(tiles, retained, i);
    }
  }

  lemma FirstIsNamed(tiles: seq<Tile>, retained: Retained, i: int)
    requires FirstRetired(tiles, retained, i)
    ensures NamesTile(tiles, retained, RetiredError(tiles[i]))
  {
    assert tiles[i] == Tile(tiles[i].start, tiles[i].len);
  }

  /** The error names a tile of the grain and start it speaks of that is not stored, after none but stored ones. */
  ghost predicate NamesTile(tiles: seq<Tile>, retained: Retained, e: WindowError) {
    && (e.HourRetired? || e.MinuteRetired?)
    && var t := Tile(e.at, if e.HourRetired? then HOUR else MINUTE);
       !Stored(t, retained) && exists i :: 0 <= i < |tiles| && tiles[i] == t && AllStored(tiles[..i], retained)
  }

  /** Plans a window, or says why the stored buckets cannot answer it; `None` is an invalid `Date`. */
  method PlanWindow(from: Option<int>, to: Option<int>, retained: Retained) returns (r: Result<Plan, WindowError>)
    ensures r == Err(Invalid) <==> from.None? || to.None? || from.value >= to.value
    ensures r == Err(NotMinuteAligned)
       <==> from.Some? && to.Some? && from.value < to.value && !MinuteAligned(from.value, to.value)
    ensures r.Ok? || r.error.HourRetired? || r.error.MinuteRetired? ==>
              && from.Some? && to.Some? && from.value < to.value && MinuteAligned(from.value, to.value)
              && Planned(Greedy(from.value, to.value), retained, r)
    ensures r != Err(ChangedDuringRead)
    ensures r.Ok? <==> from.Some? && to.Some? && from.value < to.value && MinuteAligned(from.value, to.value)
                       && AllStored(Greedy(from.value, to.value), retained)
    ensures r.Err? && (r.error.HourRetired? || r.error.MinuteRetired?) ==>
              && from.Some? && to.Some? && MinuteAligned(from.value, to.value)
              && NamesTile(Greedy(from.value, to.value), retained, r.error)
  {
    if from.None? || to.None? || from.value >= to.value {
      return Err(Invalid);
    }
    if from.value % MINUTE != 0 || to.value % MINUTE != 0 {
      return Err(NotMinuteAligned);
    }
    r := TileWindow(from.value, to.value, retained);
    StoredUnlessRetired(Greedy(from.value, to.value), retained);
  }

  method TileWindow(start: int, end: int, retained: Retained) returns (r: Result<Plan, WindowError>)
    requires MinuteAligned(start, end)
    ensures Planned(Greedy(start, end), retained, r)
    ensures r.Ok? || r.error.HourRetired? || r.error.MinuteRetired?
  {
    ghost var tiles, k := Greedy(start, end), 0;
    var plan := Plan([], [], []);
    var t := start;
    while t < end
      invariant t % MINUTE == 0 && k <= |tiles| && tiles[k..] == Greedy(t, end)
      invariant plan == PlanOf(tiles[..k]) && AllRetained(tiles[..k], retained)
      decreases end - t
    {
      Advance(tiles, k, t, end);
      RetainedOneMore(tiles, retained, k);
      if t % DAY == 0 && t + DAY <= end {
        plan := plan.(d1 := plan.d1 + [t]);
        t := t + DAY;
      } else if t % HOUR == 0 && t + HOUR <= end {
        if Missing(retained.h1, t) {
          return Err(HourRetired(t));
        }
        plan := plan.(h1 := plan.h1 + [t]);
        t := t + HOUR;
      } else {
        if Missing(retained.m1, t) {
          return Err(MinuteRetired(t));
        }
        plan := plan.(m1 := plan.m1 + [t]);
        t := t + MINUTE;
      }
      k := k + 1;
    }
    assert tiles[..k] == tiles;
    return Ok(plan);
  }

  function AddTile(plan: Plan, tile: Tile): Plan {
    if tile.len == DAY then plan.(d1 := plan.d1 + [tile.start])
    else if tile.len == HOUR then plan.(h1 := plan.h1 + [tile.start])
    else plan.(m1 := plan.m1 + [tile.start])
  }

  lemma RetainedOneMore(tiles: seq<Tile>, retained: Retained, k: nat)
    requires k < |tiles| && AllRetained(tiles[..k], retained)
    ensures if Retired(tiles[k], retained) then FirstRetired(tiles, retained, k) && !AllRetained(tiles, retained)
            else AllRetained(tiles[..k + 1], retained)
  {
    assert forall j :: 0 <= j < k ==> tiles[..k][j] == tiles[j];
  }

  lemma Advance(tiles: seq<Tile>, k: nat, t: int, end: int)
    requires MinuteAligned(t, end) && t < end && k <= |tiles| && tiles[k..] == Greedy(t, end)
    ensures k < |tiles| && tiles[k] == Coarsest(t, end) && tiles[k].End() % MINUTE == 0
    ensures tiles[k + 1..] == Greedy(tiles[k].End(), end)
    ensures PlanOf(tiles[..k + 1]) == AddTile(PlanOf(tiles[..k]), tiles[k])
  {
    CoarsestFits(t, end);
    assert tiles[k] == tiles[k..][0] && tiles[k + 1..] == tiles[k..][1..];
    assert tiles[..k + 1][..k] == tiles[..k];
  }

  /** The plan's tiles are aligned and cover the window end to end. */
  lemma {:induction false} GreedyTiles(a: int, b: int)
    requires a <= b && MinuteAligned(a, b)
    ensures Tiling(Greedy(a, b), a, b)
    decreases b - a
  {
    if a < b {
      var first := Coarsest(a, b);
      CoarsestFits(a, b);
      GreedyTiles(first.End(), b);
      assert Greedy(a, b)[1..] == Greedy(first.End(), b);
    }
  }

  lemma CoarsestFits(a: int, b: int)
    requires a < b && MinuteAligned(a, b)
    ensures Coarsest(a, b).Aligned() && Coarsest(a, b).End() <= b && Coarsest(a, b).End() % MINUTE == 0
    ensures Coarsest(a, b).End() % Coarsest(a, b).len == 0
  {
    MultiplesApart(a, b, MINUTE);
    NextMultiple(a, Coarsest(a, b).len);
    GrainsDivide(Coarsest(a, b).End());
  }

  lemma {:induction false} TilingEnds(tiles: seq<Tile>, a: int, b: int)
    requires Tiling(tiles, a, b)
    ensures a + MINUTE * |tiles| <= b
    ensures forall i :: 0 <= i < |tiles| ==> tiles[i].Aligned() && a <= tiles[i].start && tiles[i].End() <= b
  {
    if tiles != [] {
      TilingEnds(tiles[1..], tiles[0].End(), b);
    }
  }

  /** Every instant of the window lies in exactly one tile, and the tiles ascend. */
  lemma {:induction false} TilesCoverOnce(tiles: seq<Tile>, a: int, b: int, x: int) returns (i: nat)
    requires Tiling(tiles, a, b) && a <= x < b
    ensures i < |tiles| && tiles[i].start <= x < tiles[i].End()
    ensures forall j :: 0 <= j < |tiles| && j != i ==> !(tiles[j].start <= x < tiles[j].End())
    ensures forall j :: 0 <= j < i ==> tiles[j].End() <= tiles[i].start
  {
    TilingEnds(tiles, a, b);
    TilingEnds(tiles[1..], tiles[0].End(), b);
    if x < tiles[0].End() {
      i := 0;
      forall j | 1 <= j < |tiles|
        ensures tiles[0].End() <= tiles[j].start
      {
        assert tiles[j] == tiles[1..][j - 1];
      }
    } else {
      var k := TilesCoverOnce(tiles[1..], tiles[0].End(), b, x);
      i := k + 1;
      assert tiles[i] == tiles[1..][k];
      forall j | 1 <= j < |tiles|
        ensures tiles[j] == tiles[1..][j - 1]
      {
      }
    }
  }

  predicate Inside(inner: Tile, outer: Tile) {
    outer.start <= inner.start && inner.End() <= outer.End()
  }

  /** An aligned tile that starts inside the coarsest tile ends inside it. */
  lemma AlignedTilesNest(a: int, b: int, tile: Tile)
    requires a < b && MinuteAligned(a, b)
    requires tile.Aligned() && a <= tile.start < Coarsest(a, b).End() && tile.End() <= b
    ensures Inside(tile, Coarsest(a, b))
  {
    var c := Coarsest(a, b);
    CoarsestFits(a, b);
    GrainsDivide(tile.start);
    GrainsDivide(c.End());
    if tile.len <= c.len {
      MultiplesApart(tile.start, c.End(), tile.len);
    } else if a < tile.start {
      MultiplesApart(a, tile.start, c.len);
    }
  }

  /** Any aligned tiling has a joint where the coarsest first tile ends. */
  lemma {:induction false} JointAfterCoarsest(tiles: seq<Tile>, a: int, x: int, b: int) returns (k: nat)
    requires a < b && MinuteAligned(a, b) && a <= x <= Coarsest(a, b).End()
    requires Tiling(tiles, x, b)
    ensures k <= |tiles| && Tiling(tiles[k..], Coarsest(a, b).End(), b)
    ensures forall i :: 0 <= i < k ==> Inside(tiles[i], Coarsest(a, b))
    ensures x < Coarsest(a, b).End() ==> k > 0
    decreases |tiles|
  {
    CoarsestFits(a, b);
    if x == Coarsest(a, b).End() {
      k := 0;
    } else {
      TilingEnds(tiles, x, b);
      AlignedTilesNest(a, b, tiles[0]);
      var rest := JointAfterCoarsest(tiles[1..], a, tiles[0].End(), b);
      k := rest + 1;
      assert tiles[k..] == tiles[1..][rest..];
      forall i | 0 <= i < k
        ensures Inside(tiles[i], Coarsest(a, b))
      {
        assert i > 0 ==> tiles[i] == tiles[1..][i - 1];
      }
    }
  }

  /** The greedy plan is the coarsest: every aligned tiling of the window refines it, so none has fewer tiles. */
  lemma {:induction false} GreedyIsCoarsest(tiles: seq<Tile>, a: int, b: int)
    requires a <= b && MinuteAligned(a, b) && Tiling(tiles, a, b)
    ensures |Greedy(a, b)| <= |tiles|
    ensures forall t :: t in tiles ==> exists g :: g in Greedy(a, b) && Inside(t, g)
    decreases b - a
  {
    if a == b {
      TilingEnds(tiles, a, b);
    } else {
      var first := Coarsest(a, b);
      CoarsestFits(a, b);
      var k := JointAfterCoarsest(tiles, a, a, b);
      GreedyIsCoarsest(tiles[k..], first.End(), b);
      assert Greedy(a, b) == [first] + Greedy(first.End(), b);
      forall t | t in tiles
        ensures exists g :: g in Greedy(a, b) && Inside(t, g)
      {
        var i :| 0 <= i < |tiles| && tiles[i] == t;
        if i < k {
          assert first in Greedy(a, b) && Inside(t, first);
        } else {
          assert tiles[k..][i - k] == t;
          assert t in tiles[k..];
          var g :| g in Greedy(first.End(), b) && Inside(t, g);
          assert g in Greedy(a, b);
        }
      }
    }
  }

  function CountLen(tiles: seq<Tile>, len: int): nat {
    |Starts(tiles, len)|
  }

  lemma {:induction false} StartsPrepend(tile: Tile, tiles: seq<Tile>, len: int)
    ensures Starts([tile] + tiles, len) == (if tile.len == len then [tile.start] else []) + Starts(tiles, len)
  {
    var all := [tile] + tiles;
    if tiles != [] {
      assert all[..|all| - 1] == [tile] + tiles[..|tiles| - 1];
      StartsPrepend(tile, tiles[..|tiles| - 1], len);
    } else {
      assert all[..0] == [];
    }
  }

  lemma GreedyCounts(a: int, b: int)
    requires a < b && MinuteAligned(a, b)
    ensures Coarsest(a, b).End() % MINUTE == 0
    ensures var t, rest := Coarsest(a, b), Greedy(Coarsest(a, b).End(), b);
            && CountLen(Greedy(a, b), HOUR) == CountLen(rest, HOUR) + (if t.len == HOUR then 1 else 0)
            && CountLen(Greedy(a, b), MINUTE) == CountLen(rest, MINUTE) + (if t.len == MINUTE then 1 else 0)
  {
    CoarsestFits(a, b);
    StartsPrepend(Coarsest(a, b), Greedy(Coarsest(a, b).End(), b), HOUR);
    StartsPrepend(Coarsest(a, b), Greedy(Coarsest(a, b).End(), b), MINUTE);
  }

  /** Before the next whole hour: minutes only. */
  lemma {:induction false} MinuteTail(t: int, hour: int, end: int)
    requires MinuteAligned(t, end) && hour % HOUR == 0 && hour <= t <= end < hour + HOUR
    ensures CountLen(Greedy(t, end), HOUR) == 0 && CountLen(Greedy(t, end), MINUTE) * MINUTE == end - t
    decreases end - t
  {
    if t < end {
      GrainsDivide(t);
      if t % HOUR == 0 && hour < t {
        MultiplesApart(hour, t, HOUR);
      }
      GreedyCounts(t, end);
      NextMultiple(t, MINUTE);
      CoarsestFits(t, end);
      MinuteTail(t + MINUTE, hour, end);
    }
  }

  /** Before the next midnight: hours, then minutes. */
  lemma {:induction false} HourTail(t: int, day: int, end: int)
    requires MinuteAligned(t, end) && t % HOUR == 0 && day % DAY == 0 && day <= t <= end < day + DAY
    ensures CountLen(Greedy(t, end), HOUR) * HOUR <= end - t && CountLen(Greedy(t, end), MINUTE) <= 59
    decreases end - t
  {
    if t + HOUR <= end {
      if t % DAY == 0 && day < t {
        MultiplesApart(day, t, DAY);
      }
      GreedyCounts(t, end);
      NextMultiple(t, HOUR);
      GrainsDivide(t + HOUR);
      HourTail(t + HOUR, day, end);
    } else {
      MinuteTail(t, t, end);
    }
  }

  lemma {:induction false} FromMidnight(t: int, end: int)
    requires t <= end && MinuteAligned(t, end) && t % DAY == 0
    ensures CountLen(Greedy(t, end), HOUR) <= 23 && CountLen(Greedy(t, end), MINUTE) <= 59
    decreases end - t
  {
    if t + DAY <= end {
      GreedyCounts(t, end);
      NextMultiple(t, DAY);
      GrainsDivide(t + DAY);
      FromMidnight(t + DAY, end);
    } else {
      GrainsDivide(t);
      HourTail(t, t, end);
    }
  }

  /** From a whole hour with `lead` hours to go before midnight. */
  lemma {:induction false} FromHour(t: int, lead: nat, end: int)
    requires t <= end && MinuteAligned(t, end) && t % HOUR == 0 && (t + lead * HOUR) % DAY == 0
    ensures CountLen(Greedy(t, end), HOUR) <= lead + 23
    ensures CountLen(Greedy(t, end), MINUTE) <= 59
    decreases lead
  {
    if t % DAY == 0 {
      FromMidnight(t, end);
    } else if t + HOUR <= end {
      GreedyCounts(t, end);
      NextMultiple(t, HOUR);
      GrainsDivide(t + HOUR);
      FromHour(t + HOUR, lead - 1, end);
    } else {
      MinuteTail(t, t, end);
    }
  }

  /** From a whole minute with `lead` minutes to go before the hour. */
  lemma {:induction false} FromMinute(t: int, lead: nat, end: int)
    requires t <= end && MinuteAligned(t, end) && (t + lead * MINUTE) % HOUR == 0
    ensures CountLen(Greedy(t, end), HOUR) <= 46
    ensures CountLen(Greedy(t, end), MINUTE) <= lead + 59
    decreases lead
  {
    if t % HOUR == 0 {
      var hours := HoursToMidnight(t);
      FromHour(t, hours, end);
    } else if t < end {
      GrainsDivide(t);
      GreedyCounts(t, end);
      NextMultiple(t, MINUTE);
      CoarsestFits(t, end);
      FromMinute(t + MINUTE, lead - 1, end);
    }
  }

  /** The next midnight is a whole number of hours after a whole hour. */
  lemma HoursToMidnight(t: int) returns (lead: nat)
    requires t % HOUR == 0
    ensures lead < 24 && (t + lead * HOUR) % DAY == 0
  {
    var q := t / HOUR;
    lead := (24 - q % 24) % 24;
    Rounds(q, 24, lead);
    assert t + lead * HOUR == DAY * ((q + lead) / 24);
  }

  lemma MinutesToHour(t: int) returns (lead: nat)
    requires t % MINUTE == 0
    ensures lead < 60 && (t + lead * MINUTE) % HOUR == 0
  {
    var q := t / MINUTE;
    lead := (60 - q % 60) % 60;
    Rounds(q, 60, lead);
    assert t + lead * MINUTE == HOUR * ((q + lead) / 60);
  }

  lemma Rounds(q: int, n: int, lead: int)
    requires (n == 24 || n == 60) && lead == (n - q % n) % n
    ensures 0 <= lead < n && (q + lead) % n == 0
  {
  }

  /** However long the window, its edges need at most 46 hour buckets and 118 minute buckets. */
  lemma EdgeBucketsAreBounded(from: int, to: int)
    requires from <= to && MinuteAligned(from, to)
    ensures |PlanOf(Greedy(from, to)).h1| <= 46 && |PlanOf(Greedy(from, to)).m1| <= 118
  {
    var minutes := MinutesToHour(from);
    FromMinute(from, minutes, to);
  }

  ghost predicate Ascending(s: seq<int>) {
    forall i, j :: 0 <= i < j < |s| ==> s[i] < s[j]
  }

  lemma {:induction false} StartsAreTiles(tiles: seq<Tile>, len: int, x: int)
    ensures x in Starts(tiles, len) <==> Tile(x, len) in tiles
  {
    if tiles != [] {
      var rest := tiles[..|tiles| - 1];
      assert tiles == rest + [tiles[|tiles| - 1]];
      StartsAreTiles(rest, len, x);
    }
  }

  /** A plan's starts ascend within each grain, so the first is the oldest the plan needs. */
  lemma {:induction false} StartsAscend(tiles: seq<Tile>, a: int, b: int, len: int)
    requires Tiling(tiles, a, b)
    ensures Ascending(Starts(tiles, len)) && forall x :: x in Starts(tiles, len) ==> a <= x
  {
    if tiles != [] {
      TilingEnds(tiles, a, b);
      StartsPrepend(tiles[0], tiles[1..], len);
      assert tiles == [tiles[0]] + tiles[1..];
      StartsAscend(tiles[1..], tiles[0].End(), b, len);
      var rest := Starts(tiles[1..], len);
      assert forall j :: 0 <= j < |rest| ==> rest[j] in rest;
    }
  }

  function OldestNeeded(starts: seq<int>): Option<int> {
    if starts == [] then None else Some(starts[0])
  }

  /** The re-check after the read: the oldest start each grain needs must still be retained. */
  predicate StillRetained(plan: Plan, now: Retained) {
    && (OldestNeeded(plan.h1).Some? ==> !Missing(now.h1, plan.h1[0]))
    && (OldestNeeded(plan.m1).Some? ==> !Missing(now.m1, plan.m1[0]))
  }

  /** Re-checking only the oldest start of each grain re-checks every tile of the plan. */
  lemma RecheckCoversEveryTile(from: int, to: int, now: Retained)
    requires from <= to && MinuteAligned(from, to)
    ensures StillRetained(PlanOf(Greedy(from, to)), now)
       <==> forall t :: t in Greedy(from, to) ==> !Retired(t, now)
    ensures StillRetained(PlanOf(Greedy(from, to)), now) <==> AllStored(Greedy(from, to), now)
  {
    RecheckCoversGrain(from, to, HOUR, now.h1);
    RecheckCoversGrain(from, to, MINUTE, now.m1);
    var tiles := Greedy(from, to);
    assert forall t :: t in tiles ==> t == Tile(t.start, t.len);
  }

  lemma RecheckCoversGrain(from: int, to: int, len: int, oldest: Option<int>)
    requires from <= to && MinuteAligned(from, to)
    ensures var s := Starts(Greedy(from, to), len);
            (s != [] ==> !Missing(oldest, s[0])) <==>
              forall x :: Tile(x, len) in Greedy(from, to) ==> !Missing(oldest, x)
  {
    GreedyTiles(from, to);
    StartsAscend(Greedy(from, to), from, to, len);
    var s := Starts(Greedy(from, to), len);
    if s != [] {
      StartsAreTiles(Greedy(from, to), len, s[0]);
    }
    forall x | Tile(x, len) in Greedy(from, to)
      ensures x in s && s[0] <= x
    {
      StartsAreTiles(Greedy(from, to), len, x);
    }
  }
}
