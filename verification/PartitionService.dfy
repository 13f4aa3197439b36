/** Keeping partitions ahead of need: creating the missing ones, and how far the newest reaches. */
module PartitionService {
  import opened Wrappers
  import opened Calendar
  import opened Decimals
  import opened PartitionPeriods

  datatype Parent = ProbeResults | ClaimLog | ProbeStatsM1 | ProbeStatsH1

  const PARTITION_FAMILIES := [ProbeResults, ClaimLog, ProbeStatsM1, ProbeStatsH1]

  function KindOf(parent: Parent): PeriodKind {
    if parent.ProbeStatsH1? then MonthPeriod else DayPeriod
  }

  /** `<parent>_p<suffix>`. */
  datatype Name = Name(parent: Parent, suffix: string)

  /** A partition table; one detached but not dropped still has its name. */
  datatype Table = Table(lo: int, hi: int, attached: bool)

  type Catalogue = map<Name, Table>

  /** Every table's bounds are the ones its name reads as. */
  ghost predicate Honest(tables: Catalogue) {
    forall n :: n in tables ==> IsNamed(n, tables[n])
  }

  ghost predicate IsNamed(n: Name, t: Table) {
    PeriodFromSuffix(KindOf(n.parent), n.suffix) == Some(t.lo) && t.hi == NextPeriodStart(KindOf(n.parent), t.lo)
  }

  /** Tables of one family under different names never overlap, so attaching one never fails for it. */
  lemma HonestTablesAreDisjoint(tables: Catalogue, m: Name, n: Name)
    requires Honest(tables) && m in tables && n in tables && m.parent == n.parent && m != n
    ensures tables[m].hi <= tables[n].lo || tables[n].hi <= tables[m].lo
  {
    var kind, a, b := KindOf(m.parent), tables[m], tables[n];
    NameIsUnique(kind, m.suffix);
    NameIsUnique(kind, n.suffix);
    assert IsNamed(m, a) && IsNamed(n, b);
    StartsFromFirst(kind, a.lo);
    StartsFromFirst(kind, b.lo);
    YearFromFirst(a.lo);
    YearFromFirst(b.lo);
    if a.lo <= b.lo < a.hi {
      OneStart(kind, a.lo, b.lo);
    } else if b.lo <= a.lo < b.hi {
      OneStart(kind, b.lo, a.lo);
    }
  }

  lemma StartsFromFirst(kind: PeriodKind, start: int)
    requires Nameable(start)
    ensures FIRST <= start
  {
    YearFromFirst(start);
  }

  /** The name the partition of an instant has. */
  function NameAt(parent: Parent, t: int): Name {
    Name(parent, PeriodSuffix(KindOf(parent), PeriodStart(KindOf(parent), t)))
  }

  function Until(parent: Parent, dailyTo: int, monthlyTo: int): int {
    if KindOf(parent).DayPeriod? then dailyTo else monthlyTo
  }

  /** A table for every instant of the range, from the year 100 on. */
  ghost predicate Covers(tables: Catalogue, parent: Parent, from: int, until: int) {
    forall t :: FIRST <= from <= t <= until ==> NameAt(parent, t) in tables
  }

  lemma PeriodsCover(parent: Parent, periods: seq<Period>, from: int, until: int, next: int, tables: Catalogue)
    requires ArePeriods(KindOf(parent), periods) && until < next
    requires Contiguous(periods, PeriodStart(KindOf(parent), from), next)
    requires forall i :: 0 <= i < |periods| ==> Name(parent, periods[i].suffix) in tables
    ensures Covers(tables, parent, from, until)
  {
    forall t | FIRST <= from <= t <= until
      ensures NameAt(parent, t) in tables
    {
      StartInChain(KindOf(parent), periods, from, next, t);
      var i :| 0 <= i < |periods| && periods[i].from == PeriodStart(KindOf(parent), t);
      assert IsPeriod(KindOf(parent), periods[i]);
    }
  }

  lemma StartInChain(kind: PeriodKind, periods: seq<Period>, from: int, next: int, t: int)
    requires ArePeriods(kind, periods) && Contiguous(periods, PeriodStart(kind, from), next)
    requires FIRST <= from <= t < next
    ensures exists i :: 0 <= i < |periods| && periods[i].from == PeriodStart(kind, t)
  {
    StartDate(kind, from);
    StartDate(kind, t);
    ContainsSinceFirst(kind, from, PeriodStart(kind, from));
    ContainsSinceFirst(kind, t, PeriodStart(kind, t));
    if PeriodStart(kind, t) < PeriodStart(kind, from) {
      ContainsSinceFirst(kind, from, PeriodStart(kind, t));
    }
    ChainCovers(periods, PeriodStart(kind, from), next, next);
    forall i | 0 <= i < |periods|
      ensures !Shifted(CivilAt(periods[i].from).year)
    {
      YearFromFirst(periods[i].from);
    }
    StartIsInCover(kind, periods, PeriodStart(kind, from), next, PeriodStart(kind, t));
  }

  /** Some table of the family holds each instant of the range. */
  ghost predicate Reaches(tables: Catalogue, parent: Parent, from: int, until: int) {
    forall t :: from <= t <= until ==> HasTable(tables, parent, t)
  }

  ghost predicate HasTable(tables: Catalogue, parent: Parent, t: int) {
    exists n :: n in tables && n.parent == parent && tables[n].lo <= t < tables[n].hi
  }

  /** The hourly family has months under six digits, every other has days under eight. */
  ghost predicate Shaped(n: Name, t: Table) {
    if n.parent.ProbeStatsH1?
    then |n.suffix| == 6 && CivilAt(t.lo).day == 1 && CivilAt(t.hi) == NextMonth(CivilAt(t.lo))
    else |n.suffix| == 8 && t.hi == t.lo + DAY
  }

  lemma NamedIsShaped(n: Name, t: Table)
    requires IsNamed(n, t)
    ensures Shaped(n, t)
  {
    NameIsUnique(KindOf(n.parent), n.suffix);
    StartsFromFirst(KindOf(n.parent), t.lo);
    NextDate(KindOf(n.parent), t.lo);
    StartDate(KindOf(n.parent), t.lo);
    ContainsSinceFirst(KindOf(n.parent), t.lo, t.lo);
  }

  lemma NamedHolds(parent: Parent, t: int, table: Table)
    requires FIRST <= t && CivilAt(t).year <= 9999 && IsNamed(NameAt(parent, t), table)
    ensures table.lo <= t < table.hi
  {
    var kind := KindOf(parent);
    StartDate(kind, t);
    YearFromFirst(PeriodStart(kind, t));
    SuffixRoundTrip(kind, PeriodStart(kind, t));
    ContainsSinceFirst(kind, t, PeriodStart(kind, t));
  }

  /** When tables are bounded as they are named, one under the name of every instant holds every instant. */
  lemma CoversReaches(tables: Catalogue, parent: Parent, from: int, until: int)
    requires Honest(tables) && Covers(tables, parent, from, until) && FIRST <= from && CivilAt(until).year <= 9999
    ensures Reaches(tables, parent, from, until)
  {
    forall t | from <= t <= until
      ensures HasTable(tables, parent, t)
    {
      var n := NameAt(parent, t);
      assert n in tables && IsNamed(n, tables[n]);
      YearsOrder(t, until);
      NamedHolds(parent, t, tables[n]);
    }
  }

  /** A table made for a period of the cover. */
  ghost predicate IsMade(n: Name, t: Table) {
    t.attached && IsPeriod(KindOf(n.parent), Period(n.suffix, t.lo, t.hi))
  }

  /** `after` is `before` with exactly `created` added, each under a new name. */
  ghost predicate Grown(before: Catalogue, after: Catalogue, created: seq<Name>) {
    && (forall i, j :: 0 <= i < j < |created| ==> created[i] != created[j])
    && (forall n :: n in created ==> n !in before && n in after)
    && (forall n :: n in before ==> n in after && after[n] == before[n])
    && (forall n :: n in after ==> n in before || n in created)
  }

  ghost predicate AllMade(tables: Catalogue, created: seq<Name>) {
    forall n :: n in created && n in tables ==> IsMade(n, tables[n])
  }

  lemma GrowOne(before: Catalogue, after: Catalogue, created: seq<Name>, n: Name, t: Table)
    requires Grown(before, after, created) && n !in after
    ensures Grown(before, after[n := t], created + [n])
  {
  }

  /** The table is the one of the period its name is of. */
  ghost predicate FromPeriods(parent: Parent, periods: seq<Period>, n: Name, t: Table) {
    exists p :: p in periods && n == Name(parent, p.suffix) && t == Table(p.from, p.to, true)
  }

  lemma FromPeriodsMade(parent: Parent, periods: seq<Period>, tables: Catalogue, created: seq<Name>)
    requires ArePeriods(KindOf(parent), periods)
    requires forall n :: n in created && n in tables ==> FromPeriods(parent, periods, n, tables[n])
    ensures AllMade(tables, created)
  {
    forall n | n in created && n in tables
      ensures IsMade(n, tables[n])
    {
      var p :| p in periods && n == Name(parent, p.suffix) && tables[n] == Table(p.from, p.to, true);
      assert IsPeriod(KindOf(parent), p);
    }
  }

  lemma MadeIsNamed(n: Name, t: Table)
    requires IsMade(n, t) && IsStart(KindOf(n.parent), t.lo) && Nameable(t.lo)
    ensures IsNamed(n, t)
  {
    SuffixRoundTrip(KindOf(n.parent), t.lo);
  }

  ghost predicate IsStartBy(n: Name, t: Table, last: int) {
    FIRST <= t.lo <= last && IsStart(KindOf(n.parent), t.lo)
  }

  ghost predicate AllStarts(tables: Catalogue, created: seq<Name>, last: int) {
    forall n :: n in created && n in tables ==> IsStartBy(n, tables[n], last)
  }

  lemma ChainStartsBy(parent: Parent, periods: seq<Period>, from: int, next: int, last: int, tables: Catalogue,
                      created: seq<Name>)
    requires ArePeriods(KindOf(parent), periods) && FIRST <= from
    requires Contiguous(periods, PeriodStart(KindOf(parent), from), next)
    requires forall i :: 0 <= i < |periods| ==> periods[i].from <= last
    requires forall n :: n in created && n in tables ==> FromPeriods(parent, periods, n, tables[n])
    ensures AllStarts(tables, created, last)
  {
    StartDate(KindOf(parent), from);
    ChainStarts(KindOf(parent), periods, PeriodStart(KindOf(parent), from), next);
    ChainCovers(periods, PeriodStart(KindOf(parent), from), next, next);
  }

  lemma MadeIsHonest(n: Name, t: Table, last: int)
    requires IsMade(n, t) && IsStartBy(n, t, last) && CivilAt(last).year <= 9999
    ensures IsNamed(n, t)
  {
    YearFromFirst(t.lo);
    YearsOrder(t.lo, last);
    MadeIsNamed(n, t);
  }

  lemma YearsOrder(a: int, b: int)
    requires a <= b
    ensures CivilAt(a).year <= CivilAt(b).year
  {
    if CivilAt(b).year < CivilAt(a).year {
      EarlierDay(CivilAt(b), CivilAt(a));
    }
  }

  /** Tables made for a range of named years keep every table's bounds the ones its name reads as. */
  lemma HonestGrows(before: Catalogue, after: Catalogue, created: seq<Name>, last: int)
    requires Honest(before) && Grown(before, after, created) && AllMade(after, created)
    requires AllStarts(after, created, last) && CivilAt(last).year <= 9999
    ensures Honest(after)
  {
    forall n | n in after
      ensures IsNamed(n, after[n])
    {
      if n in created {
        MadeIsHonest(n, after[n], last);
      } else {
        assert n in before;
      }
    }
  }

  lemma StartsChain(a: Catalogue, b: Catalogue, c: Catalogue, x: seq<Name>, y: seq<Name>, last: int, until: int)
    requires Grown(a, b, x) && Grown(b, c, y) && AllStarts(b, x, last) && AllStarts(c, y, until) && until <= last
    ensures AllStarts(c, x + y, last)
  {
    forall n | n in x + y && n in c
      ensures IsStartBy(n, c[n], last)
    {
      assert n in x || n in y;
    }
  }

  function Later(a: int, b: int): int { if a < b then b else a }

  lemma GrownChain(a: Catalogue, b: Catalogue, c: Catalogue, x: seq<Name>, y: seq<Name>)
    requires Grown(a, b, x) && Grown(b, c, y) && AllMade(b, x) && AllMade(c, y)
    ensures Grown(a, c, x + y) && AllMade(c, x + y)
  {
    var xy := x + y;
    forall i, j | 0 <= i < j < |xy|
      ensures xy[i] != xy[j]
    {
      if i < |x| <= j {
        assert xy[i] in x && xy[j] in y;
      }
    }
    forall n | n in xy
      ensures n !in a && n in c && IsMade(n, c[n])
    {
      assert n in x || n in y;
    }
  }

  lemma CoversGrows(a: Catalogue, b: Catalogue, made: seq<Name>, parent: Parent, from: int, until: int)
    requires Covers(a, parent, from, until) && Grown(a, b, made)
    ensures Covers(b, parent, from, until)
  {
  }

  // ---- How far the raw partitions reach ----

  predicate IsRaw(tables: Catalogue, n: Name) {
    n in tables && n.parent.ProbeResults? && tables[n].attached
  }

  function RawNames(tables: Catalogue): set<string> {
    set n | n in tables && IsRaw(tables, n) :: n.suffix
  }

  ghost predicate IsNewestRaw(tables: Catalogue, n: Name) {
    IsRaw(tables, n) && forall m :: IsRaw(tables, m) ==> tables[m].hi <= tables[n].hi
  }

  function DaysAhead(end: int, now: int): real {
    if end > now then (end - now) as real / DAY as real else 0.0
  }

  lemma NamedIsDigits(n: Name, t: Table)
    requires IsNamed(n, t)
    ensures DigitRun(n.suffix, NameWidth(KindOf(n.parent)))
  {
  }

  lemma RawNamesAreDigits(tables: Catalogue)
    requires Honest(tables)
    ensures forall a :: a in RawNames(tables) ==> DigitRun(a, NameWidth(DayPeriod))
  {
    forall a | a in RawNames(tables)
      ensures DigitRun(a, NameWidth(DayPeriod))
    {
      var n :| n in tables && IsRaw(tables, n) && n.suffix == a;
      NamedIsDigits(n, tables[n]);
    }
  }

  lemma RawStart(n: Name, t: Table)
    requires n.parent.ProbeResults? && IsNamed(n, t)
    ensures IsStart(DayPeriod, t.lo) && Nameable(t.lo)
    ensures PeriodSuffix(DayPeriod, t.lo) == n.suffix && t.hi == t.lo + DAY
  {
    NameIsUnique(DayPeriod, n.suffix);
    StartsFromFirst(DayPeriod, t.lo);
    NextDate(DayPeriod, t.lo);
  }

  /** The greatest name reads as the end of the newest raw partition. */
  lemma GreatestIsNewest(tables: Catalogue, greatest: string)
    requires Honest(tables) && IsGreatestName(greatest, RawNames(tables))
    ensures |greatest| == NameWidth(DayPeriod) && AllDigits(greatest)
    ensures exists n :: IsNewestRaw(tables, n) && tables[n].hi == Decoded(DayPeriod, greatest, 1)
  {
    var n :| n in tables && IsRaw(tables, n) && n.suffix == greatest;
    assert IsNamed(n, tables[n]);
    RawStart(n, tables[n]);
    DecodedStart(DayPeriod, tables[n].lo);
    forall m | IsRaw(tables, m)
      ensures tables[m].hi <= tables[n].hi
    {
      assert m.suffix in RawNames(tables) && IsNamed(m, tables[m]);
      NewerName(m, tables[m], n, tables[n]);
    }
  }

  lemma NewerName(m: Name, s: Table, n: Name, t: Table)
    requires m.parent.ProbeResults? && n.parent.ProbeResults? && IsNamed(m, s) && IsNamed(n, t)
    ensures TextLess(n.suffix, m.suffix) <==> t.hi < s.hi
  {
    RawStart(m, s);
    RawStart(n, t);
    TextOrderIsTimeOrder(DayPeriod, t.lo, s.lo);
  }

  lemma EveryFamily(p: Parent)
    ensures exists i :: 0 <= i < |PARTITION_FAMILIES| && PARTITION_FAMILIES[i] == p
  {
    match p
    case ProbeResults => assert PARTITION_FAMILIES[0] == p;
    case ClaimLog => assert PARTITION_FAMILIES[1] == p;
    case ProbeStatsM1 => assert PARTITION_FAMILIES[2] == p;
    case ProbeStatsH1 => assert PARTITION_FAMILIES[3] == p;
  }

  lemma AllCovered(tables: Catalogue, from: int, dailyTo: int, monthlyTo: int)
    requires forall i :: 0 <= i < |PARTITION_FAMILIES| ==>
               Covers(tables, PARTITION_FAMILIES[i], from, Until(PARTITION_FAMILIES[i], dailyTo, monthlyTo))
    ensures forall p :: Covers(tables, p, from, Until(p, dailyTo, monthlyTo))
  {
    forall p: Parent
      ensures Covers(tables, p, from, Until(p, dailyTo, monthlyTo))
    {
      EveryFamily(p);
    }
  }

  /** Three families have days up to one instant and the hourly one months up to another. */
  ghost predicate Ensured(tables: Catalogue, created: seq<Name>, from: int, dailyTo: int, monthlyTo: int) {
    && Reaches(tables, ProbeResults, from, dailyTo) && Reaches(tables, ClaimLog, from, dailyTo)
    && Reaches(tables, ProbeStatsM1, from, dailyTo) && Reaches(tables, ProbeStatsH1, from, monthlyTo)
    && forall n :: n in created && n in tables ==> Shaped(n, tables[n])
  }

  /** The range lies in the years whose names read back. */
  ghost predicate InNamedYears(from: int, dailyTo: int, monthlyTo: int) {
    FIRST <= from && CivilAt(Later(dailyTo, monthlyTo)).year <= 9999
  }

  lemma StaysHonest(before: Catalogue, after: Catalogue, created: seq<Name>, from: int, dailyTo: int, monthlyTo: int)
    requires InNamedYears(from, dailyTo, monthlyTo) && Honest(before)
    requires Grown(before, after, created) && AllMade(after, created)
    requires AllStarts(after, created, Later(dailyTo, monthlyTo))
    requires forall p :: Covers(after, p, from, Until(p, dailyTo, monthlyTo))
    ensures Honest(after) && Ensured(after, created, from, dailyTo, monthlyTo)
  {
    HonestGrows(before, after, created, Later(dailyTo, monthlyTo));
    AllEnsured(after, created, from, dailyTo, monthlyTo);
  }

  lemma AllEnsured(tables: Catalogue, created: seq<Name>, from: int, dailyTo: int, monthlyTo: int)
    requires Honest(tables) && InNamedYears(from, dailyTo, monthlyTo)
    requires forall p :: Covers(tables, p, from, Until(p, dailyTo, monthlyTo))
    ensures Ensured(tables, created, from, dailyTo, monthlyTo)
  {
    FamilyReaches(tables, ProbeResults, from, dailyTo, monthlyTo);
    FamilyReaches(tables, ClaimLog, from, dailyTo, monthlyTo);
    FamilyReaches(tables, ProbeStatsM1, from, dailyTo, monthlyTo);
    FamilyReaches(tables, ProbeStatsH1, from, dailyTo, monthlyTo);
    HonestIsShaped(tables, created);
  }

  lemma FamilyReaches(tables: Catalogue, p: Parent, from: int, dailyTo: int, monthlyTo: int)
    requires Honest(tables) && InNamedYears(from, dailyTo, monthlyTo)
    requires Covers(tables, p, from, Until(p, dailyTo, monthlyTo))
    ensures Reaches(tables, p, from, if p.ProbeStatsH1? then monthlyTo else dailyTo)
  {
    YearsOrder(Until(p, dailyTo, monthlyTo), Later(dailyTo, monthlyTo));
    CoversReaches(tables, p, from, Until(p, dailyTo, monthlyTo));
  }

  lemma HonestIsShaped(tables: Catalogue, created: seq<Name>)
    requires Honest(tables)
    ensures forall n :: n in created && n in tables ==> Shaped(n, tables[n])
  {
    forall n | n in created && n in tables
      ensures Shaped(n, tables[n])
    {
      assert IsNamed(n, tables[n]);
      NamedIsShaped(n, tables[n]);
    }
  }

  /** The days from `now` to the latest end of an attached raw partition, none when that is past. */
  ghost predicate AreDaysAhead(tables: Catalogue, now: int, days: real) {
    && days >= 0.0
    && (forall n :: n in tables && n.parent.ProbeResults? && tables[n].attached ==>
          (tables[n].hi - now) as real <= days * DAY as real)
    && (days > 0.0 ==> exists n :: n in tables && n.parent.ProbeResults? && tables[n].attached
                                   && (tables[n].hi - now) as real == days * DAY as real)
  }

  lemma NewestDecides(tables: Catalogue, n: Name, now: int)
    requires IsNewestRaw(tables, n)
    ensures AreDaysAhead(tables, now, DaysAhead(tables[n].hi, now))
  {
    assert forall m :: m in tables && m.parent.ProbeResults? && tables[m].attached ==> IsRaw(tables, m);
  }

  lemma NoRawIsZero(tables: Catalogue, now: int)
    requires RawNames(tables) == {}
    ensures AreDaysAhead(tables, now, 0.0)
  {
    assert forall n :: IsRaw(tables, n) ==> n.suffix in RawNames(tables);
    assert forall n :: n in tables ==> !IsRaw(tables, n);
  }

  class Partitions {
    var tables: Catalogue

    constructor ()
      ensures tables == map[]
    {
      tables := map[];
    }

    /** Creates and attaches the periods that have no table yet. */
    method CreateMissing(parent: Parent, periods: seq<Period>) returns (created: seq<Name>)
      modifies this
      ensures Grown(old(tables), tables, created)
      ensures forall n :: n in created && n in tables ==> FromPeriods(parent, periods, n, tables[n])
      ensures forall i :: 0 <= i < |periods| ==> Name(parent, periods[i].suffix) in tables
    {
      created := [];
      for k := 0 to |periods|
        invariant Grown(old(tables), tables, created)
        invariant forall n :: n in created && n in tables ==> FromPeriods(parent, periods, n, tables[n])
        invariant forall i :: 0 <= i < k ==> Name(parent, periods[i].suffix) in tables
      {
        var period := periods[k];
        var name, table := Name(parent, period.suffix), Table(period.from, period.to, true);
        if name !in tables {
          assert FromPeriods(parent, periods, name, table);
          GrowOne(old(tables), tables, created, name, table);
          tables := tables[name := table];
          created := created + [name];
        }
      }
    }

    method EnsureFamily(parent: Parent, from: int, until: int) returns (created: seq<Name>)
      modifies this
      ensures Grown(old(tables), tables, created) && AllMade(tables, created) && Covers(tables, parent, from, until)
      ensures FIRST <= from ==> AllStarts(tables, created, until)
    {
      var periods := PeriodsCovering(KindOf(parent), from, until);
      created := CreateMissing(parent, periods);
      FromPeriodsMade(parent, periods, tables, created);
      ghost var next :| Contiguous(periods, PeriodStart(KindOf(parent), from), next) && until < next;
      PeriodsCover(parent, periods, from, until, next, tables);
      if FIRST <= from {
        ChainStartsBy(parent, periods, from, next, until, tables, created);
      }
    }

    /**
     * Daily and monthly families separately. With `wait` false, another session's lock (`got` false) means nothing
     * is done.
     */
    method EnsureRange(from: int, dailyTo: int, monthlyTo: int, wait: bool, got: bool)
      returns (ran: bool, created: seq<Name>)
      modifies this
      ensures ran == (wait || got) && Grown(old(tables), tables, created) && AllMade(tables, created)
      ensures if ran then forall p :: Covers(tables, p, from, Until(p, dailyTo, monthlyTo)) else created == []
      ensures FIRST <= from ==> AllStarts(tables, created, Later(dailyTo, monthlyTo))
      ensures InNamedYears(from, dailyTo, monthlyTo) && old(Honest(tables)) ==>
                Honest(tables) && (ran ==> Ensured(tables, created, from, dailyTo, monthlyTo))
    {
      ran, created := wait || got, [];
      if !ran {
        return;
      }
      for k := 0 to |PARTITION_FAMILIES|
        invariant Grown(old(tables), tables, created) && AllMade(tables, created)
        invariant FIRST <= from ==> AllStarts(tables, created, Later(dailyTo, monthlyTo))
        invariant forall i :: 0 <= i < k ==>
                    Covers(tables, PARTITION_FAMILIES[i], from, Until(PARTITION_FAMILIES[i], dailyTo, monthlyTo))
      {
        var parent := PARTITION_FAMILIES[k];
        ghost var before := tables;
        var made := EnsureFamily(parent, from, Until(parent, dailyTo, monthlyTo));
        GrownChain(old(tables), before, tables, created, made);
        if FIRST <= from {
          StartsChain(old(tables), before, tables, created, made, Later(dailyTo, monthlyTo),
                      Until(parent, dailyTo, monthlyTo));
        }
        created := created + made;
        forall i | 0 <= i < k
          ensures Covers(tables, PARTITION_FAMILIES[i], from, Until(PARTITION_FAMILIES[i], dailyTo, monthlyTo))
        {
          CoversGrows(before, tables, made, PARTITION_FAMILIES[i], from,
                      Until(PARTITION_FAMILIES[i], dailyTo, monthlyTo));
        }
      }
      AllCovered(tables, from, dailyTo, monthlyTo);
      if InNamedYears(from, dailyTo, monthlyTo) && old(Honest(tables)) {
        StaysHonest(old(tables), tables, created, from, dailyTo, monthlyTo);
      }
    }

    /** Days of raw partitions beyond `now`, never below zero. */
    method HorizonDays(now: int) returns (days: real)
      requires Honest(tables)
      ensures RawNames(tables) == {} ==> days == 0.0
      ensures RawNames(tables) != {} ==> exists n :: IsNewestRaw(tables, n) && days == DaysAhead(tables[n].hi, now)
      ensures AreDaysAhead(tables, now, days)
    {
      RawNamesAreDigits(tables);
      var latest := MaxText(RawNames(tables), NameWidth(DayPeriod));
      if latest.None? {
        NoRawIsZero(tables, now);
        return 0.0;
      }
      GreatestIsNewest(tables, latest.value);
      days := DaysAhead(Decoded(DayPeriod, latest.value, 1), now);
      ghost var n :| IsNewestRaw(tables, n) && tables[n].hi == Decoded(DayPeriod, latest.value, 1);
      NewestDecides(tables, n, now);
    }
  }

  // ---- The configured horizons ----

  function AddUtcMonths(at: int, months: int): int {
    var c := CivilAt(at);
    DateUtc(c.year, c.month + months, 1)
  }

  function AddUtcDays(at: int, days: int): int { at + days * DAY }

  /** The start of a month, months counted from January of the year 0. */
  function MonthStart(n: int): int { MakeDay(n / 12, n % 12, 1) * DAY }

  function MonthAt(at: int): int { 12 * CivilAt(at).year + CivilAt(at).month }

  lemma MonthSplits(y: int, m: int, n: int)
    requires n == 12 * y + m && 0 <= m < 12
    ensures n / 12 == y && n % 12 == m
  {
  }

  lemma MonthStartIs(y: int, m: int, n: int)
    requires n == 12 * y + m && 0 <= m < 12
    ensures MonthStart(n) == (DayFromYear(y) + DaysBefore(m, Leap(y))) * DAY
  {
    MonthSplits(y, m, n);
  }

  lemma MonthIsDate(y: int, m: int, n: int)
    requires n == 12 * y + m && 0 <= m < 12
    ensures Valid(Civil(y, m, 1)) && MonthStart(n) == MakeDay(y, m, 1) * DAY
  {
    MonthSplits(y, m, n);
    MonthsAscend(m, 12, Leap(y));
  }

  /** Months past December carry over to the next years. */
  lemma MonthsCarry(y: int, m: int, n: int)
    requires n == 12 * y + m
    ensures MakeDay(y, m, 1) * DAY == MonthStart(n)
  {
    MonthSplits(y + m / 12, m % 12, n);
  }

  lemma StartOfMonth(t: int, n: int)
    requires FIRST <= t && n == MonthAt(t)
    ensures PeriodStart(MonthPeriod, t) == MonthStart(n) <= t
  {
    var c := CivilAt(t);
    YearFromFirst(t);
    StartDate(MonthPeriod, t);
    MonthIsDate(c.year, c.month, n);
  }

  lemma AheadOfMonth(now: int, months: nat, n: int)
    requires FIRST <= now && n == MonthAt(now) + months
    ensures AddUtcMonths(now, months) == MonthStart(n)
  {
    var c := CivilAt(now);
    YearFromFirst(now);
    MonthsCarry(c.year, c.month + months, n);
  }

  /** A first of the month lies in its own month. */
  lemma MonthOfStart(n: int, y: int)
    requires y >= 100 && 12 * y <= n < 12 * y + 12
    ensures FIRST <= MonthStart(n) && MonthAt(MonthStart(n)) == n
  {
    var c := Civil(y, n - 12 * y, 1);
    MonthIsDate(y, c.month, n);
    InstantOf(c);
  }

  /** The days in `months` months from the first of a common February. */
  function LeastSpan(months: nat): int
    requires 1 <= months <= 12
  {
    if months == 12 then 365 else DaysBefore(months + 1, false) - 31
  }

  lemma SpanInYear(m: int, k: nat, leap: bool)
    requires 0 <= m < 12 && 1 <= k <= 12 && m + k <= 12
    ensures DaysBefore(m + k, leap) - DaysBefore(m, leap) >= LeastSpan(k)
  {
  }

  lemma SpanPastYear(m: int, k: nat, leap: bool, nextLeap: bool)
    requires 0 <= m < 12 && 1 <= k <= 12 && m + k > 12
    ensures DaysBefore(12, leap) + DaysBefore(m + k - 12, nextLeap) - DaysBefore(m, leap) >= LeastSpan(k)
  {
  }

  lemma SpanOfDays(y: int, m: int, k: nat, z: int, j: int)
    requires 0 <= m < 12 && 1 <= k <= 12
    requires if m + k < 12 then z == y && j == m + k else z == y + 1 && j == m + k - 12
    ensures DayFromYear(z) + DaysBefore(j, Leap(z)) - (DayFromYear(y) + DaysBefore(m, Leap(y))) >= LeastSpan(k)
  {
    YearLength(y);
    if m + k <= 12 {
      SpanInYear(m, k, Leap(y));
    } else {
      SpanPastYear(m, k, Leap(y), Leap(z));
    }
  }

  /** No run of `k` months is shorter than the one that starts in a common February. */
  lemma SpanAtLeast(a: int, b: int, k: nat)
    requires b == a + k && 1 <= k <= 12
    ensures MonthStart(a) + LeastSpan(k) * DAY <= MonthStart(b)
  {
    var y, m := a / 12, a % 12;
    var z, j := if m + k < 12 then y else y + 1, if m + k < 12 then m + k else m + k - 12;
    MonthStartIs(y, m, a);
    MonthStartIs(z, j, b);
    SpanOfDays(y, m, k, z, j);
  }

  lemma {:induction false} MonthStartsAscend(a: int, b: int)
    requires a <= b
    ensures MonthStart(a) <= MonthStart(b) && (a < b ==> MonthStart(a) < MonthStart(b))
    decreases b - a
  {
    if a < b {
      SpanAtLeast(a, a + 1, 1);
      MonthStartsAscend(a + 1, b);
    }
  }

  /** An instant lies before the first of the month after its own. */
  lemma BeforeNextFirst(t: int, next: int)
    requires FIRST <= t && next == MonthAt(t) + 1
    ensures t < MonthStart(next)
  {
    var c := CivilAt(t);
    var n := NextMonth(c);
    NextMonthValid(c);
    EarlierDay(c, n);
    MonthIsDate(n.year, n.month, next);
  }

  /** Every day with a daily table has an hourly table, when those are made `months` months ahead. */
  ghost predicate HourlyKeepsUp(days: nat, months: nat) {
    forall now, t :: FIRST <= now <= t <= AddUtcDays(now, days)
      ==> PeriodStart(MonthPeriod, t) <= AddUtcMonths(now, months)
  }

  lemma WithinSpan(days: nat, months: nat, now: int, t: int)
    requires 1 <= months <= 12 && days <= LeastSpan(months)
    requires FIRST <= now <= t <= AddUtcDays(now, days)
    ensures PeriodStart(MonthPeriod, t) <= AddUtcMonths(now, months)
  {
    var a, b := MonthAt(now), MonthAt(t);
    var next, last, end := a + 1, a + months, a + 1 + months;
    BeforeNextFirst(now, next);
    SpanAtLeast(next, end, months);
    StartOfMonth(t, b);
    AheadOfMonth(now, months, last);
    if b <= last {
      MonthStartsAscend(b, last);
    } else {
      MonthStartsAscend(end, b);
    }
  }

  lemma FebruarySpan(y: int, months: nat)
    requires !Leap(y) && 1 <= months <= 12
    ensures MakeDay(y, months + 1, 1) == MakeDay(y, 0, 31) + 1 + LeastSpan(months)
  {
    YearLength(y);
  }

  lemma LastOfJanuary(y: int)
    requires y >= 100
    ensures var now := DateUtc(y, 0, 31); FIRST <= now == MakeDay(y, 0, 31) * DAY && MonthAt(now) == 12 * y
  {
    InstantOf(Civil(y, 0, 31));
  }

  lemma SpanFromLast(y: int, months: nat, end: int)
    requires !Leap(y) && y >= 100 && 1 <= months <= 12 && end == 12 * y + (months + 1)
    ensures MonthStart(end) == DateUtc(y, 0, 31) + (1 + LeastSpan(months)) * DAY
  {
    LastOfJanuary(y);
    FebruarySpan(y, months);
    MonthsCarry(y, months + 1, end);
  }

  /** From the last of January past the months that follow it. */
  lemma PastSpan(days: nat, months: nat, y: int) returns (now: int, t: int)
    requires 1 <= months <= 12 && days > LeastSpan(months) && y >= 100 && !Leap(y)
    ensures FIRST <= now <= t <= AddUtcDays(now, days) && AddUtcMonths(now, months) < PeriodStart(MonthPeriod, t)
  {
    var last, end := 12 * y + months, 12 * y + (months + 1);
    now, t := DateUtc(y, 0, 31), MonthStart(end);
    LastOfJanuary(y);
    AheadOfMonth(now, months, last);
    SpanFromLast(y, months, end);
    MonthOfStart(end, if months + 1 < 12 then y else y + 1);
    StartOfMonth(t, end);
    MonthStartsAscend(last, end);
  }

  /**
   * With hourly tables `months` ahead, every day with a daily table has an hourly one exactly when the daily tables
   * run no further ahead than the fewest days those months can have.
   */
  lemma HourlyKeepsUpIff(days: nat, months: nat)
    requires 1 <= months <= 12
    ensures HourlyKeepsUp(days, months) <==> days <= LeastSpan(months)
  {
    if days <= LeastSpan(months) {
      forall now, t | FIRST <= now <= t <= AddUtcDays(now, days)
        ensures PeriodStart(MonthPeriod, t) <= AddUtcMonths(now, months)
      {
        WithinSpan(days, months, now, t);
      }
    } else {
      var now, t := PastSpan(days, months, 2023);
    }
  }

  /** Over the configured ranges only one month ahead can be too few, and then from 29 days on. */
  lemma ConfiguredHorizons(days: nat, months: nat)
    requires 1 <= days <= 30 && 1 <= months <= 12
    ensures HourlyKeepsUp(days, months) <==> months >= 2 || days <= 28
  {
    HourlyKeepsUpIff(days, months);
  }
}
