/** Partition names and ranges: the periods that cover a range, and reading a period back from its name. */
module PartitionPeriods {
  import opened Wrappers
  import opened Calendar
  import opened Decimals

  // ---- Names ----

  function NameWidth(kind: PeriodKind): nat { if kind.DayPeriod? then 8 else 6 }

  function PeriodSuffix(kind: PeriodKind, start: int): string {
    var c := CivilAt(start);
    var ym := Pad(c.year, 4) + Pad(c.month + 1, 2);
    if kind.DayPeriod? then ym + Pad(c.day, 2) else ym
  }

  /** The date a run of six or eight digits spells. */
  function Spelled(kind: PeriodKind, s: string): Civil
    requires |s| == NameWidth(kind) && AllDigits(s)
  {
    Civil(Number(s[..4]), Number(s[4..6]) - 1, if kind.DayPeriod? then Number(s[6..8]) else 1)
  }

  function PeriodFromSuffix(kind: PeriodKind, s: string): Option<int> {
    if |s| != NameWidth(kind) || !AllDigits(s) then None
    else
      var c := Spelled(kind, s);
      var start := DateUtc(c.year, c.month, c.day);
      if CivilAt(start) == c then Some(start) else None
  }

  lemma FieldWidths()
    ensures Pow10(4) == 10_000 && Pow10(2) == 100
  {
    assert Pow10(1) == 10;
    assert Pow10(3) == 10 * Pow10(2);
  }

  /** The years a name can carry. */
  predicate Nameable(start: int) { 100 <= CivilAt(start).year <= 9999 }

  /** The fields of a name, whatever the year's text is. */
  lemma FieldsSpell(kind: PeriodKind, y: string, m: string, d: string, s: string)
    requires DigitRun(m, 2) && DigitRun(d, 2) && s == y + m + (if kind.DayPeriod? then d else "")
    ensures DigitRun(s, NameWidth(kind)) <==> DigitRun(y, 4)
    ensures DigitRun(y, 4) ==>
              Spelled(kind, s) == Civil(Number(y), Number(m) - 1, if kind.DayPeriod? then Number(d) else 1)
  {
    if |y| == 4 {
      assert s[..4] == y && s[4..6] == m && (kind.DayPeriod? ==> s[6..8] == d);
      assert forall i :: 0 <= i < 4 ==> s[i] == y[i];
    }
  }

  /** A name of four-digit year is eight or six digits that spell its start. */
  lemma SuffixSpells(kind: PeriodKind, start: int)
    requires IsStart(kind, start)
    ensures var s := PeriodSuffix(kind, start);
            if 0 <= CivilAt(start).year <= 9999
            then DigitRun(s, NameWidth(kind)) && Spelled(kind, s) == CivilAt(start)
            else !DigitRun(s, NameWidth(kind))
  {
    var c := CivilAt(start);
    MonthAndDayRead(c);
    FieldWidths();
    PadReads(c.year, 4);
    FieldsSpell(kind, Pad(c.year, 4), Pad(c.month + 1, 2), Pad(c.day, 2), PeriodSuffix(kind, start));
  }

  lemma ShortMonth(c: Civil)
    requires Valid(c)
    ensures c.day <= 31
  {
    MonthLength(c);
    MonthCarries(c);
  }

  lemma MonthAndDayRead(c: Civil)
    requires Valid(c)
    ensures DigitRun(Pad(c.month + 1, 2), 2) && Number(Pad(c.month + 1, 2)) == c.month + 1
    ensures DigitRun(Pad(c.day, 2), 2) && Number(Pad(c.day, 2)) == c.day
  {
    FieldWidths();
    ShortMonth(c);
    PadReads(c.month + 1, 2);
    PadReads(c.day, 2);
  }

  lemma StartIsItsDate(kind: PeriodKind, start: int)
    requires IsStart(kind, start) && CivilAt(start).year >= 100
    ensures var c := CivilAt(start); DateUtc(c.year, c.month, c.day) == start
  {
    InstantOf(CivilAt(start));
  }

  lemma ReadsAs(kind: PeriodKind, s: string, start: int)
    requires |s| == NameWidth(kind) && AllDigits(s) && IsStart(kind, start) && Spelled(kind, s) == CivilAt(start)
    ensures PeriodFromSuffix(kind, s) == if CivilAt(start).year >= 100 then Some(start) else None
  {
    var c := CivilAt(start);
    if c.year >= 100 {
      StartIsItsDate(kind, start);
    } else {
      ShiftedYear(c);
    }
  }

  /**
   * Reading a name back gives the start it was made from exactly for the years 100 to 9999; outside them nothing
   * is read back.
   */
  lemma SuffixRoundTrip(kind: PeriodKind, start: int)
    requires IsStart(kind, start)
    ensures PeriodFromSuffix(kind, PeriodSuffix(kind, start)) == if Nameable(start) then Some(start) else None
  {
    SuffixSpells(kind, start);
    if 0 <= CivilAt(start).year <= 9999 {
      ReadsAs(kind, PeriodSuffix(kind, start), start);
    }
  }

  lemma MonthOrdinal(y: int, month: int, day: int)
    requires 0 <= month <= 12 && 1 <= day
    ensures DayFromYear(y) <= MakeDay(y, month, day)
  {
    if month == 12 {
      assert 12 / 12 == 1 && 12 % 12 == 0;
      YearLength(y);
    }
  }

  /** A year below 100 comes back nineteen centuries later. */
  lemma ShiftedYear(c: Civil)
    requires 0 <= c.year < 100 && Valid(c)
    ensures CivilAt(DateUtc(c.year, c.month, c.day)).year != c.year
  {
    var late := 1900 + c.year;
    YearsAscend(c.year, late);
    InItsYear(late, c.month, c.day);
    PastYear(MakeDay(late, c.month, c.day), c.year);
  }

  lemma PastYear(n: int, y: int)
    requires DayFromYear(y + 1) <= n
    ensures CivilAt(n * DAY).year != y
  {
    MidnightOf(n);
    ItsYearEnds(CivilOf(n), n);
  }

  lemma ItsYearEnds(c: Civil, n: int)
    requires Valid(c) && n == MakeDay(c.year, c.month, c.day)
    ensures n < DayFromYear(c.year + 1)
  {
    DayInYear(c);
  }

  lemma SpelledName(kind: PeriodKind, s: string)
    requires |s| == NameWidth(kind) && AllDigits(s)
    ensures var c := Spelled(kind, s);
            && 0 <= c.year <= 9999
            && s == Pad(c.year, 4) + Pad(c.month + 1, 2) + (if kind.DayPeriod? then Pad(c.day, 2) else "")
  {
    FieldWidths();
    CutName(s);
    PadOfNumber(s[..4]);
    PadOfNumber(s[4..6]);
    if kind.DayPeriod? {
      assert s[6..] == s[6..8];
      PadOfNumber(s[6..8]);
    } else {
      assert s[6..] == "";
    }
  }

  lemma CutName(s: string)
    requires |s| >= 6
    ensures s[..4] + s[4..6] + s[6..] == s
  {
    assert s[..4] + s[4..6] == s[..6];
  }

  /** A name that reads as a period is that period's own name: no two names read as one period. */
  lemma NameIsUnique(kind: PeriodKind, s: string)
    ensures match PeriodFromSuffix(kind, s)
            case Some(start) => IsStart(kind, start) && Nameable(start) && PeriodSuffix(kind, start) == s
            case None => forall start :: IsStart(kind, start) && Nameable(start) ==> PeriodSuffix(kind, start) != s
  {
    if PeriodFromSuffix(kind, s).Some? {
      var c := Spelled(kind, s);
      SpelledName(kind, s);
      if c.year < 100 {
        ShiftedRead(c);
      }
    } else {
      forall start | IsStart(kind, start) && Nameable(start)
        ensures PeriodSuffix(kind, start) != s
      {
        SuffixRoundTrip(kind, start);
      }
    }
  }

  lemma ShiftedRead(c: Civil)
    requires 0 <= c.year < 100
    ensures CivilAt(DateUtc(c.year, c.month, c.day)) != c
  {
    if CivilAt(DateUtc(c.year, c.month, c.day)) == c {
      ShiftedYear(c);
    }
  }

  /** The number a name's digits spell. */
  function DateNumber(kind: PeriodKind, c: Civil): int {
    if kind.DayPeriod? then 10_000 * c.year + 100 * (c.month + 1) + c.day else 100 * c.year + c.month + 1
  }

  lemma FieldsNumber(y: string, m: string, d: string)
    requires AllDigits(y) && DigitRun(m, 2) && DigitRun(d, 2)
    ensures AllDigits(y + m + d)
    ensures Number(y + m) == 100 * Number(y) + Number(m)
    ensures Number(y + m + d) == 10_000 * Number(y) + 100 * Number(m) + Number(d)
  {
    FieldWidths();
    NumberSplit(y, m);
    NumberSplit(y + m, d);
  }

  lemma SuffixNumber(kind: PeriodKind, start: int)
    requires IsStart(kind, start) && Nameable(start)
    ensures var s := PeriodSuffix(kind, start);
            DigitRun(s, NameWidth(kind)) && Number(s) == DateNumber(kind, CivilAt(start))
  {
    var c := CivilAt(start);
    MonthAndDayRead(c);
    FieldWidths();
    PadReads(c.year, 4);
    FieldsNumber(Pad(c.year, 4), Pad(c.month + 1, 2), Pad(c.day, 2));
  }

  lemma DateNumberOrder(kind: PeriodKind, c: Civil, d: Civil)
    requires Valid(c) && Valid(d) && (kind.MonthPeriod? ==> c.day == d.day == 1)
    ensures DateNumber(kind, c) < DateNumber(kind, d) <==> Before(c, d)
  {
    MonthsAscend(c.month, 12, Leap(c.year));
    MonthsAscend(d.month, 12, Leap(d.year));
    ShortMonth(c);
    ShortMonth(d);
  }

  lemma StartOrder(a: int, b: int)
    requires a % DAY == 0 && b % DAY == 0
    ensures a < b <==> Before(CivilAt(a), CivilAt(b))
  {
    DatesAscend(CivilAt(a), CivilAt(b));
  }

  /** The text order of names is the time order of the periods they name. */
  lemma TextOrderIsTimeOrder(kind: PeriodKind, a: int, b: int)
    requires IsStart(kind, a) && IsStart(kind, b) && Nameable(a) && Nameable(b)
    ensures TextLess(PeriodSuffix(kind, a), PeriodSuffix(kind, b)) <==> a < b
  {
    SuffixNumber(kind, a);
    SuffixNumber(kind, b);
    TextOrderIsNumberOrder(PeriodSuffix(kind, a), PeriodSuffix(kind, b));
    DateNumberOrder(kind, CivilAt(a), CivilAt(b));
    StartOrder(a, b);
  }

  /** `s` is the `min()` of a set of names. */
  ghost predicate IsLeastName(s: string, names: set<string>) {
    s in names && forall n :: n in names ==> !TextLess(n, s)
  }

  ghost predicate IsGreatestName(s: string, names: set<string>) {
    s in names && forall n :: n in names ==> !TextLess(s, n)
  }

  /** `max()` of a column of digit runs: absent for no rows. */
  method MaxText(names: set<string>, width: nat) returns (greatest: Option<string>)
    requires forall n :: n in names ==> DigitRun(n, width)
    ensures match greatest
            case None => names == {}
            case Some(s) => IsGreatestName(s, names)
  {
    greatest := None;
    var todo := names;
    while todo != {}
      invariant todo <= names
      invariant greatest.None? ==> todo == names
      invariant greatest.Some? ==> IsGreatestName(greatest.value, names - todo)
    {
      var s :| s in todo;
      assert forall a, b :: a in names && b in names ==> (TextLess(a, b) <==> Number(a) < Number(b)) by {
        forall a, b | a in names && b in names
          ensures TextLess(a, b) <==> Number(a) < Number(b)
        {
          TextOrderIsNumberOrder(a, b);
        }
      }
      if greatest.None? || TextLess(greatest.value, s) {
        greatest := Some(s);
      }
      todo := todo - {s};
    }
  }

  function Names(kind: PeriodKind, starts: set<int>): set<string> {
    set s | s in starts :: PeriodSuffix(kind, s)
  }

  /** What the readers of least and greatest names compute, with no check that the fields were in range. */
  function Decoded(kind: PeriodKind, s: string, after: int): int
    requires |s| == NameWidth(kind) && AllDigits(s)
  {
    var c := Spelled(kind, s);
    DateUtc(c.year, c.month, c.day + after)
  }

  lemma DecodedStart(kind: PeriodKind, start: int)
    requires IsStart(kind, start) && Nameable(start)
    ensures var s := PeriodSuffix(kind, start);
            && |s| == NameWidth(kind) && AllDigits(s) && Decoded(kind, s, 0) == start
            && (kind.DayPeriod? ==> Decoded(kind, s, 1) == NextPeriodStart(kind, start))
  {
    SuffixSpells(kind, start);
    InstantOf(CivilAt(start));
  }

  /** The least name decodes to the oldest start. */
  lemma LeastNameIsOldest(kind: PeriodKind, starts: set<int>, least: string)
    requires forall s :: s in starts ==> IsStart(kind, s) && Nameable(s)
    requires IsLeastName(least, Names(kind, starts))
    ensures |least| == NameWidth(kind) && AllDigits(least)
    ensures Decoded(kind, least, 0) in starts && forall s :: s in starts ==> Decoded(kind, least, 0) <= s
  {
    var o :| o in starts && PeriodSuffix(kind, o) == least;
    DecodedStart(kind, o);
    forall s | s in starts
      ensures o <= s
    {
      assert PeriodSuffix(kind, s) in Names(kind, starts);
      TextOrderIsTimeOrder(kind, s, o);
    }
  }

  /** The greatest day name, decoded one day on, is where the newest daily partition ends. */
  lemma GreatestNameIsHorizon(starts: set<int>, greatest: string)
    requires forall s :: s in starts ==> IsStart(DayPeriod, s) && Nameable(s)
    requires IsGreatestName(greatest, Names(DayPeriod, starts))
    ensures |greatest| == NameWidth(DayPeriod) && AllDigits(greatest)
    ensures exists o :: o in starts && Decoded(DayPeriod, greatest, 1) == NextPeriodStart(DayPeriod, o)
                        && forall s :: s in starts ==> s <= o
  {
    var o :| o in starts && PeriodSuffix(DayPeriod, o) == greatest;
    DecodedStart(DayPeriod, o);
    forall s | s in starts
      ensures s <= o
    {
      assert PeriodSuffix(DayPeriod, s) in Names(DayPeriod, starts);
      TextOrderIsTimeOrder(DayPeriod, o, s);
    }
  }

  // ---- Covering a range ----

  datatype Period = Period(suffix: string, from: int, to: int)

  lemma NextDayIsLater(s: int)
    ensures s < NextPeriodStart(DayPeriod, s)
  {
    var c := CivilAt(s);
    if 0 <= c.year <= 99 {
      ShiftedLater(c, c.month, c.day + 1);
    }
  }

  lemma NextMonthIsLater(s: int)
    ensures s < NextPeriodStart(MonthPeriod, s)
  {
    var c := CivilAt(s);
    if 0 <= c.year <= 99 {
      ShiftedLater(c, c.month + 1, 1);
    } else {
      NextMonthValid(c);
      MonthCarries(c);
      EarlierDay(c, NextMonth(c));
    }
  }

  lemma ShiftedLater(c: Civil, month: int, day: int)
    requires Valid(c) && 0 <= c.year <= 99 && 0 <= month <= 12 && 1 <= day
    ensures MakeDay(c.year, c.month, c.day) < MakeDay(1900 + c.year, month, day)
  {
    var first := Civil(1900 + c.year, 0, 1);
    EarlierDay(c, first);
    MonthOrdinal(first.year, month, day);
  }

  /** One period after another, each beginning where the last ended, none empty. */
  ghost predicate Contiguous(periods: seq<Period>, first: int, next: int) {
    && (forall i :: 0 <= i < |periods| ==> periods[i].from < periods[i].to)
    && (forall i :: 0 <= i < |periods| - 1 ==> periods[i].to == periods[i + 1].from)
    && (if periods == [] then next == first else periods[0].from == first && periods[|periods| - 1].to == next)
  }

  /** One step of the calendar, under its own name. */
  ghost predicate IsPeriod(kind: PeriodKind, p: Period) {
    p.to == NextPeriodStart(kind, p.from) && p.suffix == PeriodSuffix(kind, p.from)
  }

  ghost predicate ArePeriods(kind: PeriodKind, periods: seq<Period>) {
    forall i :: 0 <= i < |periods| ==> IsPeriod(kind, periods[i])
  }

  lemma NextIsLater(kind: PeriodKind, start: int)
    ensures start < NextPeriodStart(kind, start)
  {
    if kind.DayPeriod? {
      NextDayIsLater(start);
    } else {
      NextMonthIsLater(start);
    }
  }

  function NextPeriod(kind: PeriodKind, start: int): (p: Period)
    ensures p.from == start < p.to && IsPeriod(kind, p)
  {
    NextIsLater(kind, start);
    Period(PeriodSuffix(kind, start), start, NextPeriodStart(kind, start))
  }

  lemma ArePeriodsSnoc(kind: PeriodKind, periods: seq<Period>, p: Period)
    requires ArePeriods(kind, periods) && IsPeriod(kind, p)
    ensures ArePeriods(kind, periods + [p])
  {
  }

  lemma ContiguousSnoc(periods: seq<Period>, first: int, p: Period)
    requires Contiguous(periods, first, p.from) && p.from < p.to
    ensures Contiguous(periods + [p], first, p.to)
  {
  }

  /** A gap-free chain from the start of `from`'s period, running to just past `until`. */
  method PeriodsCovering(kind: PeriodKind, from: int, until: int) returns (out: seq<Period>)
    ensures ArePeriods(kind, out) && forall i :: 0 <= i < |out| ==> out[i].from <= until
    ensures exists next :: Contiguous(out, PeriodStart(kind, from), next) && until < next
  {
    out := [];
    var start := PeriodStart(kind, from);
    while start <= until
      invariant Contiguous(out, PeriodStart(kind, from), start)
      invariant ArePeriods(kind, out) && forall i :: 0 <= i < |out| ==> out[i].from <= until
      decreases until - start
    {
      var p := NextPeriod(kind, start);
      ContiguousSnoc(out, PeriodStart(kind, from), p);
      ArePeriodsSnoc(kind, out, p);
      out := out + [p];
      start := p.to;
    }
  }

  lemma {:induction false} ChainAscends(periods: seq<Period>, first: int, next: int, i: nat, j: nat)
    requires Contiguous(periods, first, next) && i < j < |periods|
    ensures periods[i].to <= periods[j].from
    decreases j - i
  {
    assert periods[j - 1].to == periods[j - 1 + 1].from;
    if i < j - 1 {
      ChainAscends(periods, first, next, i, j - 1);
    }
  }

  /** The period of a chain that holds an instant, sought from period `k` on. */
  lemma {:induction false} ChainHolds(periods: seq<Period>, first: int, next: int, t: int, k: nat) returns (i: nat)
    requires Contiguous(periods, first, next) && k < |periods| && periods[k].from <= t < next
    ensures i < |periods| && periods[i].from <= t < periods[i].to
    decreases |periods| - k
  {
    i := k;
    if periods[k].to <= t {
      assert periods[k].to == periods[k + 1].from;
      i := ChainHolds(periods, first, next, t, k + 1);
    }
  }

  lemma ChainBounds(periods: seq<Period>, first: int, next: int, i: nat)
    requires Contiguous(periods, first, next) && i < |periods|
    ensures first <= periods[i].from < periods[i].to <= next
  {
    if i > 0 {
      ChainAscends(periods, first, next, 0, i);
    }
    if i < |periods| - 1 {
      ChainAscends(periods, first, next, i, |periods| - 1);
    }
  }

  lemma ChainCovers(periods: seq<Period>, first: int, next: int, t: int)
    requires Contiguous(periods, first, next)
    ensures first <= next
    ensures first <= t < next <==> exists i :: 0 <= i < |periods| && periods[i].from <= t < periods[i].to
    ensures forall i, j :: 0 <= i < j < |periods| ==> periods[i].to <= periods[j].from
    ensures forall i :: 0 <= i < |periods| ==> first <= periods[i].from && periods[i].to <= next
  {
    forall i | 0 <= i < |periods|
      ensures first <= periods[i].from < periods[i].to <= next
    {
      ChainBounds(periods, first, next, i);
    }
    forall i, j | 0 <= i < j < |periods|
      ensures periods[i].to <= periods[j].from
    {
      ChainAscends(periods, first, next, i, j);
    }
    if first <= t < next {
      var i := ChainHolds(periods, first, next, t, 0);
    }
  }

  lemma {:induction false} ChainStartAt(kind: PeriodKind, periods: seq<Period>, first: int, next: int, i: nat)
    requires Contiguous(periods, first, next) && ArePeriods(kind, periods) && IsStart(kind, first) && i < |periods|
    ensures IsStart(kind, periods[i].from) && IsStart(kind, periods[i].to)
  {
    assert IsPeriod(kind, periods[i]);
    NextIsStart(kind, periods[i].from);
    if i > 0 {
      ChainStartAt(kind, periods, first, next, i - 1);
      assert periods[i - 1].to == periods[i - 1 + 1].from;
    }
  }

  lemma ChainStarts(kind: PeriodKind, periods: seq<Period>, first: int, next: int)
    requires Contiguous(periods, first, next) && ArePeriods(kind, periods) && IsStart(kind, first)
    ensures IsStart(kind, next)
    ensures forall i :: 0 <= i < |periods| ==> IsStart(kind, periods[i].from)
  {
    forall i | 0 <= i < |periods|
      ensures IsStart(kind, periods[i].from) && IsStart(kind, periods[i].to)
    {
      ChainStartAt(kind, periods, first, next, i);
    }
  }

  /** The instant is the start of one of these periods if and only if it is a period start from `first` up to `next`. */
  ghost predicate InCover(kind: PeriodKind, periods: seq<Period>, first: int, next: int, t: int) {
    first <= t < next && IsStart(kind, t) <==> exists i :: 0 <= i < |periods| && periods[i].from == t
  }

  /** The starts of these periods are all the period starts there are from `first` up to `next`. */
  ghost predicate HasEveryStart(kind: PeriodKind, periods: seq<Period>, first: int, next: int) {
    forall t :: InCover(kind, periods, first, next, t)
  }

  /** None of these periods starts in the years 0 to 99. */
  ghost predicate NoneShifted(periods: seq<Period>) {
    forall i :: 0 <= i < |periods| ==> !Shifted(CivilAt(periods[i].from).year)
  }

  /**
   * Every instant from the start of a cover's first period up to `next` lies in exactly one of its periods. Their
   * starts are all the period starts there are if and only if none is in the years 0 to 99: from one that is, the next
   * is nineteen centuries later.
   */
  lemma CoverIsExact(kind: PeriodKind, periods: seq<Period>, first: int, next: int, t: int)
    requires Contiguous(periods, first, next) && ArePeriods(kind, periods) && IsStart(kind, first)
    ensures first <= t < next <==> exists i :: 0 <= i < |periods| && periods[i].from <= t < periods[i].to
    ensures forall i, j :: 0 <= i < j < |periods| ==> periods[i].to <= periods[j].from
    ensures HasEveryStart(kind, periods, first, next) <==> NoneShifted(periods)
  {
    ChainCovers(periods, first, next, t);
    if NoneShifted(periods) {
      CoverHasStarts(kind, periods, first, next);
    } else {
      var i :| 0 <= i < |periods| && Shifted(CivilAt(periods[i].from).year);
      SkipsStart(kind, periods, first, next, i);
    }
  }

  lemma CoverHasStarts(kind: PeriodKind, periods: seq<Period>, first: int, next: int)
    requires Contiguous(periods, first, next) && ArePeriods(kind, periods) && IsStart(kind, first)
    requires NoneShifted(periods)
    ensures HasEveryStart(kind, periods, first, next)
  {
    forall x
      ensures InCover(kind, periods, first, next, x)
    {
      StartIsInCover(kind, periods, first, next, x);
    }
  }

  lemma StartIsInCover(kind: PeriodKind, periods: seq<Period>, first: int, next: int, t: int)
    requires Contiguous(periods, first, next) && ArePeriods(kind, periods) && IsStart(kind, first)
    requires NoneShifted(periods)
    ensures InCover(kind, periods, first, next, t)
  {
    ChainCovers(periods, first, next, t);
    ChainStarts(kind, periods, first, next);
    if first <= t < next && IsStart(kind, t) {
      var i :| 0 <= i < |periods| && periods[i].from <= t < periods[i].to;
      assert IsPeriod(kind, periods[i]);
      OneStart(kind, periods[i].from, t);
    }
  }

  lemma SkipsStart(kind: PeriodKind, periods: seq<Period>, first: int, next: int, i: nat)
    requires Contiguous(periods, first, next) && ArePeriods(kind, periods)
    requires i < |periods| && Shifted(CivilAt(periods[i].from).year)
    ensures !HasEveryStart(kind, periods, first, next)
  {
    var t := NewYearAfter(periods[i].from);
    NewYearIsStart(kind, periods[i].from);
    ShiftedSkips(kind, periods[i].from);
    assert IsPeriod(kind, periods[i]);
    ChainCovers(periods, first, next, t);
    InsideIsNoStart(periods, first, next, i, t);
    assert !InCover(kind, periods, first, next, t);
  }

  lemma InsideIsNoStart(periods: seq<Period>, first: int, next: int, i: nat, t: int)
    requires Contiguous(periods, first, next) && i < |periods| && periods[i].from < t < periods[i].to
    ensures !exists j :: 0 <= j < |periods| && periods[j].from == t
  {
    ChainCovers(periods, first, next, t);
  }

  lemma OneStart(kind: PeriodKind, s: int, t: int)
    requires !Shifted(CivilAt(s).year) && IsStart(kind, s) && IsStart(kind, t) && s <= t < NextPeriodStart(kind, s)
    ensures s == t
  {
    SamePeriod(kind, s, t);
    NextIsLater(kind, t);
    SamePeriod(kind, t, t);
  }
}
