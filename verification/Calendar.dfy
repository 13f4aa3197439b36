/** The UTC calendar of section 21.4.1 of ECMA-262, in milliseconds since 1970. */
module Calendar {
  import opened Arithmetic

  const MINUTE := 60_000
  const HOUR := 3_600_000
  const DAY := 86_400_000

  /** Months count from zero, days from one, as `getUTCMonth` and `getUTCDate` do. */
  datatype Civil = Civil(year: int, month: int, day: int)

  predicate Leap(y: int) {
    y % 4 == 0 && (y % 100 != 0 || y % 400 == 0)
  }

  function DaysInYear(y: int): int { if Leap(y) then 366 else 365 }

  /** The day number of 1 January of year `y`, counted year by year from 1970. */
  function DayFromYear(y: int): int
    decreases if y < 1970 then 1970 - y else y - 1970
  {
    if y == 1970 then 0
    else if y > 1970 then DayFromYear(y - 1) + DaysInYear(y - 1)
    else DayFromYear(y + 1) - DaysInYear(y)
  }

  function ClosedForm(y: int): int {
    365 * (y - 1970) + (y - 1969) / 4 - (y - 1901) / 100 + (y - 1601) / 400
  }

  /** The standard's closed form counts the same days. */
  lemma DayFromYearClosedForm(y: int)
    ensures DayFromYear(y) == 365 * (y - 1970) + (y - 1969) / 4 - (y - 1901) / 100 + (y - 1601) / 400
  {
    CountsAlike(y);
  }

  lemma {:induction false} CountsAlike(y: int)
    ensures DayFromYear(y) == ClosedForm(y)
    decreases if y < 1970 then 1970 - y else y - 1970
  {
    if y > 1970 {
      CountsAlike(y - 1);
      ClosedFormAdds(y - 1);
      YearLength(y - 1);
    } else if y < 1970 {
      CountsAlike(y + 1);
      ClosedFormAdds(y);
      YearLength(y);
    }
  }

  lemma ClosedFormAdds(y: int)
    ensures ClosedForm(y + 1) == ClosedForm(y) + DaysInYear(y)
  {
    ClosedFormStep(y);
  }

  lemma ClosedFormStep(y: int)
    ensures (y - 1968) / 4 == (y - 1969) / 4 + (if y % 4 == 0 then 1 else 0)
    ensures (y - 1900) / 100 == (y - 1901) / 100 + (if y % 100 == 0 then 1 else 0)
    ensures (y - 1600) / 400 == (y - 1601) / 400 + (if y % 400 == 0 then 1 else 0)
    ensures y % 400 == 0 ==> y % 100 == 0
    ensures y % 100 == 0 ==> y % 4 == 0
  {
    ByFour(y);
    ByHundred(y);
    ByFourHundred(y);
    CenturiesDivide(y);
  }

  lemma ByFour(y: int)
    ensures (y - 1968) / 4 == (y - 1969) / 4 + (if y % 4 == 0 then 1 else 0)
  {
    QuotientIs(y - 1968, 4, y / 4 - 492);
    QuotientIs(y - 1969, 4, if y % 4 == 0 then y / 4 - 493 else y / 4 - 492);
  }

  lemma ByHundred(y: int)
    ensures (y - 1900) / 100 == (y - 1901) / 100 + (if y % 100 == 0 then 1 else 0)
  {
    QuotientIs(y - 1900, 100, y / 100 - 19);
    QuotientIs(y - 1901, 100, if y % 100 == 0 then y / 100 - 20 else y / 100 - 19);
  }

  lemma ByFourHundred(y: int)
    ensures (y - 1600) / 400 == (y - 1601) / 400 + (if y % 400 == 0 then 1 else 0)
  {
    QuotientIs(y - 1600, 400, y / 400 - 4);
    QuotientIs(y - 1601, 400, if y % 400 == 0 then y / 400 - 5 else y / 400 - 4);
  }

  lemma CenturiesDivide(y: int)
    ensures y % 100 == 0 ==> y % 4 == 0
    ensures y % 400 == 0 ==> y % 100 == 0
  {
    if y % 100 == 0 {
      QuotientIs(y, 4, 25 * (y / 100));
    }
    if y % 400 == 0 {
      QuotientIs(y, 100, 4 * (y / 400));
    }
  }

  lemma YearLength(y: int)
    ensures DayFromYear(y + 1) == DayFromYear(y) + DaysInYear(y)
  {
  }

  /** The year a day number falls in. */
  function YearOf(n: int): (y: int)
    ensures DayFromYear(y) <= n < DayFromYear(y + 1)
  {
    if DayFromYear(1970) <= n then YearUp(n, 1970) else YearDown(n, 1969)
  }

  function YearUp(n: int, y: int): (r: int)
    requires DayFromYear(y) <= n
    ensures DayFromYear(r) <= n < DayFromYear(r + 1)
    decreases n - DayFromYear(y)
  {
    YearLength(y);
    if n < DayFromYear(y + 1) then y else YearUp(n, y + 1)
  }

  function YearDown(n: int, y: int): (r: int)
    requires n < DayFromYear(y + 1)
    ensures DayFromYear(r) <= n < DayFromYear(r + 1)
    decreases DayFromYear(y + 1) - n
  {
    YearLength(y);
    if DayFromYear(y) <= n then y else YearDown(n, y - 1)
  }

  lemma {:induction false} YearsAscend(y: int, z: int)
    requires y < z
    ensures DayFromYear(y + 1) <= DayFromYear(z)
    decreases z - y
  {
    YearLength(y + 1);
    if y + 1 < z {
      YearsAscend(y + 1, z);
    }
  }

  /** Days of the year before month `m`; twelve stands for the whole year. */
  function DaysBefore(m: int, leap: bool): int
    requires 0 <= m <= 12
  {
    var common := [0, 31, 59, 90, 120, 151, 181, 212, 243, 273, 304, 334, 365][m];
    if leap && m > 1 then common + 1 else common
  }

  function MonthOf(dayInYear: int, leap: bool): (m: int)
    requires 0 <= dayInYear < (if leap then 366 else 365)
    ensures 0 <= m < 12 && DaysBefore(m, leap) <= dayInYear < DaysBefore(m + 1, leap)
  {
    if dayInYear < 31 then 0
    else if dayInYear < DaysBefore(2, leap) then 1
    else if dayInYear < DaysBefore(3, leap) then 2
    else if dayInYear < DaysBefore(4, leap) then 3
    else if dayInYear < DaysBefore(5, leap) then 4
    else if dayInYear < DaysBefore(6, leap) then 5
    else if dayInYear < DaysBefore(7, leap) then 6
    else if dayInYear < DaysBefore(8, leap) then 7
    else if dayInYear < DaysBefore(9, leap) then 8
    else if dayInYear < DaysBefore(10, leap) then 9
    else if dayInYear < DaysBefore(11, leap) then 10
    else 11
  }

  lemma MonthsAscend(m: int, k: int, leap: bool)
    requires 0 <= m < k <= 12
    ensures DaysBefore(m, leap) + 28 <= DaysBefore(m + 1, leap) <= DaysBefore(k, leap)
  {
  }

  predicate Valid(c: Civil) {
    && 0 <= c.month < 12
    && 1 <= c.day <= DaysBefore(c.month + 1, Leap(c.year)) - DaysBefore(c.month, Leap(c.year))
  }

  /** `MakeDay`: months and days past their range carry over. */
  function MakeDay(year: int, month: int, day: int): int {
    var y, m := year + month / 12, month % 12;
    DayFromYear(y) + DaysBefore(m, Leap(y)) + day - 1
  }

  function CivilOf(n: int): (c: Civil)
    ensures Valid(c) && MakeDay(c.year, c.month, c.day) == n
  {
    var y := YearOf(n);
    YearLength(y);
    var d := n - DayFromYear(y);
    var m := MonthOf(d, Leap(y));
    Civil(y, m, d - DaysBefore(m, Leap(y)) + 1)
  }

  ghost predicate Before(a: Civil, b: Civil) {
    || a.year < b.year
    || (a.year == b.year && (a.month < b.month || (a.month == b.month && a.day < b.day)))
  }

  /** Day numbers order valid dates as the calendar does. */
  lemma DatesAscend(a: Civil, b: Civil)
    requires Valid(a) && Valid(b)
    ensures MakeDay(a.year, a.month, a.day) < MakeDay(b.year, b.month, b.day) <==> Before(a, b)
  {
    if Before(a, b) {
      EarlierDay(a, b);
    } else if Before(b, a) {
      EarlierDay(b, a);
    }
  }

  /** A valid date's day number lies in its own year. */
  lemma DayInYear(c: Civil)
    requires Valid(c)
    ensures DayFromYear(c.year) <= MakeDay(c.year, c.month, c.day) < DayFromYear(c.year + 1)
  {
    YearLength(c.year);
    if c.month < 11 {
      MonthsAscend(c.month, 12, Leap(c.year));
    }
  }

  lemma DayOfDate(c: Civil)
    requires Valid(c)
    ensures MakeDay(c.year, c.month, c.day) == DayFromYear(c.year) + DaysBefore(c.month, Leap(c.year)) + c.day - 1
  {
  }

  lemma EarlierMonth(a: Civil, b: Civil)
    requires Valid(a) && Valid(b) && a.year == b.year && a.month < b.month
    ensures MakeDay(a.year, a.month, a.day) < MakeDay(b.year, b.month, b.day)
  {
    DayOfDate(a);
    DayOfDate(b);
    MonthsAscend(a.month, b.month, Leap(a.year));
  }

  lemma EarlierDay(a: Civil, b: Civil)
    requires Valid(a) && Valid(b) && Before(a, b)
    ensures MakeDay(a.year, a.month, a.day) < MakeDay(b.year, b.month, b.day)
  {
    if a.year < b.year {
      DayInYear(a);
      DayInYear(b);
      YearsAscend(a.year, b.year);
    } else if a.month < b.month {
      EarlierMonth(a, b);
    }
  }

  /** Decoding a valid date's day number gives the date back. */
  lemma CivilRoundTrip(c: Civil)
    requires Valid(c)
    ensures CivilOf(MakeDay(c.year, c.month, c.day)) == c
  {
    var d := CivilOf(MakeDay(c.year, c.month, c.day));
    DatesAscend(c, d);
    DatesAscend(d, c);
  }

  /** `Date.UTC`: a year from 0 to 99 means 1900 to 1999. */
  function DateUtc(year: int, month: int, day: int): int {
    MakeDay(if 0 <= year <= 99 then 1900 + year else year, month, day) * DAY
  }

  function CivilAt(t: int): Civil { CivilOf(t / DAY) }

  datatype PeriodKind = DayPeriod | MonthPeriod

  function PeriodStart(kind: PeriodKind, at: int): int {
    var c := CivilAt(at);
    DateUtc(c.year, c.month, if kind.DayPeriod? then c.day else 1)
  }

  function NextPeriodStart(kind: PeriodKind, start: int): int {
    var c := CivilAt(start);
    if kind.DayPeriod? then DateUtc(c.year, c.month, c.day + 1) else DateUtc(c.year, c.month + 1, 1)
  }

  /** The first instant `Date.UTC` does not shift: 1 January of the year 100. */
  const FIRST := -59_011_459_200_000

  /** A hundred, not by its numeral: the year count would be unfolded for that. */
  lemma HalfOf200() returns (y: int)
    ensures y + y == 200
  {
    y := 100;
  }

  lemma YearHundred(y: int)
    requires y + y == 200
    ensures DayFromYear(y) * DAY == FIRST
  {
    DayFromYearClosedForm(y);
    QuotientIs(y - 1969, 4, -468);
    QuotientIs(y - 1901, 100, -19);
    QuotientIs(y - 1601, 400, -4);
  }

  lemma NewYear(c: Civil)
    requires c.month == 0 && c.day == 1
    ensures Valid(c) && MakeDay(c.year, c.month, c.day) == DayFromYear(c.year)
  {
  }

  /** A date is no earlier than a new year's day exactly when its year is no earlier. */
  lemma SinceNewYear(c: Civil, h: Civil)
    requires Valid(c) && h.month == 0 && h.day == 1
    ensures MakeDay(c.year, c.month, c.day) >= DayFromYear(h.year) <==> c.year >= h.year
  {
    NewYear(h);
    DatesAscend(c, h);
  }

  lemma InDays(n: int, m: int)
    ensures n * DAY >= m * DAY <==> n >= m
  {
  }

  lemma FirstBounds(c: Civil)
    requires Valid(c)
    ensures MakeDay(c.year, c.month, c.day) * DAY >= FIRST <==> c.year >= 100
  {
    var y := HalfOf200();
    YearHundred(y);
    SinceNewYear(c, Civil(y, 0, 1));
    InDays(MakeDay(c.year, c.month, c.day), DayFromYear(y));
  }

  lemma YearFromFirst(t: int)
    ensures FIRST <= t <==> CivilAt(t).year >= 100
  {
    FirstBounds(CivilAt(t));
  }

  ghost predicate IsStart(kind: PeriodKind, t: int) {
    t % DAY == 0 && (kind.MonthPeriod? ==> CivilAt(t).day == 1)
  }

  /** The years `Date.UTC` takes for years of the 1900s. */
  predicate Shifted(year: int) { 0 <= year <= 99 }

  lemma UnshiftedDate(c: Civil)
    requires Valid(c) && !Shifted(c.year)
    ensures DateUtc(c.year, c.month, c.day) == MakeDay(c.year, c.month, c.day) * DAY
    ensures CivilAt(DateUtc(c.year, c.month, c.day)) == c
  {
    CivilRoundTrip(c);
  }

  /** The instant of a date `Date.UTC` does not shift. */
  lemma InstantOf(c: Civil)
    requires Valid(c) && c.year >= 100
    ensures DateUtc(c.year, c.month, c.day) == MakeDay(c.year, c.month, c.day) * DAY
    ensures CivilAt(DateUtc(c.year, c.month, c.day)) == c
    ensures FIRST <= DateUtc(c.year, c.month, c.day)
  {
    UnshiftedDate(c);
    FirstBounds(c);
  }

  /** The date a period starts on, given a date inside it. */
  function FirstDate(kind: PeriodKind, c: Civil): Civil {
    if kind.DayPeriod? then c else Civil(c.year, c.month, 1)
  }

  lemma MidnightOf(n: int)
    ensures CivilAt(n * DAY) == CivilOf(n)
  {
    QuotientIs(n * DAY, DAY, n);
  }

  lemma UnshiftedStart(kind: PeriodKind, t: int)
    requires !Shifted(CivilAt(t).year)
    ensures CivilAt(PeriodStart(kind, t)) == FirstDate(kind, CivilAt(t))
    ensures PeriodStart(kind, t) <= t && IsStart(kind, PeriodStart(kind, t))
  {
    var c := CivilAt(t);
    UnshiftedDate(FirstDate(kind, c));
    DatesAscend(c, FirstDate(kind, c));
  }

  lemma StartDate(kind: PeriodKind, t: int)
    requires FIRST <= t
    ensures CivilAt(PeriodStart(kind, t)) == FirstDate(kind, CivilAt(t))
    ensures FIRST <= PeriodStart(kind, t) <= t && IsStart(kind, PeriodStart(kind, t))
  {
    YearFromFirst(t);
    UnshiftedStart(kind, t);
    YearFromFirst(PeriodStart(kind, t));
  }

  function NextMonth(c: Civil): Civil {
    if c.month == 11 then Civil(c.year + 1, 0, 1) else Civil(c.year, c.month + 1, 1)
  }

  /** The month after December is January of the next year. */
  lemma MonthCarries(c: Civil)
    requires Valid(c)
    ensures var n := NextMonth(c); MakeDay(c.year, c.month + 1, 1) == MakeDay(n.year, n.month, n.day)
  {
  }

  lemma NextMonthValid(c: Civil)
    requires Valid(c)
    ensures Valid(NextMonth(c))
  {
    MonthsAscend(NextMonth(c).month, 12, Leap(NextMonth(c).year));
  }

  /** A month is as long as its number of days says. */
  lemma MonthLength(c: Civil)
    requires Valid(c)
    ensures var n := NextMonth(c);
            && Valid(n)
            && MakeDay(c.year, c.month, 1) + 28 <= MakeDay(n.year, n.month, n.day) <= MakeDay(c.year, c.month, 1) + 31
  {
    var n := NextMonth(c);
    NextMonthValid(c);
    YearLength(c.year);
    DayOfDate(Civil(c.year, c.month, 1));
    DayOfDate(n);
    MonthSpan(c.month, Leap(c.year));
  }

  lemma MonthSpan(m: int, leap: bool)
    requires 0 <= m < 12
    ensures 28 <= DaysBefore(m + 1, leap) - DaysBefore(m, leap) <= 31
  {
  }

  lemma NextMonthStart(s: int)
    requires !Shifted(CivilAt(s).year) && IsStart(MonthPeriod, s)
    ensures var n := NextPeriodStart(MonthPeriod, s);
            IsStart(MonthPeriod, n) && s + DAY <= n <= s + 31 * DAY && CivilAt(n) == NextMonth(CivilAt(s))
  {
    var c := CivilAt(s);
    MonthLength(c);
    MonthCarries(c);
    CivilRoundTrip(NextMonth(c));
    MidnightOf(MakeDay(c.year, c.month + 1, 1));
  }

  lemma NextDayStart(s: int)
    requires !Shifted(CivilAt(s).year) && IsStart(DayPeriod, s)
    ensures NextPeriodStart(DayPeriod, s) == s + DAY
  {
    NextDayCounts(CivilAt(s));
  }

  lemma NextDate(kind: PeriodKind, s: int)
    requires FIRST <= s && IsStart(kind, s)
    ensures var n := NextPeriodStart(kind, s);
            && IsStart(kind, n) && s + DAY <= n <= s + 31 * DAY
            && (kind.DayPeriod? ==> n == s + DAY)
            && (kind.MonthPeriod? ==> CivilAt(n) == NextMonth(CivilAt(s)))
  {
    YearFromFirst(s);
    if kind.MonthPeriod? {
      NextMonthStart(s);
    } else {
      NextDayStart(s);
    }
  }

  /** No instant before the next start begins a period of its own. */
  lemma SamePeriod(kind: PeriodKind, s: int, t: int)
    requires !Shifted(CivilAt(s).year) && IsStart(kind, s) && s <= t < NextPeriodStart(kind, s)
    ensures PeriodStart(kind, t) == s && CivilAt(t).year == CivilAt(s).year
  {
    UnshiftedDate(CivilAt(s));
    if kind.DayPeriod? {
      NextDayStart(s);
      assert t / DAY == s / DAY;
    } else {
      NextMonthStart(s);
      InsideMonth(CivilAt(s), CivilAt(t));
    }
  }

  /** A date from the first of a month to before the first of the next is of that month. */
  lemma InsideMonth(c: Civil, d: Civil)
    requires Valid(c) && Valid(d) && c.day == 1
    requires MakeDay(c.year, c.month, c.day) <= MakeDay(d.year, d.month, d.day)
    requires MakeDay(d.year, d.month, d.day) < MakeDay(NextMonth(c).year, NextMonth(c).month, NextMonth(c).day)
    ensures d.year == c.year && d.month == c.month
  {
    NextMonthValid(c);
    DatesAscend(d, c);
    DatesAscend(d, NextMonth(c));
  }

  lemma NextDayCounts(c: Civil)
    ensures MakeDay(c.year, c.month, c.day + 1) == MakeDay(c.year, c.month, c.day) + 1
  {
  }

  lemma AfterItsDay(t: int, n: int)
    requires t / DAY < n
    ensures t < n * DAY
  {
    FloorBounds(t, DAY);
  }

  lemma UnshiftedEnd(kind: PeriodKind, t: int, s: int)
    requires !Shifted(CivilAt(t).year) && CivilAt(s) == FirstDate(kind, CivilAt(t))
    ensures t < NextPeriodStart(kind, s)
  {
    var c := CivilAt(t);
    if kind.MonthPeriod? {
      MonthCarries(c);
      NextMonthValid(c);
      EarlierDay(c, NextMonth(c));
      AfterItsDay(t, MakeDay(c.year, c.month + 1, 1));
    } else {
      NextDayCounts(c);
      AfterItsDay(t, MakeDay(c.year, c.month, c.day + 1));
    }
  }

  lemma BeforeNextStart(kind: PeriodKind, t: int)
    requires FIRST <= t
    ensures t < NextPeriodStart(kind, PeriodStart(kind, t))
  {
    YearFromFirst(t);
    UnshiftedStart(kind, t);
    UnshiftedEnd(kind, t, PeriodStart(kind, t));
  }

  /**
   * The period computed for an instant is the one period that contains it and starts outside the years `Date.UTC`
   * shifts; no such period contains an instant of those years.
   */
  lemma PeriodContains(kind: PeriodKind, t: int, s: int)
    ensures IsStart(kind, s) && !Shifted(CivilAt(s).year) && s <= t < NextPeriodStart(kind, s)
       <==> s == PeriodStart(kind, t) && !Shifted(CivilAt(t).year)
  {
    if !Shifted(CivilAt(t).year) {
      UnshiftedStart(kind, t);
      UnshiftedEnd(kind, t, PeriodStart(kind, t));
    }
    if IsStart(kind, s) && !Shifted(CivilAt(s).year) && s <= t < NextPeriodStart(kind, s) {
      SamePeriod(kind, s, t);
    }
  }

  /** The same for instants from `FIRST` on. */
  lemma ContainsSinceFirst(kind: PeriodKind, t: int, s: int)
    requires FIRST <= t
    ensures IsStart(kind, s) && FIRST <= s <= t < NextPeriodStart(kind, s) <==> s == PeriodStart(kind, t)
  {
    YearFromFirst(t);
    YearFromFirst(s);
    PeriodContains(kind, t, s);
    StartDate(kind, t);
  }

  // ---- The years 0 to 99 ----

  lemma InItsYear(y: int, m: int, d: int)
    requires 0 <= m < 12 && d >= 1
    ensures DayFromYear(y) <= MakeDay(y, m, d)
  {
  }

  /** A shifted date comes after its instant's year. */
  lemma ShiftedDay(c: Civil, d: int)
    requires Valid(c) && d >= 1
    ensures MakeDay(c.year, c.month, c.day) < MakeDay(1900 + c.year, c.month, d)
  {
    DayInYear(c);
    YearsAscend(c.year, 1900 + c.year);
    InItsYear(1900 + c.year, c.month, d);
  }

  lemma ShiftedStart(kind: PeriodKind, t: int)
    requires Shifted(CivilAt(t).year)
    ensures t < PeriodStart(kind, t)
  {
    var c := CivilAt(t);
    var d := if kind.DayPeriod? then c.day else 1;
    ShiftedDay(c, d);
    AfterItsDay(t, MakeDay(1900 + c.year, c.month, d));
  }

  /** An instant lies in the period computed for it exactly when its year is not one that `Date.UTC` shifts. */
  lemma PeriodHoldsIff(kind: PeriodKind, t: int)
    ensures PeriodStart(kind, t) <= t < NextPeriodStart(kind, PeriodStart(kind, t)) <==> !Shifted(CivilAt(t).year)
  {
    if Shifted(CivilAt(t).year) {
      ShiftedStart(kind, t);
    } else {
      UnshiftedStart(kind, t);
      UnshiftedEnd(kind, t, PeriodStart(kind, t));
    }
  }

  lemma LaterMonth(y: int, m: int)
    requires 1 <= m <= 12
    ensures DayFromYear(y) < MakeDay(y, m, 1)
  {
    if m == 12 {
      YearLength(y);
    }
  }

  /** Whatever it comes after, the next start is a period start. */
  lemma NextIsStart(kind: PeriodKind, s: int)
    ensures IsStart(kind, NextPeriodStart(kind, s))
  {
    if kind.MonthPeriod? {
      var c := CivilAt(s);
      var first := Civil(if Shifted(c.year) then 1900 + c.year else c.year, c.month, 1);
      MonthHasFirst(first.year, first.month);
      MonthCarries(first);
      NextMonthValid(first);
      CivilRoundTrip(NextMonth(first));
      MidnightOf(MakeDay(first.year, first.month + 1, 1));
    }
  }

  lemma MonthHasFirst(y: int, m: int)
    requires 0 <= m < 12
    ensures Valid(Civil(y, m, 1))
  {
    MonthSpan(m, Leap(y));
  }

  /** The new year's day after an instant. */
  function NewYearAfter(t: int): int { DayFromYear(CivilAt(t).year + 1) * DAY }

  lemma NewYearIsStart(kind: PeriodKind, t: int)
    ensures t < NewYearAfter(t) && IsStart(kind, NewYearAfter(t))
  {
    var c, first := CivilAt(t), Civil(CivilAt(t).year + 1, 0, 1);
    DayInYear(c);
    AfterItsDay(t, DayFromYear(c.year + 1));
    NewYear(first);
    CivilRoundTrip(first);
    MidnightOf(DayFromYear(c.year + 1));
  }

  /** From a start in those years the next one comes only after a new year's day has gone by. */
  lemma ShiftedSkips(kind: PeriodKind, s: int)
    requires Shifted(CivilAt(s).year)
    ensures NewYearAfter(s) < NextPeriodStart(kind, s)
  {
    var c := CivilAt(s);
    var late := 1900 + c.year;
    YearsAscend(c.year, late);
    if kind.DayPeriod? {
      InItsYear(late, c.month, c.day);
      NextDayCounts(Civil(late, c.month, c.day));
    } else {
      LaterMonth(late, c.month + 1);
    }
  }

  /** Days nest in months. */
  lemma DaysNestInMonths(t: int)
    requires FIRST <= t
    ensures var d, m := PeriodStart(DayPeriod, t), PeriodStart(MonthPeriod, t);
            m <= d <= t < d + DAY == NextPeriodStart(DayPeriod, d) <= NextPeriodStart(MonthPeriod, m)
  {
    var d, m := PeriodStart(DayPeriod, t), PeriodStart(MonthPeriod, t);
    ContainsSinceFirst(DayPeriod, t, d);
    ContainsSinceFirst(MonthPeriod, t, m);
    NextDate(DayPeriod, d);
    NextDate(MonthPeriod, m);
    StartDate(MonthPeriod, t);
  }
}
