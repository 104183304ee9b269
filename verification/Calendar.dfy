/** The UTC calendar as far as spend keys need it: days since 1 January 1970, years, months and the
    week date of section 4.1.4 of ISO 8601:2004. */
module Calendar {

  const MS_PER_DAY: int := 86_400_000

  /** The day a timestamp in milliseconds falls on. */
  function DayOf(ms: int): int { ms / MS_PER_DAY }

  predicate IsLeap(y: int) { y % 4 == 0 && (y % 100 != 0 || y % 400 == 0) }

  function LeapDaysBefore(y: int): int { (y - 1) / 4 - (y - 1) / 100 + (y - 1) / 400 }

  /** The day number of 1 January of year y. */
  function YearStart(y: int): int {
    365 * (y - 1970) + LeapDaysBefore(y) - LeapDaysBefore(1970)
  }

  lemma YearLength(y: int)
    ensures YearStart(y + 1) == YearStart(y) + if IsLeap(y) then 366 else 365
  {
    assert LeapDaysBefore(y + 1) == LeapDaysBefore(y) + if IsLeap(y) then 1 else 0 by {
      QuotientStep(y, 4);
      QuotientStep(y, 100);
      QuotientStep(y, 400);
      MultiplesNest(y);
    }
  }

  lemma MultiplesNest(y: int)
    ensures (y % 400 == 0 ==> y % 100 == 0) && (y % 100 == 0 ==> y % 4 == 0)
  {
    if y % 400 == 0 { MultipleOfProduct(y, 100, 4 * (y / 400)); }
    if y % 100 == 0 { MultipleOfProduct(y, 4, 25 * (y / 100)); }
  }

  lemma MultipleOfProduct(y: int, d: int, q: int)
    requires (d == 4 || d == 100) && y == d * q
    ensures y % d == 0
  {
    if d == 4 {} else {}
  }

  /** A quotient goes up exactly at the multiples. */
  lemma QuotientStep(y: int, d: int)
    requires d == 4 || d == 100 || d == 400
    ensures y / d == (y - 1) / d + if y % d == 0 then 1 else 0
  {
    if d == 4 {} else if d == 100 {} else {}
  }

  lemma {:induction false} YearsAscend(a: int, b: int)
    requires a <= b
    ensures YearStart(b) >= YearStart(a) + 365 * (b - a)
    decreases b - a
  {
    if a < b {
      YearLength(b - 1);
      YearsAscend(a, b - 1);
    }
  }

  function YearFrom(day: int, y: int): (r: int)
    requires day < YearStart(y + 1)
    ensures YearStart(r) <= day < YearStart(r + 1)
    decreases YearStart(y) - day
  {
    YearLength(y - 1);
    if YearStart(y) <= day then y else YearFrom(day, y - 1)
  }

  /** The year a day lies in. */
  function YearOf(day: int): (y: int)
    ensures YearStart(y) <= day < YearStart(y + 1)
  {
    var later := 1970 + (if day < 0 then 0 else day / 365 + 1);
    YearsAscend(1970, later + 1);
    YearFrom(day, later)
  }

  lemma YearUnique(day: int, y: int)
    requires YearStart(y) <= day < YearStart(y + 1)
    ensures YearOf(day) == y
  {
    var r := YearOf(day);
    if r < y { YearsAscend(r + 1, y); } else if y < r { YearsAscend(y + 1, r); }
  }

  /** Days of the year before month m (0 is January, 12 the next year). */
  function MonthStart(m: nat, leap: bool): nat
    requires m <= 12
  {
    (match m
     case 0 => 0 case 1 => 31 case 2 => 59 case 3 => 90 case 4 => 120 case 5 => 151 case 6 => 181
     case 7 => 212 case 8 => 243 case 9 => 273 case 10 => 304 case 11 => 334 case _ => 365)
    + if leap && m >= 2 then 1 else 0
  }

  function MonthFrom(dayOfYear: nat, leap: bool, m: nat): (r: nat)
    requires m <= 11 && dayOfYear < MonthStart(m + 1, leap)
    ensures r <= 11 && MonthStart(r, leap) <= dayOfYear < MonthStart(r + 1, leap)
  {
    if MonthStart(m, leap) <= dayOfYear then m else MonthFrom(dayOfYear, leap, m - 1)
  }

  datatype Civil = Civil(year: int, month: nat, dayOfMonth: nat)

  function MonthLength(m: nat, leap: bool): (n: nat)
    requires m <= 11
    ensures 28 <= n <= 31
  {
    MonthStart(m + 1, leap) - MonthStart(m, leap)
  }

  /** A date there is: months from 0, days from 1 to the month's length. */
  predicate IsDate(c: Civil) {
    c.month <= 11 && 1 <= c.dayOfMonth <= MonthLength(c.month, IsLeap(c.year))
  }

  function DayNumber(c: Civil): int
    requires c.month <= 11
  {
    YearStart(c.year) + MonthStart(c.month, IsLeap(c.year)) + c.dayOfMonth - 1
  }

  /** getUTCFullYear, getUTCMonth (from 0) and getUTCDate (from 1). */
  function CivilOf(day: int): (c: Civil)
    ensures IsDate(c) && DayNumber(c) == day
  {
    var y := YearOf(day);
    YearLength(y);
    var dayOfYear := day - YearStart(y);
    var m := MonthFrom(dayOfYear, IsLeap(y), 11);
    Civil(y, m, dayOfYear - MonthStart(m, IsLeap(y)) + 1)
  }

  lemma {:induction false} MonthsAscend(a: nat, b: nat, leap: bool)
    requires a <= b <= 12
    ensures MonthStart(a, leap) <= MonthStart(b, leap)
    decreases b
  {
    if a < b {
      var length := MonthLength(b - 1, leap);
      MonthsAscend(a, b - 1, leap);
    }
  }

  lemma DayOfMonthUnique(leap: bool, m: nat, d: nat, n: nat, e: nat)
    requires m <= 11 && n <= 11 && 1 <= d <= MonthLength(m, leap) && 1 <= e <= MonthLength(n, leap)
    requires MonthStart(m, leap) + d == MonthStart(n, leap) + e
    ensures m == n && d == e
  {
    if m < n { MonthsAscend(m + 1, n, leap); } else if n < m { MonthsAscend(n + 1, m, leap); }
  }

  /** Every date is the date of exactly one day. */
  lemma DateIsOfOneDay(c: Civil)
    requires IsDate(c)
    ensures CivilOf(DayNumber(c)) == c
  {
    var leap := IsLeap(c.year);
    var day, d := DayNumber(c), CivilOf(DayNumber(c));
    YearLength(c.year);
    MonthsAscend(0, c.month, leap);
    MonthsAscend(c.month + 1, 12, leap);
    YearUnique(day, c.year);
    YearLength(d.year);
    MonthsAscend(0, d.month, IsLeap(d.year));
    MonthsAscend(d.month + 1, 12, IsLeap(d.year));
    YearUnique(day, d.year);
    DayOfMonthUnique(leap, c.month, c.dayOfMonth, d.month, d.dayOfMonth);
  }

  /** getUTCDay: 0 is Sunday. 1 January 1970 was a Thursday. */
  function Weekday(day: int): nat { (day + 4) % 7 }

  /** Monday 1 to Sunday 7. */
  function IsoWeekday(day: int): nat { if Weekday(day) == 0 then 7 else Weekday(day) }

  function MondayOf(day: int): int { day - (IsoWeekday(day) - 1) }

  datatype WeekDate = WeekDate(year: int, week: int)

  /** Math.ceil(n / 7) */
  function CeilSevenths(n: int): int { (n + 6) / 7 }

  function ThursdayOf(day: int): int { day + 4 - IsoWeekday(day) }

  /** The week date of the standard: the year and the count of the week's Thursday. */
  function IsoWeekOf(day: int): WeekDate {
    var thursday := ThursdayOf(day);
    var year := YearOf(thursday);
    WeekDate(year, CeilSevenths(thursday - YearStart(year) + 1))
  }

  lemma MondayIsMonday(day: int)
    ensures IsoWeekday(MondayOf(day)) == 1 && MondayOf(day) <= day < MondayOf(day) + 7
    ensures ThursdayOf(day) == MondayOf(day) + 3
  {
  }

  /** Same Monday exactly when both days lie in that Monday's seven days. */
  lemma SameMonday(a: int, b: int)
    ensures MondayOf(a) == MondayOf(b) <==> MondayOf(a) <= b < MondayOf(a) + 7
  {
    MondayIsMonday(a);
    MondayIsMonday(b);
    if MondayOf(a) <= b < MondayOf(a) + 7 { SameWeekday(MondayOf(a), MondayOf(b)); }
  }

  function ThursdayFrom(start: int): (t: int)
    ensures start <= t < start + 7 && IsoWeekday(t) == 4
  {
    // days from each weekday, Sunday first, to the next Thursday
    var ahead := [4, 3, 2, 1, 0, 6, 5][Weekday(start)];
    start + ahead
  }

  /** The year's first Thursday. */
  function FirstThursday(y: int): (t: int)
    ensures YearStart(y) <= t < YearStart(y) + 7 && IsoWeekday(t) == 4
  {
    ThursdayFrom(YearStart(y))
  }

  /** Week numbers run from 1 to 53, and week w is the one with the year's w-th Thursday. */
  lemma WeekCountsThursdays(day: int)
    ensures 1 <= IsoWeekOf(day).week <= 53
    ensures MondayOf(day) + 3 == FirstThursday(IsoWeekOf(day).year) + 7 * (IsoWeekOf(day).week - 1)
  {
    var thursday := ThursdayOf(day);
    var y := YearOf(thursday);
    YearSpan(thursday);
    ThursdayCount(YearStart(y), FirstThursday(y), day);
    assert IsoWeekOf(day) == WeekDate(y, CeilSevenths(thursday - YearStart(y) + 1));
  }

  lemma YearSpan(day: int)
    ensures YearStart(YearOf(day)) <= day < YearStart(YearOf(day)) + 366
  {
    YearLength(YearOf(day));
  }

  lemma ThursdayCount(start: int, first: int, day: int)
    requires start <= ThursdayOf(day) < start + 366
    requires start <= first < start + 7 && IsoWeekday(first) == 4
    ensures var week := CeilSevenths(ThursdayOf(day) - start + 1);
            1 <= week <= 53 && MondayOf(day) + 3 == first + 7 * (week - 1)
  {
    MondayIsMonday(day);
    var thursday := ThursdayOf(day);
    var k := thursday - start;
    assert CeilSevenths(k + 1) == k / 7 + 1;
    assert IsoWeekday(thursday) == 4;
    WeekdayRepeats(thursday, k / 7);
    SameWeekday(thursday - 7 * (k / 7), first);
  }

  lemma WeekdayRepeats(day: int, weeks: int)
    ensures Weekday(day - 7 * weeks) == Weekday(day)
  {
  }

  lemma SameWeekday(f: int, g: int)
    requires IsoWeekday(f) == IsoWeekday(g) && -7 < f - g < 7
    ensures f == g
  {
  }

  /** Two days get the same week date exactly when they lie in the same Monday-to-Sunday week. */
  lemma IsoWeekIdentifiesWeek(a: int, b: int)
    ensures IsoWeekOf(a) == IsoWeekOf(b) <==> MondayOf(a) == MondayOf(b)
  {
    MondayIsMonday(a);
    MondayIsMonday(b);
    WeekCountsThursdays(a);
    WeekCountsThursdays(b);
  }

  /** 4 January always lies in week 1 of its year. */
  lemma FourthIsInWeekOne(y: int)
    ensures IsoWeekOf(YearStart(y) + 3) == WeekDate(y, 1)
    ensures YearOf(YearStart(y) + 3) == YearOf(ThursdayOf(YearStart(y) + 3)) == y
  {
    YearLength(y);
    YearUnique(ThursdayOf(YearStart(y) + 3), y);
    YearUnique(YearStart(y) + 3, y);
  }
}
