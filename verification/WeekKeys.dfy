/** The week date as getWeeklyKey computes it. Date.UTC reads the years 0 to 99 as 1900 to 1999, so the result
    is that of the standard exactly when no such year is passed to it. */
module WeekKeys {
  import opened Calendar

  predicate TwoDigit(y: int) { 0 <= y <= 99 }

  /** The year Date.UTC takes a year for. */
  function UtcYear(y: int): int { if TwoDigit(y) then 1900 + y else y }

  /** Date.UTC(year, month, day), as a day number; a day beyond the month's end runs on. */
  function DateUtc(c: Civil): int
    requires c.month <= 11
  {
    DayNumber(c.(year := UtcYear(c.year)))
  }

  /** The date's own year, month and day, put through Date.UTC. */
  function Rebuilt(day: int): int { DateUtc(CivilOf(day)) }

  function YearStartUtc(y: int): int { DateUtc(Civil(y, 0, 1)) }

  /** Year and week number: rebuild the date, move to its Thursday, and count from the start of that year. */
  function WeekOf(day: int): WeekDate {
    var thursday := ThursdayOf(Rebuilt(day));
    var year := YearOf(thursday);
    WeekDate(year, CeilSevenths(thursday - YearStartUtc(year) + 1))
  }

  /** Neither the date's year nor that of its Thursday is one that Date.UTC shifts. */
  predicate Plain(day: int) {
    !TwoDigit(YearOf(day)) && !TwoDigit(YearOf(ThursdayOf(day)))
  }

  lemma RebuiltIsSame(day: int)
    requires !TwoDigit(YearOf(day))
    ensures Rebuilt(day) == day
  {
    CivilYear(day);
  }

  lemma CivilYear(day: int)
    ensures CivilOf(day).year == YearOf(day)
  {
    YearOfDate(CivilOf(day), CivilOf(day).year);
  }

  lemma YearStartIsSame(y: int)
    ensures YearStartUtc(y) == YearStart(UtcYear(y))
  {
  }

  /** A date is in its year, and so it is when its year is exchanged for another. */
  lemma YearOfDate(c: Civil, y: int)
    requires IsDate(c)
    ensures YearOf(DayNumber(c.(year := y))) == y
  {
    YearLength(y);
    DayOfYearFits(c.month, c.dayOfMonth, IsLeap(c.year), IsLeap(y));
    YearUnique(DayNumber(c.(year := y)), y);
  }

  /** A day of a two-digit year is rebuilt in the year 1900 later. */
  lemma RebuiltShifts(day: int)
    requires TwoDigit(YearOf(day))
    ensures YearOf(Rebuilt(day)) == YearOf(day) + 1900
  {
    CivilYear(day);
    ShiftedYear(CivilOf(day));
  }

  lemma ShiftedYear(c: Civil)
    requires IsDate(c) && TwoDigit(c.year)
    ensures YearOf(DateUtc(c)) == c.year + 1900
  {
    YearOfDate(c, UtcYear(c.year));
  }

  /** Even 29 February in a year without one stays inside the year. */
  lemma DayOfYearFits(m: nat, d: nat, leap: bool, leap': bool)
    requires m <= 11 && 1 <= d <= MonthLength(m, leap)
    ensures 0 <= MonthStart(m, leap') + d - 1 < if leap' then 366 else 365
  {
  }

  /** On plain days the code's week date is that of the standard. */
  lemma PlainIsIso(day: int)
    requires Plain(day)
    ensures WeekOf(day) == IsoWeekOf(day)
  {
    RebuiltIsSame(day);
    YearStartIsSame(YearOf(ThursdayOf(day)));
  }

  lemma ThursdayIsNear(day: int)
    ensures day - 3 <= ThursdayOf(day) <= day + 3
  {
  }

  lemma YearsFollowDays(a: int, b: int)
    requires a <= b
    ensures YearOf(a) <= YearOf(b)
  {
    if YearOf(b) < YearOf(a) { YearsAscend(YearOf(b) + 1, YearOf(a)); }
  }

  lemma NearbyYear(day: int, other: int)
    requires -7 < other - day < 7
    ensures YearOf(day) - 1 <= YearOf(other) <= YearOf(day) + 1
  {
    var y := YearOf(day);
    YearLength(y - 1);
    YearLength(y + 1);
    if YearOf(other) < y - 1 { YearsAscend(YearOf(other) + 1, y - 1); }
    if YearOf(other) > y + 1 { YearsAscend(y + 2, YearOf(other)); }
  }

  /** The number is a week number exactly when the Thursday's year is not shifted under it. */
  lemma WeekNumberInRangeExactlyWhen(day: int)
    ensures 1 <= WeekOf(day).week <= 53 <==> TwoDigit(YearOf(day)) || !TwoDigit(YearOf(ThursdayOf(day)))
  {
    var moved := Rebuilt(day);
    var thursday := ThursdayOf(moved);
    var y := YearOf(thursday);
    ThursdayIsNear(moved);
    YearStartIsSame(y);
    if TwoDigit(YearOf(day)) {
      RebuiltShifts(day);
      NearbyYear(moved, thursday);
    } else {
      RebuiltIsSame(day);
    }
    if TwoDigit(y) {
      YearSpan(thursday);
      YearsAscend(y + 1, 1900 + y);
      NegativeWeek(thursday, YearStart(y + 1), YearStart(1900 + y));
    } else {
      WeekCountsThursdays(moved);
    }
  }

  lemma NegativeWeek(thursday: int, next: int, start: int)
    requires thursday < next && next + 7 <= start
    ensures CeilSevenths(thursday - start + 1) <= 0
  {
  }

  /** The code names the week as the standard does exactly on the plain days. */
  lemma WeekIsIsoExactlyWhen(day: int)
    ensures WeekOf(day) == IsoWeekOf(day) <==> Plain(day)
  {
    if Plain(day) {
      PlainIsIso(day);
    } else if TwoDigit(YearOf(day)) {
      RebuiltShifts(day);
      ThursdayIsNear(day);
      ThursdayIsNear(Rebuilt(day));
      NearbyYear(day, ThursdayOf(day));
      NearbyYear(Rebuilt(day), ThursdayOf(Rebuilt(day)));
    } else {
      WeekNumberInRangeExactlyWhen(day);
      WeekCountsThursdays(day);
    }
  }

  /** Two plain days get the same week date exactly when they lie in the same Monday-to-Sunday week. */
  lemma WeekDateIdentifiesWeek(a: int, b: int)
    requires Plain(a) && Plain(b)
    ensures WeekOf(a) == WeekOf(b) <==> MondayOf(a) == MondayOf(b)
    ensures 1 <= WeekOf(a).week <= 53
  {
    PlainIsIso(a);
    PlainIsIso(b);
    IsoWeekIdentifiesWeek(a, b);
    WeekCountsThursdays(a);
  }

  /** 4 January is in week 1 of its year exactly when the year is not one that Date.UTC shifts. */
  lemma FourthOfJanuaryExactlyWhen(y: int)
    ensures WeekOf(YearStart(y) + 3) == WeekDate(y, 1) <==> !TwoDigit(y)
  {
    FourthIsInWeekOne(y);
    WeekIsIsoExactlyWhen(YearStart(y) + 3);
  }

  /** Every day of a two-digit year shares its week date with a plain day of another week, 1900 years on. */
  lemma CenturiesCollide(day: int) returns (later: int)
    requires TwoDigit(YearOf(day))
    ensures Plain(later) && YearOf(later) == YearOf(day) + 1900
    ensures WeekOf(later) == WeekOf(day) && MondayOf(later) != MondayOf(day)
  {
    later := Rebuilt(day);
    RebuiltShifts(day);
    RebuiltIsSame(later);
    ThursdayIsNear(later);
    NearbyYear(later, ThursdayOf(later));
    FarApart(day, later);
  }

  lemma FarApart(day: int, later: int)
    requires YearOf(later) >= YearOf(day) + 2
    ensures MondayOf(later) != MondayOf(day)
  {
    MondayIsMonday(day);
    MondayIsMonday(later);
    YearsAscend(YearOf(day) + 2, YearOf(later));
    YearsAscend(YearOf(day) + 1, YearOf(day) + 2);
  }

  lemma DatesUsed()
    ensures YearStart(24) == -710_762 && YearStart(99) == -683_368 && YearStart(100) == -683_003
    ensures YearStart(1924) == -16_802 && YearStart(1925) == -16_436 && YearStart(1999) == 10_592
  {
  }

  lemma InWeekOf(day: int, thursday: int, y: int, next: int, start: int)
    requires ThursdayOf(Rebuilt(day)) == thursday && YearStart(y) <= thursday < next && YearStart(y + 1) == next
    requires YearStart(UtcYear(y)) == start
    ensures WeekOf(day) == WeekDate(y, CeilSevenths(thursday - start + 1))
  {
    YearUnique(thursday, y);
    YearStartIsSame(y);
  }

  lemma January(y: int, d: nat, day: int)
    requires 1 <= d <= 31 && day == YearStart(y) + d - 1
    ensures CivilOf(day) == Civil(y, 0, d) && Rebuilt(day) == YearStart(UtcYear(y)) + d - 1
  {
    DateIsOfOneDay(Civil(y, 0, d));
  }

  lemma DaysUsed()
    ensures ThursdayOf(-16_802) == -16_800 && ThursdayOf(-16_796) == -16_793 && ThursdayOf(-683_003) == -683_004
    ensures MondayOf(-710_762) == MondayOf(-710_756)
  {
  }

  lemma MondayIn24() returns (monday: int)
    ensures monday == -710_762 && CivilOf(monday) == Civil(24, 0, 1) && WeekOf(monday) == WeekDate(1924, 1)
  {
    DatesUsed();
    DaysUsed();
    monday := -710_762;
    January(24, 1, monday);
    InWeekOf(monday, -16_800, 1924, -16_436, -16_802);
  }

  lemma SundayIn24() returns (sunday: int)
    ensures sunday == -710_756 && CivilOf(sunday) == Civil(24, 0, 7) && WeekOf(sunday) == WeekDate(1924, 2)
  {
    DatesUsed();
    DaysUsed();
    sunday := -710_756;
    January(24, 7, sunday);
    InWeekOf(sunday, -16_793, 1924, -16_436, -16_802);
  }

  /** Monday 1 and Sunday 7 January of the year 24 are in one week and get two week dates. */
  lemma OneWeekSplits() returns (monday: int, sunday: int)
    ensures CivilOf(monday) == Civil(24, 0, 1) && CivilOf(sunday) == Civil(24, 0, 7)
    ensures MondayOf(monday) == MondayOf(sunday)
    ensures WeekOf(monday) == WeekDate(1924, 1) && WeekOf(sunday) == WeekDate(1924, 2)
  {
    DaysUsed();
    monday := MondayIn24();
    sunday := SundayIn24();
  }

  /** 1 January of the year 100 gets a negative week number. */
  lemma WeekNumberLeavesRange() returns (day: int)
    ensures CivilOf(day) == Civil(100, 0, 1) && WeekOf(day).week < 0
  {
    DatesUsed();
    DaysUsed();
    day := -683_003;
    January(100, 1, day);
    InWeekOf(day, -683_004, 99, -683_003, 10_592);
  }

  // ---- From the year 101 on

  const FIRST_MODERN_DAY: int := -682_638

  /** 1 January 101 or later: no two-digit year is near, now or at any later time. */
  predicate Modern(day: int) { FIRST_MODERN_DAY <= day }

  lemma ModernIsPlain(day: int)
    requires Modern(day)
    ensures Plain(day)
  {
    assert YearStart(101) == FIRST_MODERN_DAY;
    YearUnique(FIRST_MODERN_DAY, 101);
    YearsFollowDays(FIRST_MODERN_DAY, day);
    ThursdayIsNear(day);
    NearbyYear(day, ThursdayOf(day));
  }
}
