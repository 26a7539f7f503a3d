/** The proleptic Gregorian calendar: a reference definition by counting days, the closed forms that
    `Date` uses, and the fixed points of its search for the year. */
module Calendar {

  // ---------------------------------------------------------------- reference: counting days

  /** Leap years of RFC 3339, Appendix C. */
  predicate IsLeapYear(year: int) {
    year % 400 == 0 || (year % 4 == 0 && year % 100 != 0)
  }

  function YearLength(year: int): int { if IsLeapYear(year) then 366 else 365 }

  function MonthLength(year: int, month: int): int
    requires 1 <= month <= 12
  {
    if month == 2 then (if IsLeapYear(year) then 29 else 28)
    else if month in {4, 6, 9, 11} then 30 else 31
  }

  /** Days from 1 January 1970 to 1 January of `year`. */
  function DaysBefore(year: int): int
    decreases if year >= 1970 then year - 1970 else 1970 - year
  {
    if year == 1970 then 0
    else if year > 1970 then DaysBefore(year - 1) + YearLength(year - 1)
    else DaysBefore(year + 1) - YearLength(year)
  }

  /** Days from 1 January to the first of `month`. */
  function DaysBeforeMonth(year: int, month: int): int
    requires 1 <= month <= 12
    decreases month
  {
    if month == 1 then 0 else DaysBeforeMonth(year, month - 1) + MonthLength(year, month - 1)
  }

  datatype Fields = Fields(year: int, month: int, day: int, hour: int, minute: int, second: int, millisecond: int) {
    predicate Valid() {
      && 1 <= month <= 12 && 1 <= day <= MonthLength(year, month)
      && 0 <= hour < 24 && 0 <= minute < 60 && 0 <= second < 60 && 0 <= millisecond < 1000
    }

    function Clock(): int { hour * 3600000 + minute * 60000 + second * 1000 + millisecond }

    function DayNumber(): int
      requires 1 <= month <= 12
    {
      DaysBefore(year) + DaysBeforeMonth(year, month) + day - 1
    }

    /** Milliseconds since 1970-01-01T00:00:00.000. */
    function Instant(): int
      requires 1 <= month <= 12
    {
      DayNumber() * DAY + Clock()
    }

    /** Chronological order, field by field. */
    predicate Before(other: Fields) {
      year < other.year || (year == other.year &&
      (month < other.month || (month == other.month &&
      (day < other.day || (day == other.day && Clock() < other.Clock())))))
    }
  }

  const DAY := 86400000

  // ---------------------------------------------------------------- the code's closed forms

  function TruncDiv(a: int, b: int): int
    requires b > 0
  {
    if a >= 0 then a / b else -(-a / b)
  }

  function TruncMod(a: int, b: int): int
    requires b > 0
  {
    a - b * TruncDiv(a, b)
  }

  /** `static int32_t LeapYears(int32_t year)`. */
  function LeapYears(year: int): int {
    TruncDiv(year, 4) - TruncDiv(year, 100) + TruncDiv(year, 400) - 477 - (if year <= 0 then 1 else 0)
  }

  const MONTH_DAYS := [0, 31, 59, 90, 120, 151, 181, 212, 243, 273, 304, 334]
  const LEAP_MONTH_DAYS := [0, 31, 60, 91, 121, 152, 182, 213, 244, 274, 305, 335]

  /** `_MonthDays[isLeap][month]`, month counted from 0. */
  function MonthDays(leap: bool, month: int): int
    requires 0 <= month < 12
  {
    if leap then LEAP_MONTH_DAYS[month] else MONTH_DAYS[month]
  }

  lemma MonthDaysCount(year: int, month: int)
    requires 1 <= month <= 12
    ensures MonthDays(IsLeapYear(year), month - 1) == DaysBeforeMonth(year, month)
    ensures month < 12 ==> MonthDays(IsLeapYear(year), month) == DaysBeforeMonth(year, month) + MonthLength(year, month)
    ensures month == 12 ==> DaysBeforeMonth(year, month) + MonthLength(year, month) == YearLength(year)
  {
    if month > 1 {
      MonthDaysCount(year, month - 1);
    }
  }

  /** Leap years up to and including `year`, zero counted. */
  function Leaps(year: int): int { year / 4 - year / 100 + year / 400 }

  lemma Step4(year: int)
    ensures year / 4 == (year - 1) / 4 + if year % 4 == 0 then 1 else 0
  {
  }

  lemma Step100(year: int)
    ensures year / 100 == (year - 1) / 100 + if year % 100 == 0 then 1 else 0
  {
  }

  lemma Step400(year: int)
    ensures year / 400 == (year - 1) / 400 + if year % 400 == 0 then 1 else 0
    ensures year % 400 == 0 ==> year % 100 == 0
    ensures year % 100 == 0 ==> year % 4 == 0
  {
  }

  lemma LeapsStep(year: int)
    ensures Leaps(year) == Leaps(year - 1) + if IsLeapYear(year) then 1 else 0
  {
    Step4(year);
    Step100(year);
    Step400(year);
  }

  lemma {:induction false} DaysBeforeClosed(year: int)
    ensures DaysBefore(year) == 365 * (year - 1970) + Leaps(year - 1) - 477
    decreases if year >= 1970 then year - 1970 else 1970 - year
  {
    if year > 1970 {
      DaysBeforeClosed(year - 1);
      LeapsStep(year - 1);
    } else if year < 1970 {
      DaysBeforeClosed(year + 1);
      LeapsStep(year);
    }
  }

  /** `LeapYears` counts the current year for positive years and does not for the others. */
  lemma LeapYearsClosed(year: int)
    ensures LeapYears(year) == Leaps(if year > 0 then year else year - 1) - 477
  {
    if year <= 0 {
      assert (year - 1) / 4 == -(-year / 4) - 1;
      assert (year - 1) / 100 == -(-year / 100) - 1;
      assert (year - 1) / 400 == -(-year / 400) - 1;
    }
  }

  /** Counting days through `LeapYears`, as `time()` does. */
  lemma DaysBeforeFromLeapYears(year: int)
    ensures DaysBefore(year) == 365 * (year - 1970) + LeapYears(year) - if year > 0 && IsLeapYear(year) then 1 else 0
  {
    DaysBeforeClosed(year);
    LeapYearsClosed(year);
    LeapsStep(year);
  }

  // ---------------------------------------------------------------- order and uniqueness

  lemma {:induction false} DaysBeforeMonotone(a: int, b: int)
    requires a < b
    ensures DaysBefore(a) + YearLength(a) <= DaysBefore(b)
    decreases b - a
  {
    assert DaysBefore(a + 1) == DaysBefore(a) + YearLength(a);
    if a + 1 < b {
      DaysBeforeMonotone(a + 1, b);
    }
  }

  lemma {:induction false} MonthMonotone(year: int, a: int, b: int)
    requires 1 <= a < b <= 12
    ensures DaysBeforeMonth(year, a) + MonthLength(year, a) <= DaysBeforeMonth(year, b)
    decreases b - a
  {
    if a + 1 < b {
      MonthMonotone(year, a, b - 1);
    }
  }

  /** The day number of a valid date lies within its year. */
  lemma WithinYear(f: Fields)
    requires f.Valid()
    ensures DaysBefore(f.year) <= f.DayNumber() < DaysBefore(f.year) + YearLength(f.year)
    ensures 0 <= f.Clock() < DAY
  {
    MonthDaysCount(f.year, 12);
    if f.month < 12 {
      MonthMonotone(f.year, f.month, 12);
    }
    if f.month > 1 {
      MonthMonotone(f.year, 1, f.month);
    }
  }

  lemma DayOfInstant(f: Fields)
    requires f.Valid()
    ensures f.Instant() / DAY == f.DayNumber()
  {
    WithinYear(f);
  }

  /** Valid fields are ordered as the instants they denote. */
  lemma InstantMonotone(f: Fields, g: Fields)
    requires f.Valid() && g.Valid() && f.Before(g)
    ensures f.Instant() < g.Instant()
  {
    WithinYear(f);
    WithinYear(g);
    if f.year < g.year {
      DaysBeforeMonotone(f.year, g.year);
    } else if f.month < g.month {
      MonthMonotone(f.year, f.month, g.month);
    }
    assert f.DayNumber() < g.DayNumber() || (f.DayNumber() == g.DayNumber() && f.Clock() < g.Clock());
  }

  lemma ClockUnique(f: Fields, g: Fields)
    requires f.Valid() && g.Valid() && f.Clock() == g.Clock()
    ensures f.hour == g.hour && f.minute == g.minute && f.second == g.second && f.millisecond == g.millisecond
  {
    var k, m := f.minute * 60000 + f.second * 1000 + f.millisecond, g.minute * 60000 + g.second * 1000 + g.millisecond;
    assert 0 <= k < 3600000 && 0 <= m < 3600000;
    assert f.hour == g.hour;
    assert f.minute == g.minute;
  }

  /** An instant has only one valid form. */
  lemma FieldsUnique(f: Fields, g: Fields)
    requires f.Valid() && g.Valid() && f.Instant() == g.Instant()
    ensures f == g
  {
    if f.Before(g) {
      InstantMonotone(f, g);
    } else if g.Before(f) {
      InstantMonotone(g, f);
    } else {
      ClockUnique(f, g);
    }
  }

  // ---------------------------------------------------------------- the year search

  /** One turn of the loop of `update`, which starts from 0: `(days + year - LeapYears(year + 1970)) / 366`. */
  function Turn(days: int, year: int): int {
    TruncDiv(days + Delta(year), 366)
  }

  function Delta(year: int): int { year - LeapYears(year + 1970) }

  lemma DeltaStep(year: int)
    ensures Delta(year - 1) <= Delta(year)
  {
    hide LeapYears;
    LeapYearsClosed(year + 1970);
    LeapYearsClosed(year + 1969);
    hide Leaps;
    LeapsStep(year + 1970);
    LeapsStep(year + 1969);
  }

  lemma {:induction false} DeltaMonotone(a: int, b: int)
    requires a <= b
    ensures Delta(a) <= Delta(b)
    decreases b - a
  {
    hide Delta;
    if a < b {
      DeltaMonotone(a, b - 1);
      DeltaStep(b);
    }
  }

  lemma TruncDivMonotone(a: int, b: int)
    requires a <= b
    ensures TruncDiv(a, 366) <= TruncDiv(b, 366)
  {
  }

  lemma TurnMonotone(days: int, a: int, b: int)
    requires a <= b
    ensures Turn(days, a) <= Turn(days, b)
  {
    DeltaMonotone(a, b);
    TruncDivMonotone(days + Delta(a), days + Delta(b));
  }

  /** What the loop keeps, in days: for years after 0 the delta restores one day of a leap year. */
  lemma DeltaClosed(year: int)
    ensures Delta(year) == 366 * year - DaysBefore(year + 1970) - if year + 1970 > 0 && IsLeapYear(year + 1970) then 1 else 0
  {
    DaysBeforeFromLeapYears(year + 1970);
  }

  /** For times from 1970 on (`days` counted from 1) the fixed points of the loop are the year of the day
      and, on 31 December before a common year, also the next one: the least is right. */
  lemma FixedPointsFrom1970(days: int, year: int, found: int)
    requires days > 0 && year >= 0 && found >= 0
    requires DaysBefore(year + 1970) < days <= DaysBefore(year + 1971)
    ensures Turn(days, year) == year
    ensures Turn(days, year + 1) == year + 1 <==> days == DaysBefore(year + 1971) && !IsLeapYear(year + 1971)
    ensures Turn(days, found) == found ==> found == year || found == year + 1
  {
    hide LeapYears;
    DeltaClosed(year);
    DeltaClosed(year + 1);
    DeltaClosed(found);
    if found < year {
      DaysBeforeMonotone(found + 1970, year + 1970);
    } else if found > year + 1 {
      DaysBeforeMonotone(year + 1971, found + 1970);
    }
  }

  /** The second fixed point exists: on 31 December 1972 the year 1973 is one too. */
  lemma SecondFixedPoint()
    ensures Fields(1972, 12, 31, 0, 0, 0, 0).DayNumber() + 1 == 1096
    ensures Turn(1096, 2) == 2 && Turn(1096, 3) == 3
  {
    MonthDaysCount(1972, 12);
    assert DaysBefore(1971) == 365;
    assert DaysBefore(1972) == 730;
  }

  lemma CommonNext(year: int)
    ensures IsLeapYear(year) ==> !IsLeapYear(year + 1)
  {
  }

  lemma TruncExact(days: int, year: int)
    requires year <= 0 && 366 * year - 366 < days <= 366 * year
    ensures TruncDiv(days, 366) == year
  {
  }

  /** Before 1970 (`days` counted from 0, negative) the loop has a fixed point: the year of the day when
      the day is 1 January, the year after otherwise. */
  lemma FixedPointBefore1970(days: int, year: int)
    requires days < 0 && year < 0
    requires DaysBefore(year + 1970) <= days < DaysBefore(year + 1970) + YearLength(year + 1970)
    ensures var p := if days == DaysBefore(year + 1970) then year else year + 1; Turn(days, p) == p
  {
    hide LeapYears, TruncDiv, IsLeapYear;
    CommonNext(year + 1970);
    assert DaysBefore(year + 1971) == DaysBefore(year + 1970) + YearLength(year + 1970);
    hide DaysBefore;
    var p := if days == DaysBefore(year + 1970) then year else year + 1;
    DeltaClosed(p);
    TruncExact(days + Delta(p), p);
  }

  /** ... and no other one than these two. */
  lemma FixedPointsBefore1970(days: int, year: int, found: int)
    requires days < 0 && year < 0 && found <= 0
    requires DaysBefore(year + 1970) <= days < DaysBefore(year + 1970) + YearLength(year + 1970)
    requires Turn(days, found) == found
    ensures found == year || found == year + 1
  {
    DeltaClosed(found);
    if found < year {
      DaysBeforeMonotone(found + 1970, year + 1970);
    } else if found > year + 1 {
      assert DaysBefore(year + 1971) == DaysBefore(year + 1970) + YearLength(year + 1970);
      DaysBeforeMonotone(year + 1971, found + 1970);
    }
  }

  /** The year of a day number. */
  ghost function YearOf(day: int): (year: int)
    ensures DaysBefore(year) <= day < DaysBefore(year) + YearLength(year)
    ensures day >= 0 <==> year >= 1970
  {
    if day >= 0 then WalkUp(day, 1970) else WalkDown(day, 1969)
  }

  ghost function WalkUp(day: int, year: int): (found: int)
    requires year >= 1970 && DaysBefore(year) <= day
    ensures found >= year && DaysBefore(found) <= day < DaysBefore(found) + YearLength(found)
    decreases day - DaysBefore(year)
  {
    if day < DaysBefore(year) + YearLength(year) then year else WalkUp(day, year + 1)
  }

  ghost function WalkDown(day: int, year: int): (found: int)
    requires year < 1970 && day < DaysBefore(year) + YearLength(year)
    ensures found <= year && DaysBefore(found) <= day < DaysBefore(found) + YearLength(found)
    decreases DaysBefore(year) + YearLength(year) - day
  {
    if DaysBefore(year) <= day then year else WalkDown(day, year - 1)
  }

  // ---------------------------------------------------------------- time() and update()

  /** `(_year - 1970)*365` is computed on 32 bits. */
  function Int32(x: int): int { (x + 0x8000_0000) % 0x1_0000_0000 - 0x8000_0000 }

  /** The closed form of `time()` before the offset is removed. */
  function ClosedTime(f: Fields): int
    requires 1 <= f.month <= 12
  {
    var leap := IsLeapYear(f.year);
    var days := f.day - 1 + LeapYears(f.year) - (if leap && f.year > 0 then 1 else 0)
                + MonthDays(leap, f.month - 1) + Int32((f.year - 1970) * 365);
    days * DAY + f.Clock()
  }

  predicate YearFits(year: int) { -0x8000_0000 <= (year - 1970) * 365 < 0x8000_0000 }

  /** `time()` gives the instant of the fields exactly when the days of the years fit in 32 bits. */
  lemma ClosedTimeIffFits(f: Fields)
    requires 1 <= f.month <= 12
    ensures ClosedTime(f) == f.Instant() <==> YearFits(f.year)
  {
    DaysBeforeFromLeapYears(f.year);
    MonthDaysCount(f.year, f.month);
    hide DaysBefore, LeapYears, MonthDays, Int32, IsLeapYear, DaysBeforeMonth, Fields.Clock;
    var days := (f.year - 1970) * 365;
    assert ClosedTime(f) == f.Instant() + (Int32(days) - days) * DAY;
    Int32Keeps(days);
  }

  lemma Int32Keeps(x: int)
    ensures Int32(x) == x <==> -0x8000_0000 <= x < 0x8000_0000
  {
  }

  /** A year whose days do not fit in 32 bits: its instants fit in 64, and `time()` computes other ones. */
  lemma YearSixMillion(f: Fields)
    requires f.Valid() && f.year == 6_000_000
    ensures 0 <= f.Instant() < 0x8000_0000_0000_0000 && ClosedTime(f) != f.Instant()
  {
    ClosedTimeIffFits(f);
    WithinYear(f);
    hide ClosedTime, DaysBeforeMonth, Fields.Clock;
    DaysBeforeFromLeapYears(f.year);
    hide DaysBefore;
  }

  /** Instants are ordered as their valid forms: `update` is strictly monotone. */
  lemma FieldsMonotone(f: Fields, g: Fields)
    requires f.Valid() && g.Valid()
    ensures f.Instant() < g.Instant() <==> f.Before(g)
  {
    if f.Before(g) {
      InstantMonotone(f, g);
    } else if g.Before(f) {
      InstantMonotone(g, f);
    } else {
      ClockUnique(f, g);
    }
  }

  /** `computeWeekDay`: 0 is Sunday, and 1 January 1970 was a Thursday. */
  function WeekDay(days: int): int {
    var shifted := days + 4;
    if shifted < 0 then TruncMod(shifted + 1, 7) + 6 else TruncMod(shifted, 7)
  }

  /** Both branches are the modulo of a seven-day cycle. */
  lemma WeekDayCycles(days: int)
    ensures WeekDay(days) == (days + 4) % 7
  {
    var shifted := days + 4;
    if shifted < 0 {
      assert -(shifted + 1) / 7 * 7 + -(shifted + 1) % 7 == -(shifted + 1);
    }
  }
}
