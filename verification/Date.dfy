/** `Date`: the fields of a date kept beside its time in milliseconds, for GMT and fixed offsets. */
module Dates {
  import opened Calendar

  const GMT := 0x7FFF_FFFF
  const LOCAL := -0x8000_0000

  /** `f` is the date and clock of `instant`. */
  ghost predicate IsCivil(f: Fields, instant: int) { f.Valid() && f.Instant() == instant }

  /** `time` is the one of `f`, as the source knows it: `f` is computed from it, or it from `f`. */
  ghost predicate IsTimeOf(time: int, f: Fields)
    requires 1 <= f.month <= 12
  {
    IsCivil(f, time) || ClosedTime(f) == time
  }

  /** What the setters leave: any clock up to 59:59:59.999, any day up to the 31st. */
  predicate Bounded(f: Fields) {
    && 1 <= f.month <= 12 && 1 <= f.day <= 31
    && 0 <= f.hour <= 59 && 0 <= f.minute <= 59 && 0 <= f.second <= 59 && 0 <= f.millisecond <= 999
  }

  predicate Unsigned(f: Fields) {
    f.month >= 0 && f.day >= 0 && f.hour >= 0 && f.minute >= 0 && f.second >= 0 && f.millisecond >= 0
  }

  function Within(value: int, low: int, high: int): int {
    if value < low then low else if value > high then high else value
  }

  /** What setting `f` leaves on a date that shows the day `shown`. */
  function Clamped(f: Fields, shown: int): Fields {
    var month := Within(f.month, 1, 12);
    Fields(f.year, month, if f.day == shown then shown else Within(f.day, 1, MonthLength(f.year, month)),
           Within(f.hour, 0, 59), Within(f.minute, 0, 59), Within(f.second, 0, 59), Within(f.millisecond, 0, 999))
  }

  class Date {
    var year: int
    var month: int
    var day: int         // 0 as long as the fields are not computed
    var weekDay: int     // 7 when unknown
    var hour: int
    var minute: int
    var second: int
    var millisecond: int
    var offset: int
    var isDST: bool
    var isLocal: bool
    var changed: bool    // the fields are ahead of `instant`
    var instant: int     // Time::_time

    function Civil(): Fields
      reads this
    {
      Fields(year, month, day, hour, minute, second, millisecond)
    }

    function FixedOffset(): int
      reads this
    {
      if offset == GMT then 0 else offset
    }

    /** The offset is fixed and the fields are within the bounds of the setters. Unless they have just been
        changed, `instant` is theirs: either they come from it, or it was computed from them. */
    ghost predicate Valid()
      reads this
    {
      && offset != LOCAL && !isLocal
      && (day == 0 ==> !changed)
      && (day != 0 ==> Bounded(Civil()))
      && (day != 0 && !changed ==>
            && offset != GMT
            && IsTimeOf(instant + offset, Civil())
            && (weekDay != 7 ==> weekDay == WeekDay((instant + offset) / DAY)))
    }

    /** The fields that a caller sees: those there are or, as long as there are none, those of `instant`. */
    ghost predicate Shows(f: Fields)
      reads this
    {
      if day != 0 then f == Civil() else IsCivil(f, instant + FixedOffset())
    }

    /** What `time()` answers. */
    ghost function Moment(): int
      requires Valid()
      reads this
    {
      if changed then ClosedTime(Civil()) - FixedOffset() else instant
    }

    /** A date not computed yet, from a time. */
    constructor (time: int, offset: int)
      requires offset != LOCAL
      ensures Valid() && day == 0 && instant == time && FixedOffset() == if offset == GMT then 0 else offset
    {
      year, month, day, weekDay := 0, 0, 0, 7;
      hour, minute, second, millisecond := 0, 0, 0, 0;
      this.offset, isDST, isLocal, changed, instant := offset, false, false, false, time;
    }

    // -------------------------------------------------------------- update from a time

    /** The loop that searches the year, counted from 1970; `days` is counted from 1 from 1970 on. */
    method SearchYear(time: int) returns (days: int)
      modifies this`year
      ensures Turn(time / DAY + if time >= 0 then 1 else 0, year) == year
      ensures days == time / DAY + (if time >= 0 then 1 else 0) + Delta(year)
      ensures time >= 0 ==> year == YearOf(time / DAY) - 1970
      ensures time < 0 ==> year <= 0 && (year == YearOf(time / DAY) - 1970 || year == YearOf(time / DAY) - 1969)
    {
      hide LeapYears, DaysBefore, TruncDiv, IsLeapYear;
      days := time / DAY;
      ghost var civil := YearOf(days) - 1970;
      if time >= 0 {
        days := days + 1;
      }
      ghost var day := days;
      // a fixed point that the loop cannot pass
      ghost var limit := if time >= 0 || days == DaysBefore(civil + 1970) then civil else civil + 1;
      DaysBeforeNext(civil + 1970);
      if time >= 0 {
        FixedPointsFrom1970(day, civil, civil);
      } else {
        FixedPointBefore1970(day, civil);
      }
      year := 0;
      var turn, delta := 0, 0;
      DeltaZero();
      turn := TruncDiv(days, 366);
      TruncDivSign(days, 366);
      while turn != year
        invariant turn == Turn(day, year) && delta == Delta(year) && days == day + delta
        invariant if time >= 0 then 0 <= year <= limit && year <= turn else limit <= year <= 0 && turn <= year
        invariant Turn(day, limit) == limit
        decreases if time >= 0 then limit - year else year - limit
      {
        days := days - delta;
        delta := turn - LeapYears(turn + 1970);
        days := days + delta;
        TurnBetween(day, year, turn, limit);
        year := turn;
        turn := TruncDiv(days, 366);
      }
      if time >= 0 {
        FixedPointsFrom1970(day, civil, year);
      } else {
        FixedPointsBefore1970(day, civil, year);
      }
    }

    /** The year of `time` and the day in it, counted from 1. */
    method ComputeYear(time: int) returns (days: int)
      modifies this`year
      ensures DaysBefore(year) + days - 1 == time / DAY
      ensures 1 <= days <= YearLength(year)
    {
      hide LeapYears, DaysBefore, TruncMod, TruncDiv, Turn, Delta, YearOf;
      days := SearchYear(time);
      SearchRemainder(time / DAY + if time >= 0 then 1 else 0, year);
      days := TruncMod(days, 366);
      ghost var civil := YearOf(time / DAY);
      DaysBeforeNext(civil);
      year := year + 1970;
      var found := year;
      var isLeap := IsLeapYear(year);
      if time < 0 {
        if year > 0 && isLeap {
          days := days + 1;
        }
        if days < 0 {
          year := year - 1;
        }
        days := days + 1;
      }
      if year != found {
        isLeap := IsLeapYear(year);
      }
      if time >= 0 {
        if isLeap {
          days := days + 1;
        }
      } else if days <= 0 {
        days := days + if isLeap then 366 else 365;
      }
    }

    /** The month and the day in it of the `days`-th day of the year. */
    method ComputeMonth(days: int)
      requires 1 <= days <= YearLength(year)
      modifies this`month, this`day
      ensures 1 <= month <= 12 && 1 <= day <= MonthLength(year, month)
      ensures DaysBeforeMonth(year, month) + day == days
    {
      hide DaysBeforeMonth;
      var leap := IsLeapYear(year);
      month := 1;
      var count := 0;
      MonthDaysCount(year, 1);
      while month < 12 && days > MonthDays(leap, month)
        invariant 1 <= month <= 12
        invariant count == MonthDays(leap, month - 1) == DaysBeforeMonth(year, month) < days
      {
        MonthDaysCount(year, month);
        count := MonthDays(leap, month);
        month := month + 1;
        MonthDaysCount(year, month);
      }
      MonthDaysCount(year, month);
      day := days - count;
    }

    method ComputeClock(time: int)
      modifies this`hour, this`minute, this`second, this`millisecond
      ensures Civil().Clock() == time % DAY
      ensures 0 <= hour < 24 && 0 <= minute < 60 && 0 <= second < 60 && 0 <= millisecond < 1000
    {
      var rest := TruncMod(time, DAY);
      if rest < 0 {
        rest := rest + DAY;
      }
      assert rest == time % DAY;
      hour := rest / 3600000;
      rest := rest % 3600000;
      minute := rest / 60000;
      rest := rest % 60000;
      second := rest / 1000;
      millisecond := rest % 1000;
    }

    /** `update(int64_t time, int32_t offset)`. */
    method Update(time: int, offset: int)
      requires offset != LOCAL && !isLocal
      modifies this
      ensures Valid() && instant == time
      ensures FixedOffset() == if offset == GMT then 0 else offset
      ensures day == 0 <==> old(day) == 0
      ensures day != 0 ==> !changed && IsCivil(Civil(), time + this.offset) && weekDay == WeekDay(Civil().DayNumber())
    {
      hide ClosedTime, DaysBefore, DaysBeforeMonth, MonthLength, IsLeapYear;
      instant := time;
      if day == 0 {
        this.offset := offset;
        changed := false;
        return;
      }
      changed := false;
      this.offset := offset;
      isLocal, isDST := false, false;
      if this.offset == GMT {
        this.offset := 0;
      }
      var local := time + this.offset;
      weekDay := WeekDay(local / DAY);
      var days := ComputeYear(local);
      ComputeMonth(days);
      MonthLengths(year, month);
      ComputeClock(local);
      InstantOf(Civil(), local);
    }

    /** `init()` where it is needed: the fields are computed from here on. */
    method Init() returns (ghost shown: Fields)
      requires Valid()
      modifies this
      ensures Valid() && day != 0 && old(Shows(shown)) && Civil() == shown
      ensures instant == old(instant) && FixedOffset() == old(FixedOffset()) && Moment() == old(Moment())
      ensures old(day) != 0 ==> changed == old(changed) && weekDay == old(weekDay) && offset == old(offset)
      ensures old(day) == 0 ==> !changed && weekDay != 7
    {
      if day == 0 {
        day := 1;
        Update(instant, offset);
        WeekDayCycles(Civil().DayNumber());
      }
      shown := Civil();
    }

    // -------------------------------------------------------------- time from the fields

    /** `time()`. */
    method Time() returns (time: int)
      requires Valid()
      modifies this`instant, this`changed, this`weekDay, this`isDST, this`isLocal, this`offset
      ensures Valid() && instant == time == old(Moment()) && !changed && FixedOffset() == old(FixedOffset())
      ensures !old(changed) ==> weekDay == old(weekDay) && offset == old(offset)
      ensures old(changed) ==> weekDay == 7
      ensures old(changed) && YearFits(year) ==> time == Civil().Instant() - FixedOffset()
    {
      hide LeapYears, MonthDays, DaysBefore, DaysBeforeMonth, Int32, IsLeapYear, YearFits, MonthLength, WeekDay;
      if !changed {
        return instant;
      }
      ClosedTimeIffFits(Civil());
      var leap := IsLeapYear(year);
      time := day - 1 + LeapYears(year);
      if leap && year > 0 {
        time := time - 1;
      }
      time := time + MonthDays(leap, month - 1);
      time := time + Int32((year - 1970) * 365);
      time := time * DAY + (hour * 3600000 + minute * 60000 + second * 1000 + millisecond);
      changed := false;
      weekDay := 7;
      if offset == GMT {
        isLocal, isDST, offset := false, false, 0;
      } else {
        isLocal := false;
      }
      time := time - offset;
      instant := time;
    }

    /** `offset()`. */
    method Offset() returns (value: int)
      requires Valid()
      modifies this
      ensures Valid() && day != 0 && value == FixedOffset() == old(FixedOffset())
      ensures var shown := Civil(); old(Shows(shown))
      ensures Moment() == old(Moment())
      ensures old(day) != 0 ==> Civil() == old(Civil()) && changed == old(changed) && instant == old(instant)
                                && weekDay == old(weekDay)
    {
      if day == 0 {
        ghost var shown := Init();
        return offset;
      }
      if offset == GMT {
        offset, isDST, isLocal := 0, false, false;
        return 0;
      }
      return offset;
    }

    /** `weekDay()`: that of the time at the offset and, when the fields are a date whose year fits, of this date. */
    method GetWeekDay() returns (value: int)
      requires Valid()
      modifies this
      ensures Valid() && day != 0 && FixedOffset() == old(FixedOffset())
      ensures var shown := Civil(); old(Shows(shown))
      ensures Moment() == old(Moment())
      ensures value == weekDay == WeekDay((Moment() + FixedOffset()) / DAY)
      ensures Civil().Valid() && YearFits(year) ==> value == WeekDay(Civil().DayNumber())
    {
      hide LeapYears, MonthDays, DaysBefore, DaysBeforeMonth, IsLeapYear, YearFits, MonthLength, WeekDay, ClosedTime, Fields.Clock;
      if day == 0 {
        ghost var shown := Init();
      } else if changed || weekDay == 7 {
        var time := Time();
        var shift := Offset();
        weekDay := WeekDay((time + shift) / DAY);
      }
      if Civil().Valid() {
        ClosedTimeIffFits(Civil());
        DayOfInstant(Civil());
      }
      return weekDay;
    }

    // -------------------------------------------------------------- setters

    method SetYear(value: int) returns (ghost shown: Fields)
      requires Valid()
      modifies this
      ensures Valid() && day != 0 && FixedOffset() == old(FixedOffset())
      ensures old(Shows(shown)) && Civil() == shown.(year := value)
    {
      shown := Init();
      if value == year {
        return;
      }
      changed := true;
      year := value;
    }

    method SetMonth(value: nat) returns (ghost shown: Fields)
      requires Valid()
      modifies this
      ensures Valid() && day != 0 && FixedOffset() == old(FixedOffset())
      ensures old(Shows(shown)) && Civil() == shown.(month := Within(value, 1, 12))
    {
      var clamped := if value < 1 then 1 else if value > 12 then 12 else value;
      shown := Init();
      if clamped == month {
        return;
      }
      changed := true;
      month := clamped;
    }

    /** Hours are cut at 59, as minutes and seconds are. */
    method SetHour(value: nat) returns (ghost shown: Fields)
      requires Valid()
      modifies this
      ensures Valid() && day != 0 && FixedOffset() == old(FixedOffset())
      ensures old(Shows(shown)) && Civil() == shown.(hour := Within(value, 0, 59))
    {
      shown := Init();
      var clamped := if value > 59 then 59 else value;
      if clamped != hour {
        changed := true;
        hour := clamped;
      }
    }

    method SetMinute(value: nat) returns (ghost shown: Fields)
      requires Valid()
      modifies this
      ensures Valid() && day != 0 && FixedOffset() == old(FixedOffset())
      ensures old(Shows(shown)) && Civil() == shown.(minute := Within(value, 0, 59))
    {
      shown := Init();
      var clamped := if value > 59 then 59 else value;
      if clamped != minute {
        changed := true;
        minute := clamped;
      }
    }

    method SetSecond(value: nat) returns (ghost shown: Fields)
      requires Valid()
      modifies this
      ensures Valid() && day != 0 && FixedOffset() == old(FixedOffset())
      ensures old(Shows(shown)) && Civil() == shown.(second := Within(value, 0, 59))
    {
      shown := Init();
      var clamped := if value > 59 then 59 else value;
      if clamped != second {
        changed := true;
        second := clamped;
      }
    }

    /** The only setter that moves the time at once; the day of the week stays. */
    method SetMillisecond(value: nat) returns (ghost shown: Fields)
      requires Valid()
      modifies this
      ensures Valid() && day != 0 && FixedOffset() == old(FixedOffset())
      ensures old(Shows(shown)) && Civil() == shown.(millisecond := Within(value, 0, 999))
    {
      hide LeapYears, MonthDays, DaysBefore, DaysBeforeMonth, Int32, IsLeapYear, MonthLength, WeekDay;
      shown := Init();
      var clamped := if value > 999 then 999 else value;
      if clamped == millisecond {
        return;
      }
      if !changed {
        SameDay(Civil(), Civil().(millisecond := clamped), instant + offset);
        instant := instant - millisecond + clamped;
      }
      millisecond := clamped;
    }

    /** A day of the month, moved into the month as set, unless it is the current one already. */
    method SetDay(value: nat) returns (ghost shown: Fields)
      requires Valid()
      modifies this
      ensures Valid() && day != 0 && FixedOffset() == old(FixedOffset())
      ensures old(Shows(shown))
      ensures Civil() == if value == shown.day then shown
                         else shown.(day := Within(value, 1, MonthLength(shown.year, shown.month)))
    {
      hide ClosedTime, WeekDay, IsCivil, IsLeapYear;
      shown := Init();
      if value == day {
        return;
      }
      var clamped := if value < 1 then 1 else if value > 31 then 31 else value;
      if clamped > 28 {
        if month < 8 {
          if month == 2 {
            if clamped >= 30 {
              clamped := 29;
            }
            if clamped == 29 && !IsLeapYear(year) {
              clamped := 28;
            }
          } else if clamped == 31 && month % 2 == 0 {
            clamped := 30;
          }
        } else if clamped == 31 {
          if month % 2 == 1 {
            clamped := 30;
          }
        }
      }
      if clamped == day {
        return;
      }
      changed := true;
      day := clamped;
    }

    /** `update(year, month, day, hour, minute, second, millisecond)`, all but the year unsigned: a valid date is
        set exactly whatever was there; what else leaves one is an hour below 24 with a day that is
        clamped, or that is the one shown and in the month. */
    method UpdateFields(f: Fields) returns (ghost shown: Fields)
      requires Valid() && Unsigned(f)
      modifies this
      ensures Valid() && day != 0 && FixedOffset() == old(FixedOffset())
      ensures old(Shows(shown)) && Civil() == Clamped(f, shown.day)
      ensures f.Valid() ==> Civil() == f
      ensures Civil().Valid() <==>
                f.hour < 24 && (f.day == shown.day ==> f.day <= MonthLength(f.year, Within(f.month, 1, 12)))
    {
      shown := SetYear(f.year);
      ghost var step := SetMonth(f.month);
      step := SetHour(f.hour);
      step := SetMinute(f.minute);
      step := SetSecond(f.second);
      step := SetMillisecond(f.millisecond);
      step := SetDay(f.day);
      ClampedIsDateIff(f, shown.day);
    }

    method SetOffset(value: int)
      requires Valid() && value != LOCAL
      modifies this`offset, this`isDST, this`isLocal, this`instant
      ensures Valid() && FixedOffset() == if value == GMT then 0 else value
    {
      if day == 0 || changed {
        offset := value;
        return;
      }
      var fixed := value;
      if value == GMT {
        isDST, isLocal := false, false;
        if offset == 0 {
          return;
        }
        fixed := 0;
      }
      instant := instant + offset - fixed;
      offset := fixed;
    }

    /** `update(year, month, day, hour, minute, second, millisecond, offset)`. */
    method UpdateFieldsAt(f: Fields, offset: int) returns (ghost shown: Fields)
      requires Valid() && Unsigned(f) && offset != LOCAL
      modifies this
      ensures Valid() && day != 0 && old(Shows(shown)) && Civil() == Clamped(f, shown.day)
      ensures f.Valid() ==> Civil() == f
      ensures FixedOffset() == if offset == GMT then 0 else offset
    {
      shown := UpdateFields(f);
      SetOffset(offset);
    }
  }

  // ---------------------------------------------------------------- what the setters let through

  /** A valid date and clock is set as given. Anything else that leaves a date has an hour below 24, and a
      day that is in the month or is not the one shown. */
  lemma ClampedIsDateIff(f: Fields, shown: int)
    requires Unsigned(f)
    ensures f.Valid() ==> Clamped(f, shown) == f
    ensures Clamped(f, shown).Valid() <==>
              f.hour < 24 && (f.day == shown ==> 1 <= f.day <= MonthLength(f.year, Within(f.month, 1, 12)))
  {
    MonthLengths(f.year, Within(f.month, 1, 12));
  }

  lemma MonthLengths(year: int, month: int)
    requires 1 <= month <= 12
    ensures 28 <= MonthLength(year, month) <= 31
  {
  }

  /** Each field by itself. */
  lemma ClampedFieldByField(f: Fields, shown: int)
    requires Unsigned(f)
    ensures var g, last := Clamped(f, shown), MonthLength(f.year, if f.month < 1 then 1 else if f.month > 12 then 12 else f.month);
      && g.year == f.year
      && (f.month == 0 ==> g.month == 1) && (1 <= f.month <= 12 ==> g.month == f.month) && (f.month > 12 ==> g.month == 12)
      && (f.day == shown ==> g.day == shown)
      && (f.day != shown && f.day == 0 ==> g.day == 1)
      && (f.day != shown && 1 <= f.day <= last ==> g.day == f.day)
      && (f.day != shown && f.day > last ==> g.day == last)
      && g.hour == (if f.hour > 59 then 59 else f.hour) && g.minute == (if f.minute > 59 then 59 else f.minute)
      && g.second == (if f.second > 59 then 59 else f.second)
      && g.millisecond == (if f.millisecond > 999 then 999 else f.millisecond)
  {
    MonthLengths(f.year, Within(f.month, 1, 12));
  }

  /** Hour 24 comes out as it went in, and so does 31 February on a date that shows a 31st. */
  lemma NoDateStays()
    ensures Clamped(Fields(1970, 1, 1, 24, 0, 0, 0), 31) == Fields(1970, 1, 1, 24, 0, 0, 0)
    ensures Clamped(Fields(1970, 2, 31, 0, 0, 0, 0), 31) == Fields(1970, 2, 31, 0, 0, 0, 0)
    ensures Clamped(Fields(1970, 2, 31, 0, 0, 0, 0), 1) == Fields(1970, 2, 28, 0, 0, 0, 0)
  {
  }

  // ---------------------------------------------------------------- both ways

  /** From a time to its fields and back: what `Update` leaves gives the time again, exactly when the
      days of the years fit in 32 bits. */
  lemma TimeInvertsUpdate(f: Fields, time: int, offset: int)
    requires f.Valid() && f.Instant() == time + offset
    ensures ClosedTime(f) - offset == time <==> YearFits(f.year)
  {
    ClosedTimeIffFits(f);
  }

  /** From valid fields to their time and back. */
  lemma UpdateInvertsTime(f: Fields, g: Fields)
    requires f.Valid() && YearFits(f.year)
    requires g.Valid() && g.Instant() == ClosedTime(f)
    ensures g == f
  {
    ClosedTimeIffFits(f);
    FieldsUnique(f, g);
  }

  lemma InstantOf(f: Fields, time: int)
    requires 1 <= f.month <= 12 && f.Clock() == time % DAY
    requires DaysBefore(f.year) + DaysBeforeMonth(f.year, f.month) + f.day - 1 == time / DAY
    ensures f.DayNumber() == time / DAY && f.Instant() == time
  {
  }

  /** Milliseconds move the time within its day. */
  lemma SameDay(f: Fields, g: Fields, time: int)
    requires Bounded(f) && Bounded(g) && g == f.(millisecond := g.millisecond)
    requires IsTimeOf(time, f)
    ensures var moved := time - f.millisecond + g.millisecond;
      IsTimeOf(moved, g) && moved / DAY == time / DAY
  {
    hide LeapYears, MonthDays, DaysBefore, DaysBeforeMonth, Int32, IsLeapYear, MonthLength;
    var days := if IsCivil(f, time) then f.DayNumber() else (time - f.Clock()) / DAY;
    var seconds := days * 86400 + f.hour * 3600 + f.minute * 60 + f.second;
    assert time == 1000 * seconds + f.millisecond;
    assert time / DAY == seconds / 86400;
    assert (time - f.millisecond + g.millisecond) / DAY == seconds / 86400;
  }

  lemma SearchRemainder(day: int, year: int)
    requires Turn(day, year) == year
    ensures TruncMod(day + Delta(year), 366)
            == day - DaysBefore(year + 1970) - if year + 1970 > 0 && IsLeapYear(year + 1970) then 1 else 0
  {
    hide LeapYears, DaysBefore;
    DeltaClosed(year);
  }

  lemma TruncDivSign(a: int, b: int)
    requires b > 0
    ensures if a >= 0 then TruncDiv(a, b) >= 0 else TruncDiv(a, b) <= 0
  {
  }

  lemma DeltaZero()
    ensures Delta(0) == 0
  {
  }

  lemma DaysBeforeNext(year: int)
    ensures DaysBefore(year + 1) == DaysBefore(year) + YearLength(year)
  {
  }

  /** The iteration moves towards a fixed point without passing it. */
  lemma TurnBetween(days: int, year: int, turn: int, limit: int)
    requires turn == Turn(days, year) && Turn(days, limit) == limit
    ensures year <= limit ==> turn <= limit
    ensures limit <= year ==> limit <= turn
    ensures year <= turn ==> turn <= Turn(days, turn)
    ensures turn <= year ==> Turn(days, turn) <= turn
  {
    if year <= limit { TurnMonotone(days, year, limit); }
    if limit <= year { TurnMonotone(days, limit, year); }
    if year <= turn { TurnMonotone(days, year, turn); }
    if turn <= year { TurnMonotone(days, turn, year); }
  }
}
