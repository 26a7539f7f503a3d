/** What `Date::format` writes and what the format-driven `Date::update` reads, letter by letter, in literal texts. */
module DatePrinting {
  import opened Calendar
  import opened Dates
  import opened DateText

  // ---------------------------------------------------------------- digits

  function One(n: int): string
    requires 0 <= n < 10
  {
    ["0123456789"[n]]
  }

  function Two(n: int): string
    requires 0 <= n < 100
  {
    ["0123456789"[n / 10], "0123456789"[n % 10]]
  }

  function Three(n: int): string
    requires 0 <= n < 1000
  {
    ["0123456789"[n / 100]] + Two(n % 100)
  }

  lemma DigitIsOne(n: nat)
    requires n < 10
    ensures [Digit(n)] == One(n)
  {
  }

  lemma DecimalIs(n: nat)
    requires n < 100
    ensures Decimal(n) == if n < 10 then One(n) else Two(n)
  {
    DigitIsOne(n % 10);
    if n >= 10 {
      DigitIsOne(n / 10);
      assert Decimal(n / 10) == [Digit(n / 10)];
    }
  }

  lemma FixedTwo(n: nat)
    requires n < 100
    ensures Fixed(n, 2) == Two(n)
  {
    DigitIsOne(n % 10);
    DigitIsOne(n / 10);
    assert Fixed(n / 10, 1) == Fixed(n / 10 / 10, 0) + [Digit(n / 10 % 10)];
  }

  lemma FixedThree(n: nat)
    requires n < 1000
    ensures Fixed(n, 3) == Three(n)
  {
    FixedTwo(n / 10);
    DigitIsOne(n % 10);
    hide Digit, Fixed;
    assert Fixed(n, 3) == Fixed(n / 10, 2) + [Digit(n % 10)] by { FixedMore(n, 2); }
    assert n / 10 / 10 == n / 100 && n % 100 / 10 == n / 10 % 10 && n % 100 % 10 == n % 10;
  }

  lemma FixedMore(n: nat, width: nat)
    ensures Fixed(n, width + 1) == Fixed(n / 10, width) + [Digit(n % 10)]
  {
  }

  lemma FixedFour(n: nat)
    requires n < 10000
    ensures Fixed(n, 4) == Two(n / 100) + Two(n % 100)
  {
    FixedTwo(n / 100);
    FixedMore(n, 3);
    FixedMore(n / 10, 2);
    DigitIsOne(n % 10);
    DigitIsOne(n / 10 % 10);
    hide Digit, Fixed;
    assert n / 10 / 10 == n / 100 && n % 100 / 10 == n / 10 % 10 && n % 100 % 10 == n % 10;
    assert Two(n % 100) == One(n / 10 % 10) + One(n % 10);
  }

  lemma ZerosAre(n: nat)
    ensures n < 100 ==> Zeros(n, 2) == Two(n)
    ensures n < 1000 ==> Zeros(n, 3) == Three(n)
    ensures n < 10000 ==> Zeros(n, 4) == Two(n / 100) + Two(n % 100)
  {
    Powers();
    hide Decimal, Fixed, Digit, Padded, Two, Three;
    if n < 100 {
      PaddedIsFixed(n, 2);
      FixedTwo(n);
    }
    if n < 1000 {
      PaddedIsFixed(n, 3);
      FixedThree(n);
    }
    if n < 10000 {
      PaddedIsFixed(n, 4);
      FixedFour(n);
    }
  }

  // ---------------------------------------------------------------- the printer

  lemma OneLetter(letter: char, s: Stamp)
    requires s.Valid() && letter != 't' && letter != 'T'
    ensures Print(['%', letter], s) == Show(letter, s)
  {
    hide Show;
    PrintStep(['%', letter], s);
    PrintEnd(s);
    assert ['%', letter][2..] == "";
  }

  // the branch of each letter

  lemma ShortDay(s: Stamp)
    requires s.Valid()
    ensures Print("%w", s) == WEEK_DAYS[s.weekDay][..3]
  {
    assert Show('w', s) == WEEK_DAYS[s.weekDay][..3] by {
      hide Zeros, Decimal, Padded, OffsetText, TruncMod;
    }
    hide Show, Zeros, Decimal, Padded, OffsetText, TruncMod, Print;
    OneLetter('w', s);
  }

  lemma LongDay(s: Stamp)
    requires s.Valid()
    ensures Print("%W", s) == WEEK_DAYS[s.weekDay]
  {
    assert Show('W', s) == WEEK_DAYS[s.weekDay] by {
      hide Zeros, Decimal, Padded, OffsetText, TruncMod;
    }
    hide Show, Zeros, Decimal, Padded, OffsetText, TruncMod, Print;
    OneLetter('W', s);
  }

  lemma ShortMonth(s: Stamp)
    requires s.Valid()
    ensures Print("%b", s) == MonthName(s.fields.month)[..3]
  {
    assert Show('b', s) == MonthName(s.fields.month)[..3] by {
      hide Zeros, Decimal, Padded, OffsetText, TruncMod;
    }
    hide Show, Zeros, Decimal, Padded, OffsetText, TruncMod, Print;
    OneLetter('b', s);
  }

  lemma LongMonth(s: Stamp)
    requires s.Valid()
    ensures Print("%B", s) == MonthName(s.fields.month)
  {
    assert Show('B', s) == MonthName(s.fields.month) by {
      hide Zeros, Decimal, Padded, OffsetText, TruncMod;
    }
    hide Show, Zeros, Decimal, Padded, OffsetText, TruncMod, Print;
    OneLetter('B', s);
  }

  lemma DayOfTwo(s: Stamp)
    requires s.Valid()
    ensures Print("%d", s) == Zeros(s.fields.day, 2)
  {
    assert Show('d', s) == Zeros(s.fields.day, 2) by {
      hide Zeros, Decimal, Padded, OffsetText, MonthName, WEEK_DAYS, TruncMod;
    }
    hide Show, Zeros, Decimal, Padded, OffsetText, MonthName, WEEK_DAYS, TruncMod, Print;
    OneLetter('d', s);
  }

  lemma MonthOfTwo(s: Stamp)
    requires s.Valid()
    ensures Print("%m", s) == Zeros(s.fields.month, 2)
  {
    assert Show('m', s) == Zeros(s.fields.month, 2) by {
      hide Zeros, Decimal, Padded, OffsetText, MonthName, WEEK_DAYS, TruncMod;
    }
    hide Show, Zeros, Decimal, Padded, OffsetText, MonthName, WEEK_DAYS, TruncMod, Print;
    OneLetter('m', s);
  }

  lemma DayAsIs(s: Stamp)
    requires s.Valid()
    ensures Print("%e", s) == Decimal(s.fields.day)
  {
    assert Show('e', s) == Decimal(s.fields.day) by {
      hide Zeros, Decimal, Padded, OffsetText, MonthName, WEEK_DAYS, TruncMod;
    }
    hide Show, Zeros, Decimal, Padded, OffsetText, MonthName, WEEK_DAYS, TruncMod, Print;
    OneLetter('e', s);
  }

  lemma MonthAsIs(s: Stamp)
    requires s.Valid()
    ensures Print("%n", s) == Decimal(s.fields.month)
  {
    assert Show('n', s) == Decimal(s.fields.month) by {
      hide Zeros, Decimal, Padded, OffsetText, MonthName, WEEK_DAYS, TruncMod;
    }
    hide Show, Zeros, Decimal, Padded, OffsetText, MonthName, WEEK_DAYS, TruncMod, Print;
    OneLetter('n', s);
  }

  lemma DaySpaced(s: Stamp)
    requires s.Valid()
    ensures Print("%f", s) == Padded(Decimal(s.fields.day), 2, ' ')
  {
    assert Show('f', s) == Padded(Decimal(s.fields.day), 2, ' ') by {
      hide Zeros, Decimal, Padded, OffsetText, MonthName, WEEK_DAYS, TruncMod;
    }
    hide Show, Zeros, Decimal, Padded, OffsetText, MonthName, WEEK_DAYS, TruncMod, Print;
    OneLetter('f', s);
  }

  lemma MonthSpaced(s: Stamp)
    requires s.Valid()
    ensures Print("%o", s) == Padded(Decimal(s.fields.month), 2, ' ')
  {
    assert Show('o', s) == Padded(Decimal(s.fields.month), 2, ' ') by {
      hide Zeros, Decimal, Padded, OffsetText, MonthName, WEEK_DAYS, TruncMod;
    }
    hide Show, Zeros, Decimal, Padded, OffsetText, MonthName, WEEK_DAYS, TruncMod, Print;
    OneLetter('o', s);
  }

  lemma YearOfTwo(s: Stamp)
    requires s.Valid()
    ensures Print("%y", s) == Zeros(TruncMod(s.fields.year, 100), 2)
  {
    assert Show('y', s) == Zeros(TruncMod(s.fields.year, 100), 2) by {
      hide Zeros, Decimal, Padded, OffsetText, MonthName, WEEK_DAYS, TruncMod;
    }
    hide Show, Zeros, Decimal, Padded, OffsetText, MonthName, WEEK_DAYS, TruncMod, Print;
    OneLetter('y', s);
  }

  lemma YearOfFour(s: Stamp)
    requires s.Valid()
    ensures Print("%Y", s) == Zeros(s.fields.year, 4)
  {
    assert Show('Y', s) == Zeros(s.fields.year, 4) by {
      hide Zeros, Decimal, Padded, OffsetText, MonthName, WEEK_DAYS, TruncMod;
    }
    hide Show, Zeros, Decimal, Padded, OffsetText, MonthName, WEEK_DAYS, TruncMod, Print;
    OneLetter('Y', s);
  }

  lemma HourOfDay(s: Stamp)
    requires s.Valid()
    ensures Print("%H", s) == Zeros(s.fields.hour, 2)
  {
    assert Show('H', s) == Zeros(s.fields.hour, 2) by {
      hide Zeros, Decimal, Padded, OffsetText, MonthName, WEEK_DAYS, TruncMod;
    }
    hide Show, Zeros, Decimal, Padded, OffsetText, MonthName, WEEK_DAYS, TruncMod, Print;
    OneLetter('H', s);
  }

  lemma HourOfHalf(s: Stamp)
    requires s.Valid()
    ensures Print("%h", s) == Zeros(if s.fields.hour < 1 then 12 else if s.fields.hour > 12 then s.fields.hour - 12 else s.fields.hour, 2)
  {
    assert Show('h', s) == Zeros(if s.fields.hour < 1 then 12 else if s.fields.hour > 12 then s.fields.hour - 12 else s.fields.hour, 2) by {
      hide Zeros, Decimal, Padded, OffsetText, MonthName, WEEK_DAYS, TruncMod;
    }
    hide Show, Zeros, Decimal, Padded, OffsetText, MonthName, WEEK_DAYS, TruncMod, Print;
    OneLetter('h', s);
  }

  lemma SmallHalf(s: Stamp)
    requires s.Valid()
    ensures Print("%a", s) == if s.fields.hour < 12 then "am" else "pm"
  {
    assert Show('a', s) == (if s.fields.hour < 12 then "am" else "pm") by {
      hide Zeros, Decimal, Padded, OffsetText, MonthName, WEEK_DAYS, TruncMod;
    }
    hide Show, Zeros, Decimal, Padded, OffsetText, MonthName, WEEK_DAYS, TruncMod, Print;
    OneLetter('a', s);
  }

  lemma LargeHalf(s: Stamp)
    requires s.Valid()
    ensures Print("%A", s) == if s.fields.hour < 12 then "AM" else "PM"
  {
    assert Show('A', s) == (if s.fields.hour < 12 then "AM" else "PM") by {
      hide Zeros, Decimal, Padded, OffsetText, MonthName, WEEK_DAYS, TruncMod;
    }
    hide Show, Zeros, Decimal, Padded, OffsetText, MonthName, WEEK_DAYS, TruncMod, Print;
    OneLetter('A', s);
  }

  lemma MinuteOfTwo(s: Stamp)
    requires s.Valid()
    ensures Print("%M", s) == Zeros(s.fields.minute, 2)
  {
    assert Show('M', s) == Zeros(s.fields.minute, 2) by {
      hide Zeros, Decimal, Padded, OffsetText, MonthName, WEEK_DAYS, TruncMod;
    }
    hide Show, Zeros, Decimal, Padded, OffsetText, MonthName, WEEK_DAYS, TruncMod, Print;
    OneLetter('M', s);
  }

  lemma SecondOfTwo(s: Stamp)
    requires s.Valid()
    ensures Print("%S", s) == Zeros(s.fields.second, 2)
  {
    assert Show('S', s) == Zeros(s.fields.second, 2) by {
      hide Zeros, Decimal, Padded, OffsetText, MonthName, WEEK_DAYS, TruncMod;
    }
    hide Show, Zeros, Decimal, Padded, OffsetText, MonthName, WEEK_DAYS, TruncMod, Print;
    OneLetter('S', s);
  }

  lemma SecondAndMore(s: Stamp)
    requires s.Valid()
    ensures Print("%s", s) == Zeros(s.fields.second, 2) + "." + Zeros(s.fields.millisecond, 3)
  {
    assert Show('s', s) == Zeros(s.fields.second, 2) + "." + Zeros(s.fields.millisecond, 3) by {
      hide Zeros, Decimal, Padded, OffsetText, MonthName, WEEK_DAYS, TruncMod;
    }
    hide Show, Zeros, Decimal, Padded, OffsetText, MonthName, WEEK_DAYS, TruncMod, Print;
    OneLetter('s', s);
  }

  lemma Thousandths(s: Stamp)
    requires s.Valid()
    ensures Print("%i", s) == Zeros(s.fields.millisecond, 3)
  {
    assert Show('i', s) == Zeros(s.fields.millisecond, 3) by {
      hide Zeros, Decimal, Padded, OffsetText, MonthName, WEEK_DAYS, TruncMod;
    }
    hide Show, Zeros, Decimal, Padded, OffsetText, MonthName, WEEK_DAYS, TruncMod, Print;
    OneLetter('i', s);
  }

  lemma Fraction3(s: Stamp)
    requires s.Valid()
    ensures Print("%F", s) == Zeros(s.fields.millisecond, 3)
  {
    assert Show('F', s) == Zeros(s.fields.millisecond, 3) by {
      hide Zeros, Decimal, Padded, OffsetText, MonthName, WEEK_DAYS, TruncMod;
    }
    hide Show, Zeros, Decimal, Padded, OffsetText, MonthName, WEEK_DAYS, TruncMod, Print;
    OneLetter('F', s);
  }

  lemma Tenths(s: Stamp)
    requires s.Valid()
    ensures Print("%c", s) == Decimal(s.fields.millisecond / 100)
  {
    assert Show('c', s) == Decimal(s.fields.millisecond / 100) by {
      hide Zeros, Decimal, Padded, OffsetText, MonthName, WEEK_DAYS, TruncMod;
    }
    hide Show, Zeros, Decimal, Padded, OffsetText, MonthName, WEEK_DAYS, TruncMod, Print;
    OneLetter('c', s);
  }

  lemma IsoOffset(s: Stamp)
    requires s.Valid()
    ensures Print("%z", s) == OffsetText(s.offset, true)
  {
    assert Show('z', s) == OffsetText(s.offset, true) by {
      hide Zeros, Decimal, Padded, OffsetText, MonthName, WEEK_DAYS, TruncMod;
    }
    hide Show, Zeros, Decimal, Padded, OffsetText, MonthName, WEEK_DAYS, TruncMod, Print;
    OneLetter('z', s);
  }

  lemma PlainOffset(s: Stamp)
    requires s.Valid()
    ensures Print("%Z", s) == OffsetText(s.offset, false)
  {
    assert Show('Z', s) == OffsetText(s.offset, false) by {
      hide Zeros, Decimal, Padded, OffsetText, MonthName, WEEK_DAYS, TruncMod;
    }
    hide Show, Zeros, Decimal, Padded, OffsetText, MonthName, WEEK_DAYS, TruncMod, Print;
    OneLetter('Z', s);
  }

  /** The names of the days: day 0 was a Thursday. */
  lemma PrintWeekDay(s: Stamp, day: int)
    requires s.Valid() && s.weekDay == WeekDay(day)
    ensures day % 7 == 0 ==> Print("%w", s) == "Thu" && Print("%W", s) == "Thursday"
    ensures day % 7 == 1 ==> Print("%w", s) == "Fri" && Print("%W", s) == "Friday"
    ensures day % 7 == 2 ==> Print("%w", s) == "Sat" && Print("%W", s) == "Saturday"
    ensures day % 7 == 3 ==> Print("%w", s) == "Sun" && Print("%W", s) == "Sunday"
    ensures day % 7 == 4 ==> Print("%w", s) == "Mon" && Print("%W", s) == "Monday"
    ensures day % 7 == 5 ==> Print("%w", s) == "Tue" && Print("%W", s) == "Tuesday"
    ensures day % 7 == 6 ==> Print("%w", s) == "Wed" && Print("%W", s) == "Wednesday"
  {
    WeekDayCycles(day);
    hide Print, WeekDay, WEEK_DAYS;
    match s.weekDay {
      case 0 => NameOfDay0(s);
      case 1 => NameOfDay1(s);
      case 2 => NameOfDay2(s);
      case 3 => NameOfDay3(s);
      case 4 => NameOfDay4(s);
      case 5 => NameOfDay5(s);
      case _ => NameOfDay6(s);
    }
  }

  lemma NameOfDay0(s: Stamp)
    requires s.Valid() && s.weekDay == 0
    ensures Print("%w", s) == "Sun" && Print("%W", s) == "Sunday"
  {
    ShortDay(s);
    LongDay(s);
    hide Print;
    assert "Sunday"[..3] == "Sun";
  }

  lemma NameOfDay1(s: Stamp)
    requires s.Valid() && s.weekDay == 1
    ensures Print("%w", s) == "Mon" && Print("%W", s) == "Monday"
  {
    ShortDay(s);
    LongDay(s);
    hide Print;
    assert "Monday"[..3] == "Mon";
  }

  lemma NameOfDay2(s: Stamp)
    requires s.Valid() && s.weekDay == 2
    ensures Print("%w", s) == "Tue" && Print("%W", s) == "Tuesday"
  {
    ShortDay(s);
    LongDay(s);
    hide Print;
    assert "Tuesday"[..3] == "Tue";
  }

  lemma NameOfDay3(s: Stamp)
    requires s.Valid() && s.weekDay == 3
    ensures Print("%w", s) == "Wed" && Print("%W", s) == "Wednesday"
  {
    ShortDay(s);
    LongDay(s);
    hide Print;
    assert "Wednesday"[..3] == "Wed";
  }

  lemma NameOfDay4(s: Stamp)
    requires s.Valid() && s.weekDay == 4
    ensures Print("%w", s) == "Thu" && Print("%W", s) == "Thursday"
  {
    ShortDay(s);
    LongDay(s);
    hide Print;
    assert "Thursday"[..3] == "Thu";
  }

  lemma NameOfDay5(s: Stamp)
    requires s.Valid() && s.weekDay == 5
    ensures Print("%w", s) == "Fri" && Print("%W", s) == "Friday"
  {
    ShortDay(s);
    LongDay(s);
    hide Print;
    assert "Friday"[..3] == "Fri";
  }

  lemma NameOfDay6(s: Stamp)
    requires s.Valid() && s.weekDay == 6
    ensures Print("%w", s) == "Sat" && Print("%W", s) == "Saturday"
  {
    ShortDay(s);
    LongDay(s);
    hide Print;
    assert "Saturday"[..3] == "Sat";
  }

  lemma PrintMonth(s: Stamp)
    requires s.Valid()
    ensures s.fields.month == 1 ==> Print("%b", s) == "Jan" && Print("%B", s) == "January"
    ensures s.fields.month == 2 ==> Print("%b", s) == "Feb" && Print("%B", s) == "February"
    ensures s.fields.month == 3 ==> Print("%b", s) == "Mar" && Print("%B", s) == "March"
    ensures s.fields.month == 4 ==> Print("%b", s) == "Apr" && Print("%B", s) == "April"
    ensures s.fields.month == 5 ==> Print("%b", s) == "May" && Print("%B", s) == "May"
    ensures s.fields.month == 6 ==> Print("%b", s) == "Jun" && Print("%B", s) == "June"
    ensures s.fields.month == 7 ==> Print("%b", s) == "Jul" && Print("%B", s) == "July"
    ensures s.fields.month == 8 ==> Print("%b", s) == "Aug" && Print("%B", s) == "August"
    ensures s.fields.month == 9 ==> Print("%b", s) == "Sep" && Print("%B", s) == "September"
    ensures s.fields.month == 10 ==> Print("%b", s) == "Oct" && Print("%B", s) == "October"
    ensures s.fields.month == 11 ==> Print("%b", s) == "Nov" && Print("%B", s) == "November"
    ensures s.fields.month == 12 ==> Print("%b", s) == "Dec" && Print("%B", s) == "December"
  {
    hide Print, MonthName;
    match s.fields.month {
      case 1 => NameOfMonth1(s);
      case 2 => NameOfMonth2(s);
      case 3 => NameOfMonth3(s);
      case 4 => NameOfMonth4(s);
      case 5 => NameOfMonth5(s);
      case 6 => NameOfMonth6(s);
      case 7 => NameOfMonth7(s);
      case 8 => NameOfMonth8(s);
      case 9 => NameOfMonth9(s);
      case 10 => NameOfMonth10(s);
      case 11 => NameOfMonth11(s);
      case _ => NameOfMonth12(s);
    }
  }

  lemma NameOfMonth1(s: Stamp)
    requires s.Valid() && s.fields.month == 1
    ensures Print("%b", s) == "Jan" && Print("%B", s) == "January"
  {
    ShortMonth(s);
    LongMonth(s);
    hide Print;
    assert "January"[..3] == "Jan";
  }

  lemma NameOfMonth2(s: Stamp)
    requires s.Valid() && s.fields.month == 2
    ensures Print("%b", s) == "Feb" && Print("%B", s) == "February"
  {
    ShortMonth(s);
    LongMonth(s);
    hide Print;
    assert "February"[..3] == "Feb";
  }

  lemma NameOfMonth3(s: Stamp)
    requires s.Valid() && s.fields.month == 3
    ensures Print("%b", s) == "Mar" && Print("%B", s) == "March"
  {
    ShortMonth(s);
    LongMonth(s);
    hide Print;
    assert "March"[..3] == "Mar";
  }

  lemma NameOfMonth4(s: Stamp)
    requires s.Valid() && s.fields.month == 4
    ensures Print("%b", s) == "Apr" && Print("%B", s) == "April"
  {
    ShortMonth(s);
    LongMonth(s);
    hide Print;
    assert "April"[..3] == "Apr";
  }

  lemma NameOfMonth5(s: Stamp)
    requires s.Valid() && s.fields.month == 5
    ensures Print("%b", s) == "May" && Print("%B", s) == "May"
  {
    ShortMonth(s);
    LongMonth(s);
    hide Print;
    assert "May"[..3] == "May";
  }

  lemma NameOfMonth6(s: Stamp)
    requires s.Valid() && s.fields.month == 6
    ensures Print("%b", s) == "Jun" && Print("%B", s) == "June"
  {
    ShortMonth(s);
    LongMonth(s);
    hide Print;
    assert "June"[..3] == "Jun";
  }

  lemma NameOfMonth7(s: Stamp)
    requires s.Valid() && s.fields.month == 7
    ensures Print("%b", s) == "Jul" && Print("%B", s) == "July"
  {
    ShortMonth(s);
    LongMonth(s);
    hide Print;
    assert "July"[..3] == "Jul";
  }

  lemma NameOfMonth8(s: Stamp)
    requires s.Valid() && s.fields.month == 8
    ensures Print("%b", s) == "Aug" && Print("%B", s) == "August"
  {
    ShortMonth(s);
    LongMonth(s);
    hide Print;
    assert "August"[..3] == "Aug";
  }

  lemma NameOfMonth9(s: Stamp)
    requires s.Valid() && s.fields.month == 9
    ensures Print("%b", s) == "Sep" && Print("%B", s) == "September"
  {
    ShortMonth(s);
    LongMonth(s);
    hide Print;
    assert "September"[..3] == "Sep";
  }

  lemma NameOfMonth10(s: Stamp)
    requires s.Valid() && s.fields.month == 10
    ensures Print("%b", s) == "Oct" && Print("%B", s) == "October"
  {
    ShortMonth(s);
    LongMonth(s);
    hide Print;
    assert "October"[..3] == "Oct";
  }

  lemma NameOfMonth11(s: Stamp)
    requires s.Valid() && s.fields.month == 11
    ensures Print("%b", s) == "Nov" && Print("%B", s) == "November"
  {
    ShortMonth(s);
    LongMonth(s);
    hide Print;
    assert "November"[..3] == "Nov";
  }

  lemma NameOfMonth12(s: Stamp)
    requires s.Valid() && s.fields.month == 12
    ensures Print("%b", s) == "Dec" && Print("%B", s) == "December"
  {
    ShortMonth(s);
    LongMonth(s);
    hide Print;
    assert "December"[..3] == "Dec";
  }

  /** Day and month, with a zero, as they are, or with a space. */
  lemma PrintDay(s: Stamp)
    requires s.Valid()
    ensures var day, month := s.fields.day, s.fields.month;
      && Print("%d", s) == Two(day) && Print("%m", s) == Two(month)
      && Print("%e", s) == (if day < 10 then One(day) else Two(day))
      && Print("%n", s) == (if month < 10 then One(month) else Two(month))
      && Print("%f", s) == (if day < 10 then " " + One(day) else Two(day))
      && Print("%o", s) == (if month < 10 then " " + One(month) else Two(month))
  {
    DayOfTwo(s);
    MonthOfTwo(s);
    DayAsIs(s);
    MonthAsIs(s);
    DaySpaced(s);
    MonthSpaced(s);
    ZerosAre(s.fields.day);
    ZerosAre(s.fields.month);
    DecimalIs(s.fields.day);
    DecimalIs(s.fields.month);
    SpacedIs(s.fields.day);
    SpacedIs(s.fields.month);
    hide Print, Zeros, Decimal, Padded, OffsetText, Two, One, Three;
  }

  lemma SpacedIs(n: nat)
    requires n < 100
    ensures Padded(Decimal(n), 2, ' ') == if n < 10 then " " + One(n) else Two(n)
  {
    DecimalIs(n);
    hide Decimal;
    assert seq(1, _ => ' ') == " ";
  }

  /** The year, and its last two digits. */
  lemma PrintYear(s: Stamp)
    requires s.Valid() && 0 <= s.fields.year < 10000
    ensures Print("%Y", s) == Two(s.fields.year / 100) + Two(s.fields.year % 100)
    ensures Print("%y", s) == Two(s.fields.year % 100)
  {
    YearOfFour(s);
    YearOfTwo(s);
    ZerosAre(s.fields.year);
    ZerosAre(s.fields.year % 100);
    assert TruncMod(s.fields.year, 100) == s.fields.year % 100;
    hide Print, Zeros, Decimal, Padded, OffsetText, Two, One, Three;
  }

  /** The clock of 24 hours and the one of 12. */
  lemma PrintClock(s: Stamp)
    requires s.Valid() && s.fields.hour < 24
    ensures Print("%H", s) == Two(s.fields.hour) && Print("%M", s) == Two(s.fields.minute)
    ensures s.fields.hour == 0 || s.fields.hour == 12 ==> Print("%h", s) == "12"
    ensures 0 < s.fields.hour < 12 ==> Print("%h", s) == Two(s.fields.hour)
    ensures 12 < s.fields.hour ==> Print("%h", s) == Two(s.fields.hour - 12)
    ensures s.fields.hour < 12 ==> Print("%a", s) == "am" && Print("%A", s) == "AM"
    ensures s.fields.hour >= 12 ==> Print("%a", s) == "pm" && Print("%A", s) == "PM"
  {
    assert Two(12) == "12";
    HourOfDay(s);
    HourOfHalf(s);
    MinuteOfTwo(s);
    SmallHalf(s);
    LargeHalf(s);
    ZerosAre(s.fields.hour);
    ZerosAre(s.fields.minute);
    ZerosAre(if s.fields.hour < 1 then 12 else if s.fields.hour > 12 then s.fields.hour - 12 else s.fields.hour);
    hide Print, Zeros, Decimal, Padded, OffsetText, Two, One, Three;
  }

  /** Seconds, milliseconds, both, and tenths. */
  lemma PrintSecond(s: Stamp)
    requires s.Valid()
    ensures Print("%S", s) == Two(s.fields.second)
    ensures Print("%s", s) == Two(s.fields.second) + "." + Three(s.fields.millisecond)
    ensures Print("%i", s) == Three(s.fields.millisecond) && Print("%F", s) == Three(s.fields.millisecond)
    ensures Print("%c", s) == One(s.fields.millisecond / 100)
  {
    SecondOfTwo(s);
    SecondAndMore(s);
    Thousandths(s);
    Fraction3(s);
    Tenths(s);
    ZerosAre(s.fields.second);
    ZerosAre(s.fields.millisecond);
    DecimalIs(s.fields.millisecond / 100);
    hide Print, Zeros, Decimal, Padded, OffsetText, Two, One, Three;
  }

  /** No offset, and an offset of these minutes, east of Greenwich with a plus. */
  lemma PrintOffset(s: Stamp, minutes: nat)
    requires s.Valid() && minutes < 6000 && minutes == (if s.offset < 0 then -s.offset else s.offset) / 60000
    ensures s.offset == 0 ==> Print("%z", s) == "Z" && Print("%Z", s) == "GMT"
    ensures s.offset > 0 ==> Print("%z", s) == "+" + Two(minutes / 60) + ":" + Two(minutes % 60)
    ensures s.offset > 0 ==> Print("%Z", s) == "+" + Two(minutes / 60) + Two(minutes % 60)
    ensures s.offset < 0 ==> Print("%z", s) == "-" + Two(minutes / 60) + ":" + Two(minutes % 60)
    ensures s.offset < 0 ==> Print("%Z", s) == "-" + Two(minutes / 60) + Two(minutes % 60)
  {
    IsoOffset(s);
    PlainOffset(s);
    OffsetIs(s.offset, minutes);
    hide Print, OffsetText, Two;
  }

  lemma OffsetIs(offset: int, minutes: nat)
    requires minutes < 6000 && minutes == (if offset < 0 then -offset else offset) / 60000
    ensures offset == 0 ==> OffsetText(offset, true) == "Z" && OffsetText(offset, false) == "GMT"
    ensures offset > 0 ==> OffsetText(offset, true) == "+" + Two(minutes / 60) + ":" + Two(minutes % 60)
    ensures offset > 0 ==> OffsetText(offset, false) == "+" + Two(minutes / 60) + Two(minutes % 60)
    ensures offset < 0 ==> OffsetText(offset, true) == "-" + Two(minutes / 60) + ":" + Two(minutes % 60)
    ensures offset < 0 ==> OffsetText(offset, false) == "-" + Two(minutes / 60) + Two(minutes % 60)
  {
    var value := if offset < 0 then -offset else offset;
    var hours, rest := value / 3600000, value % 3600000 / 60000;
    MinutesOf(value);
    ZerosAre(hours);
    ZerosAre(rest);
    hide Zeros, Two;
    var start := (if offset < 0 then "-" else "+") + Two(hours);
    assert start + "" == start;
  }

  lemma MinutesOf(value: nat)
    ensures value / 3600000 == value / 60000 / 60 && value % 3600000 / 60000 == value / 60000 % 60
  {
  }

  lemma OneTime(letter: char, unit: char, s: Stamp)
    requires s.Valid() && (letter == 't' || letter == 'T')
    ensures Print(['%', letter, unit], s) == ShowTime(unit, s.time)
  {
    hide ShowTime;
    PrintStep(['%', letter, unit], s);
    PrintEnd(s);
    assert ['%', letter, unit][3..] == "";
  }

  /** The time in hours, minutes, seconds, or, with any other unit, in milliseconds. */
  lemma PrintTime(s: Stamp, unit: char, size: nat)
    requires s.Valid() && 0 <= s.time < 100 * size
    requires if unit == 'h' || unit == 'H' then size == 3600000 else if unit == 'm' || unit == 'M' then size == 60000
             else if unit == 's' || unit == 'S' then size == 1000 else size == 1
    ensures Print(['%', 't', unit], s) == Print(['%', 'T', unit], s) == Two(s.time / size)
  {
    TimeIs(s.time, unit, size);
    hide ShowTime, Two, Print;
    OneTime('t', unit, s);
    OneTime('T', unit, s);
  }

  lemma TimeIs(time: int, unit: char, size: nat)
    requires 0 <= time < 100 * size
    requires if unit == 'h' || unit == 'H' then size == 3600000 else if unit == 'm' || unit == 'M' then size == 60000
             else if unit == 's' || unit == 'S' then size == 1000 else size == 1
    ensures 0 <= time / size < 100 && ShowTime(unit, time) == Two(time / size)
  {
    assert Factor(unit) == size;
    hide Factor, Zeros, Two;
    Quotient(time, size);
    ZerosAre(time / size);
  }

  lemma Quotient(time: int, size: nat)
    requires 0 <= time < 100 * size
    ensures 0 <= time / size < 100 && TruncDiv(time, size) % UINT64 == time / size
  {
  }

  /** A character that is no letter of a format stands for itself, after '%' and elsewhere; brackets write nothing. */
  lemma PrintItself(c: char, s: Stamp)
    requires s.Valid()
    ensures c !in "wWbBdefmnoyYHhaAMSsFiczZtT" ==> Print(['%', c], s) == [c]
    ensures c !in "%[]" ==> Print([c], s) == [c]
    ensures Print("[", s) == "" && Print("]", s) == ""
  {
    PrintEnd(s);
    if c !in "wWbBdefmnoyYHhaAMSsFiczZtT" {
      OneLetter(c, s);
    }
    if c !in "%[]" {
      PrintStep([c], s);
    }
    PrintStep("[", s);
    PrintStep("]", s);
    hide Print, Zeros, Decimal, Padded, OffsetText;
  }

  // ---------------------------------------------------------------- the parser, where it reads what is not printed

  /** Two digits of a year: from 70 on they are of the last century. */
  lemma ReadCentury(n: nat, t: Scan, tail: string, zones: map<string, int>)
    requires n < 100 && Natural(t) && t.year == 0 && t.rest == Two(n) + tail
    ensures Read('y', t, zones) == Some(t.(rest := tail, year := if n >= 70 then 1900 + n else 2000 + n))
  {
    TwoAreRead(n, tail);
    hide Two, Number, ReadZone, ReadSeconds, ReadMonth, ReadHalf, ReadDay, ReadFraction;
  }

  lemma TwoAreRead(n: nat, tail: string)
    requires n < 100
    ensures Number(Two(n) + tail, 2, 0) == (n, tail) && n % UINT8 == n
  {
    ZerosAre(n);
    Powers();
    ReadZeros(n, 2, tail);
  }

  /** A year of any length, or of the two digits of a century. */
  lemma ReadAnyYear(n: nat, t: Scan, tail: string, zones: map<string, int>)
    requires Natural(t) && t.year == 0 && t.rest == Decimal(n) + tail && !DigitFirst(tail)
    ensures Read('_', t, zones)
            == Some(t.(rest := tail, year := if n < 70 then 2000 + n else if n < 100 then 1900 + n else n))
  {
    NumberOfDecimal(n, tail, |tail|);
    hide Decimal, ReadZone, ReadSeconds, ReadMonth, ReadHalf, ReadDay, ReadFraction;
    assert |t.rest| == |Decimal(n)| + |tail|;
    assert Number(tail, |tail|, n) == (n, tail);
  }

  /** Hours of both clocks and the month, as two digits. */
  lemma ReadTwo(n: nat, t: Scan, tail: string, zones: map<string, int>)
    requires n < 100 && Natural(t) && t.rest == Two(n) + tail
    ensures t.hour == 0 ==> Read('h', t, zones) == Read('H', t, zones) == Some(t.(rest := tail, hour := n))
    ensures t.month == 0 ==> Read('o', t, zones) == Read('m', t, zones) == Some(t.(rest := tail, month := n))
  {
    TwoAreRead(n, tail);
    hide Two, Number, ReadZone, ReadSeconds, ReadMonth, ReadHalf, ReadDay, ReadFraction;
  }

  /** One digit of tenths of a second. */
  lemma ReadTenth(n: nat, t: Scan, tail: string, zones: map<string, int>)
    requires n < 10 && Natural(t) && t.millisecond == 0 && t.rest == One(n) + tail
    ensures Read('c', t, zones) == Some(t.(rest := tail, millisecond := 100 * n))
  {
    assert t.rest[1..] == tail;
    assert (t.rest[0] - '0') as nat == n;
    assert Number(tail, 0, n) == (n, tail);
    hide ReadZone, ReadSeconds, ReadMonth, ReadHalf, ReadDay, ReadFraction;
  }

  /** Morning and afternoon, whatever the case of the letters. */
  lemma ReadHalfDay(word: string, letter: char, t: Scan, tail: string, zones: map<string, int>)
    requires word in {"am", "AM", "Am", "aM", "pm", "PM", "Pm", "pM"} && (letter == 'a' || letter == 'A')
    requires Natural(t) && t.rest == word + tail && !AlphaFirst(tail)
    ensures Read(letter, t, zones) ==
      Some(t.(rest := tail, hour := if word[0] in "aA" then (if t.hour == 12 then 0 else t.hour)
                                    else if t.hour < 12 then t.hour + 12 else t.hour))
  {
    hide ReadZone, ReadSeconds, ReadMonth, ReadDay, ReadFraction;
    assert Word(tail) == 0;
    assert t.rest[1..] == [word[1]] + tail && t.rest[1..][1..] == tail;
    assert Word(t.rest) == 2 && t.rest[..2] == word && t.rest[2..] == tail;
  }

  /** The digits of a time count in its unit, and add up. */
  lemma ReadTimes(n: nat, unit: char, size: nat, t: Scan, tail: string, zones: map<string, int>)
    requires Natural(t) && t.rest == Decimal(n) + tail && !DigitFirst(tail) && n <= INT64_MAX && IsAlpha(unit)
    requires if unit == 'h' || unit == 'H' then size == 3600000 else if unit == 'm' || unit == 'M' then size == 60000
             else if unit == 's' || unit == 'S' then size == 1000 else size == 1
    ensures Parse(['%', 'T', unit], t, zones) == Some(t.(rest := tail, time := t.time + n * size))
  {
    NumberOfDecimal(n, tail, |tail|);
    LongerThanTail(n, tail);
    var format := ['%', 'T', unit];
    assert format[3..] == "" && Factor(unit) == size;
    assert |t.rest| == |Decimal(n)| + |tail|;
    assert Number(tail, |tail|, n) == (n, tail);
    hide Decimal, Number, Factor, Read, ReadLiteral;
    var u := ReadTime(size, t).value;
    assert u == t.(rest := tail, time := t.time + n * size);
    assert Parse("", u, zones) == Some(u);
  }

  lemma LongerThanTail(n: nat, tail: string)
    ensures Decimal(n) + tail != tail
  {
    assert |Decimal(n) + tail| > |tail|;
  }

  predicate Letters(name: string) { name != "" && forall i :: 0 <= i < |name| ==> IsAlpha(name[i]) }

  /** The name of a zone, in any case, and the offset that may follow it. */
  lemma ReadNamedZone(name: string, t: Scan, tail: string, zones: map<string, int>)
    requires Natural(t) && Letters(name) && t.rest == name + tail && !AlphaFirst(tail) && !SignFirst(tail)
    requires !SameLetters(name, "Z") && !SameLetters(name, "GMT") && !SameLetters(name, "UTC")
    ensures Read('z', t, zones) == Read('Z', t, zones)
            == Some(t.(rest := tail, offset := if Lowered(name) in zones then zones[Lowered(name)] else GMT))
  {
    WordOfLetters(name, tail);
    hide SameLetters, Lowered, Word, ReadSeconds, ReadMonth, ReadHalf, ReadDay, ReadFraction;
    assert t.rest[..|name|] == name && t.rest[|name|..] == tail;
  }

  lemma {:induction false} WordOfLetters(name: string, tail: string)
    requires (forall i :: 0 <= i < |name| ==> IsAlpha(name[i])) && !AlphaFirst(tail)
    ensures Word(name + tail) == |name|
    decreases |name|
  {
    if name == "" {
      assert name + tail == tail;
    } else {
      assert (name + tail)[1..] == name[1..] + tail;
      WordOfLetters(name[1..], tail);
    }
  }

  lemma ReadZoneAndOffset(name: string, east: bool, hours: nat, minutes: nat, t: Scan, tail: string, zones: map<string, int>)
    requires Natural(t) && Letters(name) && hours < 100 && minutes < 100
    requires t.rest == name + ([if east then '+' else '-'] + (Two(hours) + (":" + (Two(minutes) + tail))))
    requires !SameLetters(name, "Z") && !SameLetters(name, "GMT") && !SameLetters(name, "UTC")
    requires Lowered(name) in zones && zones[Lowered(name)] != GMT && zones[Lowered(name)] != LOCAL
    ensures ReadZone(t, zones) == t.(rest := tail, offset :=
              zones[Lowered(name)] + (if east then 1 else -1) * (hours * 3600 + minutes * 60) * 1000)
  {
    var text := [if east then '+' else '-'] + (Two(hours) + (":" + (Two(minutes) + tail)));
    WordOfLetters(name, text);
    TwoAreRead(hours, ":" + (Two(minutes) + tail));
    TwoAreRead(minutes, tail);
    hide SameLetters, Lowered, Word, Two, Number;
    assert t.rest[..|name|] == name && t.rest[|name|..] == text;
    assert text[1..] == Two(hours) + (":" + (Two(minutes) + tail));
    assert (":" + (Two(minutes) + tail))[1..] == Two(minutes) + tail;
  }

  /** A character of the format stands for itself, '?' for any; what does not match is an error. */
  lemma ReadItself(c: char, t: Scan, zones: map<string, int>)
    requires Natural(t) && t.optional == 0 && c !in "[]%?"
    ensures t.rest != "" && t.rest[0] == c ==> Parse([c], t, zones) == Some(t.(rest := t.rest[1..]))
    ensures t.rest == "" || t.rest[0] != c ==> Parse([c], t, zones) == None
    ensures t.rest != "" ==> Parse("?", t, zones) == Some(t.(rest := t.rest[1..]))
  {
    hide Read;
    assert [c][1..] == "" && "?"[1..] == "";
  }

  /** A month in brackets may be missing; without brackets it may not. */
  lemma MonthMayBeMissing(zones: map<string, int>)
    ensures Parse("[-]%m", Start(""), zones).Some? && Parse("[-]%m", Start(""), zones).value.month == 0
    ensures Parse("[-]%m", Start("-05"), zones).Some? && Parse("[-]%m", Start("-05"), zones).value.month == 5
    ensures Parse("-%m", Start(""), zones) == None
  {
    MissingBracket(zones);
    GivenBracket(zones);
  }

  lemma MissingBracket(zones: map<string, int>)
    ensures Parse("[-]%m", Start(""), zones).Some? && Parse("[-]%m", Start(""), zones).value.month == 0
    ensures Parse("-%m", Start(""), zones) == None
  {
    hide Read;
    var t := Start("");
    assert "[-]%m"[1..] == "-]%m" && "-]%m"[1..] == "]%m" && "]%m"[1..] == "%m" && "%m"[2..] == "";
    assert ReadLiteral('[', t) == Some(t.(optional := 1));
    assert ReadLiteral('-', t.(optional := 1)) == Some(t.(optional := -1));
    assert ReadLiteral(']', t.(optional := -1)) == Some(t);
    assert Read('m', t, zones) == Some(t) by {
      NothingRead(t, zones);
    }
    assert Parse("%m", t, zones) == Parse("", t, zones);
  }

  lemma NothingRead(t: Scan, zones: map<string, int>)
    requires t == Start("")
    ensures Read('m', t, zones) == Some(t)
  {
    assert Number("", 2, 0) == (0, "");
  }

  lemma GivenBracket(zones: map<string, int>)
    ensures Parse("[-]%m", Start("-05"), zones).Some? && Parse("[-]%m", Start("-05"), zones).value.month == 5
  {
    var t := Start("-05");
    var u := t.(rest := "05");
    assert "[-]%m"[1..] == "-]%m" && "-]%m"[1..] == "]%m" && "]%m"[1..] == "%m" && "%m"[2..] == "" && "-05"[1..] == "05";
    assert Two(5) + "" == "05";
    ReadTwo(5, u, "", zones);
    hide Read, Two;
    assert ReadLiteral('[', t) == Some(t.(optional := 1));
    assert ReadLiteral('-', t.(optional := 1)) == Some(u.(optional := 1));
    assert ReadLiteral(']', u.(optional := 1)) == Some(u);
    var v := u.(rest := "", month := 5);
    assert Parse("%m", u, zones) == Parse("", v, zones);
  }
}
