/** Dates as text: `Date::format` and the format-driven `Date::update`, both driven by the same format strings. */
module DateText {
  import opened Calendar
  import opened Dates

  datatype Option<T> = None | Some(value: T)

  const ISO8601_FRAC := "%Y[-%m-%dT%H:%M:%s%z]"
  const RFC1123 := "%w, %e %b %Y %H:%M:%S %Z"
  const HTTP := "%w, %d %b %Y %H:%M:%S %Z"

  const WEEK_DAYS := ["Sunday", "Monday", "Tuesday", "Wednesday", "Thursday", "Friday", "Saturday"]

  /** `_MonthNames[month - 1]` */
  function MonthName(month: int): string
    requires 1 <= month <= 12
  {
    ["January", "February", "March", "April", "May", "June",
     "July", "August", "September", "October", "November", "December"][month - 1]
  }

  predicate IsDigit(c: char) { '0' <= c <= '9' }

  predicate IsAlpha(c: char) { 'A' <= c <= 'Z' || 'a' <= c <= 'z' }

  predicate IsSpace(c: char) { c == ' ' || '\t' <= c <= '\r' }

  function Lower(c: char): char { if 'A' <= c <= 'Z' then c - 'A' + 'a' else c }

  // ---------------------------------------------------------------- numbers

  function Digit(n: nat): char
    requires n < 10
  {
    '0' + n as char
  }

  function Decimal(n: nat): string { (if n < 10 then "" else Decimal(n / 10)) + [Digit(n % 10)] }

  function Padded(s: string, width: nat, c: char): string { if |s| >= width then s else seq(width - |s|, _ => c) + s }

  /** `%0<width>d` */
  function Zeros(n: int, width: nat): string {
    if n >= 0 then Padded(Decimal(n), width, '0') else "-" + Padded(Decimal(-n), if width > 0 then width - 1 else 0, '0')
  }

  /** `PARSE_NUMBER_N`: at most `count` digits; what remains of the text. */
  function Number(text: string, count: nat, value: nat): (nat, string)
    decreases count
  {
    if count == 0 || text == "" || !IsDigit(text[0]) then (value, text)
    else Number(text[1..], count - 1, value * 10 + (text[0] - '0') as nat)
  }

  /** `PARSE_FRACTIONAL_N`: the digits that are missing count as 0. */
  function Fraction(text: string, count: nat, value: nat): (nat, string)
    decreases count
  {
    if count == 0 then (value, text)
    else if text == "" || !IsDigit(text[0]) then (value * Power10(count), text)
    else Fraction(text[1..], count - 1, value * 10 + (text[0] - '0') as nat)
  }

  function Power10(n: nat): nat { if n == 0 then 1 else 10 * Power10(n - 1) }

  function SkipDigits(text: string): string {
    if text != "" && IsDigit(text[0]) then SkipDigits(text[1..]) else text
  }

  /** The length of the word at the start of the text. */
  function Word(text: string): (n: nat)
    ensures n <= |text|
  {
    if text != "" && IsAlpha(text[0]) then 1 + Word(text[1..]) else 0
  }

  predicate SameLetters(a: string, b: string) {
    |a| == |b| && forall i :: 0 <= i < |a| ==> Lower(a[i]) == Lower(b[i])
  }

  /** The first month whose name starts with the word, or 0. */
  function MonthFrom(word: string, month: int): int
    requires 1 <= month <= 13
    decreases 13 - month
  {
    if month == 13 || |word| < 3 then 0
    else if |word| <= |MonthName(month)| && SameLetters(word, MonthName(month)[..|word|]) then month
    else MonthFrom(word, month + 1)
  }

  // ---------------------------------------------------------------- the printer

  /** What a date answers to the printer. */
  datatype Stamp = Stamp(fields: Fields, offset: int, weekDay: int, time: int) {
    predicate Valid() { Bounded(fields) && 0 <= weekDay < 7 }
  }

  /** `Timezone::Format`, given GMT for a null offset. */
  function OffsetText(offset: int, iso: bool): string {
    if offset == 0 then (if iso then "Z" else "GMT") else
      var value := if offset < 0 then -offset else offset;
      (if offset < 0 then "-" else "+") + Zeros(value / 3600000, 2) + (if iso then ":" else "") + Zeros(value % 3600000 / 60000, 2)
  }

  /** Milliseconds in the unit of `%t` and `%T`. */
  function Factor(unit: char): nat {
    match Lower(unit)
    case 'h' => 3600000
    case 'm' => 60000
    case 's' => 1000
    case _ => 1
  }

  const UINT64 := 0x1_0000_0000_0000_0000
  const INT64_MAX := 0x7FFF_FFFF_FFFF_FFFF

  /** `%t` and `%T` with the character behind: the time in this unit, as an unsigned number. */
  function ShowTime(unit: char, time: int): string { Zeros(TruncDiv(time, Factor(unit)) % UINT64, 2) }

  /** What `format` writes for another letter after '%'. */
  function Show(letter: char, s: Stamp): string
    requires s.Valid() && letter != 't' && letter != 'T'
  {
    var f := s.fields;
    match letter
    case 'w' => WEEK_DAYS[s.weekDay][..3]
    case 'W' => WEEK_DAYS[s.weekDay]
    case 'b' => MonthName(f.month)[..3]
    case 'B' => MonthName(f.month)
    case 'd' => Zeros(f.day, 2)
    case 'e' => Decimal(f.day)
    case 'f' => Padded(Decimal(f.day), 2, ' ')
    case 'm' => Zeros(f.month, 2)
    case 'n' => Decimal(f.month)
    case 'o' => Padded(Decimal(f.month), 2, ' ')
    case 'y' => Zeros(TruncMod(f.year, 100), 2)
    case 'Y' => Zeros(f.year, 4)
    case 'H' => Zeros(f.hour, 2)
    case 'h' => Zeros(if f.hour < 1 then 12 else if f.hour > 12 then f.hour - 12 else f.hour, 2)
    case 'a' => if f.hour < 12 then "am" else "pm"
    case 'A' => if f.hour < 12 then "AM" else "PM"
    case 'M' => Zeros(f.minute, 2)
    case 'S' => Zeros(f.second, 2)
    case 's' => Zeros(f.second, 2) + "." + Zeros(f.millisecond, 3)
    case 'F' => Zeros(f.millisecond, 3)
    case 'i' => Zeros(f.millisecond, 3)
    case 'c' => Decimal(f.millisecond / 100)
    case 'z' => OffsetText(s.offset, true)
    case 'Z' => OffsetText(s.offset, false)
    case _ => [letter]
  }

  function Print(format: string, s: Stamp): string
    requires s.Valid()
    decreases |format|
  {
    if format == "" || format == "%" then ""
    else if format[0] != '%' then (if format[0] == '[' || format[0] == ']' then "" else [format[0]]) + Print(format[1..], s)
    else if format[1] != 't' && format[1] != 'T' then Show(format[1], s) + Print(format[2..], s)
    else if |format| == 2 then ""
    else ShowTime(format[2], s.time) + Print(format[3..], s)
  }

  // ---------------------------------------------------------------- the parser

  /** The variables of the parser; `optional` counts brackets, negatively once the text has left the format. */
  datatype Scan = Scan(rest: string, optional: int, year: int, month: int, day: int, hour: int, minute: int, second: int,
                       millisecond: int, microsecond: int, offset: int, time: int)

  const UINT8 := 0x100
  const UINT16 := 0x1_0000

  function Start(text: string): Scan { Scan(text, 0, 0, 0, 0, 0, 0, 0, 0, 0, LOCAL, 0) }

  function Century(year: int): int { if year >= 70 then year + 1900 else year + 2000 }

  function FirstIs(text: string, c: char): bool { text != "" && text[0] == c }

  /** `%z`: a zone name, then an offset that adds to it. */
  function ReadZone(s: Scan, zones: map<string, int>): Scan {
    var n := Word(s.rest);
    var named := if n > 0 then ZoneOffset(s.rest[..n], zones) else LOCAL;
    var rest := s.rest[n..];
    if !FirstIs(rest, '+') && !FirstIs(rest, '-') then s.(rest := rest, offset := named) else
      var (hours, afterHours) := Number(rest[1..], 2, 0);
      var (minutes, afterMinutes) := Number(if FirstIs(afterHours, ':') then afterHours[1..] else afterHours, 2, 0);
      s.(rest := afterMinutes,
         offset := (if named == GMT || named == LOCAL then 0 else named)
                   + (if rest[0] == '+' then 1 else -1) * (hours * 3600 + minutes * 60) * 1000)
  }

  function Lowered(text: string): string { seq(|text|, i requires 0 <= i < |text| => Lower(text[i])) }

  /** `Timezone::Offset` over the table of zones, whose names are in lower case here, since the table is ordered without
      regard to case; an unknown name is GMT. */
  function ZoneOffset(name: string, zones: map<string, int>): int {
    if SameLetters(name, "Z") || SameLetters(name, "GMT") || SameLetters(name, "UTC") || Lowered(name) !in zones then GMT
    else zones[Lowered(name)]
  }

  /** `%s` from the fraction on, and `%F`. */
  function ReadFraction(s: Scan): Scan
    requires s.millisecond >= 0 && s.microsecond >= 0
  {
    var (millisecond, rest) := Fraction(s.rest, 3, s.millisecond);
    var (microsecond, end) := Fraction(rest, 3, s.microsecond);
    s.(rest := SkipDigits(end), millisecond := millisecond % UINT16, microsecond := microsecond)
  }

  /** Numbers are kept natural. */
  predicate Natural(s: Scan) {
    s.year >= 0 && s.month >= 0 && s.day >= 0 && s.hour >= 0 && s.minute >= 0 && s.second >= 0 && s.millisecond >= 0 && s.microsecond >= 0
  }

  /** `%T` with its unit, if there is one: the digits are a time to add, which saturates before the unit. */
  function ReadTime(factor: nat, s: Scan): Option<Scan> {
    var (n, rest) := Number(s.rest, |s.rest|, 0);
    if rest == s.rest && s.optional == 0 then None
    else Some(s.(rest := rest, time := s.time + (if n > INT64_MAX then INT64_MAX else n) * factor))
  }

  /** What the parser does with another letter after '%'; None is the format error. */
  function Read(letter: char, s: Scan, zones: map<string, int>): (r: Option<Scan>)
    requires Natural(s) && letter != 'T'
    ensures r.Some? ==> Natural(r.value)
  {
    match letter
    case '%' => if FirstIs(s.rest, '%') then Some(s) else None
    case 'w' => Some(s.(rest := s.rest[Word(s.rest)..]))
    case 'W' => Some(s.(rest := s.rest[Word(s.rest)..]))
    case 'b' => ReadMonth(s)
    case 'B' => ReadMonth(s)
    case 'd' => Some(ReadDay(s))
    case 'e' => Some(ReadDay(s))
    case 'f' => Some(ReadDay(s))
    case 'm' => var (n, rest) := Number(s.rest, 2, s.month); Some(s.(rest := rest, month := n % UINT8))
    case 'n' => var (n, rest) := Number(s.rest, 2, s.month); Some(s.(rest := rest, month := n % UINT8))
    case 'o' => var (n, rest) := Number(s.rest, 2, s.month); Some(s.(rest := rest, month := n % UINT8))
    case 'y' => var (n, rest) := Number(s.rest, 2, s.year); Some(s.(rest := rest, year := Century(n)))
    case 'Y' => var (n, rest) := Number(s.rest, 4, s.year); Some(s.(rest := rest, year := n))
    case '_' => var (n, rest) := Number(s.rest, |s.rest|, s.year); Some(s.(rest := rest, year := if n < 100 then Century(n) else n))
    case 'H' => var (n, rest) := Number(s.rest, 2, s.hour); Some(s.(rest := rest, hour := n % UINT8))
    case 'h' => var (n, rest) := Number(s.rest, 2, s.hour); Some(s.(rest := rest, hour := n % UINT8))
    case 'a' => ReadHalf(s)
    case 'A' => ReadHalf(s)
    case 'M' => var (n, rest) := Number(s.rest, 2, s.minute); Some(s.(rest := rest, minute := n % UINT8))
    case 'S' => var (n, rest) := Number(s.rest, 2, s.second); Some(s.(rest := rest, second := n % UINT8))
    case 's' => Some(ReadSeconds(s))
    case 'i' => var (n, rest) := Number(s.rest, 3, s.millisecond); Some(s.(rest := rest, millisecond := n % UINT16))
    case 'c' => var (n, rest) := Number(s.rest, 1, s.millisecond); Some(s.(rest := rest, millisecond := n * 100 % UINT16))
    case 'F' => Some(ReadFraction(s))
    case 'z' => Some(ReadZone(s, zones))
    case 'Z' => Some(ReadZone(s, zones))
    case _ => if s.optional == 0 then None else Some(s)
  }

  /** `%s`: the seconds, then a fraction if there is one. */
  function ReadSeconds(s: Scan): (r: Scan)
    requires Natural(s)
    ensures Natural(r)
  {
    var (n, rest) := Number(s.rest, 2, s.second);
    var t := s.(rest := rest, second := n % UINT8);
    if FirstIs(rest, '.') || FirstIs(rest, ',') then ReadFraction(t.(rest := rest[1..])) else t
  }

  function ReadMonth(s: Scan): Option<Scan> {
    var n := Word(s.rest);
    var month := MonthFrom(s.rest[..n], 1);
    if month == 0 && s.optional == 0 then None else Some(s.(rest := s.rest[n..], month := month))
  }

  function ReadDay(s: Scan): Scan
    requires s.day >= 0
  {
    var rest := if s.rest != "" && IsSpace(s.rest[0]) then s.rest[1..] else s.rest;
    var (n, end) := Number(rest, 2, s.day);
    s.(rest := end, day := n % UINT8)
  }

  function ReadHalf(s: Scan): Option<Scan> {
    var n := Word(s.rest);
    var t := s.(rest := s.rest[n..]);
    if SameLetters(s.rest[..n], "AM") then Some(if s.hour == 12 then t.(hour := 0) else t)
    else if SameLetters(s.rest[..n], "PM") then Some(if s.hour < 12 then t.(hour := s.hour + 12) else t)
    else if s.optional == 0 then None else Some(t)
  }

  /** A character of the format that is not after '%'. */
  function ReadLiteral(c: char, s: Scan): Option<Scan> {
    if c == '[' then Some(s.(optional := if s.optional >= 0 then s.optional + 1 else s.optional - 1))
    else if c == ']' then Some(s.(optional := if s.optional > 0 then s.optional - 1 else s.optional + 1))
    else if c != '?' && s.optional < 0 then Some(s)
    else if c != '?' && !FirstIs(s.rest, c) then (if s.optional > 0 then Some(s.(optional := -s.optional)) else None)
    else Some(s.(rest := if s.rest == "" then "" else s.rest[1..]))
  }

  function Parse(format: string, s: Scan, zones: map<string, int>): Option<Scan>
    requires Natural(s)
    decreases |format|
  {
    if format == "" || format == "%" then Some(s)
    else
      var (next, rest) :=
        if format[0] != '%' then (ReadLiteral(format[0], s), format[1..])
        else if format[1] != 'T' then (Read(format[1], s, zones), format[2..])
        else if |format| > 2 && IsAlpha(format[2]) then (ReadTime(Factor(format[2]), s), format[3..])
        else (ReadTime(1, s), format[2..]);
      if next.None? then None else Parse(rest, next.value, zones)
  }

  // ---------------------------------------------------------------- reading back what was printed: numbers and words

  lemma DigitIs(n: nat)
    requires n < 10
    ensures IsDigit(Digit(n)) && (Digit(n) - '0') as nat == n && !IsSpace(Digit(n)) && !IsAlpha(Digit(n))
    ensures Digit(n) != '+' && Digit(n) != '-'
  {
  }

  /** The last `width` digits of a number. */
  function Fixed(n: nat, width: nat): (s: string)
    ensures |s| == width
    decreases width
  {
    if width == 0 then "" else Fixed(n / 10, width - 1) + [Digit(n % 10)]
  }

  lemma {:induction false} FixedZero(width: nat)
    ensures Fixed(0, width) == seq(width, _ => '0')
    decreases width
  {
    if width > 0 {
      FixedZero(width - 1);
      assert Digit(0) == '0';
    }
  }

  lemma {:induction false} PaddedIsFixed(n: nat, width: nat)
    requires width > 0 && n < Power10(width)
    ensures |Decimal(n)| <= width && Padded(Decimal(n), width, '0') == Fixed(n, width)
    decreases width
  {
    hide Digit;
    if n < 10 {
      assert Decimal(n) == [Digit(n)];
      FixedZero(width - 1);
      assert Fixed(n, width) == Fixed(n / 10, width - 1) + [Digit(n % 10)];
    } else {
      assert Power10(width) == 10 * Power10(width - 1);
      assert width > 1;
      PaddedIsFixed(n / 10, width - 1);
      assert Decimal(n) == Decimal(n / 10) + [Digit(n % 10)];
    }
  }

  /** `Number` takes the digits one after the other. */
  lemma {:induction false} NumberOfFixed(n: nat, width: nat, tail: string, more: nat)
    requires n < Power10(width)
    ensures Number(Fixed(n, width) + tail, width + more, 0) == Number(tail, more, n)
    decreases width
  {
    hide Digit;
    if width == 0 {
      assert Fixed(n, width) + tail == tail;
    } else {
      DigitIs(n % 10);
      var next := [Digit(n % 10)] + tail;
      assert Fixed(n, width) + tail == Fixed(n / 10, width - 1) + next;
      NumberOfFixed(n / 10, width - 1, next, more + 1);
      assert next[1..] == tail;
    }
  }

  lemma {:induction false} FractionOfFixed(n: nat, width: nat, tail: string, more: nat)
    requires n < Power10(width)
    ensures Fraction(Fixed(n, width) + tail, width + more, 0) == Fraction(tail, more, n)
    decreases width
  {
    hide Digit;
    if width == 0 {
      assert Fixed(n, width) + tail == tail;
    } else {
      DigitIs(n % 10);
      var next := [Digit(n % 10)] + tail;
      assert Fixed(n, width) + tail == Fixed(n / 10, width - 1) + next;
      FractionOfFixed(n / 10, width - 1, next, more + 1);
      assert next[1..] == tail;
    }
  }

  predicate DigitFirst(text: string) { text != "" && IsDigit(text[0]) }

  predicate AlphaFirst(text: string) { text != "" && IsAlpha(text[0]) }

  predicate SignFirst(text: string) { FirstIs(text, '+') || FirstIs(text, '-') }

  lemma Powers()
    ensures Power10(0) == 1 && Power10(1) == 10 && Power10(2) == 100 && Power10(3) == 1000 && Power10(4) == 10000
  {
    assert Power10(1) == 10 * Power10(0) && Power10(2) == 10 * Power10(1) && Power10(3) == 10 * Power10(2);
  }

  /** A number printed on a fixed width is read whatever follows. */
  lemma ReadZeros(n: nat, width: nat, tail: string)
    requires width > 0 && n < Power10(width)
    ensures Number(Zeros(n, width) + tail, width, 0) == (n, tail)
    ensures Fraction(Zeros(n, width) + tail, width, 0) == (n, tail)
    ensures DigitFirst(Zeros(n, width)) && !AlphaFirst(Zeros(n, width)) && !SignFirst(Zeros(n, width)) && !IsSpace(Zeros(n, width)[0])
    ensures |Zeros(n, width)| == width
  {
    PaddedIsFixed(n, width);
    NumberOfFixed(n, width, tail, 0);
    FractionOfFixed(n, width, tail, 0);
    FixedStarts(n, width);
  }

  lemma {:induction false} FixedStarts(n: nat, width: nat)
    requires width > 0
    ensures DigitFirst(Fixed(n, width)) && !AlphaFirst(Fixed(n, width)) && !SignFirst(Fixed(n, width)) && !IsSpace(Fixed(n, width)[0])
    decreases width
  {
    DigitIs(n % 10);
    if width > 1 {
      FixedStarts(n / 10, width - 1);
    }
  }

  /** A number printed as it is needs something else than a digit behind it. */
  lemma ReadDecimal(n: nat, tail: string)
    requires n < 100 && (n < 10 ==> !DigitFirst(tail))
    ensures Number(Decimal(n) + tail, 2, 0) == (n, tail)
    ensures DigitFirst(Decimal(n)) && !AlphaFirst(Decimal(n)) && !SignFirst(Decimal(n)) && !IsSpace(Decimal(n)[0])
  {
    hide Digit;
    Powers();
    var width := if n < 10 then 1 else 2;
    DecimalSize(n);
    PaddedIsFixed(n, width);
    NumberOfFixed(n, width, tail, 2 - width);
    FixedStarts(n, width);
    hide Fixed;
  }

  lemma DecimalSize(n: nat)
    requires n < 100
    ensures |Decimal(n)| == if n < 10 then 1 else 2
  {
  }

  predicate AllAlpha(word: string) { forall i :: 0 <= i < |word| ==> IsAlpha(word[i]) }

  lemma {:induction false} WordIs(word: string, tail: string)
    requires AllAlpha(word) && !AlphaFirst(tail)
    ensures Word(word + tail) == |word| && (word + tail)[..|word|] == word && (word + tail)[|word|..] == tail
    decreases |word|
  {
    if word == "" {
      assert word + tail == tail;
    } else {
      assert (word + tail)[1..] == word[1..] + tail;
      WordIs(word[1..], tail);
    }
  }

  lemma WeekDayIsWord(i: nat)
    requires i < 7
    ensures AllAlpha(WEEK_DAYS[i]) && |WEEK_DAYS[i]| > 3
  {
  }

  lemma MonthIsWord(m: nat)
    requires 1 <= m <= 12
    ensures AllAlpha(MonthName(m)) && |MonthName(m)| >= 3
  {
  }

  lemma MonthsDiffer(m: nat, k: nat)
    requires 1 <= k < m <= 12
    ensures var a, b := MonthName(m), MonthName(k);
      |a| >= 3 && |b| >= 3 && (Lower(a[0]) != Lower(b[0]) || Lower(a[1]) != Lower(b[1]) || Lower(a[2]) != Lower(b[2]))
  {
  }

  lemma NotTheStart(word: string, other: string)
    requires 3 <= |word| && 3 <= |other|
    requires Lower(word[0]) != Lower(other[0]) || Lower(word[1]) != Lower(other[1]) || Lower(word[2]) != Lower(other[2])
    ensures |word| <= |other| ==> !SameLetters(word, other[..|word|])
  {
    hide Lower;
    if |word| <= |other| {
      var start := other[..|word|];
      assert start[0] == other[0] && start[1] == other[1] && start[2] == other[2];
    }
  }

  lemma {:induction false} MonthFound(m: nat, word: string, k: nat)
    requires 1 <= k <= m <= 12 && 3 <= |word| <= |MonthName(m)| && word == MonthName(m)[..|word|]
    ensures MonthFrom(word, k) == m
    decreases m - k
  {
    hide MonthName, Lower;
    if k < m {
      MonthFound(m, word, k + 1);
      MonthsDiffer(m, k);
      var other := MonthName(k);
      assert word[0] == MonthName(m)[0] && word[1] == MonthName(m)[1] && word[2] == MonthName(m)[2];
      NotTheStart(word, other);
    }
  }

  // ---------------------------------------------------------------- offsets

  /** The offsets that `%z` can tell: whole minutes, two digits of hours. */
  predicate Printable(offset: int) { offset % 60000 == 0 && -360000000 < offset < 360000000 }

  function Magnitude(offset: int): nat { if offset < 0 then -offset else offset }

  lemma OffsetParts(offset: int)
    requires Printable(offset)
    ensures var v := Magnitude(offset);
      v / 3600000 < 100 && v % 3600000 / 60000 < 60
      && ((v / 3600000) * 3600 + (v % 3600000 / 60000) * 60) * 1000 == v
  {
    var v := Magnitude(offset);
    var h, r := v / 3600000, v % 3600000;
    assert v == h * 3600000 + r;
    assert v % 60000 == 0;
    var q := v / 60000;
    assert r == (q - h * 60) * 60000;
  }

  /** Hours and minutes, with or without a colon between them. */
  lemma ReadHours(h: nat, m: nat, iso: bool, tail: string)
    requires h < 100 && m < 100
    ensures var (hours, rest) := Number(Zeros(h, 2) + ((if iso then ":" else "") + Zeros(m, 2) + tail), 2, 0);
      var (minutes, end) := Number(if FirstIs(rest, ':') then rest[1..] else rest, 2, 0);
      hours == h && minutes == m && end == tail
  {
    Powers();
    var after := Zeros(m, 2) + tail;
    ReadZeros(h, 2, (if iso then ":" else "") + Zeros(m, 2) + tail);
    ReadZeros(m, 2, tail);
    hide Zeros, Number;
    if iso {
      assert ":" + Zeros(m, 2) + tail == ":" + after;
      assert (":" + after)[1..] == after;
    } else {
      assert "" + Zeros(m, 2) + tail == after;
      assert after[0] == Zeros(m, 2)[0];
    }
  }

  lemma ReadSigned(sign: char, h: nat, m: nat, iso: bool, scan: Scan, tail: string, zones: map<string, int>)
    requires h < 100 && m < 100 && (sign == '+' || sign == '-')
    requires scan.rest == [sign] + (Zeros(h, 2) + ((if iso then ":" else "") + Zeros(m, 2) + tail))
    ensures ReadZone(scan, zones) == scan.(rest := tail, offset := (if sign == '+' then 1 else -1) * (h * 3600 + m * 60) * 1000)
  {
    ReadHours(h, m, iso, tail);
    assert Word(scan.rest) == 0;
    hide Zeros, Number, ZoneOffset, Word;
    assert scan.rest[1..] == Zeros(h, 2) + ((if iso then ":" else "") + Zeros(m, 2) + tail);
    assert scan.rest[0..] == scan.rest;
  }

  /** The case of a zone name makes no difference. */
  lemma CaseOfZones(a: string, b: string, zones: map<string, int>)
    requires SameLetters(a, b)
    ensures ZoneOffset(a, zones) == ZoneOffset(b, zones)
  {
    assert Lowered(a) == Lowered(b);
  }

  lemma ReadGmt(iso: bool, scan: Scan, tail: string, zones: map<string, int>)
    requires scan.rest == (if iso then "Z" else "GMT") + tail
    requires !AlphaFirst(tail) && !SignFirst(tail)
    ensures ReadZone(scan, zones) == scan.(rest := tail, offset := GMT)
  {
    WordIs(if iso then "Z" else "GMT", tail);
    assert SameLetters("Z", "Z") && SameLetters("GMT", "GMT");
  }

  lemma OffsetSpelt(offset: int, iso: bool, tail: string)
    requires offset != 0
    ensures var v := Magnitude(offset);
      OffsetText(offset, iso) + tail ==
        [if offset < 0 then '-' else '+'] + (Zeros(v / 3600000, 2) + ((if iso then ":" else "") + Zeros(v % 3600000 / 60000, 2) + tail))
  {
    hide Zeros;
  }

  /** A zone that was printed is read back, whatever the table of the zones. */
  lemma ReadOffset(offset: int, iso: bool, scan: Scan, tail: string, zones: map<string, int>)
    requires Printable(offset) && scan.rest == OffsetText(offset, iso) + tail
    requires !AlphaFirst(tail) && !SignFirst(tail)
    ensures ReadZone(scan, zones) == scan.(rest := tail, offset := if offset == 0 then GMT else offset)
  {
    if offset == 0 {
      ReadGmt(iso, scan, tail, zones);
    } else {
      OffsetParts(offset);
      OffsetSpelt(offset, iso, tail);
      hide Zeros, Number, ReadZone, OffsetText, Printable;
      var v := Magnitude(offset);
      ReadSigned(if offset < 0 then '-' else '+', v / 3600000, v % 3600000 / 60000, iso, scan, tail, zones);
    }
  }

  // ---------------------------------------------------------------- reading back one letter

  /** What a letter reads: which variables, named by a letter of their own. */
  function Marks(letter: char): set<char> {
    match letter
    case 'b' => {'m'}
    case 'B' => {'m'}
    case 'd' => {'d'}
    case 'e' => {'d'}
    case 'f' => {'d'}
    case 'm' => {'m'}
    case 'n' => {'m'}
    case 'Y' => {'Y'}
    case 'H' => {'H'}
    case 'M' => {'M'}
    case 'S' => {'S'}
    case 's' => {'S', 'i'}
    case 'F' => {'i'}
    case 'i' => {'i'}
    case 'z' => {'z'}
    case 'Z' => {'z'}
    case _ => {}
  }

  const MARKS := {'Y', 'm', 'd', 'H', 'M', 'S', 'i', 'z'}

  /** The letters that a printed text tells without loss, one field a letter. */
  const LETTERS := {'w', 'W', 'b', 'B', 'd', 'e', 'f', 'm', 'n', 'Y', 'H', 'M', 'S', 's', 'F', 'i', 'z', 'Z'}

  function Variable(t: Scan, mark: char): int
    requires mark in MARKS
  {
    match mark
    case 'Y' => t.year
    case 'm' => t.month
    case 'd' => t.day
    case 'H' => t.hour
    case 'M' => t.minute
    case 'S' => t.second
    case 'i' => t.millisecond
    case 'z' => t.offset
  }

  function Expected(s: Stamp, mark: char): int
    requires mark in MARKS
  {
    match mark
    case 'Y' => s.fields.year
    case 'm' => s.fields.month
    case 'd' => s.fields.day
    case 'H' => s.fields.hour
    case 'M' => s.fields.minute
    case 'S' => s.fields.second
    case 'i' => s.fields.millisecond
    case 'z' => if s.offset == 0 then GMT else s.offset
  }

  /** What must not follow a letter for its text to end where it should. */
  predicate Ends(letter: char, tail: string) {
    && (letter in {'w', 'W', 'b', 'B', 'z', 'Z'} ==> !AlphaFirst(tail))
    && (letter in {'z', 'Z'} ==> !SignFirst(tail))
    && (letter in {'e', 'f', 'n', 's', 'F'} ==> !DigitFirst(tail))
  }

  predicate Readable(s: Stamp) { s.Valid() && 0 <= s.fields.year < 10000 && Printable(s.offset) }

  /** The variables of a letter are still as at the start. */
  predicate Fresh(letter: char, t: Scan) {
    && Natural(t) && t.microsecond == 0
    && forall mark :: mark in Marks(letter) && mark != 'z' ==> Variable(t, mark) == 0
  }

  /** What reading a letter leaves: the rest of the text, its own variables, and the others as they were. */
  predicate ReadsBack(letter: char, s: Stamp, t: Scan, tail: string, u: Scan) {
    && Natural(u) && u.rest == tail && u.optional == t.optional && u.microsecond == 0 && u.time == t.time
    && forall mark :: mark in MARKS ==> Variable(u, mark) == if mark in Marks(letter) then Expected(s, mark) else Variable(t, mark)
  }

  lemma MarksAre(letter: char)
    ensures Marks(letter) <= MARKS
  {
  }

  /** What one letter leaves. */
  function Assigned(letter: char, s: Stamp, t: Scan, tail: string): Scan {
    var f, u := s.fields, t.(rest := tail);
    match letter
    case 'b' => u.(month := f.month)
    case 'B' => u.(month := f.month)
    case 'm' => u.(month := f.month)
    case 'n' => u.(month := f.month)
    case 'd' => u.(day := f.day)
    case 'e' => u.(day := f.day)
    case 'f' => u.(day := f.day)
    case 'Y' => u.(year := f.year)
    case 'H' => u.(hour := f.hour)
    case 'M' => u.(minute := f.minute)
    case 'S' => u.(second := f.second)
    case 's' => u.(second := f.second, millisecond := f.millisecond)
    case 'F' => u.(millisecond := f.millisecond)
    case 'i' => u.(millisecond := f.millisecond)
    case 'z' => u.(offset := if s.offset == 0 then GMT else s.offset)
    case 'Z' => u.(offset := if s.offset == 0 then GMT else s.offset)
    case _ => u
  }

  lemma AssignedReadsBack(letter: char, s: Stamp, t: Scan, tail: string)
    requires letter in LETTERS && s.Valid() && s.fields.year >= 0 && Natural(t) && t.microsecond == 0
    ensures ReadsBack(letter, s, t, tail, Assigned(letter, s, t, tail))
  {
  }

  lemma ReadWordBack(letter: char, s: Stamp, t: Scan, tail: string, zones: map<string, int>)
    requires letter in {'w', 'W'} && s.Valid() && Natural(t) && t.microsecond == 0
    requires t.rest == Show(letter, s) + tail && Ends(letter, tail)
    ensures Read(letter, t, zones) == Some(t.(rest := tail))
  {
    WeekDayIsWord(s.weekDay);
    WordIs(Show(letter, s), tail);
  }

  lemma ReadMonthBack(letter: char, s: Stamp, t: Scan, tail: string, zones: map<string, int>)
    requires letter in {'b', 'B'} && s.Valid() && Natural(t)
    requires t.rest == Show(letter, s) + tail && Ends(letter, tail)
    ensures Read(letter, t, zones) == Some(t.(rest := tail, month := s.fields.month))
  {
    var m := s.fields.month;
    MonthIsWord(m);
    WordIs(Show(letter, s), tail);
    hide MonthName;
    assert MonthName(m)[..|MonthName(m)|] == MonthName(m);
    MonthFound(m, Show(letter, s), 1);
  }

  lemma ReadDayBack(letter: char, s: Stamp, t: Scan, tail: string, zones: map<string, int>)
    requires letter in {'d', 'e', 'f'} && s.Valid() && Natural(t) && t.day == 0
    requires t.rest == Show(letter, s) + tail && Ends(letter, tail)
    ensures Read(letter, t, zones) == Some(t.(rest := tail, day := s.fields.day))
  {
    hide ReadDay, Zeros, Decimal, ReadZone, ReadSeconds, ReadMonth, ReadHalf, Word, MonthName, OffsetText;
    assert letter in {'e', 'f'} ==> !DigitFirst(tail);
    ReadDayNumber(s.fields.day, letter, t, tail);
  }

  /** A day with two digits, as it is, or with a space when it has one digit. */
  lemma ReadDayNumber(n: nat, letter: char, t: Scan, tail: string)
    requires n < 100 && t.day == 0 && (letter == 'd' || !DigitFirst(tail))
    requires t.rest == (if letter == 'd' then Zeros(n, 2) else if letter == 'e' then Decimal(n) else Padded(Decimal(n), 2, ' ')) + tail
    ensures ReadDay(t) == t.(rest := tail, day := n)
  {
    hide Zeros, Decimal, Number;
    if letter == 'd' {
      Powers();
      ReadZeros(n, 2, tail);
      assert t.rest[0] == Zeros(n, 2)[0];
    } else {
      DecimalSize(n);
      ReadDecimal(n, tail);
      if letter != 'e' && n < 10 {
        assert seq(1, _ => ' ') == " ";
        assert t.rest == " " + (Decimal(n) + tail);
        assert t.rest[1..] == Decimal(n) + tail;
      } else {
        assert t.rest == Decimal(n) + tail;
        assert t.rest[0] == Decimal(n)[0];
      }
    }
  }

  lemma TwoDigitsBack(n: nat, tail: string)
    requires n < 100
    ensures Number(Zeros(n, 2) + tail, 2, 0) == (n, tail) && n % UINT8 == n
  {
    Powers();
    ReadZeros(n, 2, tail);
  }

  lemma ReadHourBack(s: Stamp, t: Scan, tail: string, zones: map<string, int>)
    requires s.Valid() && Natural(t) && t.hour == 0
    requires t.rest == Show('H', s) + tail
    ensures Read('H', t, zones) == Some(t.(rest := tail, hour := s.fields.hour))
  {
    TwoDigitsBack(s.fields.hour, tail);
    hide Number, Zeros, Decimal, Padded, Century, WEEK_DAYS, ReadDay, ReadZone, ReadSeconds, ReadFraction, ReadMonth, ReadHalf, Word, MonthName, OffsetText;
  }

  lemma ReadMinuteBack(s: Stamp, t: Scan, tail: string, zones: map<string, int>)
    requires s.Valid() && Natural(t) && t.minute == 0
    requires t.rest == Show('M', s) + tail
    ensures Read('M', t, zones) == Some(t.(rest := tail, minute := s.fields.minute))
  {
    TwoDigitsBack(s.fields.minute, tail);
    hide Number, Zeros, Decimal, Padded, Century, WEEK_DAYS, ReadDay, ReadZone, ReadSeconds, ReadFraction, ReadMonth, ReadHalf, Word, MonthName, OffsetText;
  }

  lemma ReadWholeSecondBack(s: Stamp, t: Scan, tail: string, zones: map<string, int>)
    requires s.Valid() && Natural(t) && t.second == 0
    requires t.rest == Show('S', s) + tail
    ensures Read('S', t, zones) == Some(t.(rest := tail, second := s.fields.second))
  {
    TwoDigitsBack(s.fields.second, tail);
    hide Number, Zeros, Decimal, Padded, Century, WEEK_DAYS, ReadDay, ReadZone, ReadSeconds, ReadFraction, ReadMonth, ReadHalf, Word, MonthName, OffsetText;
  }

  lemma ReadMonthNumberBack(letter: char, s: Stamp, t: Scan, tail: string, zones: map<string, int>)
    requires letter in {'m', 'n'} && s.Valid() && Natural(t) && t.month == 0
    requires t.rest == Show(letter, s) + tail && Ends(letter, tail)
    ensures Read(letter, t, zones) == Some(t.(rest := tail, month := s.fields.month))
  {
    Powers();
    hide Number, Zeros, Decimal, ReadDay, ReadZone, ReadSeconds, ReadFraction, ReadMonth, ReadHalf, Word, MonthName, OffsetText;
    if letter == 'm' {
      ReadZeros(s.fields.month, 2, tail);
    } else {
      ReadDecimal(s.fields.month, tail);
    }
  }

  lemma ReadYearBack(s: Stamp, t: Scan, tail: string, zones: map<string, int>)
    requires Readable(s) && Natural(t) && t.year == 0
    requires t.rest == Show('Y', s) + tail
    ensures Read('Y', t, zones) == Some(t.(rest := tail, year := s.fields.year))
  {
    Powers();
    hide Number, Zeros, ReadDay, ReadZone, ReadSeconds, ReadFraction, ReadMonth, ReadHalf, Word, MonthName, OffsetText;
    ReadZeros(s.fields.year, 4, tail);
  }

  lemma ReadMillisecondBack(s: Stamp, t: Scan, tail: string, zones: map<string, int>)
    requires s.Valid() && Natural(t) && t.millisecond == 0
    requires t.rest == Show('i', s) + tail
    ensures Read('i', t, zones) == Some(t.(rest := tail, millisecond := s.fields.millisecond))
  {
    Powers();
    hide Number, Zeros, ReadDay, ReadZone, ReadSeconds, ReadFraction, ReadMonth, ReadHalf, Word, MonthName, OffsetText;
    ReadZeros(s.fields.millisecond, 3, tail);
  }

  /** Three digits of a fraction, and nothing lost behind them. */
  lemma ReadFractionBack(n: nat, t: Scan, tail: string)
    requires n < 1000 && Natural(t) && t.millisecond == 0 && t.microsecond == 0
    requires t.rest == Zeros(n, 3) + tail && !DigitFirst(tail)
    ensures ReadFraction(t) == t.(rest := tail, millisecond := n)
  {
    Powers();
    ReadZeros(n, 3, tail);
    hide Zeros;
    assert Fraction(tail, 3, 0) == (0 * Power10(3), tail);
    assert SkipDigits(tail) == tail;
    hide Fraction, SkipDigits;
  }

  lemma ReadSecondsBack(n: nat, k: nat, t: Scan, tail: string)
    requires n < 60 && k < 1000 && Natural(t) && t.second == 0 && t.millisecond == 0 && t.microsecond == 0
    requires t.rest == Zeros(n, 2) + "." + Zeros(k, 3) + tail && !DigitFirst(tail)
    ensures ReadSeconds(t) == t.(rest := tail, second := n, millisecond := k)
  {
    Powers();
    hide Zeros, Number, ReadFraction;
    var fraction := Zeros(k, 3) + tail;
    assert t.rest == Zeros(n, 2) + ("." + fraction);
    ReadZeros(n, 2, "." + fraction);
    assert ("." + fraction)[1..] == fraction;
    ReadFractionBack(k, t.(rest := fraction, second := n), tail);
  }

  lemma ReadSecondBack(s: Stamp, t: Scan, tail: string, zones: map<string, int>)
    requires s.Valid() && Fresh('s', t)
    requires t.rest == Show('s', s) + tail && Ends('s', tail)
    ensures Read('s', t, zones) == Some(t.(rest := tail, second := s.fields.second, millisecond := s.fields.millisecond))
  {
    FreshIs('s', t);
    hide Zeros, ReadSeconds;
    ReadSecondsBack(s.fields.second, s.fields.millisecond, t, tail);
  }

  lemma ReadThousandthBack(s: Stamp, t: Scan, tail: string, zones: map<string, int>)
    requires s.Valid() && Fresh('F', t)
    requires t.rest == Show('F', s) + tail && Ends('F', tail)
    ensures Read('F', t, zones) == Some(t.(rest := tail, millisecond := s.fields.millisecond))
  {
    FreshIs('F', t);
    hide Zeros, ReadFraction;
    ReadFractionBack(s.fields.millisecond, t, tail);
  }

  lemma ReadZoneBack(letter: char, s: Stamp, t: Scan, tail: string, zones: map<string, int>)
    requires letter in {'z', 'Z'} && s.Valid() && Printable(s.offset) && Natural(t)
    requires t.rest == Show(letter, s) + tail && Ends(letter, tail)
    ensures Read(letter, t, zones) == Some(t.(rest := tail, offset := if s.offset == 0 then GMT else s.offset))
  {
    hide ReadZone, OffsetText, Printable;
    ReadOffset(s.offset, letter == 'z', t, tail, zones);
  }

  /** Each letter reads what it wrote, and nothing else. */
  lemma ReadBack(letter: char, s: Stamp, t: Scan, tail: string, zones: map<string, int>)
    requires letter in LETTERS && Readable(s) && Fresh(letter, t)
    requires t.rest == Show(letter, s) + tail && Ends(letter, tail)
    ensures Read(letter, t, zones) == Some(Assigned(letter, s, t, tail))
    ensures ReadsBack(letter, s, t, tail, Assigned(letter, s, t, tail))
  {
    AssignedReadsBack(letter, s, t, tail);
    FreshIs(letter, t);
    hide Show, Read, ReadsBack, Ends, Fresh;
    if letter in {'w', 'W'} {
      ReadWordBack(letter, s, t, tail, zones);
    } else if letter in {'b', 'B'} {
      ReadMonthBack(letter, s, t, tail, zones);
    } else if letter in {'d', 'e', 'f'} {
      ReadDayBack(letter, s, t, tail, zones);
    } else if letter in {'m', 'n'} {
      ReadMonthNumberBack(letter, s, t, tail, zones);
    } else if letter == 'Y' {
      ReadYearBack(s, t, tail, zones);
    } else if letter == 's' {
      ReadSecondBack(s, t, tail, zones);
    } else if letter == 'F' {
      ReadThousandthBack(s, t, tail, zones);
    } else if letter == 'i' {
      ReadMillisecondBack(s, t, tail, zones);
    } else if letter in {'z', 'Z'} {
      ReadZoneBack(letter, s, t, tail, zones);
    } else if letter == 'H' {
      ReadHourBack(s, t, tail, zones);
    } else if letter == 'M' {
      ReadMinuteBack(s, t, tail, zones);
    } else {
      ReadWholeSecondBack(s, t, tail, zones);
    }
  }

  lemma FreshIs(letter: char, t: Scan)
    requires Fresh(letter, t)
    ensures letter in {'d', 'e', 'f'} ==> t.day == 0
    ensures letter in {'m', 'n'} ==> t.month == 0
    ensures letter == 'Y' ==> t.year == 0
    ensures letter in {'s', 'F', 'i'} ==> t.millisecond == 0
    ensures letter in {'s', 'S'} ==> t.second == 0
    ensures letter == 'H' ==> t.hour == 0
    ensures letter == 'M' ==> t.minute == 0
    ensures Natural(t) && t.microsecond == 0
  {
    assert forall mark :: mark in Marks(letter) && mark != 'z' ==> Variable(t, mark) == 0;
    if letter in {'d', 'e', 'f'} {
      assert 'd' in Marks(letter);
    } else if letter in {'m', 'n'} {
      assert 'm' in Marks(letter);
    } else if letter == 'Y' {
      assert 'Y' in Marks(letter);
    } else if letter in {'s', 'F', 'i'} {
      assert 'i' in Marks(letter);
      assert letter == 's' ==> 'S' in Marks(letter);
    } else if letter in {'H', 'M', 'S'} {
      assert letter in Marks(letter);
    }
  }

  // ---------------------------------------------------------------- whole formats

  /** A format string, piece by piece. */
  datatype Pieces = End | Literal(c: char, next: Pieces) | Letter(c: char, next: Pieces)

  function Source(p: Pieces): string {
    match p
    case End => ""
    case Literal(c, next) => [c] + Source(next)
    case Letter(c, next) => ['%'] + ([c] + Source(next))
  }

  function Text(p: Pieces, s: Stamp): string
    requires s.Valid() && Known(p)
  {
    match p
    case End => ""
    case Literal(c, next) => (if c == '[' || c == ']' then "" else [c]) + Text(next, s)
    case Letter(c, next) => Show(c, s) + Text(next, s)
  }

  /** The variables that the letters of a format read. */
  function AllMarks(p: Pieces): set<char> {
    match p
    case End => {}
    case Literal(_, next) => AllMarks(next)
    case Letter(c, next) => Marks(c) + AllMarks(next)
  }

  predicate Known(p: Pieces) {
    match p
    case End => true
    case Literal(c, next) => c != '%' && Known(next)
    case Letter(c, next) => c in LETTERS && Known(next)
  }

  /** A text that starts with `p` cannot be taken for a part of the text of `letter`. */
  predicate Parts(letter: char, p: Pieces) {
    match p
    case End => true
    case Literal(c, next) => if c == '[' || c == ']' then Parts(letter, next) else Ends(letter, [c])
    case Letter(c, _) =>
      && (letter in {'w', 'W', 'b', 'B', 'z', 'Z'} ==> c !in {'w', 'W', 'b', 'B', 'z', 'Z'})
      && (letter in {'e', 'f', 'n', 's', 'F'} ==> c in {'w', 'W', 'b', 'B', 'z', 'Z'})
  }

  /** No variable is read twice, and each letter knows where its text ends. */
  predicate Unambiguous(p: Pieces) {
    match p
    case End => true
    case Literal(_, next) => Unambiguous(next)
    case Letter(c, next) => Marks(c) !! AllMarks(next) && Parts(c, next) && Unambiguous(next)
  }

  lemma {:induction false} PrintText(p: Pieces, s: Stamp)
    requires s.Valid() && Known(p)
    ensures Print(Source(p), s) == Text(p, s)
  {
    hide Show;
    match p
    case End =>
    case Literal(c, next) =>
      PrintText(next, s);
      assert Source(p)[0] == c && Source(p)[1..] == Source(next);
      assert "" + Text(next, s) == Text(next, s);
    case Letter(c, next) =>
      PrintText(next, s);
      assert Source(p)[2..] == Source(next);
  }

  lemma ZerosStart(n: nat, width: nat)
    requires width > 0 && n < Power10(width)
    ensures DigitFirst(Zeros(n, width)) && !AlphaFirst(Zeros(n, width)) && !SignFirst(Zeros(n, width))
  {
    ReadZeros(n, width, "");
  }

  lemma WordStarts(letter: char, s: Stamp)
    requires letter in {'w', 'W', 'b', 'B', 'z', 'Z'} && s.Valid()
    ensures Show(letter, s) != "" && !DigitFirst(Show(letter, s))
  {
    WeekDayIsWord(s.weekDay);
    MonthIsWord(s.fields.month);
  }

  lemma NumberStarts(letter: char, s: Stamp)
    requires letter in LETTERS && letter !in {'w', 'W', 'b', 'B', 'z', 'Z'} && Readable(s)
    ensures Show(letter, s) != "" && !AlphaFirst(Show(letter, s)) && !SignFirst(Show(letter, s))
  {
    var f := s.fields;
    Powers();
    hide Zeros, Decimal;
    if letter in {'e', 'f'} {
      ReadDecimal(f.day, "");
      DecimalSize(f.day);
    } else if letter == 'n' {
      ReadDecimal(f.month, "");
    } else if letter in {'F', 'i'} {
      ZerosStart(f.millisecond, 3);
    } else if letter == 'Y' {
      ZerosStart(f.year, 4);
    } else {
      ZerosStart(if letter == 'd' then f.day else if letter == 'm' then f.month else if letter == 'H' then f.hour
                 else if letter == 'M' then f.minute else f.second, 2);
    }
  }

  lemma ShowStarts(letter: char, s: Stamp)
    requires letter in LETTERS && Readable(s)
    ensures Show(letter, s) != ""
    ensures letter in {'w', 'W', 'b', 'B', 'z', 'Z'} ==> !DigitFirst(Show(letter, s))
    ensures letter !in {'w', 'W', 'b', 'B', 'z', 'Z'} ==> !AlphaFirst(Show(letter, s)) && !SignFirst(Show(letter, s))
  {
    hide Show;
    if letter in {'w', 'W', 'b', 'B', 'z', 'Z'} {
      WordStarts(letter, s);
    } else {
      NumberStarts(letter, s);
    }
  }

  lemma {:induction false} PartsEnds(letter: char, p: Pieces, s: Stamp)
    requires Known(p) && Readable(s) && Parts(letter, p)
    ensures Ends(letter, Text(p, s))
  {
    hide Show;
    match p
    case End =>
    case Literal(c, next) =>
      if c == '[' || c == ']' {
        PartsEnds(letter, next, s);
        assert "" + Text(next, s) == Text(next, s);
      } else {
        assert Text(p, s)[0] == c;
      }
    case Letter(c, next) =>
      ShowStarts(c, s);
      assert Text(p, s)[0] == Show(c, s)[0];
  }

  lemma LiteralBack(c: char, rest: string, t: Scan)
    requires c != '%' && Natural(t) && t.optional >= 0
    requires t.rest == (if c == '[' || c == ']' then "" else [c]) + rest
    ensures ReadLiteral(c, t).Some?
    ensures var u := ReadLiteral(c, t).value;
      u.rest == rest && u.optional >= 0 && u == t.(rest := u.rest, optional := u.optional)
  {
  }

  lemma LetterBack(c: char, next: Pieces, s: Stamp, t: Scan, zones: map<string, int>)
    requires c in LETTERS && Known(next) && Parts(c, next) && Readable(s) && Fresh(c, t)
    requires t.rest == Show(c, s) + Text(next, s)
    ensures var tail := Text(next, s);
      Read(c, t, zones) == Some(Assigned(c, s, t, tail)) && ReadsBack(c, s, t, tail, Assigned(c, s, t, tail))
  {
    PartsEnds(c, next, s);
    ReadBack(c, s, t, Text(next, s), zones);
  }

  /** The variables that are left to read have not been written. */
  predicate Blank(p: Pieces, t: Scan) {
    Natural(t) && t.microsecond == 0 && t.optional >= 0
    && forall mark :: mark in MARKS && mark in AllMarks(p) && mark != 'z' ==> Variable(t, mark) == 0
  }

  predicate Filled(p: Pieces, s: Stamp, t: Scan, u: Scan) {
    && u.rest == "" && u.time == t.time
    && forall mark :: mark in MARKS ==> Variable(u, mark) == if mark in AllMarks(p) then Expected(s, mark) else Variable(t, mark)
  }

  lemma BlankNext(c: char, next: Pieces, s: Stamp, t: Scan, u: Scan, tail: string)
    requires c in LETTERS && Marks(c) !! AllMarks(next)
    requires Blank(Letter(c, next), t) && ReadsBack(c, s, t, tail, u)
    ensures Fresh(c, t) && Blank(next, u)
    ensures forall v :: Filled(next, s, u, v) ==> Filled(Letter(c, next), s, t, v)
  {
    MarksAre(c);
    hide Variable, Expected, Marks, MARKS;
  }

  lemma BlankFresh(c: char, next: Pieces, t: Scan)
    requires Blank(Letter(c, next), t)
    ensures Fresh(c, t)
  {
    MarksAre(c);
    hide Variable, Marks, MARKS;
  }

  lemma SameVariables(t: Scan, u: Scan)
    requires u == t.(rest := u.rest, optional := u.optional)
    ensures Natural(u) == Natural(t) && forall mark :: mark in MARKS ==> Variable(u, mark) == Variable(t, mark)
  {
  }

  lemma ParseLiteral(c: char, rest: string, t: Scan, zones: map<string, int>)
    requires c != '%' && Natural(t)
    ensures ReadLiteral(c, t).Some? ==> Natural(ReadLiteral(c, t).value)
    ensures ReadLiteral(c, t).Some? ==> Parse([c] + rest, t, zones) == Parse(rest, ReadLiteral(c, t).value, zones)
  {
    LiteralIsNatural(c, t);
    hide ReadLiteral, ReadTime, Read;
    assert ([c] + rest)[1..] == rest;
  }

  lemma ParseLetter(c: char, rest: string, t: Scan, zones: map<string, int>)
    requires c != 'T' && Natural(t)
    ensures Read(c, t, zones).Some? ==>
              Parse(['%'] + ([c] + rest), t, zones) == Parse(rest, Read(c, t, zones).value, zones)
  {
    hide Read, ReadTime, ReadLiteral;
    var format := ['%'] + ([c] + rest);
    assert format[0] == '%' && format[1] == c && format[2..] == rest;
  }

  /** A text printed with an unambiguous format is read back: each variable that the format names gets its
      value, the others stay as they were, and nothing of the text remains. */
  lemma {:induction false} ParsePrint(p: Pieces, s: Stamp, t: Scan, zones: map<string, int>)
    requires Known(p) && Unambiguous(p) && Readable(s)
    requires Blank(p, t) && t.rest == Text(p, s)
    ensures Parse(Source(p), t, zones).Some?
    ensures Filled(p, s, t, Parse(Source(p), t, zones).value)
  {
    assert s.Valid();
    hide Show, Read, ReadLiteral, ReadTime, Assigned, Variable, Expected, Readable, Marks;
    if p == End {
      return;
    }
    hide Parse;
    match p
    case End =>
    case Literal(c, next) =>
      ParseLiteral(c, Source(next), t, zones);
      LiteralBack(c, Text(next, s), t);
      var u := ReadLiteral(c, t).value;
      SameVariables(t, u);
      ParsePrint(next, s, u, zones);
    case Letter(c, next) =>
      ParseLetter(c, Source(next), t, zones);
      BlankFresh(c, next, t);
      LetterBack(c, next, s, t, zones);
      var u := Assigned(c, s, t, Text(next, s));
      BlankNext(c, next, s, t, u, Text(next, s));
      ParsePrint(next, s, u, zones);
  }

  /** `Date::update` from a text, then from the fields: what `format` printed is what it reads. */
  lemma RoundTrip(p: Pieces, s: Stamp, zones: map<string, int>)
    requires Known(p) && Unambiguous(p) && Readable(s)
    ensures var r := Parse(Source(p), Start(Print(Source(p), s)), zones);
      r.Some? && Filled(p, s, Start(""), r.value)
  {
    PrintText(p, s);
    var t := Start(Text(p, s));
    ParsePrint(p, s, t, zones);
    SameVariables(Start(""), t);
    hide Parse, Variable, Expected;
  }

  // ---------------------------------------------------------------- the formats of `Date`

  const ISO_SECONDS := Letter('s', Letter('z', Literal(']', End)))
  const ISO_CLOCK := Letter('H', Literal(':', Letter('M', Literal(':', ISO_SECONDS))))
  const ISO_DAY_OF_MONTH := Letter('d', Literal('T', ISO_CLOCK))
  const ISO_DAY := Letter('m', Literal('-', ISO_DAY_OF_MONTH))
  const ISO_PIECES := Letter('Y', Literal('[', Literal('-', ISO_DAY)))
  const MAIL_SECONDS := Letter('S', Literal(' ', Letter('Z', End)))
  const MAIL_CLOCK := Letter('H', Literal(':', Letter('M', Literal(':', MAIL_SECONDS))))
  const MAIL_YEAR := Letter('Y', Literal(' ', MAIL_CLOCK))
  const MAIL_MONTH := Letter('b', Literal(' ', MAIL_YEAR))
  const RFC1123_DAY := Letter('e', Literal(' ', MAIL_MONTH))
  const RFC1123_PIECES := Letter('w', Literal(',', Literal(' ', RFC1123_DAY)))
  const HTTP_DAY := Letter('d', Literal(' ', MAIL_MONTH))
  const HTTP_PIECES := Letter('w', Literal(',', Literal(' ', HTTP_DAY)))

  /** A format in pieces: its text, and that it can be read back. */
  predicate Spells(p: Pieces, text: string, marks: set<char>) {
    Known(p) && Unambiguous(p) && Source(p) == text && AllMarks(p) == marks
  }

  lemma AddLiteral(c: char, p: Pieces, text: string, marks: set<char>, longer: string)
    requires Spells(p, text, marks) && c != '%' && longer == [c] + text
    ensures Spells(Literal(c, p), longer, marks)
  {
  }

  lemma AddLetter(c: char, p: Pieces, text: string, marks: set<char>, longer: string, more: set<char>)
    requires Spells(p, text, marks) && c in LETTERS && Parts(c, p) && Marks(c) !! marks
    requires longer == ['%'] + ([c] + text) && more == Marks(c) + marks
    ensures Spells(Letter(c, p), longer, more)
  {
  }

  lemma IsoSeconds()
    ensures Spells(ISO_SECONDS, "%s%z]", {'z', 'S', 'i'})
  {
    assert Spells(End, "", {});
    hide Spells;
    AddLiteral(']', End, "", {}, "]");
    var p1 := Literal(']', End);
    AddLetter('z', p1, "]", {}, "%z]", {'z'});
    var p2 := Letter('z', p1);
    AddLetter('s', p2, "%z]", {'z'}, "%s%z]", {'z', 'S', 'i'});
  }

  lemma IsoClock()
    ensures Spells(ISO_CLOCK, "%H:%M:%s%z]", {'z', 'S', 'i', 'M', 'H'})
  {
    IsoSeconds();
    hide Spells, ISO_SECONDS;
    AddLiteral(':', ISO_SECONDS, "%s%z]", {'z', 'S', 'i'}, ":%s%z]");
    var p1 := Literal(':', ISO_SECONDS);
    AddLetter('M', p1, ":%s%z]", {'z', 'S', 'i'}, "%M:%s%z]", {'z', 'S', 'i', 'M'});
    var p2 := Letter('M', p1);
    AddLiteral(':', p2, "%M:%s%z]", {'z', 'S', 'i', 'M'}, ":%M:%s%z]");
    var p3 := Literal(':', p2);
    AddLetter('H', p3, ":%M:%s%z]", {'z', 'S', 'i', 'M'}, "%H:%M:%s%z]", {'z', 'S', 'i', 'M', 'H'});
  }

  lemma IsoDayOfMonth()
    ensures Spells(ISO_DAY_OF_MONTH, "%dT%H:%M:%s%z]", {'z', 'S', 'i', 'M', 'H', 'd'})
  {
    IsoClock();
    hide Spells, ISO_CLOCK;
    AddLiteral('T', ISO_CLOCK, "%H:%M:%s%z]", {'z', 'S', 'i', 'M', 'H'}, "T%H:%M:%s%z]");
    var p1 := Literal('T', ISO_CLOCK);
    AddLetter('d', p1, "T%H:%M:%s%z]", {'z', 'S', 'i', 'M', 'H'}, "%dT%H:%M:%s%z]", {'z', 'S', 'i', 'M', 'H', 'd'});
  }

  lemma IsoDay()
    ensures Spells(ISO_DAY, "%m-%dT%H:%M:%s%z]", {'z', 'S', 'i', 'M', 'H', 'd', 'm'})
  {
    IsoDayOfMonth();
    hide Spells, ISO_DAY_OF_MONTH;
    AddLiteral('-', ISO_DAY_OF_MONTH, "%dT%H:%M:%s%z]", {'z', 'S', 'i', 'M', 'H', 'd'}, "-%dT%H:%M:%s%z]");
    var p1 := Literal('-', ISO_DAY_OF_MONTH);
    AddLetter('m', p1, "-%dT%H:%M:%s%z]", {'z', 'S', 'i', 'M', 'H', 'd'}, "%m-%dT%H:%M:%s%z]", {'z', 'S', 'i', 'M', 'H', 'd', 'm'});
  }

  lemma IsoFormat()
    ensures Spells(ISO_PIECES, ISO8601_FRAC, {'z', 'S', 'i', 'M', 'H', 'd', 'm', 'Y'})
  {
    IsoDay();
    hide Spells, ISO_DAY;
    AddLiteral('-', ISO_DAY, "%m-%dT%H:%M:%s%z]", {'z', 'S', 'i', 'M', 'H', 'd', 'm'}, "-%m-%dT%H:%M:%s%z]");
    var p1 := Literal('-', ISO_DAY);
    AddLiteral('[', p1, "-%m-%dT%H:%M:%s%z]", {'z', 'S', 'i', 'M', 'H', 'd', 'm'}, "[-%m-%dT%H:%M:%s%z]");
    var p2 := Literal('[', p1);
    AddLetter('Y', p2, "[-%m-%dT%H:%M:%s%z]", {'z', 'S', 'i', 'M', 'H', 'd', 'm'}, "%Y[-%m-%dT%H:%M:%s%z]", {'z', 'S', 'i', 'M', 'H', 'd', 'm', 'Y'});
  }

  lemma MailSeconds()
    ensures Spells(MAIL_SECONDS, "%S %Z", {'z', 'S'})
  {
    assert Spells(End, "", {});
    hide Spells;
    AddLetter('Z', End, "", {}, "%Z", {'z'});
    var p1 := Letter('Z', End);
    AddLiteral(' ', p1, "%Z", {'z'}, " %Z");
    var p2 := Literal(' ', p1);
    AddLetter('S', p2, " %Z", {'z'}, "%S %Z", {'z', 'S'});
  }

  lemma MailClock()
    ensures Spells(MAIL_CLOCK, "%H:%M:%S %Z", {'z', 'S', 'M', 'H'})
  {
    MailSeconds();
    hide Spells, MAIL_SECONDS;
    AddLiteral(':', MAIL_SECONDS, "%S %Z", {'z', 'S'}, ":%S %Z");
    var p1 := Literal(':', MAIL_SECONDS);
    AddLetter('M', p1, ":%S %Z", {'z', 'S'}, "%M:%S %Z", {'z', 'S', 'M'});
    var p2 := Letter('M', p1);
    AddLiteral(':', p2, "%M:%S %Z", {'z', 'S', 'M'}, ":%M:%S %Z");
    var p3 := Literal(':', p2);
    AddLetter('H', p3, ":%M:%S %Z", {'z', 'S', 'M'}, "%H:%M:%S %Z", {'z', 'S', 'M', 'H'});
  }

  lemma MailYear()
    ensures Spells(MAIL_YEAR, "%Y %H:%M:%S %Z", {'z', 'S', 'M', 'H', 'Y'})
  {
    MailClock();
    hide Spells, MAIL_CLOCK;
    AddLiteral(' ', MAIL_CLOCK, "%H:%M:%S %Z", {'z', 'S', 'M', 'H'}, " %H:%M:%S %Z");
    var p1 := Literal(' ', MAIL_CLOCK);
    AddLetter('Y', p1, " %H:%M:%S %Z", {'z', 'S', 'M', 'H'}, "%Y %H:%M:%S %Z", {'z', 'S', 'M', 'H', 'Y'});
  }

  lemma MailMonth()
    ensures Spells(MAIL_MONTH, "%b %Y %H:%M:%S %Z", {'z', 'S', 'M', 'H', 'Y', 'm'})
  {
    MailYear();
    hide Spells, MAIL_YEAR;
    AddLiteral(' ', MAIL_YEAR, "%Y %H:%M:%S %Z", {'z', 'S', 'M', 'H', 'Y'}, " %Y %H:%M:%S %Z");
    var p1 := Literal(' ', MAIL_YEAR);
    AddLetter('b', p1, " %Y %H:%M:%S %Z", {'z', 'S', 'M', 'H', 'Y'}, "%b %Y %H:%M:%S %Z", {'z', 'S', 'M', 'H', 'Y', 'm'});
  }

  lemma WeekDayBefore(p: Pieces, text: string, marks: set<char>)
    requires Spells(p, text, marks)
    ensures Spells(Letter('w', Literal(',', Literal(' ', p))), "%w, " + text, marks)
  {
    hide Spells;
    AddLiteral(' ', p, text, marks, " " + text);
    AddLiteral(',', Literal(' ', p), " " + text, marks, ", " + text);
    AddLetter('w', Literal(',', Literal(' ', p)), ", " + text, marks, "%w, " + text, marks);
  }

  lemma Rfc1123Day()
    ensures Spells(RFC1123_DAY, "%e %b %Y %H:%M:%S %Z", {'z', 'S', 'M', 'H', 'Y', 'm', 'd'})
  {
    MailMonth();
    hide Spells, MAIL_MONTH;
    AddLiteral(' ', MAIL_MONTH, "%b %Y %H:%M:%S %Z", {'z', 'S', 'M', 'H', 'Y', 'm'}, " %b %Y %H:%M:%S %Z");
    AddLetter('e', Literal(' ', MAIL_MONTH), " %b %Y %H:%M:%S %Z", {'z', 'S', 'M', 'H', 'Y', 'm'}, "%e %b %Y %H:%M:%S %Z", {'z', 'S', 'M', 'H', 'Y', 'm', 'd'});
  }

  lemma Rfc1123Format()
    ensures Spells(RFC1123_PIECES, RFC1123, {'z', 'S', 'M', 'H', 'Y', 'm', 'd'})
  {
    Rfc1123Day();
    hide Spells, RFC1123_DAY;
    WeekDayBefore(RFC1123_DAY, "%e %b %Y %H:%M:%S %Z", {'z', 'S', 'M', 'H', 'Y', 'm', 'd'});
    assert "%w, " + "%e %b %Y %H:%M:%S %Z" == RFC1123;
  }

  lemma HttpDay()
    ensures Spells(HTTP_DAY, "%d %b %Y %H:%M:%S %Z", {'z', 'S', 'M', 'H', 'Y', 'm', 'd'})
  {
    MailMonth();
    hide Spells, MAIL_MONTH;
    AddLiteral(' ', MAIL_MONTH, "%b %Y %H:%M:%S %Z", {'z', 'S', 'M', 'H', 'Y', 'm'}, " %b %Y %H:%M:%S %Z");
    AddLetter('d', Literal(' ', MAIL_MONTH), " %b %Y %H:%M:%S %Z", {'z', 'S', 'M', 'H', 'Y', 'm'}, "%d %b %Y %H:%M:%S %Z", {'z', 'S', 'M', 'H', 'Y', 'm', 'd'});
  }

  lemma HttpFormat()
    ensures Spells(HTTP_PIECES, HTTP, {'z', 'S', 'M', 'H', 'Y', 'm', 'd'})
  {
    HttpDay();
    hide Spells, HTTP_DAY;
    WeekDayBefore(HTTP_DAY, "%d %b %Y %H:%M:%S %Z", {'z', 'S', 'M', 'H', 'Y', 'm', 'd'});
    assert "%w, " + "%d %b %Y %H:%M:%S %Z" == HTTP;
  }

  /** The fields that a parser ends with. */
  function Told(t: Scan): Fields { Fields(t.year, t.month, t.day, t.hour, t.minute, t.second, t.millisecond) }

  lemma FilledIs(p: Pieces, s: Stamp, u: Scan)
    requires AllMarks(p) == MARKS || AllMarks(p) == MARKS - {'i'}
    requires Filled(p, s, Start(""), u)
    ensures Told(u) == (if 'i' in AllMarks(p) then s.fields else s.fields.(millisecond := 0))
    ensures u.offset == (if s.offset == 0 then GMT else s.offset) && u.time == 0
  {
    assert Variable(u, 'Y') == Expected(s, 'Y') && Variable(u, 'm') == Expected(s, 'm') && Variable(u, 'd') == Expected(s, 'd');
    assert Variable(u, 'H') == Expected(s, 'H') && Variable(u, 'M') == Expected(s, 'M') && Variable(u, 'S') == Expected(s, 'S');
    assert Variable(u, 'z') == Expected(s, 'z');
    assert Variable(u, 'i') == if 'i' in AllMarks(p) then Expected(s, 'i') else 0;
  }

  /** ISO 8601 with milliseconds: everything is read back. */
  lemma IsoRoundTrip(s: Stamp, zones: map<string, int>)
    requires Readable(s)
    ensures var r := Parse(ISO8601_FRAC, Start(Print(ISO8601_FRAC, s)), zones);
      r.Some? && Told(r.value) == s.fields && r.value.offset == if s.offset == 0 then GMT else s.offset
  {
    hide ISO_PIECES, ISO8601_FRAC, Parse, Print, Source, AllMarks, Known, Unambiguous, Filled;
    IsoFormat();
    RoundTrip(ISO_PIECES, s, zones);
    FilledIs(ISO_PIECES, s, Parse(ISO8601_FRAC, Start(Print(ISO8601_FRAC, s)), zones).value);
  }

  /** RFC 1123 and HTTP: everything but the milliseconds. */
  lemma MailRoundTrip(format: string, p: Pieces, s: Stamp, zones: map<string, int>)
    requires Readable(s) && Spells(p, format, MARKS - {'i'})
    ensures var r := Parse(format, Start(Print(format, s)), zones);
      r.Some? && Told(r.value) == s.fields.(millisecond := 0) && r.value.offset == if s.offset == 0 then GMT else s.offset
  {
    RoundTrip(p, s, zones);
    hide Parse, Print, Source, AllMarks, Known, Unambiguous, Filled;
    FilledIs(p, s, Parse(format, Start(Print(format, s)), zones).value);
  }

  lemma Rfc1123RoundTrip(s: Stamp, zones: map<string, int>)
    requires Readable(s)
    ensures var r := Parse(RFC1123, Start(Print(RFC1123, s)), zones);
      r.Some? && Told(r.value) == s.fields.(millisecond := 0) && r.value.offset == if s.offset == 0 then GMT else s.offset
  {
    hide RFC1123_PIECES, RFC1123, Spells, Parse, Print;
    Rfc1123Format();
    assert MARKS - {'i'} == {'z', 'S', 'M', 'H', 'Y', 'm', 'd'};
    MailRoundTrip(RFC1123, RFC1123_PIECES, s, zones);
  }

  lemma HttpRoundTrip(s: Stamp, zones: map<string, int>)
    requires Readable(s)
    ensures var r := Parse(HTTP, Start(Print(HTTP, s)), zones);
      r.Some? && Told(r.value) == s.fields.(millisecond := 0) && r.value.offset == if s.offset == 0 then GMT else s.offset
  {
    hide HTTP_PIECES, HTTP, Spells, Parse, Print;
    HttpFormat();
    assert MARKS - {'i'} == {'z', 'S', 'M', 'H', 'Y', 'm', 'd'};
    MailRoundTrip(HTTP, HTTP_PIECES, s, zones);
  }

  // ---------------------------------------------------------------- the offsets that cannot be told

  lemma OneDigit(text: string, value: nat)
    ensures value <= Number(text, 1, value).0 <= value * 10 + 9
  {
    assert forall rest, v: nat :: Number(rest, 0, v) == (v, rest);
  }

  lemma TwoDigits(text: string)
    ensures Number(text, 2, 0).0 < 100
  {
    if text != "" && IsDigit(text[0]) {
      OneDigit(text[1..], (text[0] - '0') as nat);
    }
  }

  /** What follows a sign is read as whole minutes: a tenth of the hours when they have three digits. */
  lemma ReadAnyOffset(offset: int, iso: bool, scan: Scan, zones: map<string, int>)
    requires offset != 0 && -0x8000_0000 < offset < 0x7FFF_FFFF && scan.rest == OffsetText(offset, iso)
    ensures ReadZone(scan, zones).offset % 60000 == 0
    ensures Magnitude(offset) >= 360000000 ==> -360000000 < ReadZone(scan, zones).offset < 360000000
  {
    var v := Magnitude(offset);
    var h := v / 3600000;
    var after := (if iso then ":" else "") + Zeros(v % 3600000 / 60000, 2) + "";
    OffsetSpelt(offset, iso, "");
    assert OffsetText(offset, iso) + "" == OffsetText(offset, iso);
    hide Zeros, OffsetText, ReadZone;
    if v >= 360000000 {
      ReadThreeDigits(h, after);
    }
    AfterSign(if offset < 0 then '-' else '+', Zeros(h, 2) + after, scan, zones);
  }

  lemma AfterSign(sign: char, text: string, scan: Scan, zones: map<string, int>)
    requires (sign == '+' || sign == '-') && scan.rest == [sign] + text
    ensures ReadZone(scan, zones).offset % 60000 == 0
    ensures Number(text, 2, 0).0 < 60 ==> -360000000 < ReadZone(scan, zones).offset < 360000000
  {
    hide ZoneOffset, Number;
    assert scan.rest[1..] == text && scan.rest[0..] == scan.rest;
    var (hours, afterHours) := Number(text, 2, 0);
    var rest := if FirstIs(afterHours, ':') then afterHours[1..] else afterHours;
    TwoDigits(rest);
    Minutes(hours, Number(rest, 2, 0).0);
  }

  lemma Minutes(hours: nat, minutes: nat)
    ensures (hours * 3600 + minutes * 60) * 1000 == (hours * 60 + minutes) * 60000
    ensures (-1) * (hours * 3600 + minutes * 60) * 1000 == -(hours * 60 + minutes) * 60000
    ensures hours < 60 && minutes < 100 ==> (hours * 60 + minutes) * 60000 < 360000000
  {
  }

  lemma ReadThreeDigits(h: nat, tail: string)
    requires 100 <= h < 600
    ensures Number(Zeros(h, 2) + tail, 2, 0).0 < 60
  {
    Powers();
    PaddedIsFixed(h, 3);
    assert |Decimal(h)| == 3 by {
      DecimalSize(h / 10);
    }
    assert Zeros(h, 2) == Fixed(h, 3) == Fixed(h / 10, 2) + [Digit(h % 10)];
    assert Zeros(h, 2) + tail == Fixed(h / 10, 2) + ([Digit(h % 10)] + tail);
    NumberOfFixed(h / 10, 2, [Digit(h % 10)] + tail, 0);
  }

  /** An offset is read back exactly when it is whole minutes and less than 100 hours. */
  lemma OffsetReadBackIff(offset: int, iso: bool, scan: Scan, zones: map<string, int>)
    requires -0x8000_0000 < offset < 0x7FFF_FFFF && scan.rest == OffsetText(offset, iso)
    ensures ReadZone(scan, zones).offset == (if offset == 0 then GMT else offset) <==> Printable(offset)
  {
    if Printable(offset) {
      assert OffsetText(offset, iso) + "" == OffsetText(offset, iso);
      ReadOffset(offset, iso, scan, "", zones);
    } else {
      ReadAnyOffset(offset, iso, scan, zones);
    }
  }

  // ---------------------------------------------------------------- the time in another unit

  lemma NumberOfDigit(n: nat, d: nat, tail: string, more: nat)
    requires d < 10
    ensures Number([Digit(d)] + tail, 1 + more, n) == Number(tail, more, n * 10 + d)
  {
    DigitIs(d);
    assert ([Digit(d)] + tail)[1..] == tail;
  }

  lemma {:induction false} NumberOfDecimal(n: nat, tail: string, more: nat)
    ensures Number(Decimal(n) + tail, |Decimal(n)| + more, 0) == Number(tail, more, n)
    decreases n
  {
    hide Digit, Number;
    NumberOfDigit(n / 10, n % 10, tail, more);
    var next := [Digit(n % 10)] + tail;
    if n < 10 {
      assert Decimal(n) + tail == next;
    } else {
      assert Decimal(n) + tail == Decimal(n / 10) + next;
      NumberOfDecimal(n / 10, next, more + 1);
    }
  }

  lemma NumberOfZeros(n: nat, tail: string)
    requires !DigitFirst(tail)
    ensures Number(Zeros(n, 2) + tail, |Zeros(n, 2) + tail|, 0) == (n, tail)
  {
    var text := Decimal(n) + tail;
    NumberOfDecimal(n, tail, |tail|);
    if n < 10 {
      assert Zeros(n, 2) + tail == "0" + text;
      assert ("0" + text)[1..] == text;
    }
  }

  /** The quotient of a 64-bit time keeps its sign unless it is 0. */
  lemma QuotientOfTime(time: int, unit: char)
    requires -INT64_MAX - 1 <= time <= INT64_MAX
    ensures var told := TruncDiv(time, Factor(unit));
      -INT64_MAX - 1 <= told <= INT64_MAX && (told >= 0 <==> time + Factor(unit) > 0)
  {
  }

  /** A printed time is read back, up to its unit, exactly when it does not print as a negative number. */
  lemma TimeReadBackIff(unit: char, time: int, t: Scan, tail: string)
    requires -INT64_MAX - 1 <= time <= INT64_MAX
    requires t.rest == ShowTime(unit, time) + tail && !DigitFirst(tail)
    ensures var factor := Factor(unit);
      ReadTime(factor, t) == Some(t.(rest := tail, time := t.time + TruncDiv(time, factor) * factor)) <==> time + factor > 0
  {
    QuotientOfTime(time, unit);
    FactorIsPositive(unit);
    hide TruncDiv, Factor, Zeros, Number, DigitFirst;
    var factor := Factor(unit);
    var told := TruncDiv(time, factor);
    var printed := told % UINT64;
    NumberOfZeros(printed, tail);
    ZerosAreLong(printed);
    Saturated(told);
    var read := if printed > INT64_MAX then INT64_MAX else printed;
    assert ReadTime(factor, t) == Some(t.(rest := tail, time := t.time + read * factor));
    hide ReadTime, ShowTime;
    SameTimes(told, read, factor);
  }

  /** A negative number prints as one that saturates when it is read. */
  lemma Saturated(told: int)
    requires -INT64_MAX - 1 <= told <= INT64_MAX
    ensures var printed := told % UINT64;
      (if printed > INT64_MAX then INT64_MAX else printed) == told <==> told >= 0
  {
  }

  lemma SameTimes(a: int, b: int, factor: nat)
    requires factor > 0
    ensures a * factor == b * factor <==> a == b
  {
    if a < b {
      LessTimes(a, b, factor);
    } else if b < a {
      LessTimes(b, a, factor);
    }
  }

  lemma FactorIsPositive(unit: char)
    ensures Factor(unit) > 0
  {
  }

  lemma LessTimes(a: int, b: int, c: int)
    requires a < b && c > 0
    ensures a * c < b * c
  {
  }

  lemma ZerosAreLong(n: nat)
    ensures |Zeros(n, 2)| >= 2
  {
  }

  // ---------------------------------------------------------------- the code: printing

  /** What a date answers while it is printed. */
  ghost function StampOf(date: Date): (s: Stamp)
    requires date.Valid() && date.day != 0
    reads date
    ensures s.Valid()
  {
    var time, offset := date.Moment(), date.FixedOffset();
    WeekDayCycles((time + offset) / DAY);
    Stamp(date.Civil(), offset, WeekDay((time + offset) / DAY), time)
  }

  lemma PrintStep(rest: string, s: Stamp)
    requires s.Valid() && rest != "" && rest != "%"
    ensures rest[0] != '%' ==> Print(rest, s) == (if rest[0] != '[' && rest[0] != ']' then [rest[0]] else "") + Print(rest[1..], s)
    ensures rest[0] == '%' && rest[1] != 't' && rest[1] != 'T' ==> Print(rest, s) == Show(rest[1], s) + Print(rest[2..], s)
    ensures rest[0] == '%' && (rest[1] == 't' || rest[1] == 'T') ==>
              Print(rest, s) == if |rest| == 2 then "" else ShowTime(rest[2], s.time) + Print(rest[3..], s)
  {
    hide Show;
  }

  lemma PrintEnd(s: Stamp)
    requires s.Valid()
    ensures Print("", s) == "" && Print("%", s) == ""
  {
  }

  lemma Regroup(a: string, b: string, c: string)
    ensures a + (b + c) == a + b + c
  {
  }

  /** Two states of a date that answer the same. */
  twostate predicate Unmoved(date: Date)
    requires old(date.Valid() && date.day != 0) && date.Valid() && date.day != 0
    reads date
  {
    && StampOf(date) == old(StampOf(date))
    && date.Civil() == old(date.Civil()) && date.FixedOffset() == old(date.FixedOffset()) && date.Moment() == old(date.Moment())
  }

  /** One letter after '%' but those of the time: only four of them ask the date for more than its fields. */
  method FormatLetter(date: Date, letter: char) returns (text: string)
    requires date.Valid() && date.day != 0 && letter != 't' && letter != 'T'
    modifies date
    ensures date.Valid() && date.day != 0 && Unmoved(date)
    ensures text == Show(letter, StampOf(date))
  {
    hide WeekDay, ClosedTime, IsCivil, Zeros, Decimal, Padded, OffsetText;
    var weekDay, offset := 0, 0;
    if letter == 'w' || letter == 'W' {
      weekDay := date.GetWeekDay();
      assert weekDay == StampOf(date).weekDay;
    } else if letter == 'z' || letter == 'Z' {
      offset := date.Offset();
    }
    text := Show(letter, Stamp(date.Civil(), offset, weekDay, 0));
  }

  /** `%t` and `%T` with their unit. */
  method FormatTime(date: Date, unit: char) returns (text: string)
    requires date.Valid() && date.day != 0
    modifies date
    ensures date.Valid() && date.day != 0 && Unmoved(date)
    ensures text == ShowTime(unit, StampOf(date).time)
  {
    hide WeekDay, ClosedTime, IsCivil, ShowTime;
    var time := date.Time();
    text := ShowTime(unit, time);
  }

  /** `Date::format` */
  method Format(date: Date, format: string) returns (out: string)
    requires date.Valid()
    modifies date
    ensures date.Valid() && date.day != 0 && date.FixedOffset() == old(date.FixedOffset())
    ensures var shown := date.Civil(); old(date.Shows(shown))
    ensures date.Moment() == old(date.Moment())
    ensures out == Print(format, StampOf(date))
  {
    hide Show, Print, ShowTime, WeekDay, ClosedTime, IsCivil;
    ghost var shown := date.Init();
    ghost var s := StampOf(date);
    hide StampOf, Date.Valid, Date.Moment, Date.FixedOffset, Date.Shows;
    PrintEnd(s);
    out := "";
    var i := 0;
    assert format[0..] == format && out + Print(format, s) == Print(format, s);
    while i < |format|
      invariant i <= |format| && date.Valid() && date.day != 0 && StampOf(date) == s && date.Civil() == shown
      invariant date.FixedOffset() == old(date.FixedOffset()) && date.Moment() == old(date.Moment())
      invariant out + Print(format[i..], s) == Print(format, s)
    {
      ghost var rest := format[i..];
      var c := format[i];
      i := i + 1;
      if c == '%' && i == |format| {
        assert rest == "%";
        assert out + "" == out;
        return;
      }
      PrintStep(rest, s);
      var piece := "";
      if c != '%' {
        if c != '[' && c != ']' {
          piece := [c];
        }
        assert rest[1..] == format[i..];
      } else {
        c := format[i];
        i := i + 1;
        if c != 't' && c != 'T' {
          piece := FormatLetter(date, c);
          assert rest[2..] == format[i..];
        } else if i < |format| {
          piece := FormatTime(date, format[i]);
          i := i + 1;
          assert rest[3..] == format[i..];
        } else {
          assert out + "" == out;
          break;
        }
      }
      Regroup(out, piece, Print(format[i..], s));
      out := out + piece;
    }
    assert i == |format| ==> format[i..] == "" && out + "" == out;
  }

  // ---------------------------------------------------------------- the code: parsing

  /** `PARSE_NUMBER_N`, and `PARSE_NUMBER` with the length of the text. */
  method TakeNumber(text: string, count: nat, value: nat) returns (n: nat, rest: string)
    ensures (n, rest) == Number(text, count, value)
  {
    n := value;
    var i := 0;
    while i < count && i < |text| && IsDigit(text[i])
      invariant i <= |text| && i <= count
      invariant Number(text[i..], count - i, n) == Number(text, count, value)
    {
      n := n * 10 + (text[i] - '0') as int;
      i := i + 1;
    }
    rest := text[i..];
  }

  /** `PARSE_FRACTIONAL_N` */
  method TakeFraction(text: string, count: nat, value: nat) returns (n: nat, rest: string)
    ensures (n, rest) == Fraction(text, count, value)
  {
    n := value;
    var i := 0;
    while i < count && i < |text| && IsDigit(text[i])
      invariant i <= |text| && i <= count
      invariant Fraction(text[i..], count - i, n) == Fraction(text, count, value)
    {
      n := n * 10 + (text[i] - '0') as int;
      i := i + 1;
    }
    rest := text[i..];
    if i == count {
      assert Power10(0) == 1;
    }
    while i < count
      invariant i <= count && n * Power10(count - i) == Fraction(text, count, value).0
      invariant rest == Fraction(text, count, value).1
    {
      TenTimes(n, count - i);
      n := n * 10;
      i := i + 1;
    }
  }

  lemma TenTimes(n: nat, k: nat)
    requires k > 0
    ensures (n * 10) * Power10(k - 1) == n * Power10(k)
  {
  }

  /** `SKIP_DIGITS` */
  method DropDigits(text: string) returns (rest: string)
    ensures rest == SkipDigits(text)
  {
    var i := 0;
    while i < |text| && IsDigit(text[i])
      invariant i <= |text| && SkipDigits(text[i..]) == SkipDigits(text)
    {
      i := i + 1;
    }
    rest := text[i..];
  }

  method TakeWord(text: string) returns (n: nat)
    ensures n == Word(text)
  {
    n := 0;
    while n < |text| && IsAlpha(text[n])
      invariant n <= |text| && n + Word(text[n..]) == Word(text)
    {
      n := n + 1;
    }
  }

  method FindMonth(word: string) returns (month: int)
    ensures month == MonthFrom(word, 1)
  {
    month := 0;
    if |word| >= 3 {
      var i := 1;
      while i <= 12
        invariant 1 <= i <= 13 && month == 0
        invariant MonthFrom(word, i) == MonthFrom(word, 1)
      {
        if |word| <= |MonthName(i)| && SameLetters(word, MonthName(i)[..|word|]) {
          month := i;
          break;
        }
        i := i + 1;
      }
    }
  }

  method TakeFractions(t: Scan) returns (u: Scan)
    requires Natural(t)
    ensures u == ReadFraction(t)
  {
    var millisecond, rest := TakeFraction(t.rest, 3, t.millisecond);
    var microsecond, end := TakeFraction(rest, 3, t.microsecond);
    end := DropDigits(end);
    u := t.(rest := end, millisecond := millisecond % UINT16, microsecond := microsecond);
  }

  method TakeZone(t: Scan, zones: map<string, int>) returns (u: Scan)
    ensures u == ReadZone(t, zones)
  {
    hide SameLetters;
    var offset := LOCAL;
    var count := TakeWord(t.rest);
    var rest := t.rest[count..];
    if count > 0 {
      offset := ZoneOffset(t.rest[..count], zones);
    }
    if rest != "" && (rest[0] == '+' || rest[0] == '-') {
      if offset == GMT || offset == LOCAL {
        offset := 0;
      }
      var sign := if rest[0] == '+' then 1 else -1;
      var hours, minutes;
      hours, rest := TakeNumber(rest[1..], 2, 0);
      if FirstIs(rest, ':') {
        rest := rest[1..];
      }
      minutes, rest := TakeNumber(rest, 2, 0);
      offset := offset + sign * (hours * 3600 + minutes * 60) * 1000;
    }
    u := t.(rest := rest, offset := offset);
  }

  const NUMBERS := {'m', 'n', 'o', 'y', 'Y', '_', 'H', 'h', 'M', 'S', 'i', 'c'}

  /** The variables that hold one number each, with the number of digits. */
  method TakeField(letter: char, t: Scan) returns (u: Scan)
    requires letter in NUMBERS && Natural(t)
    ensures forall zones :: Read(letter, t, zones) == Some(u)
  {
    var n, rest;
    match letter {
      case 'm' | 'n' | 'o' =>
        n, rest := TakeNumber(t.rest, 2, t.month);
        u := t.(rest := rest, month := n % UINT8);
      case 'y' =>
        n, rest := TakeNumber(t.rest, 2, t.year);
        u := t.(rest := rest, year := Century(n));
      case 'Y' =>
        n, rest := TakeNumber(t.rest, 4, t.year);
        u := t.(rest := rest, year := n);
      case '_' =>
        n, rest := TakeNumber(t.rest, |t.rest|, t.year);
        u := t.(rest := rest, year := if n < 100 then Century(n) else n);
      case 'H' | 'h' =>
        n, rest := TakeNumber(t.rest, 2, t.hour);
        u := t.(rest := rest, hour := n % UINT8);
      case 'M' =>
        n, rest := TakeNumber(t.rest, 2, t.minute);
        u := t.(rest := rest, minute := n % UINT8);
      case 'S' =>
        n, rest := TakeNumber(t.rest, 2, t.second);
        u := t.(rest := rest, second := n % UINT8);
      case 'i' =>
        n, rest := TakeNumber(t.rest, 3, t.millisecond);
        u := t.(rest := rest, millisecond := n % UINT16);
      case 'c' =>
        n, rest := TakeNumber(t.rest, 1, t.millisecond);
        u := t.(rest := rest, millisecond := n * 100 % UINT16);
    }
  }

  /** One letter after '%' but that of the time. */
  method TakeLetter(letter: char, t: Scan, zones: map<string, int>) returns (r: Option<Scan>)
    requires Natural(t) && letter != 'T'
    ensures r == Read(letter, t, zones)
  {
    hide SameLetters, Century;
    if letter in NUMBERS {
      var u := TakeField(letter, t);
      return Some(u);
    }
    var count, month, rest, n;
    match letter {
      case '%' =>
        r := if FirstIs(t.rest, '%') then Some(t) else None;
      case 'w' | 'W' =>
        count := TakeWord(t.rest);
        r := Some(t.(rest := t.rest[count..]));
      case 'b' | 'B' =>
        count := TakeWord(t.rest);
        month := FindMonth(t.rest[..count]);
        r := if month == 0 && t.optional == 0 then None else Some(t.(rest := t.rest[count..], month := month));
      case 'd' | 'e' | 'f' =>
        n, rest := TakeNumber(if t.rest != "" && IsSpace(t.rest[0]) then t.rest[1..] else t.rest, 2, t.day);
        r := Some(t.(rest := rest, day := n % UINT8));
      case 'a' | 'A' =>
        count := TakeWord(t.rest);
        var hour := t.hour;
        if SameLetters(t.rest[..count], "AM") {
          if hour == 12 {
            hour := 0;
          }
        } else if SameLetters(t.rest[..count], "PM") {
          if hour < 12 {
            hour := hour + 12;
          }
        } else if t.optional == 0 {
          return None;
        }
        r := Some(t.(rest := t.rest[count..], hour := hour));
      case 's' =>
        n, rest := TakeNumber(t.rest, 2, t.second);
        var u := t.(rest := rest, second := n % UINT8);
        if FirstIs(rest, '.') || FirstIs(rest, ',') {
          u := TakeFractions(u.(rest := rest[1..]));
        }
        r := Some(u);
      case 'F' =>
        var u := TakeFractions(t);
        r := Some(u);
      case 'z' | 'Z' =>
        var u := TakeZone(t, zones);
        r := Some(u);
      case _ =>
        r := if t.optional == 0 then None else Some(t);
    }
  }

  /** The loop of `Date::update` over the format. */
  method ParseText(text: string, format: string, zones: map<string, int>) returns (r: Option<Scan>)
    ensures r == Parse(format, Start(text), zones)
  {
    hide Read, ReadLiteral, ReadTime, Factor, IsAlpha;
    var t := Start(text);
    var i := 0;
    while i < |format|
      invariant i <= |format| && Natural(t)
      invariant Parse(format[i..], t, zones) == Parse(format, Start(text), zones)
    {
      ghost var rest := format[i..];
      var c := format[i];
      i := i + 1;
      var next;
      if c != '%' {
        LiteralIsNatural(c, t);
        next := ReadLiteral(c, t);
        assert rest[1..] == format[i..];
      } else {
        if i == |format| {
          assert rest == "%";
          break;
        }
        c := format[i];
        i := i + 1;
        assert rest[2..] == format[i..];
        if c == 'T' {
          var factor := 1;
          if i < |format| && IsAlpha(format[i]) {
            factor := Factor(format[i]);
            i := i + 1;
            assert rest[3..] == format[i..];
          }
          next := TakeTime(factor, t);
          TimeIsNatural(factor, t);
        } else {
          next := TakeLetter(c, t, zones);
        }
      }
      if next.None? {
        return None;
      }
      t := next.value;
    }
    r := Some(t);
  }

  method TakeTime(factor: nat, t: Scan) returns (r: Option<Scan>)
    ensures r == ReadTime(factor, t)
  {
    var n, rest := TakeNumber(t.rest, |t.rest|, 0);
    if rest == t.rest && t.optional == 0 {
      return None;
    }
    r := Some(t.(rest := rest, time := t.time + (if n > INT64_MAX then INT64_MAX else n) * factor));
  }

  lemma LiteralIsNatural(c: char, t: Scan)
    requires Natural(t)
    ensures ReadLiteral(c, t).Some? ==> Natural(ReadLiteral(c, t).value)
  {
  }

  lemma TimeIsNatural(factor: nat, t: Scan)
    requires Natural(t)
    ensures ReadTime(factor, t).Some? ==> Natural(ReadTime(factor, t).value)
  {
  }

  /** `Date::update` from a text that gives a zone: the fields are set as `update` sets them, and moved by a time
      that was read; a text that does not fit the format changes nothing. */
  method UpdateFromText(date: Date, text: string, format: string, zones: map<string, int>)
    returns (ok: bool, ghost shown: Fields, ghost time: int)
    requires date.Valid()
    requires var r := Parse(format, Start(text), zones); r.Some? ==> r.value.offset != LOCAL
    modifies date
    ensures date.Valid() && ok == Parse(format, Start(text), zones).Some?
    ensures !ok ==> unchanged(date)
    ensures ok ==> var scan := Parse(format, Start(text), zones).value;
      var given := Clamped(Told(scan), shown.day);
      && date.day != 0 && date.FixedOffset() == (if scan.offset == GMT then 0 else scan.offset)
      && old(date.Shows(shown)) && IsTimeOf(time, given)
      && date.Moment() + date.FixedOffset() == time + scan.time
      && if scan.time == 0 then date.Civil() == given else IsCivil(date.Civil(), time + scan.time)
    ensures ok ==> var scan := Parse(format, Start(text), zones).value;
      Told(scan).Valid() ==> Clamped(Told(scan), shown.day) == Told(scan)
  {
    hide Parse, WeekDay, ClosedTime, IsCivil, MonthLength, IsLeapYear, Clamped;
    var r := ParseText(text, format, zones);
    if r.None? {
      return false, date.Civil(), 0;
    }
    ParseIsUnsigned(format, Start(text), zones);
    var scan := r.value;
    shown := date.UpdateFieldsAt(Told(scan), scan.offset);
    time := date.Moment() + date.FixedOffset();
    if scan.time != 0 {
      var given := date.Time();
      date.Update(given + scan.time, date.offset);
    }
    ok := true;
  }

  /** The time of a date whose year is written with four digits is that of its fields. */
  lemma TimeOfFields(date: Date)
    requires date.Valid() && date.day != 0 && 0 <= date.year < 10000
    ensures date.Moment() + date.FixedOffset() == date.Civil().Instant()
  {
    ClosedTimeIffFits(date.Civil());
    hide ClosedTime, WeekDay;
  }

  /** From date to date through text, with a format that is unambiguous and names all variables, or all but the
      milliseconds: the second date shows what the first does, fields, offset and time. */
  method FormatAndUpdate(a: Date, b: Date, format: string, ghost p: Pieces, zones: map<string, int>) returns (text: string)
    requires a != b && a.Valid() && b.Valid()
    requires Source(p) == format && Known(p) && Unambiguous(p) && (AllMarks(p) == MARKS || AllMarks(p) == MARKS - {'i'})
    requires Printable(a.FixedOffset()) && forall f :: a.Shows(f) ==> f.Valid() && 0 <= f.year < 10000
    modifies a, b
    ensures a.Valid() && b.Valid() && a.day != 0 && b.day != 0
    ensures var shown := a.Civil(); old(a.Shows(shown))
    ensures a.Moment() == old(a.Moment()) && b.FixedOffset() == a.FixedOffset() == old(a.FixedOffset())
    ensures b.Civil() == if 'i' in AllMarks(p) then a.Civil() else a.Civil().(millisecond := 0)
    ensures b.Moment() == a.Moment() - if 'i' in AllMarks(p) then 0 else a.millisecond
  {
    hide Print, Parse, Known, Unambiguous, AllMarks, Filled, Source, ClosedTime, WeekDay, IsCivil, Clamped;
    text := Format(a, format);
    ghost var s := StampOf(a);
    RoundTrip(p, s, zones);
    FilledIs(p, s, Parse(format, Start(text), zones).value);
    var ok;
    ghost var shown, time;
    ok, shown, time := UpdateFromText(b, text, format, zones);
    TimeOfFields(a);
    TimeOfFields(b);
  }

  lemma {:induction false} ParseIsUnsigned(format: string, s: Scan, zones: map<string, int>)
    requires Natural(s)
    ensures Parse(format, s, zones).Some? ==> Unsigned(Told(Parse(format, s, zones).value))
    decreases |format|
  {
    hide Read, ReadLiteral, ReadTime, Factor, IsAlpha;
    if format != "" && format != "%" {
      if format[0] != '%' {
        LiteralIsNatural(format[0], s);
        if ReadLiteral(format[0], s).Some? {
          ParseIsUnsigned(format[1..], ReadLiteral(format[0], s).value, zones);
        }
      } else if format[1] != 'T' {
        if Read(format[1], s, zones).Some? {
          ParseIsUnsigned(format[2..], Read(format[1], s, zones).value, zones);
        }
      } else {
        var (factor, rest) := if |format| > 2 && IsAlpha(format[2]) then (Factor(format[2]), format[3..]) else (1, format[2..]);
        TimeIsNatural(factor, s);
        if ReadTime(factor, s).Some? {
          ParseIsUnsigned(rest, ReadTime(factor, s).value, zones);
        }
      }
    }
  }
}
