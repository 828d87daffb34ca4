/** `Report.parse_time` of the WAAS report: an event time in UTC, written
    `YYYY-MM-DDTHH:MM:SSZ` or `YYYY-MM-DDTHH:MM:SS.ffffffZ`, is moved seven
    hours ahead (GMT+7) and written `DD-MM-YYYY HH:MM:SS`. */
module ReportTime {
  import opened Util

  /** A calendar date and time of day, to the second (sub-seconds are
      parsed but never shown, so they are not kept). */
  datatype DateTime = DateTime(year: int, month: int, day: int, hour: int, minute: int, second: int)

  const MaxYear: int := 9999
  const LocalOffsetHours: int := 7
  const SecondsPerHour: int := 3600

  predicate IsLeapYear(y: int) {
    y % 4 == 0 && (y % 100 != 0 || y % 400 == 0)
  }

  function DaysInMonth(y: int, m: int): int
    requires 1 <= m <= 12
  {
    if m == 2 then (if IsLeapYear(y) then 29 else 28)
    else if m == 4 || m == 6 || m == 9 || m == 11 then 30
    else 31
  }

  /** A date and time the `datetime` type accepts. */
  predicate Valid(d: DateTime) {
    && 1 <= d.year <= MaxYear
    && 1 <= d.month <= 12
    && 1 <= d.day <= DaysInMonth(d.year, d.month)
    && 0 <= d.hour < 24 && 0 <= d.minute < 60 && 0 <= d.second < 60
  }

  // ---------------------------------------------------------------------
  // Digits
  // ---------------------------------------------------------------------

  predicate IsDigit(c: char) {
    '0' <= c <= '9'
  }

  predicate AllDigits(s: string) {
    forall i :: 0 <= i < |s| ==> IsDigit(s[i])
  }

  function DigitValue(c: char): int
    requires IsDigit(c)
  {
    c as int - '0' as int
  }

  function Digit(n: int): char
    requires 0 <= n < 10
  {
    ('0' as int + n) as char
  }

  /** The decimal value of a string of digits. */
  function Number(s: string): nat
    requires AllDigits(s)
    decreases |s|
  {
    if s == [] then 0 else Number(s[..|s| - 1]) * 10 + DigitValue(s[|s| - 1])
  }

  /** `n` as two digits, zero-padded (`%d`, `%m`, `%H`, `%M`, `%S`). */
  function TwoDigits(n: nat): (r: string)
    requires n < 100
    ensures |r| == 2
  {
    [Digit(n / 10), Digit(n % 10)]
  }

  /** `n` as four digits, zero-padded (`%Y`). */
  function FourDigits(n: nat): (r: string)
    requires n < 10000
    ensures |r| == 4
  {
    [Digit(n / 1000), Digit(n / 100 % 10), Digit(n / 10 % 10), Digit(n % 10)]
  }

  /** Reading two written digits back gives the number. */
  lemma TwoDigitsRoundTrip(n: nat)
    requires n < 100
    ensures AllDigits(TwoDigits(n)) && Number(TwoDigits(n)) == n
  {
    var s := TwoDigits(n);
    assert s[..1] == [s[0]] && s[..1][..0] == [];
    assert Number(s[..1]) == n / 10;
  }

  /** Reading four written digits back gives the number. */
  lemma FourDigitsRoundTrip(n: nat)
    requires n < 10000
    ensures AllDigits(FourDigits(n)) && Number(FourDigits(n)) == n
  {
    var s := FourDigits(n);
    assert s[..3] == [s[0], s[1], s[2]];
    assert s[..3][..2] == [s[0], s[1]];
    assert s[..3][..2][..1] == [s[0]];
    assert s[..3][..2][..1][..0] == [];
    assert Number(s[..3][..2][..1]) == n / 1000;
    assert Number(s[..3][..2]) == n / 100;
    assert Number(s[..3]) == n / 10;
  }

  // ---------------------------------------------------------------------
  // Parsing
  // ---------------------------------------------------------------------

  /** Literals of a `strptime` format match regardless of case. */
  predicate IsT(c: char) {
    c == 'T' || c == 't'
  }

  predicate IsZ(c: char) {
    c == 'Z' || c == 'z'
  }

  /** The shape `YYYY-MM-DDTHH:MM:SS` with every field of fixed width. */
  predicate FieldLayout(s: string) {
    && |s| == 19
    && AllDigits(s[0..4]) && s[4] == '-' && AllDigits(s[5..7]) && s[7] == '-' && AllDigits(s[8..10])
    && IsT(s[10])
    && AllDigits(s[11..13]) && s[13] == ':' && AllDigits(s[14..16]) && s[16] == ':' && AllDigits(s[17..19])
  }

  /** The date and time in the common prefix of both formats; `None` when
      the text does not have the layout or names no valid date and time. */
  function ParseFields(s: string): (r: Option<DateTime>)
    ensures r.Some? ==> FieldLayout(s) && Valid(r.value)
  {
    if FieldLayout(s) then
      var d := DateTime(Number(s[0..4]), Number(s[5..7]), Number(s[8..10]),
                        Number(s[11..13]), Number(s[14..16]), Number(s[17..19]));
      if Valid(d) then Some(d) else None
    else None
  }

  /** `strptime(s, "%Y-%m-%dT%H:%M:%SZ")`. */
  function ParsePlain(s: string): (r: Option<DateTime>)
    ensures r.Some? ==> |s| == 20 && Valid(r.value)
  {
    if |s| == 20 && IsZ(s[19]) then ParseFields(s[..19]) else None
  }

  /** `strptime(s, "%Y-%m-%dT%H:%M:%S.%fZ")`: one to six fraction digits. */
  function ParseFractional(s: string): (r: Option<DateTime>)
    ensures r.Some? ==> 22 <= |s| <= 27 && Valid(r.value)
    ensures r.Some? ==> ParsePlain(s).None?
  {
    if 22 <= |s| <= 27 && s[19] == '.' && AllDigits(s[20..|s| - 1]) && IsZ(s[|s| - 1])
    then ParseFields(s[..19])
    else None
  }

  /** The `try`/`except ValueError` of `parse_time`: the format without a
      fraction first, then the one with. */
  function ParseUtc(s: string): (r: Option<DateTime>)
    ensures r.Some? ==> Valid(r.value)
  {
    var plain := ParsePlain(s);
    if plain.Some? then plain else ParseFractional(s)
  }

  // ---------------------------------------------------------------------
  // Shifting and rendering
  // ---------------------------------------------------------------------

  /** `utc_dt + timedelta(hours=7)`; `None` is the OverflowError past the
      last representable day. */
  function AddLocalOffset(d: DateTime): (r: Option<DateTime>)
    requires Valid(d)
    ensures r.Some? ==> Valid(r.value)
    ensures r.None? <==>
      d.year == MaxYear && d.month == 12 && d.day == 31 && d.hour + LocalOffsetHours >= 24
  {
    var h := d.hour + LocalOffsetHours;
    if h < 24 then Some(d.(hour := h))
    else if d.day < DaysInMonth(d.year, d.month) then Some(d.(day := d.day + 1, hour := h - 24))
    else if d.month < 12 then Some(d.(month := d.month + 1, day := 1, hour := h - 24))
    else if d.year < MaxYear then Some(DateTime(d.year + 1, 1, 1, h - 24, d.minute, d.second))
    else None
  }

  /** `strftime("%d-%m-%Y %H:%M:%S")`. */
  function Display(d: DateTime): (r: string)
    requires Valid(d)
    ensures |r| == 19
  {
    TwoDigits(d.day) + "-" + TwoDigits(d.month) + "-" + FourDigits(d.year) + " " +
    TwoDigits(d.hour) + ":" + TwoDigits(d.minute) + ":" + TwoDigits(d.second)
  }

  /** `Report.parse_time`; `None` when neither format matches (the second
      `strptime` raises) or the shifted time is past year 9999. */
  function ParseTime(s: string): (r: Option<string>)
    ensures ParseUtc(s).None? ==> r.None?
    ensures r.Some? ==> |r.value| == 19
  {
    match ParseUtc(s)
    case None => None
    case Some(utc) =>
      match AddLocalOffset(utc)
      case None => None
      case Some(local) => Some(Display(local))
  }

  // ---------------------------------------------------------------------
  // An absolute time line, to state what the shift does
  // ---------------------------------------------------------------------

  function DaysInYear(y: int): int {
    if IsLeapYear(y) then 366 else 365
  }

  /** Days from 1 January of year 1 to 1 January of year `y`. */
  function DaysBeforeYear(y: int): int
    decreases y
  {
    if y <= 1 then 0 else DaysBeforeYear(y - 1) + DaysInYear(y - 1)
  }

  /** Days from 1 January to the first of month `m`, from the cumulative
      table of a common year. */
  function DaysBeforeMonth(y: int, m: int): int
    requires 1 <= m <= 12
  {
    [0, 31, 59, 90, 120, 151, 181, 212, 243, 273, 304, 334][m - 1] + (if m > 2 && IsLeapYear(y) then 1 else 0)
  }

  /** Seconds since 0001-01-01 00:00:00. */
  function Seconds(d: DateTime): int
    requires 1 <= d.month <= 12
  {
    var days := DaysBeforeYear(d.year) + DaysBeforeMonth(d.year, d.month) + d.day - 1;
    ((days * 24 + d.hour) * 60 + d.minute) * 60 + d.second
  }

  /** The month table agrees with the month lengths. */
  lemma DaysBeforeNextMonth(y: int, m: int)
    requires 1 <= m < 12
    ensures DaysBeforeMonth(y, m + 1) == DaysBeforeMonth(y, m) + DaysInMonth(y, m)
  {
  }

  /** The twelve months fill the year. */
  lemma MonthsFillYear(y: int)
    ensures DaysBeforeMonth(y, 12) + DaysInMonth(y, 12) == DaysInYear(y)
  {
  }

  /** The shift moves the time line exactly seven hours ahead, across day,
      month and year boundaries. */
  lemma AddLocalOffsetAddsSevenHours(d: DateTime)
    requires Valid(d) && AddLocalOffset(d).Some?
    ensures Seconds(AddLocalOffset(d).value) == Seconds(d) + LocalOffsetHours * SecondsPerHour
  {
    var h := d.hour + LocalOffsetHours;
    if h >= 24 && d.day == DaysInMonth(d.year, d.month) {
      if d.month < 12 {
        DaysBeforeNextMonth(d.year, d.month);
      } else {
        MonthsFillYear(d.year);
        assert DaysBeforeYear(d.year + 1) == DaysBeforeYear(d.year) + DaysInYear(d.year);
      }
    }
  }

  /** What `parse_time` returns, when it returns: the parsed UTC time seven
      hours ahead, in the display layout. */
  lemma ParseTimeShiftsToLocal(s: string)
    requires ParseTime(s).Some?
    ensures var utc := ParseUtc(s).value;
      && AddLocalOffset(utc).Some?
      && ParseTime(s).value == Display(AddLocalOffset(utc).value)
      && Seconds(AddLocalOffset(utc).value) == Seconds(utc) + LocalOffsetHours * SecondsPerHour
  {
    AddLocalOffsetAddsSevenHours(ParseUtc(s).value);
  }

  /** The fraction is read and then lost: adding one changes nothing. */
  lemma FractionIgnored(base: string, fraction: string)
    requires |base| == 19 && 1 <= |fraction| <= 6 && AllDigits(fraction)
    ensures ParseUtc(base + "." + fraction + "Z") == ParseUtc(base + "Z")
    ensures ParseTime(base + "." + fraction + "Z") == ParseTime(base + "Z")
  {
    var s := base + "." + fraction + "Z";
    assert s[..19] == base && s[19] == '.' && s[20..|s| - 1] == fraction && s[|s| - 1] == 'Z';
    assert (base + "Z")[..19] == base;
  }

  // ---------------------------------------------------------------------
  // Round trips
  // ---------------------------------------------------------------------

  /** The ISO text of a date and time, in the first format. */
  function IsoText(d: DateTime): string
    requires Valid(d)
  {
    IsoFields(d) + "Z"
  }

  /** The part of the ISO text both formats share. */
  function IsoFields(d: DateTime): string
    requires Valid(d)
  {
    FourDigits(d.year) + "-" + TwoDigits(d.month) + "-" + TwoDigits(d.day) + "T" +
    TwoDigits(d.hour) + ":" + TwoDigits(d.minute) + ":" + TwoDigits(d.second)
  }

  /** Parsing recovers every valid date and time from its ISO text. */
  lemma ParseIsoText(d: DateTime)
    requires Valid(d)
    ensures ParseUtc(IsoText(d)) == Some(d)
  {
    var f := IsoFields(d);
    assert IsoText(d)[..19] == f;
    assert f[0..4] == FourDigits(d.year);
    assert f[5..7] == TwoDigits(d.month);
    assert f[8..10] == TwoDigits(d.day);
    assert f[11..13] == TwoDigits(d.hour);
    assert f[14..16] == TwoDigits(d.minute);
    assert f[17..19] == TwoDigits(d.second);
    FourDigitsRoundTrip(d.year);
    TwoDigitsRoundTrip(d.month);
    TwoDigitsRoundTrip(d.day);
    TwoDigitsRoundTrip(d.hour);
    TwoDigitsRoundTrip(d.minute);
    TwoDigitsRoundTrip(d.second);
  }

  function Pow10(n: nat): nat {
    if n == 0 then 1 else 10 * Pow10(n - 1)
  }

  /** A string of `n` digits reads as a number below 10^n. */
  lemma {:induction false} NumberBelow(t: string)
    requires AllDigits(t)
    ensures Number(t) < Pow10(|t|)
    decreases |t|
  {
    if t != [] {
      NumberBelow(t[..|t| - 1]);
    }
  }

  /** Digit strings of one length that read as the same number are equal. */
  lemma {:induction false} NumberInjective(u: string, t: string)
    requires |u| == |t| && AllDigits(u) && AllDigits(t) && Number(u) == Number(t)
    ensures u == t
    decreases |u|
  {
    if u != [] {
      var n := |u| - 1;
      assert DigitValue(u[n]) == DigitValue(t[n]);
      NumberInjective(u[..n], t[..n]);
      assert u == u[..n] + [u[n]] && t == t[..n] + [t[n]];
    }
  }

  /** Writing back two digits that were read gives the same text. */
  lemma TwoDigitsOfNumber(t: string)
    requires |t| == 2 && AllDigits(t)
    ensures Number(t) < 100 && TwoDigits(Number(t)) == t
  {
    NumberBelow(t);
    assert Pow10(2) == 100;
    TwoDigitsRoundTrip(Number(t));
    NumberInjective(TwoDigits(Number(t)), t);
  }

  /** Writing back four digits that were read gives the same text. */
  lemma FourDigitsOfNumber(t: string)
    requires |t| == 4 && AllDigits(t)
    ensures Number(t) < 10000 && FourDigits(Number(t)) == t
  {
    NumberBelow(t);
    assert Pow10(4) == 10000;
    FourDigitsRoundTrip(Number(t));
    NumberInjective(FourDigits(Number(t)), t);
  }

  /** An accepted text spells the date and time it is read as: every field
      of the text is the field of the result, written with its width. With
      `Valid` from `ParseFields`, a text naming no real date and time (a
      30 February, a month 13, a second 60) is never accepted. */
  lemma ParseFieldsReadsText(s: string)
    requires ParseFields(s).Some?
    ensures var d := ParseFields(s).value;
      && s[..10] == IsoFields(d)[..10] && IsT(s[10]) && s[11..] == IsoFields(d)[11..]
  {
    var d := ParseFields(s).value;
    var f := IsoFields(d);
    FourDigitsOfNumber(s[0..4]);
    TwoDigitsOfNumber(s[5..7]);
    TwoDigitsOfNumber(s[8..10]);
    TwoDigitsOfNumber(s[11..13]);
    TwoDigitsOfNumber(s[14..16]);
    TwoDigitsOfNumber(s[17..19]);
    assert f[0..4] == s[0..4] && f[5..7] == s[5..7] && f[8..10] == s[8..10];
    assert f[11..13] == s[11..13] && f[14..16] == s[14..16] && f[17..19] == s[17..19];
    assert forall i :: 0 <= i < 19 && i != 10 ==> f[i] == s[i];
  }

  /** The display text has the `DD-MM-YYYY HH:MM:SS` layout and its fields
      read back as the date and time. */
  lemma DisplayReadsBack(d: DateTime)
    requires Valid(d)
    ensures var s := Display(d);
      && |s| == 19
      && s[2] == '-' && s[5] == '-' && s[10] == ' ' && s[13] == ':' && s[16] == ':'
      && AllDigits(s[0..2]) && Number(s[0..2]) == d.day
      && AllDigits(s[3..5]) && Number(s[3..5]) == d.month
      && AllDigits(s[6..10]) && Number(s[6..10]) == d.year
      && AllDigits(s[11..13]) && Number(s[11..13]) == d.hour
      && AllDigits(s[14..16]) && Number(s[14..16]) == d.minute
      && AllDigits(s[17..19]) && Number(s[17..19]) == d.second
  {
    var s := Display(d);
    assert s[0..2] == TwoDigits(d.day);
    assert s[3..5] == TwoDigits(d.month);
    assert s[6..10] == FourDigits(d.year);
    assert s[11..13] == TwoDigits(d.hour);
    assert s[14..16] == TwoDigits(d.minute);
    assert s[17..19] == TwoDigits(d.second);
    FourDigitsRoundTrip(d.year);
    TwoDigitsRoundTrip(d.month);
    TwoDigitsRoundTrip(d.day);
    TwoDigitsRoundTrip(d.hour);
    TwoDigitsRoundTrip(d.minute);
    TwoDigitsRoundTrip(d.second);
  }

  /** `parse_time` of the ISO text of any date and time that has a
      successor seven hours on: that successor, displayed. */
  lemma ParseTimeOfIsoText(d: DateTime)
    requires Valid(d) && AddLocalOffset(d).Some?
    ensures ParseTime(IsoText(d)) == Some(Display(AddLocalOffset(d).value))
  {
    ParseIsoText(d);
  }

  // ---------------------------------------------------------------------
  // Worked examples (the texts are spelled out in small lemmas of their
  // own, which keeps each proof about literals small)
  // ---------------------------------------------------------------------

  lemma SampleTexts()
    ensures IsoText(DateTime(2024, 3, 5, 10, 15, 30)) == "2024-03-05T10:15:30Z"
    ensures "2024-03-05T10:15:30Z"[..19] + "Z" == "2024-03-05T10:15:30Z"
    ensures "2024-03-05T10:15:30Z"[..19] + "." + "123456" + "Z" == "2024-03-05T10:15:30.123456Z"
  {
  }

  lemma SampleDisplay()
    ensures Display(DateTime(2024, 3, 5, 17, 15, 30)) == "05-03-2024 17:15:30"
  {
  }

  lemma RolloverText()
    ensures IsoText(DateTime(2024, 12, 31, 20, 0, 0)) == "2024-12-31T20:00:00Z"
  {
  }

  lemma RolloverDisplay()
    ensures Display(DateTime(2025, 1, 1, 3, 0, 0)) == "01-01-2025 03:00:00"
  {
  }

  lemma ExampleSameDay()
    ensures ParseTime("2024-03-05T10:15:30Z") == Some("05-03-2024 17:15:30")
  {
    ParseTimeOfIsoText(DateTime(2024, 3, 5, 10, 15, 30));
    SampleTexts();
    SampleDisplay();
  }

  lemma ExampleFraction()
    ensures ParseTime("2024-03-05T10:15:30.123456Z") == Some("05-03-2024 17:15:30")
  {
    SampleTexts();
    FractionIgnored(IsoText(DateTime(2024, 3, 5, 10, 15, 30))[..19], "123456");
    ExampleSameDay();
  }

  lemma ExampleYearRollover()
    ensures ParseTime("2024-12-31T20:00:00Z") == Some("01-01-2025 03:00:00")
  {
    ParseTimeOfIsoText(DateTime(2024, 12, 31, 20, 0, 0));
    RolloverText();
    RolloverDisplay();
  }

  /** The last seven hours of year 9999 have no local time. */
  lemma ExampleOverflow()
    ensures ParseTime("9999-12-31T17:00:00Z") == None
  {
    var d := DateTime(9999, 12, 31, 17, 0, 0);
    ParseIsoText(d);
    OverflowText();
  }

  /** A text with the right layout but no such day is rejected: there is no
      30 February. */
  lemma ExampleNoSuchDay()
    ensures ParseTime("2024-02-30T10:00:00Z") == None
  {
    var s := "2024-02-30T10:00:00Z";
    var t := s[..19];
    assert t[5] == '0' && t[6] == '2' && t[8] == '3' && t[9] == '0';
    assert t[5..7] == [t[5], t[6]] && t[8..10] == [t[8], t[9]];
    assert TwoDigits(2) == ['0', '2'] && TwoDigits(30) == ['3', '0'];
    TwoDigitsRoundTrip(2);
    TwoDigitsRoundTrip(30);
  }

  lemma OverflowText()
    ensures IsoText(DateTime(9999, 12, 31, 17, 0, 0)) == "9999-12-31T17:00:00Z"
  {
  }
}
