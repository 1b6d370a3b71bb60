/** The small part of java.time the formatters use: a date-time without
    zone, the two fixed patterns the code parses ("yyyyMMddHHmmss" and
    "dd.MM.yyyy HH:mm:ss", both under the default SMART resolver of
    `DateTimeFormatter.ofPattern`) and the patterns it prints. */
module JavaTime {
  import opened Wrappers
  import opened JavaInts

  /** `LocalDateTime` without a fraction of a second (no pattern here has one). */
  datatype LocalDateTime = LocalDateTime(year: int, month: int, day: int, hour: int, minute: int, second: int)

  predicate IsLeapYear(y: int) {
    y % 4 == 0 && (y % 100 != 0 || y % 400 == 0)
  }

  function MonthLength(y: int, m: int): (r: int)
    requires 1 <= m <= 12
    ensures 28 <= r <= 31
  {
    if m == 2 then (if IsLeapYear(y) then 29 else 28)
    else if m == 4 || m == 6 || m == 9 || m == 11 then 30
    else 31
  }

  /** A date-time that `LocalDateTime.of` accepts, with a year of era the
      four-digit year patterns can carry. */
  predicate Valid(t: LocalDateTime) {
    && 1 <= t.year <= 9999
    && 1 <= t.month <= 12
    && 1 <= t.day <= MonthLength(t.year, t.month)
    && 0 <= t.hour <= 23
    && 0 <= t.minute <= 59
    && 0 <= t.second <= 59
  }

  /** The field ranges of any date-time the patterns here resolve: the
      year may be 10000 when "24:00:00" ends the last day of 9999. */
  predicate InRange(t: LocalDateTime) {
    && 1 <= t.year <= 10000
    && 1 <= t.month <= 12
    && 1 <= t.day <= 31
    && 0 <= t.hour <= 23
    && 0 <= t.minute <= 59
    && 0 <= t.second <= 59
  }

  /** The day after a valid date, at midnight. */
  function NextDayMidnight(t: LocalDateTime): LocalDateTime
    requires Valid(t)
  {
    if t.day < MonthLength(t.year, t.month) then LocalDateTime(t.year, t.month, t.day + 1, 0, 0, 0)
    else if t.month < 12 then LocalDateTime(t.year, t.month + 1, 1, 0, 0, 0)
    else LocalDateTime(t.year + 1, 1, 1, 0, 0, 0)
  }

  /** The SMART resolver: the day of month must lie in 1..31 and is clamped
      to the length of the month; "24:00:00" is the midnight that ends the
      day; every other field must lie in its range. */
  function Resolve(year: int, month: int, day: int, hour: int, minute: int, second: int): (r: Option<LocalDateTime>)
    ensures r.Some? ==> InRange(r.value)
    ensures r.Some? && hour < 24 ==> Valid(r.value)
  {
    if !(1 <= year <= 9999 && 1 <= month <= 12 && 1 <= day <= 31 && 0 <= minute <= 59 && 0 <= second <= 59) then None
    else
      var date := LocalDateTime(year, month, if day <= MonthLength(year, month) then day else MonthLength(year, month), 0, 0, 0);
      if hour == 24 && minute == 0 && second == 0 then Some(NextDayMidnight(date))
      else if 0 <= hour <= 23 then Some(date.(hour := hour, minute := minute, second := second))
      else None
  }

  // ---------------------------------------------------------------------------
  // "yyyyMMddHHmmss"

  /** `LocalDateTime.parse(s, ofPattern("yyyyMMddHHmmss"))`: fourteen digits,
      then the SMART resolver. */
  function ParseCompact(s: string): (r: Option<LocalDateTime>)
    ensures r.Some? ==> |s| == 14 && AllDigits(s)
  {
    if |s| != 14 || !AllDigits(s) then None
    else Resolve(DigitsValue(s[0..4]), DigitsValue(s[4..6]), DigitsValue(s[6..8]),
                 DigitsValue(s[8..10]), DigitsValue(s[10..12]), DigitsValue(s[12..14]))
  }

  /** Six field values printed as the fourteen digits "yyyyMMddHHmmss". */
  function CompactFields(year: nat, month: nat, day: nat, hour: nat, minute: nat, second: nat): (s: string)
    ensures |s| == 14 && AllDigits(s)
  {
    Padded(year, 4) + Padded(month, 2) + Padded(day, 2)
      + Padded(hour, 2) + Padded(minute, 2) + Padded(second, 2)
  }

  /** Parsing fourteen printed digits resolves exactly the printed fields. */
  lemma ParseCompactFields(year: nat, month: nat, day: nat, hour: nat, minute: nat, second: nat)
    requires year <= 9999 && month <= 99 && day <= 99 && hour <= 99 && minute <= 99 && second <= 99
    ensures ParseCompact(CompactFields(year, month, day, hour, minute, second)) == Resolve(year, month, day, hour, minute, second)
  {
    CompactLayout(Padded(year, 4), Padded(month, 2), Padded(day, 2), Padded(hour, 2), Padded(minute, 2), Padded(second, 2));
    FieldValues(year, month, day, hour, minute, second);
  }

  /** Where the fields of "yyyyMMddHHmmss" sit. */
  lemma CompactLayout(y: string, mo: string, d: string, h: string, mi: string, se: string)
    requires |y| == 4 && |mo| == 2 && |d| == 2 && |h| == 2 && |mi| == 2 && |se| == 2
    ensures var s := y + mo + d + h + mi + se;
      && s[0..4] == y && s[4..6] == mo && s[6..8] == d && s[8..10] == h && s[10..12] == mi && s[12..14] == se
  {
    var s := y + mo + d + h + mi + se;
    assert s[0..4] == y by { assert s[0] == y[0] && s[1] == y[1] && s[2] == y[2] && s[3] == y[3]; }
    assert s[4..6] == mo by { assert s[4] == mo[0] && s[5] == mo[1]; }
    assert s[6..8] == d by { assert s[6] == d[0] && s[7] == d[1]; }
    assert s[8..10] == h by { assert s[8] == h[0] && s[9] == h[1]; }
    assert s[10..12] == mi by { assert s[10] == mi[0] && s[11] == mi[1]; }
    assert s[12..14] == se by { assert s[12] == se[0] && s[13] == se[1]; }
  }

  /** `t` printed with the pattern "yyyyMMddHHmmss". */
  function CompactText(t: LocalDateTime): (s: string)
    requires Valid(t)
    ensures |s| == 14 && AllDigits(s)
  {
    CompactFields(t.year, t.month, t.day, t.hour, t.minute, t.second)
  }

  /** Every valid date-time reads back from its compact text. */
  lemma CompactRoundTrip(t: LocalDateTime)
    requires Valid(t)
    ensures ParseCompact(CompactText(t)) == Some(t)
  {
    ParseCompactFields(t.year, t.month, t.day, t.hour, t.minute, t.second);
  }

  // ---------------------------------------------------------------------------
  // "dd.MM.yyyy HH:mm:ss" and "yyMMddHHmmss"

  /** `LocalDateTime.parse(s, ofPattern("dd.MM.yyyy HH:mm:ss"))` for an
      unsigned four-digit year. */
  function ParseDotted(s: string): (r: Option<LocalDateTime>)
    ensures r.Some? ==> |s| == 19 && InRange(r.value)
  {
    if |s| != 19 || s[2] != '.' || s[5] != '.' || s[10] != ' ' || s[13] != ':' || s[16] != ':' then None
    else if !(AllDigits(s[0..2]) && AllDigits(s[3..5]) && AllDigits(s[6..10])
              && AllDigits(s[11..13]) && AllDigits(s[14..16]) && AllDigits(s[17..19])) then None
    else Resolve(DigitsValue(s[6..10]), DigitsValue(s[3..5]), DigitsValue(s[0..2]),
                 DigitsValue(s[11..13]), DigitsValue(s[14..16]), DigitsValue(s[17..19]))
  }

  /** `t` printed with the pattern "yyMMddHHmmss": the year reduced to its
      last two digits. */
  function ShortText(t: LocalDateTime): (s: string)
    requires t.year >= 0 && t.month >= 0 && t.day >= 0 && t.hour >= 0 && t.minute >= 0 && t.second >= 0
    ensures |s| == 12 && AllDigits(s)
  {
    Padded(t.year % 100, 2) + Padded(t.month, 2) + Padded(t.day, 2)
      + Padded(t.hour, 2) + Padded(t.minute, 2) + Padded(t.second, 2)
  }

  /** Six field values printed as "dd.MM.yyyy HH:mm:ss". */
  function DottedFields(year: nat, month: nat, day: nat, hour: nat, minute: nat, second: nat): (s: string)
    ensures |s| == 19
  {
    Padded(day, 2) + "." + Padded(month, 2) + "." + Padded(year, 4)
      + " " + Padded(hour, 2) + ":" + Padded(minute, 2) + ":" + Padded(second, 2)
  }

  /** Parsing printed fields resolves exactly those fields. */
  lemma ParseDottedFields(year: nat, month: nat, day: nat, hour: nat, minute: nat, second: nat)
    requires year <= 9999 && month <= 99 && day <= 99 && hour <= 99 && minute <= 99 && second <= 99
    ensures ParseDotted(DottedFields(year, month, day, hour, minute, second)) == Resolve(year, month, day, hour, minute, second)
  {
    var d, mo, y := Padded(day, 2), Padded(month, 2), Padded(year, 4);
    var h, mi, se := Padded(hour, 2), Padded(minute, 2), Padded(second, 2);
    DottedLayout(d, mo, y, h, mi, se);
    FieldValues(year, month, day, hour, minute, second);
  }

  /** Where the fields and separators of "dd.MM.yyyy HH:mm:ss" sit. */
  lemma DottedLayout(d: string, mo: string, y: string, h: string, mi: string, se: string)
    requires |d| == 2 && |mo| == 2 && |y| == 4 && |h| == 2 && |mi| == 2 && |se| == 2
    ensures var s := d + "." + mo + "." + y + " " + h + ":" + mi + ":" + se;
      && |s| == 19 && s[2] == '.' && s[5] == '.' && s[10] == ' ' && s[13] == ':' && s[16] == ':'
      && s[0..2] == d && s[3..5] == mo && s[6..10] == y && s[11..13] == h && s[14..16] == mi && s[17..19] == se
  {
    var s := d + "." + mo + "." + y + " " + h + ":" + mi + ":" + se;
    assert s[0..2] == d by { assert s[0] == d[0] && s[1] == d[1]; }
    assert s[3..5] == mo by { assert s[3] == mo[0] && s[4] == mo[1]; }
    assert s[6..10] == y by { assert s[6] == y[0] && s[7] == y[1] && s[8] == y[2] && s[9] == y[3]; }
    assert s[11..13] == h by { assert s[11] == h[0] && s[12] == h[1]; }
    assert s[14..16] == mi by { assert s[14] == mi[0] && s[15] == mi[1]; }
    assert s[17..19] == se by { assert s[17] == se[0] && s[18] == se[1]; }
  }

  /** The printed fields read back as their values. */
  lemma FieldValues(year: nat, month: nat, day: nat, hour: nat, minute: nat, second: nat)
    requires year <= 9999 && month <= 99 && day <= 99 && hour <= 99 && minute <= 99 && second <= 99
    ensures DigitsValue(Padded(year, 4)) == year && DigitsValue(Padded(month, 2)) == month
    ensures DigitsValue(Padded(day, 2)) == day && DigitsValue(Padded(hour, 2)) == hour
    ensures DigitsValue(Padded(minute, 2)) == minute && DigitsValue(Padded(second, 2)) == second
  {
    TwoDigitValue(month);
    TwoDigitValue(day);
    TwoDigitValue(hour);
    TwoDigitValue(minute);
    TwoDigitValue(second);
    assert Power10(4) == 10000;
    PaddedValue(year, 4);
  }

  lemma TwoDigitValue(n: nat)
    requires n <= 99
    ensures DigitsValue(Padded(n, 2)) == n
  {
    assert Power10(2) == 100;
    PaddedValue(n, 2);
  }

  /** `t` printed with the pattern "dd.MM.yyyy HH:mm:ss". */
  function DottedText(t: LocalDateTime): (s: string)
    requires Valid(t)
    ensures |s| == 19
  {
    DottedFields(t.year, t.month, t.day, t.hour, t.minute, t.second)
  }

  /** Every valid date-time reads back from its dotted text. */
  lemma DottedRoundTrip(t: LocalDateTime)
    requires Valid(t)
    ensures ParseDotted(DottedText(t)) == Some(t)
  {
    ParseDottedFields(t.year, t.month, t.day, t.hour, t.minute, t.second);
  }
}
