/** converter/DateTimeConverter: milliseconds to seconds, and the ABAS
    timestamp "yyyyMMddHHmmss" to the Taktiq form
    "yyyy-MM-dd'T'HH:mm:ss.SSSSSSSXXX" in the Europe/Berlin zone. */
module DateTimeConverter {
  import opened Wrappers
  import opened JavaInts
  import opened JavaTime

  /** `millis / 1000` on a Java long: the quotient is truncated toward zero. */
  function ConvertMillisToSeconds(millis: Long): (r: Long)
    ensures millis >= 0 ==> r * 1000 <= millis < r * 1000 + 1000
    ensures millis < 0 ==> r * 1000 - 1000 < millis <= r * 1000
    ensures 0 <= r * millis && r * 1000 * r <= millis * r
  {
    var m: int := millis;
    if m >= 0 then m / 1000 else -((-m) / 1000)
  }

  /** Whole seconds convert exactly. */
  lemma ConvertWholeSeconds(seconds: int)
    requires MinLong <= seconds * 1000 <= MaxLong
    ensures ConvertMillisToSeconds(seconds * 1000) == seconds
  {
  }

  /** Converting keeps the order of two instants. */
  lemma ConvertMonotone(a: Long, b: Long)
    requires a <= b
    ensures ConvertMillisToSeconds(a) <= ConvertMillisToSeconds(b)
  {
  }

  /** A `ZonedDateTime`: the local date-time the zone rules settled on
      (shifted forward when it fell in a gap) and the offset in seconds. */
  datatype Zoned = Zoned(year: nat, month: nat, day: nat, hour: nat, minute: nat, second: nat, offsetSeconds: int)

  /** The year field of the pattern "yyyy": four digits, and a plus sign
      once the year needs more. */
  function YearText(y: nat): (s: string)
    ensures y <= 9999 ==> |s| == 4 && AllDigits(s) && DigitsValue(s) == y
  {
    if y <= 9999 then (PaddedValue(y, 4); Padded(y, 4)) else "+" + Digits(y)
  }

  /** The pattern "XXX": "Z" for a zero offset, else "+HH:MM" (or
      "-HH:MM"), followed by ":ss" when the offset has seconds. */
  function OffsetText(offsetSeconds: int): (s: string)
    ensures offsetSeconds == 0 <==> s == "Z"
    ensures offsetSeconds != 0 ==> |s| >= 6 && (s[0] == '+' <==> offsetSeconds > 0)
  {
    if offsetSeconds == 0 then "Z"
    else
      var a := if offsetSeconds < 0 then -offsetSeconds else offsetSeconds;
      var hm := (if offsetSeconds < 0 then "-" else "+") + Padded(a / 3600, 2) + ":" + Padded(a / 60 % 60, 2);
      if a % 60 == 0 then hm else hm + ":" + Padded(a % 60, 2)
  }

  /** The date and time of day in the printed form, up to the seconds. */
  function DateTimeHead(z: Zoned): string
  {
    YearText(z.year) + "-" + Padded(z.month, 2) + "-" + Padded(z.day, 2)
      + "T" + Padded(z.hour, 2) + ":" + Padded(z.minute, 2) + ":" + Padded(z.second, 2)
  }

  /** `z` printed with the pattern "yyyy-MM-dd'T'HH:mm:ss.SSSSSSSXXX". */
  function TaktiqText(z: Zoned): string
  {
    DateTimeHead(z) + "." + Padded(0, 7) + OffsetText(z.offsetSeconds)
  }

  /** `abasTimestampToTaktiq`. `atZone` is `LocalDateTime.atZone(Europe/Berlin)`:
      the zone rules are a parameter. A null text throws NullPointerException,
      a text the pattern does not accept DateTimeParseException. */
  function AbasTimestampToTaktiq(dateTime: Option<string>, atZone: LocalDateTime -> Zoned): (r: Result<string>)
    ensures dateTime.None? ==> r == Err(NullPointer)
    ensures dateTime.Some? ==> (r.Ok? <==> ParseCompact(dateTime.value).Some?)
    ensures dateTime.Some? && r.Err? ==> r.error == DateTimeParse
  {
    match dateTime
    case None => Err(NullPointer)
    case Some(text) =>
      match ParseCompact(text)
      case None => Err(DateTimeParse)
      case Some(t) => Ok(TaktiqText(atZone(t)))
  }

  /** Converting the compact text of a valid date-time prints the zoned
      form of that very date-time. */
  lemma AbasOfCompactText(t: LocalDateTime, atZone: LocalDateTime -> Zoned)
    requires Valid(t)
    ensures AbasTimestampToTaktiq(Some(CompactText(t)), atZone) == Ok(TaktiqText(atZone(t)))
  {
    CompactRoundTrip(t);
  }

  lemma HeadLayout(z: Zoned)
    requires z.year <= 9999
    ensures var h := DateTimeHead(z);
      |h| == 19 && h[4] == '-' && h[7] == '-' && h[10] == 'T' && h[13] == ':' && h[16] == ':'
  {
  }

  /** The output always carries a seven-digit zero fraction and the 'T'
      separator at their fixed places when the zoned year has four digits. */
  lemma TaktiqTextLayout(z: Zoned)
    requires z.year <= 9999
    ensures var s := TaktiqText(z);
      |s| >= 28 && s[4] == '-' && s[7] == '-' && s[10] == 'T' && s[13] == ':' && s[16] == ':'
      && s[19..27] == ".0000000"
  {
    var h := DateTimeHead(z);
    HeadLayout(z);
    var zeros := Padded(0, 7);
    assert zeros == "0000000";
    var front := h + "." + zeros;
    assert TaktiqText(z) == front + OffsetText(z.offsetSeconds);
    assert front[19..27] == ".0000000";
    assert front[..19] == h;
  }

  /** The SMART resolver clamps a day past the end of the month: every day
      number from the month's length up to 31 reads as the month's last day
      (the 31st of April as the 30th). */
  lemma ClampsDayOfMonth(t: LocalDateTime, d: nat)
    requires Valid(t) && t.day == MonthLength(t.year, t.month)
    requires t.day <= d <= 31
    ensures ParseCompact(CompactFields(t.year, t.month, d, t.hour, t.minute, t.second)) == Some(t)
  {
    ParseCompactFields(t.year, t.month, d, t.hour, t.minute, t.second);
  }

  /** "240000" as the time of day is the midnight that starts the next day. */
  lemma EndOfDayMidnight(t: LocalDateTime)
    requires Valid(t) && t.hour == 0 && t.minute == 0 && t.second == 0
    ensures ParseCompact(CompactFields(t.year, t.month, t.day, 24, 0, 0)) == Some(NextDayMidnight(t))
  {
    ParseCompactFields(t.year, t.month, t.day, 24, 0, 0);
  }

  /** An hour of 24 with any minute or second, or an hour past 24, is refused. */
  lemma RejectsHourPastMidnight(t: LocalDateTime, hour: nat, minute: nat, second: nat)
    requires Valid(t) && 24 <= hour <= 99 && minute <= 59 && second <= 59
    requires hour > 24 || minute > 0 || second > 0
    ensures AbasTimestampToTaktiq(Some(CompactFields(t.year, t.month, t.day, hour, minute, second)), (x: LocalDateTime) => Zoned(0, 0, 0, 0, 0, 0, 0)) == Err(DateTimeParse)
  {
    ParseCompactFields(t.year, t.month, t.day, hour, minute, second);
  }
}
