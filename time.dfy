/** Timestamps and their textual forms. chrono's `NaiveDateTime` is modelled
    as whole seconds since 1970-01-01 00:00:00; the application only ever
    uses second precision. */
module Time {
  import opened Results
  import opened Text

  type Timestamp = int

  const SecondsPerMinute: int := 60
  const SecondsPerHour: int := 3600
  const SecondsPerDay: int := 86400

  /** The calendar day a timestamp falls on, counted from 1970-01-01. */
  function Day(t: Timestamp): int
  {
    t / SecondsPerDay
  }

  /** The time of day, in seconds since midnight. */
  function SecondOfDay(t: Timestamp): (r: nat)
    ensures r < SecondsPerDay
    ensures t == Day(t) * SecondsPerDay + r
  {
    t % SecondsPerDay
  }

  /** A number below 100 written with two digits, as `%H`, `%M` and `%S` do. */
  function TwoDigits(n: nat): (r: string)
    requires n < 100
    ensures |r| == 2 && AllDigits(r)
  {
    [DigitChar(n / 10), DigitChar(n % 10)]
  }

  function ParseTwoDigits(s: string): (r: Option<nat>)
    requires |s| == 2
    ensures r.Some? <==> AllDigits(s)
    ensures r.Some? ==> r.value < 100
  {
    if AllDigits(s) then Some(DigitValue(s[0]) * 10 + DigitValue(s[1])) else None
  }

  lemma ParseTwoDigitsRoundTrip(n: nat)
    requires n < 100
    ensures ParseTwoDigits(TwoDigits(n)) == Some(n)
  {
    assert DigitValue(DigitChar(n / 10)) == n / 10;
    assert DigitValue(DigitChar(n % 10)) == n % 10;
  }

  /** `format("%H:%M:%S")`: the time of day of `t`. */
  function FormatTime(t: Timestamp): (r: string)
    ensures |r| == 8 && r[2] == ':' && r[5] == ':'
    ensures forall i :: 0 <= i < |r| ==> IsDigit(r[i]) || r[i] == ':'
  {
    var sod := SecondOfDay(t);
    TwoDigits(sod / SecondsPerHour) + ":" + TwoDigits(sod / SecondsPerMinute % 60) + ":" + TwoDigits(sod % 60)
  }

  /** Parsing `%H:%M:%S` into seconds since midnight; `None` for anything else. */
  function ParseTime(s: string): (r: Option<nat>)
    ensures r.Some? ==> r.value < SecondsPerDay
  {
    if |s| == 8 && s[2] == ':' && s[5] == ':' then
      match (ParseTwoDigits(s[..2]), ParseTwoDigits(s[3..5]), ParseTwoDigits(s[6..]))
      case (Some(h), Some(m), Some(sec)) =>
        if h < 24 && m < 60 && sec < 60 then Some(h * SecondsPerHour + m * SecondsPerMinute + sec) else None
      case _ => None
    else
      None
  }

  /** `format("%d-%m-%Y")`, abstracted: the day number `Day(t)` written in
      decimal, with a leading '-' before 1970. Like the real date it names the
      day and nothing else, and it holds no separator character. */
  function FormatDate(t: Timestamp): (r: string)
    ensures |r| >= 1
    ensures forall i :: 0 <= i < |r| ==> IsDigit(r[i]) || r[i] == '-'
  {
    var d := Day(t);
    if d >= 0 then Decimal(d) else "-" + Decimal(-d)
  }

  /** The inverse of `FormatDate`: the day number, or `None`. */
  function ParseDate(s: string): Option<int>
  {
    if |s| >= 1 && s[0] == '-' then
      match ParseDecimal(s[1..])
      case Some(n) => if n > 0 then Some(0 - n as int) else None
      case None => None
    else
      match ParseDecimal(s)
      case Some(n) => Some(n as int)
      case None => None
  }

  /** `NaiveDateTime::parse_from_str("{date} {time}", "%d-%m-%Y %H:%M:%S")`. */
  function ParseDateTime(date: string, time: string): Option<Timestamp>
  {
    match (ParseDate(date), ParseTime(time))
    case (Some(d), Some(sod)) => Some(d * SecondsPerDay + sod)
    case _ => None
  }

  /** A parsed date and time lies on the parsed day, at the parsed time of day. */
  lemma ParseDateTimeParts(date: string, time: string)
    ensures var r := ParseDateTime(date, time);
            r.Some? ==> ParseDate(date).Some? && ParseTime(time).Some?
                        && Day(r.value) == ParseDate(date).value
                        && SecondOfDay(r.value) == ParseTime(time).value
  {
  }

  lemma ParseFormatDate(t: Timestamp)
    ensures ParseDate(FormatDate(t)) == Some(Day(t))
  {
    var d := Day(t);
    if d >= 0 {
      ParseDecimalRoundTrip(d);
    } else {
      ParseDecimalRoundTrip(-d);
      assert FormatDate(t)[1..] == Decimal(-d);
    }
  }

  /** Hours, minutes and seconds of a second of the day. */
  lemma TimeOfDayParts(sod: nat)
    requires sod < SecondsPerDay
    ensures sod / SecondsPerHour < 24 && sod / SecondsPerMinute % 60 < 60 && sod % 60 < 60
    ensures (sod / SecondsPerHour) * SecondsPerHour + (sod / SecondsPerMinute % 60) * SecondsPerMinute + sod % 60 == sod
  {
    var q := sod / 60;
    assert sod == 60 * q + sod % 60;
    assert q == 60 * (q / 60) + q % 60;
    assert sod / 3600 == q / 60;
  }

  lemma ParseFormatTime(t: Timestamp)
    ensures ParseTime(FormatTime(t)) == Some(SecondOfDay(t))
  {
    var sod := SecondOfDay(t);
    var s := FormatTime(t);
    var h, m, sec := sod / SecondsPerHour, sod / SecondsPerMinute % 60, sod % 60;
    TimeOfDayParts(sod);
    assert s[..2] == TwoDigits(h);
    assert s[3..5] == TwoDigits(m);
    assert s[6..] == TwoDigits(sec);
    ParseTwoDigitsRoundTrip(h);
    ParseTwoDigitsRoundTrip(m);
    ParseTwoDigitsRoundTrip(sec);
  }

  /** A date string and a time string written from two timestamps parse back
      to the time of day of the second, placed on the day of the first. */
  lemma ParseFormatDateTime(dateOf: Timestamp, timeOf: Timestamp, date: string, time: string)
    requires date == FormatDate(dateOf) && time == FormatTime(timeOf)
    ensures ParseDateTime(date, time) == Some(Day(dateOf) * SecondsPerDay + SecondOfDay(timeOf))
  {
    ParseFormatDate(dateOf);
    ParseFormatTime(timeOf);
  }

  /** A timestamp written as date and time reads back as itself. */
  lemma ParseFormatInstant(t: Timestamp, date: string, time: string)
    requires date == FormatDate(t) && time == FormatTime(t)
    ensures ParseDateTime(date, time) == Some(t)
  {
    ParseFormatDateTime(t, t, date, time);
    var x := Day(t) * SecondsPerDay + SecondOfDay(t);
    assert x == t;
  }

  /** Integer division rounding toward zero, as Rust's `/` on `i64`. */
  function TruncDiv(a: int, b: int): int
    requires b > 0
  {
    if a >= 0 then a / b else -((-a) / b)
  }

  datatype Hms = Hms(hours: int, minutes: int, seconds: int)

  /** The split of a duration in seconds behind `get_duration_string`:
      `num_hours`, then `num_minutes - hours * 60`, then the seconds left over. */
  function DurationParts(d: int): (p: Hms)
    ensures p.hours * SecondsPerHour + p.minutes * SecondsPerMinute + p.seconds == d
    ensures d >= 0 ==> p.hours >= 0 && 0 <= p.minutes < 60 && 0 <= p.seconds < 60
    ensures d < 0 ==> p.hours <= 0 && -60 < p.minutes <= 0 && -60 < p.seconds <= 0
  {
    var h := TruncDiv(d, SecondsPerHour);
    var m := TruncDiv(d, SecondsPerMinute) - h * 60;
    NaturalSplit(if d >= 0 then d else -d);
    Hms(h, m, d - h * SecondsPerHour - m * SecondsPerMinute)
  }

  lemma NaturalSplit(e: nat)
    ensures 0 <= e / SecondsPerMinute - (e / SecondsPerHour) * 60 < 60
    ensures 0 <= e - (e / SecondsPerHour) * SecondsPerHour
                 - (e / SecondsPerMinute - (e / SecondsPerHour) * 60) * SecondsPerMinute < 60
  {
    var q := e / 60;
    assert e == 60 * q + e % 60;
    assert q == 60 * (q / 60) + q % 60;
    assert e == 3600 * (q / 60) + 60 * (q % 60) + e % 60;
    assert e / 3600 == q / 60;
  }

  /** `format!("{:02}", n)`: zero-padded to two characters, the sign counting as one. */
  function Pad2(n: int): (r: string)
    ensures 0 <= n < 100 ==> r == TwoDigits(n)
  {
    if n < 0 then "-" + Decimal(-n)
    else if n < 10 then "0" + Decimal(n)
    else
      assert n < 100 ==> Decimal(n) == Decimal(n / 10) + [DigitChar(n % 10)];
      Decimal(n)
  }

  /** `format!("{:02}:{:02}:{:02}", hours, minutes, seconds)` of a duration. */
  function FormatDuration(d: int): string
  {
    var p := DurationParts(d);
    Pad2(p.hours) + ":" + Pad2(p.minutes) + ":" + Pad2(p.seconds)
  }

  /** A duration of less than a day is written like a time of day and reads
      back as the same number of seconds. */
  lemma FormatDurationParses(d: int)
    requires 0 <= d < SecondsPerDay
    ensures ParseTime(FormatDuration(d)) == Some(d)
  {
    var p := DurationParts(d);
    assert p.hours == d / SecondsPerHour;
    assert p.hours < 24;
    var s := FormatDuration(d);
    assert s == TwoDigits(p.hours) + ":" + TwoDigits(p.minutes) + ":" + TwoDigits(p.seconds);
    assert s[..2] == TwoDigits(p.hours);
    assert s[3..5] == TwoDigits(p.minutes);
    assert s[6..] == TwoDigits(p.seconds);
    ParseTwoDigitsRoundTrip(p.hours);
    ParseTwoDigitsRoundTrip(p.minutes);
    ParseTwoDigitsRoundTrip(p.seconds);
  }
}
