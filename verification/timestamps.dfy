/** The file-name tag of a finished conversation: its start and end times,
    each formatted with `strftime("%Y%m%d_%H%M%S")`, joined by `_`. */
module Timestamps {
  import opened Wrappers
  import opened Decimal

  /** A Python `datetime` (naive, as `datetime.now()` returns it). */
  datatype DateTime = DateTime(year: int, month: int, day: int,
                               hour: int, minute: int, second: int, microsecond: int)

  predicate IsLeap(y: int) {
    y % 4 == 0 && (y % 100 != 0 || y % 400 == 0)
  }

  function DaysInMonth(y: int, m: int): int
    requires 1 <= m <= 12
  {
    if m == 2 then (if IsLeap(y) then 29 else 28)
    else if m == 4 || m == 6 || m == 9 || m == 11 then 30
    else 31
  }

  /** The values a `datetime` can hold: years 1 to 9999, real calendar days,
      and a time of day down to the microsecond. */
  predicate Valid(t: DateTime) {
    && 1 <= t.year <= 9999
    && 1 <= t.month <= 12
    && 1 <= t.day <= DaysInMonth(t.year, t.month)
    && 0 <= t.hour < 24 && 0 <= t.minute < 60 && 0 <= t.second < 60
    && 0 <= t.microsecond < 1000000
  }

  /** `t.strftime("%Y%m%d_%H%M%S")` */
  function Stamp(t: DateTime): (s: string)
    requires Valid(t)
    ensures |s| == 15 && s[8] == '_'
    ensures AllDigits(s[..8]) && AllDigits(s[9..])
  {
    Pad(t.year, 4) + Pad(t.month, 2) + Pad(t.day, 2) + "_" +
    Pad(t.hour, 2) + Pad(t.minute, 2) + Pad(t.second, 2)
  }

  /** The tag shared by the transcript and summary file names and the
      sentiment log row of one conversation. */
  function Tag(start: DateTime, end: DateTime): (s: string)
    requires Valid(start) && Valid(end)
    ensures |s| == 31 && s[15] == '_'
    ensures s[..15] == Stamp(start) && s[16..] == Stamp(end)
  {
    Stamp(start) + "_" + Stamp(end)
  }

  /** What a stamp records of a time: everything but the microseconds. */
  function ToSecond(t: DateTime): DateTime {
    t.(microsecond := 0)
  }

  /** Reads a 15-character stamp back into the time it records. */
  function ParseStamp(s: string): Option<DateTime> {
    if |s| == 15 && s[8] == '_' && AllDigits(s[0..4]) && AllDigits(s[4..6]) && AllDigits(s[6..8])
       && AllDigits(s[9..11]) && AllDigits(s[11..13]) && AllDigits(s[13..15])
    then
      Some(DateTime(DigitsValue(s[0..4]), DigitsValue(s[4..6]), DigitsValue(s[6..8]),
                    DigitsValue(s[9..11]), DigitsValue(s[11..13]), DigitsValue(s[13..15]), 0))
    else None
  }

  /** Reads a 31-character tag back into the two times it records. */
  function ParseTag(s: string): Option<(DateTime, DateTime)> {
    if |s| == 31 && s[15] == '_' then
      match (ParseStamp(s[..15]), ParseStamp(s[16..]))
      case (Some(a), Some(b)) => Some((a, b))
      case _ => None
    else None
  }

  /** A stamp records its time to the second: reading it back gives the time
      without its microseconds. */
  lemma StampRoundTrip(t: DateTime)
    requires Valid(t)
    ensures ParseStamp(Stamp(t)) == Some(ToSecond(t))
  {
    var y, mo, d := Pad(t.year, 4), Pad(t.month, 2), Pad(t.day, 2);
    var h, mi, se := Pad(t.hour, 2), Pad(t.minute, 2), Pad(t.second, 2);
    var s := Stamp(t);
    assert s == y + mo + d + "_" + h + mi + se;
    assert s[0..4] == y;
    assert s[4..6] == mo;
    assert s[6..8] == d;
    assert s[9..11] == h;
    assert s[11..13] == mi;
    assert s[13..15] == se;
    PadValue(t.year, 4);
    PadValue(t.month, 2);
    PadValue(t.day, 2);
    PadValue(t.hour, 2);
    PadValue(t.minute, 2);
    PadValue(t.second, 2);
  }

  /** Reading a tag back gives both times, to the second. */
  lemma TagRoundTrip(start: DateTime, end: DateTime)
    requires Valid(start) && Valid(end)
    ensures ParseTag(Tag(start, end)) == Some((ToSecond(start), ToSecond(end)))
  {
    StampRoundTrip(start);
    StampRoundTrip(end);
  }

  /** Two conversations get the same tag exactly when their start times agree
      to the second and so do their end times. */
  lemma TagCollision(a: DateTime, b: DateTime, c: DateTime, d: DateTime)
    requires Valid(a) && Valid(b) && Valid(c) && Valid(d)
    ensures Tag(a, b) == Tag(c, d) <==> ToSecond(a) == ToSecond(c) && ToSecond(b) == ToSecond(d)
  {
    TagRoundTrip(a, b);
    TagRoundTrip(c, d);
  }
}
