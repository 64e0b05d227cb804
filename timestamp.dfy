/** A zone-aware clock reading and its rendering with the `strftime` pattern
    "%Y-%m-%d %H:%M:%S %Z%z". The directives are the ones ISO/IEC 9899:2011
    section 7.27.3.5 defines: %Y the year, %m the month (01-12), %d the day
    of the month (01-31), %H the hour of a 24-hour clock (00-23), %M the
    minute (00-59), %S the second, %Z the time zone's name or abbreviation,
    %z the offset from UTC in the ISO 8601 form "-0430". */
module Timestamp {
  import opened Decimal

  datatype Option<T> = None | Some(value: T)

  /** The civil time of a clock reading in some zone, with that zone's
      abbreviation at the instant ("EDT", "EST") and its offset from UTC in
      minutes (negative west of Greenwich). */
  datatype ZonedTime = ZonedTime(
    year: nat, month: nat, day: nat,
    hour: nat, minute: nat, second: nat,
    abbreviation: string, offsetMinutes: int)

  predicate IsLeapYear(y: nat) {
    y % 4 == 0 && (y % 100 != 0 || y % 400 == 0)
  }

  function DaysInMonth(y: nat, m: nat): nat
    requires 1 <= m <= 12
  {
    if m == 2 then (if IsLeapYear(y) then 29 else 28)
    else if m == 4 || m == 6 || m == 9 || m == 11 then 30
    else 31
  }

  function Abs(x: int): nat {
    if x < 0 then -x else x
  }

  /** The readings a zone-aware `datetime` can hold: years 1 to 9999, a real
      calendar date, a time of day without leap second, and an offset
      strictly within one day. */
  predicate Valid(t: ZonedTime) {
    && 1 <= t.year <= 9999
    && 1 <= t.month <= 12
    && 1 <= t.day <= DaysInMonth(t.year, t.month)
    && t.hour < 24 && t.minute < 60 && t.second < 60
    && Abs(t.offsetMinutes) < 24 * 60
  }

  /** Three numeric fields joined by `sep`: the first `width` digits wide, the
      other two two digits wide. "%Y-%m-%d" is Fields(year, month, day, 4, '-')
      and "%H:%M:%S" is Fields(hour, minute, second, 2, ':'). */
  function Fields(a: nat, b: nat, c: nat, width: nat, sep: char): string {
    ZeroPad(a, width) + [sep] + ZeroPad(b, 2) + [sep] + ZeroPad(c, 2)
  }

  /** %z: the sign ('+' for a zero offset), then hours and minutes, two digits each. */
  function FormatOffset(offsetMinutes: int): string {
    var a := Abs(offsetMinutes);
    (if offsetMinutes < 0 then "-" else "+") + ZeroPad(a / 60, 2) + ZeroPad(a % 60, 2)
  }

  /** The reading rendered with "%Y-%m-%d %H:%M:%S %Z%z". */
  function Format(t: ZonedTime): string {
    Fields(t.year, t.month, t.day, 4, '-') + " "
    + Fields(t.hour, t.minute, t.second, 2, ':') + " "
    + t.abbreviation + FormatOffset(t.offsetMinutes)
  }

  /** Reads back what Fields wrote. */
  function ParseFields(s: string, width: nat, sep: char): Option<(nat, nat, nat)> {
    if |s| != width + 6 || s[width] != sep || s[width + 3] != sep then None
    else
      var a, b, c := s[..width], s[width + 1..width + 3], s[width + 4..];
      if AllDigits(a) && AllDigits(b) && AllDigits(c)
      then Some((ValueOf(a), ValueOf(b), ValueOf(c)))
      else None
  }

  /** Reads back what FormatOffset wrote. */
  function ParseOffset(z: string): Option<int> {
    if |z| != 5 || (z[0] != '+' && z[0] != '-') then None
    else
      var h, m := z[1..3], z[3..5];
      if !(AllDigits(h) && AllDigits(m)) || ValueOf(m) >= 60 then None
      else
        var magnitude := ValueOf(h) * 60 + ValueOf(m);
        Some(if z[0] == '-' then -magnitude else magnitude)
  }

  /** Reads a rendered timestamp back. The abbreviation is free text, so it is
      whatever lies between the fixed 20-character date and time and the
      fixed 5-character offset. */
  function Parse(s: string): Option<ZonedTime> {
    if |s| < 25 || s[10] != ' ' || s[19] != ' ' then None
    else
      var date, clock, offset := ParseFields(s[..10], 4, '-'), ParseFields(s[11..19], 2, ':'), ParseOffset(s[|s| - 5..]);
      if date.None? || clock.None? || offset.None? then None
      else
        var t := ZonedTime(date.value.0, date.value.1, date.value.2,
                           clock.value.0, clock.value.1, clock.value.2,
                           s[20..|s| - 5], offset.value);
        if Valid(t) then Some(t) else None
  }

  lemma FieldsRoundTrip(a: nat, b: nat, c: nat, width: nat, sep: char)
    requires 1 <= width && a < Pow10(width) && b < 100 && c < 100
    ensures |Fields(a, b, c, width, sep)| == width + 6
    ensures ParseFields(Fields(a, b, c, width, sep), width, sep) == Some((a, b, c))
  {
    assert Pow10(2) == 100;
    ZeroPadRoundTrip(a, width);
    ZeroPadRoundTrip(b, 2);
    ZeroPadRoundTrip(c, 2);
    var s := Fields(a, b, c, width, sep);
    assert s[..width] == ZeroPad(a, width);
    assert s[width + 1..width + 3] == ZeroPad(b, 2);
    assert s[width + 4..] == ZeroPad(c, 2);
  }

  /** The offset takes five characters, its sign tells the direction, its
      digits give the hours and minutes, and it reads back as the offset. */
  lemma FormatOffsetLayout(offsetMinutes: int)
    requires Abs(offsetMinutes) < 24 * 60
    ensures var z := FormatOffset(offsetMinutes);
      && |z| == 5
      && (z[0] == '-' <==> offsetMinutes < 0)
      && (z[0] == '+' <==> offsetMinutes >= 0)
      && AllDigits(z[1..3]) && ValueOf(z[1..3]) == Abs(offsetMinutes) / 60
      && AllDigits(z[3..5]) && ValueOf(z[3..5]) == Abs(offsetMinutes) % 60
      && ParseOffset(z) == Some(offsetMinutes)
  {
    var a := Abs(offsetMinutes);
    assert Pow10(2) == 100;
    ZeroPadRoundTrip(a / 60, 2);
    ZeroPadRoundTrip(a % 60, 2);
    var z := FormatOffset(offsetMinutes);
    assert z[1..3] == ZeroPad(a / 60, 2);
    assert z[3..5] == ZeroPad(a % 60, 2);
  }

  /** The layout of "%Y-%m-%d %H:%M:%S %Z%z" for a valid reading: 19
      characters of date and time, a space, the abbreviation, and a
      five-character offset. */
  lemma FormatLayout(t: ZonedTime)
    requires Valid(t)
    ensures var s := Format(t);
      && |s| == 19 + 1 + |t.abbreviation| + 5
      && s[..10] == Fields(t.year, t.month, t.day, 4, '-') && s[10] == ' '
      && s[11..19] == Fields(t.hour, t.minute, t.second, 2, ':') && s[19] == ' '
      && s[20..|s| - 5] == t.abbreviation
      && s[|s| - 5..] == FormatOffset(t.offsetMinutes)
  {
    assert Pow10(4) == 10000;
    FieldsRoundTrip(t.year, t.month, t.day, 4, '-');
    FieldsRoundTrip(t.hour, t.minute, t.second, 2, ':');
    FormatOffsetLayout(t.offsetMinutes);
    Slices(Fields(t.year, t.month, t.day, 4, '-'), Fields(t.hour, t.minute, t.second, 2, ':'),
           t.abbreviation, FormatOffset(t.offsetMinutes));
  }

  lemma Slices(date: string, clock: string, abbreviation: string, offset: string)
    requires |date| == 10 && |clock| == 8 && |offset| == 5
    ensures var s := date + " " + clock + " " + abbreviation + offset;
      && |s| == 25 + |abbreviation|
      && s[..10] == date && s[10] == ' ' && s[11..19] == clock && s[19] == ' '
      && s[20..|s| - 5] == abbreviation && s[|s| - 5..] == offset
  {
  }

  /** Parsing undoes formatting: the rendered timestamp determines the
      reading, abbreviation and offset included. */
  lemma ParseFormat(t: ZonedTime)
    requires Valid(t)
    ensures Parse(Format(t)) == Some(t)
  {
    assert Pow10(4) == 10000;
    FormatLayout(t);
    FieldsRoundTrip(t.year, t.month, t.day, 4, '-');
    FieldsRoundTrip(t.hour, t.minute, t.second, 2, ':');
    FormatOffsetLayout(t.offsetMinutes);
  }

  /** Two valid readings that render alike are the same reading. */
  lemma FormatInjective(t1: ZonedTime, t2: ZonedTime)
    requires Valid(t1) && Valid(t2)
    requires Format(t1) == Format(t2)
    ensures t1 == t2
  {
    ParseFormat(t1);
    ParseFormat(t2);
  }

  /** 1 April 2023, 14:30:45 in New York under daylight-saving time. */
  lemma FormatExample()
    ensures Format(ZonedTime(2023, 4, 1, 14, 30, 45, "EDT", -240)) == "2023-04-01 14:30:45 EDT-0400"
  {
    DateExample();
    ClockExample();
  }

  lemma DateExample()
    ensures Fields(2023, 4, 1, 4, '-') == "2023-04-01"
  {
  }

  lemma ClockExample()
    ensures Fields(14, 30, 45, 2, ':') == "14:30:45"
  {
  }
}
