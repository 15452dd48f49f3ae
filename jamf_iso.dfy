/**
 * The timestamp format the Classic API expects (`convert_datetime_to_jamf_iso` in
 * src/jamfmcp/jamfsdk/models/classic/__init__.py): `YYYY-MM-DDTHH:MM:SS.mmm` followed by
 * strftime's `%z` offset, the fraction cut (not rounded) to milliseconds.
 */
module JamfIso {
  import opened Wrappers
  import opened Digits

  /** A tzinfo object; `utcOffset` is what its `utcoffset()` returns, in minutes east of UTC. */
  datatype TzInfo = TzInfo(utcOffset: Option<int>)

  /** A Python `datetime`; `tzinfo` is None for a naive one. */
  datatype DateTime = DateTime(
    year: int, month: int, day: int,
    hour: int, minute: int, second: int, microsecond: int,
    tzinfo: Option<TzInfo>)

  /** The ValueError raised for a naive datetime. */
  datatype IsoError = MissingTimezone

  function DaysInMonth(year: int, month: int): int
    requires 1 <= month <= 12
  {
    if month == 2 then
      (if (year % 4 == 0 && year % 100 != 0) || year % 400 == 0 then 29 else 28)
    else if month == 4 || month == 6 || month == 9 || month == 11 then 30
    else 31
  }

  /** The ranges a `datetime` enforces, with four-digit years and offsets within a day. */
  predicate ValidDateTime(dt: DateTime)
  {
    && 1000 <= dt.year <= 9999
    && 1 <= dt.month <= 12
    && 1 <= dt.day <= DaysInMonth(dt.year, dt.month)
    && 0 <= dt.hour < 24 && 0 <= dt.minute < 60 && 0 <= dt.second < 60
    && 0 <= dt.microsecond < 1000000
    && (dt.tzinfo.Some? && dt.tzinfo.value.utcOffset.Some? ==>
          -1440 < dt.tzinfo.value.utcOffset.value < 1440)
  }

  /** strftime's `%z`: `+HHMM` or `-HHMM`, or nothing when `utcoffset()` is None. */
  function FormatOffset(tz: TzInfo): (s: string)
    requires tz.utcOffset.Some? ==> -1440 < tz.utcOffset.value < 1440
    ensures tz.utcOffset.None? <==> s == ""
    ensures tz.utcOffset.Some? ==> |s| == 5 && (s[0] == '-' <==> tz.utcOffset.value < 0)
  {
    match tz.utcOffset
    case None => ""
    case Some(m) =>
      var a := if m < 0 then -m else m;
      (if m < 0 then "-" else "+") + Pad(a / 60, 2) + Pad(a % 60, 2)
  }

  /** strftime's `%Y-%m-%dT%H:%M:%S`. */
  function FormatSeconds(dt: DateTime): (s: string)
    requires ValidDateTime(dt)
    ensures |s| == 19
  {
    Pad(dt.year, 4) + "-" + Pad(dt.month, 2) + "-" + Pad(dt.day, 2) + "T" +
    Pad(dt.hour, 2) + ":" + Pad(dt.minute, 2) + ":" + Pad(dt.second, 2)
  }

  /** Cutting the last three of six microsecond digits leaves the milliseconds, truncated. */
  lemma MillisecondsTruncate(us: nat)
    requires us < 1000000
    ensures Pad(us, 6)[..3] == Pad(us / 1000, 3)
  {
    assert Pow10(3) == 1000 && Pow10(6) == 1000 * Pow10(3) by {
      assert Pow10(2) == 100;
      assert Pow10(5) == 100 * Pow10(3);
    }
    PadPrefix(us, 3, 3);
    assert DropDigits(us, 3) == DropDigits(us / 10, 2) == DropDigits(us / 10 / 10, 1);
    assert DropDigits(us / 10 / 10, 1) == DropDigits(us / 10 / 10 / 10, 0) == us / 1000;
  }

  /** `convert_datetime_to_jamf_iso(dt)`: strftime with `%f`, the last three digits cut, then `%z`. */
  function ConvertDatetimeToJamfIso(dt: DateTime): (r: Result<string, IsoError>)
    requires ValidDateTime(dt)
    ensures r.Err? <==> dt.tzinfo.None?
    ensures r.Ok? ==>
      r.value == FormatSeconds(dt) + "." + Pad(dt.microsecond / 1000, 3) + FormatOffset(dt.tzinfo.value)
    ensures r.Ok? ==> |r.value| == (if dt.tzinfo.value.utcOffset.Some? then 28 else 23)
  {
    if dt.tzinfo.None? then Err(MissingTimezone)
    else
      var head := FormatSeconds(dt) + ".";
      var full := head + Pad(dt.microsecond, 6);
      MillisecondsTruncate(dt.microsecond);
      assert full[..|full| - 3] == head + Pad(dt.microsecond, 6)[..3];
      Ok(full[..|full| - 3] + FormatOffset(dt.tzinfo.value))
  }

  /** What the Classic API reads back from such a string: the fields, to the millisecond. */
  datatype JamfTimestamp = JamfTimestamp(
    year: int, month: int, day: int,
    hour: int, minute: int, second: int, millisecond: int,
    offset: Option<int>)

  function Field(s: string, from: nat, to: nat): Option<nat>
    requires from <= to <= |s|
  {
    if AllDigits(s[from..to]) then Some(DecimalValue(s[from..to])) else None
  }

  function ParseOffset(z: string): Option<int>
  {
    if |z| == 5 && (z[0] == '+' || z[0] == '-') && Field(z, 1, 3).Some? && Field(z, 3, 5).Some? then
      var a := Field(z, 1, 3).value * 60 + Field(z, 3, 5).value;
      Some(if z[0] == '-' then -a else a)
    else None
  }

  /** Reads `YYYY-MM-DDTHH:MM:SS.mmm` and an optional `%z` offset. */
  function ParseJamfIso(s: string): Option<JamfTimestamp>
  {
    if (|s| == 23 || |s| == 28) && s[4] == '-' && s[7] == '-' && s[10] == 'T' &&
       s[13] == ':' && s[16] == ':' && s[19] == '.' &&
       Field(s, 0, 4).Some? && Field(s, 5, 7).Some? && Field(s, 8, 10).Some? &&
       Field(s, 11, 13).Some? && Field(s, 14, 16).Some? && Field(s, 17, 19).Some? &&
       Field(s, 20, 23).Some? && (|s| == 28 ==> ParseOffset(s[23..]).Some?)
    then
      Some(JamfTimestamp(
        Field(s, 0, 4).value, Field(s, 5, 7).value, Field(s, 8, 10).value,
        Field(s, 11, 13).value, Field(s, 14, 16).value, Field(s, 17, 19).value,
        Field(s, 20, 23).value,
        if |s| == 28 then ParseOffset(s[23..]) else None))
    else None
  }

  lemma FieldOfPad(s: string, from: nat, n: nat, w: nat)
    requires n < Pow10(w) && from + w <= |s| && s[from..from + w] == Pad(n, w)
    ensures Field(s, from, from + w) == Some(n)
  {
    PadRoundTrip(n, w);
  }

  lemma OffsetRoundTrip(tz: TzInfo)
    requires tz.utcOffset.Some? && -1440 < tz.utcOffset.value < 1440
    ensures ParseOffset(FormatOffset(tz)) == tz.utcOffset
  {
    var m := tz.utcOffset.value;
    var a := if m < 0 then -m else m;
    var z := FormatOffset(tz);
    assert z[1..3] == Pad(a / 60, 2);
    assert z[3..5] == Pad(a % 60, 2);
    FieldOfPad(z, 1, a / 60, 2);
    FieldOfPad(z, 3, a % 60, 2);
  }

  /** Where each field lands in `Y-M-DTh:m:s`, for fields of any content and the right widths. */
  lemma SecondsLayout(y: string, mo: string, d: string, hh: string, mi: string, ss: string)
    requires |y| == 4 && |mo| == 2 && |d| == 2 && |hh| == 2 && |mi| == 2 && |ss| == 2
    ensures var h := y + "-" + mo + "-" + d + "T" + hh + ":" + mi + ":" + ss;
      && h[0..4] == y && h[5..7] == mo && h[8..10] == d
      && h[11..13] == hh && h[14..16] == mi && h[17..19] == ss
      && h[4] == '-' && h[7] == '-' && h[10] == 'T' && h[13] == ':' && h[16] == ':'
  {
  }

  /** Where strftime puts each field of `%Y-%m-%dT%H:%M:%S`. */
  lemma FormatSecondsFields(dt: DateTime)
    requires ValidDateTime(dt)
    ensures var h := FormatSeconds(dt);
      && h[0..4] == Pad(dt.year, 4) && h[5..7] == Pad(dt.month, 2) && h[8..10] == Pad(dt.day, 2)
      && h[11..13] == Pad(dt.hour, 2) && h[14..16] == Pad(dt.minute, 2) && h[17..19] == Pad(dt.second, 2)
      && h[4] == '-' && h[7] == '-' && h[10] == 'T' && h[13] == ':' && h[16] == ':'
  {
    SecondsLayout(Pad(dt.year, 4), Pad(dt.month, 2), Pad(dt.day, 2),
                  Pad(dt.hour, 2), Pad(dt.minute, 2), Pad(dt.second, 2));
  }

  /** The seconds, the milliseconds and the offset are read back from where they were written. */
  lemma StampLayout(head: string, ms: string, z: string)
    requires |head| == 19 && |ms| == 3
    ensures var s := head + "." + ms + z;
      && s[..19] == head && s[19] == '.' && s[20..23] == ms && s[23..] == z
      && (forall i, j :: 0 <= i <= j <= 19 ==> s[i..j] == head[i..j])
  {
  }

  /** A string with the separators in place and every field readable parses to those fields. */
  lemma ParseWellFormed(s: string, t: JamfTimestamp)
    requires |s| == 23 || |s| == 28
    requires s[4] == '-' && s[7] == '-' && s[10] == 'T' && s[13] == ':' && s[16] == ':' && s[19] == '.'
    requires Field(s, 0, 4) == Some(t.year) && Field(s, 5, 7) == Some(t.month) && Field(s, 8, 10) == Some(t.day)
    requires Field(s, 11, 13) == Some(t.hour) && Field(s, 14, 16) == Some(t.minute) && Field(s, 17, 19) == Some(t.second)
    requires Field(s, 20, 23) == Some(t.millisecond)
    requires |s| == 28 ==> t.offset.Some? && ParseOffset(s[23..]) == t.offset
    requires |s| == 23 ==> t.offset.None?
    ensures ParseJamfIso(s) == Some(t)
  {
  }

  /**
   * The format loses nothing but the sub-millisecond digits: reading the string back
   * gives every field of the datetime, the microseconds cut to milliseconds, and the offset.
   */
  lemma ConvertRoundTrip(dt: DateTime)
    requires ValidDateTime(dt) && dt.tzinfo.Some?
    ensures ConvertDatetimeToJamfIso(dt).Ok?
    ensures ParseJamfIso(ConvertDatetimeToJamfIso(dt).value) ==
      Some(JamfTimestamp(dt.year, dt.month, dt.day, dt.hour, dt.minute, dt.second,
                         dt.microsecond / 1000, dt.tzinfo.value.utcOffset))
  {
    var s := ConvertDatetimeToJamfIso(dt).value;
    var head := FormatSeconds(dt);
    var ms := Pad(dt.microsecond / 1000, 3);
    var z := FormatOffset(dt.tzinfo.value);
    assert s == head + "." + ms + z;
    FormatSecondsFields(dt);
    StampLayout(head, ms, z);
    FieldOfPad(s, 0, dt.year, 4);
    FieldOfPad(s, 5, dt.month, 2);
    FieldOfPad(s, 8, dt.day, 2);
    FieldOfPad(s, 11, dt.hour, 2);
    FieldOfPad(s, 14, dt.minute, 2);
    FieldOfPad(s, 17, dt.second, 2);
    FieldOfPad(s, 20, dt.microsecond / 1000, 3);
    if dt.tzinfo.value.utcOffset.Some? {
      OffsetRoundTrip(dt.tzinfo.value);
    }
    ParseWellFormed(s, JamfTimestamp(dt.year, dt.month, dt.day, dt.hour, dt.minute, dt.second,
                                     dt.microsecond / 1000, dt.tzinfo.value.utcOffset));
  }
}
