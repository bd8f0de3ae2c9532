/** The timestamp text the generator reads and writes: the `Z` designator
    rewrite done before ISO-8601 parsing, the XMLTV layout
    `YYYYMMDDHHMMSS +0000` over a broken-down UTC date, and the `HH:MM`
    time of day quoted in standby descriptions. */
module Clock {
  import opened Strings

  /** A broken-down UTC date and time, as Python's datetime holds it. */
  datatype DateTime = DateTime(year: nat, month: nat, day: nat, hour: nat, minute: nat, second: nat)

  predicate IsLeapYear(year: nat) {
    year % 4 == 0 && (year % 100 != 0 || year % 400 == 0)
  }

  function DaysInMonth(year: nat, month: nat): nat
    requires 1 <= month <= 12
  {
    if month == 2 then (if IsLeapYear(year) then 29 else 28)
    else if month == 4 || month == 6 || month == 9 || month == 11 then 30
    else 31
  }

  /** The dates Python's datetime can represent. */
  predicate ValidDateTime(d: DateTime) {
    && 1 <= d.year <= 9999
    && 1 <= d.month <= 12
    && 1 <= d.day <= DaysInMonth(d.year, d.month)
    && d.hour < 24 && d.minute < 60 && d.second < 60
  }

  const UtcOffset := " +0000"

  /** The XMLTV timestamp: fourteen digits, then the literal offset `+0000`. */
  function FormatXmltv(d: DateTime): (s: string)
    requires ValidDateTime(d)
    ensures |s| == 20 && AllDigits(s[..14]) && s[14..] == UtcOffset
  {
    var s := Pad4(d.year) + Pad2(d.month) + Pad2(d.day) + Pad2(d.hour) + Pad2(d.minute) + Pad2(d.second) + UtcOffset;
    assert forall i :: 0 <= i < 14 ==> IsDigit(s[i]) by {
      forall i | 0 <= i < 14 ensures IsDigit(s[i]) {
        if i < 4 { assert s[i] == Pad4(d.year)[i]; }
        else if i < 6 { assert s[i] == Pad2(d.month)[i - 4]; }
        else if i < 8 { assert s[i] == Pad2(d.day)[i - 6]; }
        else if i < 10 { assert s[i] == Pad2(d.hour)[i - 8]; }
        else if i < 12 { assert s[i] == Pad2(d.minute)[i - 10]; }
        else { assert s[i] == Pad2(d.second)[i - 12]; }
      }
    }
    s
  }

  /** Reads an XMLTV timestamp back; the inverse of `FormatXmltv`. */
  function ParseXmltv(s: string): (r: Option<DateTime>)
    ensures r.Some? ==> ValidDateTime(r.value)
  {
    if |s| == 20 && AllDigits(s[..14]) && s[14..] == UtcOffset then
      var d := DateTime(Digits4(s[0..4]), Digits2(s[4..6]), Digits2(s[6..8]),
                        Digits2(s[8..10]), Digits2(s[10..12]), Digits2(s[12..14]));
      if ValidDateTime(d) then Some(d) else None
    else None
  }

  lemma FormatThenParse(d: DateTime)
    requires ValidDateTime(d)
    ensures ParseXmltv(FormatXmltv(d)) == Some(d)
  {
    var s := FormatXmltv(d);
    assert s[0..4] == Pad4(d.year);
    assert s[4..6] == Pad2(d.month);
    assert s[6..8] == Pad2(d.day);
    assert s[8..10] == Pad2(d.hour);
    assert s[10..12] == Pad2(d.minute);
    assert s[12..14] == Pad2(d.second);
  }

  lemma ParseThenFormat(s: string)
    requires ParseXmltv(s).Some?
    ensures FormatXmltv(ParseXmltv(s).value) == s
  {
    Pad4OfDigits(s[0..4]);
    Pad2OfDigits(s[4..6]);
    Pad2OfDigits(s[6..8]);
    Pad2OfDigits(s[8..10]);
    Pad2OfDigits(s[10..12]);
    Pad2OfDigits(s[12..14]);
    assert s == s[0..4] + s[4..6] + s[6..8] + s[8..10] + s[10..12] + s[12..14] + s[14..];
  }

  predicate EndsWithZ(s: string) {
    |s| > 0 && s[|s| - 1] == 'Z'
  }

  /** The suffix rewrite that precedes ISO-8601 parsing: a trailing `Z`
      becomes the explicit offset `+00:00`; any other text is unchanged. */
  function NormalizeZulu(s: string): (r: string)
    ensures !EndsWithZ(r)
    ensures EndsWithZ(s) ==> |r| == |s| + 5 && r[..|s| - 1] == s[..|s| - 1] && r[|s| - 1..] == "+00:00"
    ensures !EndsWithZ(s) ==> r == s
  {
    if EndsWithZ(s) then s[..|s| - 1] + "+00:00" else s
  }

  /** Rewriting twice is rewriting once. */
  lemma NormalizeZuluIdempotent(s: string)
    ensures NormalizeZulu(NormalizeZulu(s)) == NormalizeZulu(s)
  {
  }

  const SecondsPerDay := 86400

  /** The seconds into the day split into whole hours, whole minutes and
      the leftover seconds of the current minute. */
  lemma SplitDaySeconds(t: int)
    ensures var secs := t % 86400;
      && secs / 3600 < 24 && secs % 3600 / 60 < 60
      && (secs / 3600) * 3600 + (secs % 3600 / 60) * 60 == secs - t % 60
  {
    var days, secs := t / 86400, t % 86400;
    var h, r := secs / 3600, secs % 3600;
    var m := r / 60;
    assert secs == h * 3600 + r;
    assert r == m * 60 + r % 60;
    assert t == days * 86400 + secs;
    MinuteRemainder(t, days * 1440 + h * 60 + m, r % 60);
  }

  lemma MinuteRemainder(t: int, minutes: int, rest: int)
    requires 0 <= rest < 60 && t == 60 * minutes + rest
    ensures t % 60 == rest
  {
  }

  /** strftime("%H:%M") of an instant given in seconds since the Unix epoch (UTC). */
  function HourMinute(t: int): (s: string)
    ensures |s| == 5 && s[2] == ':' && AllDigits(s[..2]) && AllDigits(s[3..])
    ensures Digits2(s[..2]) < 24 && Digits2(s[3..]) < 60
    ensures Digits2(s[..2]) * 3600 + Digits2(s[3..]) * 60 == t % SecondsPerDay - t % 60
  {
    var secs := t % SecondsPerDay;
    var s := Pad2(secs / 3600) + ":" + Pad2(secs % 3600 / 60);
    SplitDaySeconds(t);
    assert s[..2] == Pad2(secs / 3600) && s[3..] == Pad2(secs % 3600 / 60);
    s
  }
}
