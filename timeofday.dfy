/** Times of day as the booking route reads and writes them: a start time is parsed as
    24-hour `HH:mm`, else as 12-hour `h:mm a`, into minutes after midnight; the end time
    is rendered back as `HH:mm`. Both formats accept one or two digits per number, and the
    day-period marker is `AM` or `PM` in any letter case. */
module TimeOfDay {
  import opened Common

  /** Minutes in a day. */
  const Day: nat := 1440

  /** A number written with one or two decimal digits and nothing else. */
  function ParseNumber(s: string): (r: Option<nat>)
    ensures r.Some? ==> r.value < 100
    ensures r.Some? <==> (|s| == 1 || |s| == 2) && forall i :: 0 <= i < |s| ==> IsDigit(s[i])
  {
    if |s| == 1 && IsDigit(s[0]) then Some(DigitValue(s[0]))
    else if |s| == 2 && IsDigit(s[0]) && IsDigit(s[1]) then Some(10 * DigitValue(s[0]) + DigitValue(s[1]))
    else None
  }

  /** `parse(s, "HH:mm")`: an hour 0..23 and a minute 0..59 separated by `:`, as minutes
      after midnight. */
  function ParseHHmm(s: string): (r: Option<nat>)
    ensures r.Some? ==> r.value < Day
  {
    var i := IndexOf(s, ':');
    if i < 0 then None
    else
      var hour := ParseNumber(s[..i]);
      var minute := ParseNumber(s[i + 1..]);
      if hour.Some? && minute.Some? && hour.value <= 23 && minute.value <= 59
      then Some(hour.value * 60 + minute.value)
      else None
  }

  /** The day-period marker: `AM` or `PM` in any letter case. */
  function ParseDayPeriod(s: string): (r: Option<bool>)
    ensures r.Some? ==> |s| == 2
    ensures r == Some(false) <==> |s| == 2 && s[0] in {'a', 'A'} && s[1] in {'m', 'M'}
    ensures r == Some(true) <==> |s| == 2 && s[0] in {'p', 'P'} && s[1] in {'m', 'M'}
  {
    if |s| == 2 && s[1] in {'m', 'M'} && s[0] in {'a', 'A'} then Some(false)
    else if |s| == 2 && s[1] in {'m', 'M'} && s[0] in {'p', 'P'} then Some(true)
    else None
  }

  /** `parse(s, "h:mm a")`: an hour 1..12, `:`, a minute 0..59, one space and the day-period
      marker, as minutes after midnight (12 AM is midnight, 12 PM is noon). A time in the
      afternoon is exactly one with the PM marker. */
  function ParseHmmA(s: string): (r: Option<nat>)
    ensures r.Some? ==> r.value < Day
    ensures r.Some? ==> |s| >= 2 && (r.value >= 720 <==> s[|s| - 2] in {'p', 'P'})
  {
    var i := IndexOf(s, ':');
    if i < 0 then None
    else
      var rest := s[i + 1..];
      var j := IndexOf(rest, ' ');
      if j < 0 then None
      else
        var hour := ParseNumber(s[..i]);
        var minute := ParseNumber(rest[..j]);
        var pm := ParseDayPeriod(rest[j + 1..]);
        if hour.Some? && minute.Some? && pm.Some? && 1 <= hour.value <= 12 && minute.value <= 59 then
          assert rest[j + 1..] == s[|s| - 2..];
          Some(Clock12(hour.value, minute.value, pm.value))
        else None
  }

  /** Minutes after midnight of a 12-hour clock reading: the hour 12 counts as 0, and PM
      adds twelve hours. */
  function Clock12(hour: nat, minute: nat, pm: bool): nat {
    ((hour % 12) + (if pm then 12 else 0)) * 60 + minute
  }

  /** The start time as the booking route reads it: `HH:mm` first, `h:mm a` as fallback. */
  function ParseStartTime(s: string): (r: Option<nat>)
    ensures r.Some? ==> r.value < Day
    ensures ParseHHmm(s).Some? ==> r == ParseHHmm(s)
    ensures r.None? <==> ParseHHmm(s).None? && ParseHmmA(s).None?
  {
    var parsed := ParseHHmm(s);
    if parsed.None? then ParseHmmA(s) else parsed
  }

  /** A number below 100 as two digits, zero-padded. */
  function Pad2(n: nat): (s: string)
    requires n < 100
    ensures |s| == 2 && IsDigit(s[0]) && IsDigit(s[1])
    ensures ParseNumber(s) == Some(n)
  {
    [DigitChar(n / 10), DigitChar(n % 10)]
  }

  /** `format(t, "HH:mm")` for `t` minutes after midnight. */
  function FormatHHmm(t: nat): (s: string)
    requires t < Day
    ensures |s| == 5 && s[2] == ':'
  {
    Pad2(t / 60) + ":" + Pad2(t % 60)
  }

  /** Reading back a rendered time gives the same time. */
  lemma ParseFormatRoundTrip(t: nat)
    requires t < Day
    ensures ParseHHmm(FormatHHmm(t)) == Some(t)
  {
    var s := FormatHHmm(t);
    assert IndexOf(s, ':') == 2 by {
      assert s[0] != ':' && s[1] != ':';
      assert s[..2] == Pad2(t / 60);
    }
    assert s[..2] == Pad2(t / 60);
    assert s[3..] == Pad2(t % 60);
  }

  /** A five-character `HH:mm` time that parses is rendered back exactly as written. */
  lemma FormatParseRoundTrip(s: string)
    requires |s| == 5 && ParseHHmm(s).Some?
    ensures FormatHHmm(ParseHHmm(s).value) == s
  {
    var i := IndexOf(s, ':');
    assert i == 2;
    var hours, minutes := s[..2], s[3..];
    var hour := ParseNumber(hours).value;
    var minute := ParseNumber(minutes).value;
    MinutesSplit(hour, minute);
    Pad2OfParsed(hours);
    Pad2OfParsed(minutes);
    assert s == hours + ":" + minutes;
  }

  /** Minutes after midnight split back into the hour and the minute. */
  lemma MinutesSplit(hour: nat, minute: nat)
    requires minute < 60
    ensures (hour * 60 + minute) / 60 == hour && (hour * 60 + minute) % 60 == minute
  {
  }

  /** A two-digit number is rendered back exactly as written. */
  lemma Pad2OfParsed(s: string)
    requires |s| == 2 && ParseNumber(s).Some?
    ensures Pad2(ParseNumber(s).value) == s
  {
    var tens, units := DigitValue(s[0]), DigitValue(s[1]);
    assert (10 * tens + units) / 10 == tens && (10 * tens + units) % 10 == units;
    assert DigitChar(tens) == s[0] && DigitChar(units) == s[1];
  }

  /** A number below 100 in plain decimal, without zero padding (the `h` token). */
  function Unpadded(n: nat): (s: string)
    requires n < 100
    ensures 1 <= |s| <= 2
    ensures ParseNumber(s) == Some(n)
  {
    if n < 10 then [DigitChar(n)] else Pad2(n)
  }

  /** Every number that parses is written either plainly or zero-padded, so its value is
      the one those renderings give. */
  lemma NumberCanonical(s: string)
    requires ParseNumber(s).Some?
    ensures s == Unpadded(ParseNumber(s).value) || s == Pad2(ParseNumber(s).value)
  {
    if |s| == 1 {
      assert DigitChar(DigitValue(s[0])) == s[0];
    } else {
      Pad2OfParsed(s);
    }
  }

  /** The first `:` of `a + ":" + b` is the one between them when `a` holds none. */
  lemma SplitAtFirst(a: string, b: string, c: char)
    requires c !in a
    ensures IndexOf(a + [c] + b, c) == |a|
    ensures (a + [c] + b)[..|a|] == a && (a + [c] + b)[|a| + 1..] == b
  {
    var s := a + [c] + b;
    assert s[|a|] == c;
    assert s[..|a|] == a;
  }

  /** `HH:mm` reads the fields on either side of the first `:` as the hour and the minute. */
  lemma ParseHHmmFields(hours: string, minutes: string)
    requires ':' !in hours
    ensures ParseHHmm(hours + ":" + minutes)
         == (var h, m := ParseNumber(hours), ParseNumber(minutes);
             if h.Some? && m.Some? && h.value <= 23 && m.value <= 59 then Some(h.value * 60 + m.value)
             else None)
  {
    SplitAtFirst(hours, minutes, ':');
  }

  /** A time written with an unpadded hour (`9:30`) reads back as itself too. */
  lemma ParseUnpaddedRoundTrip(t: nat)
    requires t < Day
    ensures ParseHHmm(Unpadded(t / 60) + ":" + Pad2(t % 60)) == Some(t)
  {
    ParseHHmmFields(Unpadded(t / 60), Pad2(t % 60));
  }

  /** The hour on a 12-hour clock: 12 for midnight and noon. */
  function Hour12(t: nat): (h: nat)
    requires t < Day
    ensures 1 <= h <= 12
    ensures h % 12 == (t / 60) % 12
  {
    if (t / 60) % 12 == 0 then 12 else (t / 60) % 12
  }

  /** `format(t, "h:mm a")` for `t` minutes after midnight. */
  function Format12(t: nat): (s: string)
    requires t < Day
    ensures |s| >= 7 && s[|s| - 1] == 'M'
  {
    Unpadded(Hour12(t)) + ":" + Pad2(t % 60) + " " + (if t >= 720 then "PM" else "AM")
  }

  /** `h:mm a` reads the hour before the first `:`, the minute up to the first space after
      it and the day-period marker after that space. */
  lemma ParseHmmAFields(hours: string, minutes: string, period: string)
    requires ':' !in hours && ' ' !in minutes
    ensures ParseHmmA(hours + ":" + minutes + " " + period)
         == (var h, m, pm := ParseNumber(hours), ParseNumber(minutes), ParseDayPeriod(period);
             if h.Some? && m.Some? && pm.Some? && 1 <= h.value <= 12 && m.value <= 59
             then Some(Clock12(h.value, m.value, pm.value))
             else None)
  {
    var s := hours + ":" + minutes + " " + period;
    var rest := minutes + " " + period;
    assert s == hours + [':'] + rest;
    SplitAtFirst(hours, rest, ':');
    assert IndexOf(s, ':') == |hours| && s[..|hours|] == hours && s[|hours| + 1..] == rest;
    SplitAtFirst(minutes, period, ' ');
    assert IndexOf(rest, ' ') == |minutes| && rest[..|minutes|] == minutes && rest[|minutes| + 1..] == period;
  }

  /** The 12-hour clock hour and the day period give back the 24-hour hour. */
  lemma Hour12Back(t: nat)
    requires t < Day
    ensures Clock12(Hour12(t), t % 60, t >= 720) == t
  {
    var h := t / 60;
    assert h < 24;
    assert t >= 720 <==> h >= 12;
    assert h % 12 + (if h >= 12 then 12 else 0) == h;
  }

  /** Every time rendered as `h:mm a` reads back as itself (12 AM is midnight, 12 PM noon). */
  lemma Parse12RoundTrip(t: nat)
    requires t < Day
    ensures ParseHmmA(Format12(t)) == Some(t)
  {
    var marker := if t >= 720 then "PM" else "AM";
    assert ParseDayPeriod(marker) == Some(t >= 720);
    ParseHmmAFields(Unpadded(Hour12(t)), Pad2(t % 60), marker);
    Hour12Back(t);
  }

  /** A start time written as `h:mm a` is not an `HH:mm` time, so the route falls back to
      the 12-hour reading and gets the time back. */
  lemma StartTimeFallback(t: nat)
    requires t < Day
    ensures ParseHHmm(Format12(t)).None?
    ensures ParseStartTime(Format12(t)) == Some(t)
  {
    var marker := if t >= 720 then "PM" else "AM";
    var minutes := Pad2(t % 60) + " " + marker;
    assert Format12(t) == Unpadded(Hour12(t)) + ":" + minutes;
    ParseHHmmFields(Unpadded(Hour12(t)), minutes);
    Parse12RoundTrip(t);
  }
}
