/** `formatDuration`: a length in seconds as the clock text shown to users
    ("Live", "m:SS" or "h:MM:SS"), and a parser for that text which the
    lemmas below prove to be its inverse. */
module Duration {
  import opened Tracks

  predicate IsDigit(c: char) {
    '0' <= c <= '9'
  }

  predicate AllDigits(s: string) {
    forall k :: 0 <= k < |s| ==> IsDigit(s[k])
  }

  function DigitChar(d: nat): (c: char)
    requires d < 10
    ensures IsDigit(c) && c as int - '0' as int == d
  {
    ('0' as int + d) as char
  }

  /** The decimal numeral JavaScript's `toString()` writes for a non-negative
      integer: digits only, no leading zero unless the number is 0. */
  function Numeral(n: nat): (r: string)
    ensures r != [] && AllDigits(r)
    ensures r[0] == '0' ==> n == 0
    ensures n < 10 <==> |r| == 1
    ensures 10 <= n < 100 <==> |r| == 2
  {
    if n < 10 then [DigitChar(n)] else Numeral(n / 10) + [DigitChar(n % 10)]
  }

  /** The number a string of decimal digits denotes (leading zeros allowed). */
  function ValueOf(s: string): nat
    requires AllDigits(s)
  {
    if s == [] then 0
    else
      AllDigitsInit(s);
      ValueOf(s[..|s| - 1]) * 10 + (s[|s| - 1] as int - '0' as int)
  }

  lemma AllDigitsInit(s: string)
    requires s != [] && AllDigits(s)
    ensures AllDigits(s[..|s| - 1])
  {
    var init := s[..|s| - 1];
    forall k | 0 <= k < |init| ensures IsDigit(init[k]) {
      assert init[k] == s[k];
    }
  }

  /** `n.toString().padStart(2, '0')`. */
  function PadTwo(n: nat): string {
    var d := Numeral(n);
    if |d| < 2 then "0" + d else d
  }

  /** `formatDuration(seconds)`: 0 is 'Live'; otherwise hours, minutes and
      seconds, with the hours field only when there is at least one hour and
      every field but the first padded to two digits. Only non-negative whole
      numbers of seconds are modelled. */
  function FormatDuration(seconds: nat): (r: string)
    ensures seconds == 0 ==> r == "Live"
    ensures seconds > 0 ==>
      |r| >= 4 && r[|r| - 3] == ':' && AllDigits(r[|r| - 2..]) && ValueOf(r[|r| - 2..]) == seconds % 60
  {
    if seconds == 0 then "Live"
    else
      var hours := seconds / 3600;
      var minutes := (seconds % 3600) / 60;
      var secs := seconds % 60;
      var lead := if hours > 0 then Numeral(hours) + ":" + PadTwo(minutes) else Numeral(minutes);
      PadTwoField(secs);
      var text := lead + ":" + PadTwo(secs);
      assert text[|text| - 2..] == PadTwo(secs);
      text
  }

  /** `text.split(':')`: the pieces between the colons, always at least one. */
  function SplitColon(s: string): (r: seq<string>)
    ensures |r| >= 1
  {
    if s == [] then [[]]
    else
      var rest := SplitColon(s[1..]);
      if s[0] == ':' then [[]] + rest else [[s[0]] + rest[0]] + rest[1..]
  }

  /** A sub-minute field of a clock text: exactly two digits denoting less than 60. */
  predicate IsSixtyField(f: string) {
    |f| == 2 && AllDigits(f) && ValueOf(f) < 60
  }

  /** Reads back a clock text: 'Live' is 0, "m:SS" and "h:MM:SS" are summed
      up as minutes and seconds or hours, minutes and seconds. */
  function ParseDuration(text: string): Option<nat> {
    if text == "Live" then Some(0)
    else
      var f := SplitColon(text);
      if |f| == 2 && f[0] != [] && AllDigits(f[0]) && IsSixtyField(f[1]) then
        Some(ValueOf(f[0]) * 60 + ValueOf(f[1]))
      else if |f| == 3 && f[0] != [] && AllDigits(f[0]) && IsSixtyField(f[1]) && IsSixtyField(f[2]) then
        Some(ValueOf(f[0]) * 3600 + ValueOf(f[1]) * 60 + ValueOf(f[2]))
      else None
  }

  lemma {:induction false} ValueOfNumeral(n: nat)
    ensures ValueOf(Numeral(n)) == n
  {
    if n >= 10 {
      var r := Numeral(n);
      assert r[..|r| - 1] == Numeral(n / 10);
      ValueOfNumeral(n / 10);
    }
  }

  lemma {:induction false} ValueOfLeadingZero(d: string)
    requires AllDigits(d)
    ensures AllDigits("0" + d) && ValueOf("0" + d) == ValueOf(d)
  {
    var z := "0" + d;
    assert AllDigits(z) by {
      forall k | 0 <= k < |z| ensures IsDigit(z[k]) {
        if k > 0 { assert z[k] == d[k - 1]; }
      }
    }
    if d != [] {
      var init := d[..|d| - 1];
      assert AllDigits(init) by {
        forall k | 0 <= k < |init| ensures IsDigit(init[k]) {
          assert init[k] == d[k];
        }
      }
      assert z[..|z| - 1] == "0" + init;
      ValueOfLeadingZero(init);
    }
  }

  /** What `padStart(2, '0')` gives for a field below 100. */
  lemma PadTwoField(n: nat)
    requires n < 100
    ensures |PadTwo(n)| == 2 && AllDigits(PadTwo(n)) && ValueOf(PadTwo(n)) == n
  {
    ValueOfNumeral(n);
    if n < 10 {
      ValueOfLeadingZero(Numeral(n));
    }
  }

  lemma {:induction false} SplitNoColon(a: string)
    requires ':' !in a
    ensures SplitColon(a) == [a]
  {
    if a != [] {
      assert a[0] != ':' && [a[0]] + a[1..] == a;
      SplitNoColon(a[1..]);
    }
  }

  lemma {:induction false} SplitAtColon(a: string, b: string)
    requires ':' !in a
    ensures SplitColon(a + ":" + b) == [a] + SplitColon(b)
  {
    if a == [] {
      assert a + ":" + b == [':'] + b;
      assert (a + ":" + b)[1..] == b;
    } else {
      assert (a + ":" + b)[0] == a[0] != ':';
      assert (a + ":" + b)[1..] == a[1..] + ":" + b;
      assert [a[0]] + a[1..] == a;
      SplitAtColon(a[1..], b);
    }
  }

  lemma DigitsHaveNoColon(s: string)
    requires AllDigits(s)
    ensures ':' !in s
  {
    forall k | 0 <= k < |s| ensures s[k] != ':' {
      assert IsDigit(s[k]);
    }
  }

  /** Hours, minutes and seconds as `formatDuration` computes them add back up. */
  lemma ClockArithmetic(s: nat)
    ensures s == (s / 3600) * 3600 + ((s % 3600) / 60) * 60 + s % 60
    ensures (s % 3600) / 60 < 60
  {
    var h, r := s / 3600, s % 3600;
    var m, sec := r / 60, r % 60;
    assert s == h * 3600 + r;
    assert r == m * 60 + sec;
    assert s == (h * 60 + m) * 60 + sec;
    assert s % 60 == sec;
  }

  /** For a positive length: three colon-separated fields "h:MM:SS" from one
      hour on, two fields "m:SS" below it; the leading field has no leading
      zero unless it is a single "0", the others are two digits below 60,
      and the fields add back up to the length. */
  lemma FormatDurationClock(s: nat)
    requires s > 0
    ensures var f := SplitColon(FormatDuration(s));
      (s >= 3600 ==>
        |f| == 3 && f[0] != [] && f[0][0] != '0' && AllDigits(f[0])
        && IsSixtyField(f[1]) && IsSixtyField(f[2])
        && ValueOf(f[0]) * 3600 + ValueOf(f[1]) * 60 + ValueOf(f[2]) == s) &&
      (s < 3600 ==>
        |f| == 2 && f[0] != [] && (f[0][0] == '0' ==> f[0] == "0") && AllDigits(f[0]) && ValueOf(f[0]) < 60
        && IsSixtyField(f[1])
        && ValueOf(f[0]) * 60 + ValueOf(f[1]) == s)
  {
    if s >= 3600 {
      HoursClock(s);
    } else {
      MinutesClock(s);
    }
  }

  /** From one hour on: "h:MM:SS". */
  lemma HoursClock(s: nat)
    requires s >= 3600
    ensures var f := SplitColon(FormatDuration(s));
      |f| == 3 && f[0] != [] && f[0][0] != '0' && AllDigits(f[0])
      && IsSixtyField(f[1]) && IsSixtyField(f[2])
      && ValueOf(f[0]) * 3600 + ValueOf(f[1]) * 60 + ValueOf(f[2]) == s
  {
    var h, m, sec := s / 3600, (s % 3600) / 60, s % 60;
    ClockArithmetic(s);
    PadTwoField(m);
    PadTwoField(sec);
    ValueOfNumeral(h);
    HoursFields(FormatDuration(s), h, m, sec);
  }

  /** The text "h:MM:SS" splits into its three fields. */
  lemma HoursFields(text: string, h: nat, m: nat, sec: nat)
    requires m < 100 && sec < 100
    requires text == Numeral(h) + ":" + PadTwo(m) + ":" + PadTwo(sec)
    ensures SplitColon(text) == [Numeral(h), PadTwo(m), PadTwo(sec)]
  {
    var rest := PadTwo(m) + ":" + PadTwo(sec);
    PadTwoField(m);
    PadTwoField(sec);
    DigitsHaveNoColon(Numeral(h));
    SplitTwo(PadTwo(m), PadTwo(sec));
    SplitAtColon(Numeral(h), rest);
    assert text == Numeral(h) + ":" + rest;
  }

  /** Two colon-free pieces joined by a colon split back into those pieces. */
  lemma SplitTwo(a: string, b: string)
    requires AllDigits(a) && AllDigits(b)
    ensures SplitColon(a + ":" + b) == [a, b]
  {
    DigitsHaveNoColon(a);
    DigitsHaveNoColon(b);
    SplitAtColon(a, b);
    SplitNoColon(b);
  }

  /** Below one hour: "m:SS". */
  lemma MinutesClock(s: nat)
    requires 0 < s < 3600
    ensures var f := SplitColon(FormatDuration(s));
      |f| == 2 && f[0] != [] && (f[0][0] == '0' ==> f[0] == "0") && AllDigits(f[0]) && ValueOf(f[0]) < 60
      && IsSixtyField(f[1])
      && ValueOf(f[0]) * 60 + ValueOf(f[1]) == s
  {
    var m, sec := (s % 3600) / 60, s % 60;
    ClockArithmetic(s);
    PadTwoField(sec);
    ValueOfNumeral(m);
    MinutesFields(FormatDuration(s), m, sec);
  }

  /** The text "m:SS" splits into its two fields. */
  lemma MinutesFields(text: string, m: nat, sec: nat)
    requires sec < 100
    requires text == Numeral(m) + ":" + PadTwo(sec)
    ensures SplitColon(text) == [Numeral(m), PadTwo(sec)]
  {
    PadTwoField(sec);
    SplitTwo(Numeral(m), PadTwo(sec));
  }

  /** Reading back what `formatDuration` wrote gives the original length. */
  lemma ParseFormatRoundTrip(s: nat)
    ensures ParseDuration(FormatDuration(s)) == Some(s)
  {
    if s > 0 {
      var t := FormatDuration(s);
      assert t != "Live" by {
        assert "Live"[|"Live"| - 3] != ':';
      }
      if s >= 3600 {
        HoursClock(s);
        ParseHours(t, s);
      } else {
        MinutesClock(s);
        ParseMinutes(t, s);
      }
    }
  }

  /** The parser reads "h:MM:SS" fields as hours, minutes and seconds. */
  lemma ParseHours(text: string, s: nat)
    requires text != "Live"
    requires var f := SplitColon(text);
      |f| == 3 && f[0] != [] && AllDigits(f[0]) && IsSixtyField(f[1]) && IsSixtyField(f[2])
      && ValueOf(f[0]) * 3600 + ValueOf(f[1]) * 60 + ValueOf(f[2]) == s
    ensures ParseDuration(text) == Some(s)
  {
  }

  /** The parser reads "m:SS" fields as minutes and seconds. */
  lemma ParseMinutes(text: string, s: nat)
    requires text != "Live"
    requires var f := SplitColon(text);
      |f| == 2 && f[0] != [] && AllDigits(f[0]) && IsSixtyField(f[1])
      && ValueOf(f[0]) * 60 + ValueOf(f[1]) == s
    ensures ParseDuration(text) == Some(s)
  {
  }

  /** 'Live' is shown for 0 seconds and for nothing else. */
  lemma FormatDurationLive(s: nat)
    ensures FormatDuration(s) == "Live" <==> s == 0
  {
    if s > 0 {
      FormatDurationClock(s);
      SplitNoColon("Live");
    }
  }

  /** Different lengths are never shown as the same text. */
  lemma FormatDurationInjective(a: nat, b: nat)
    requires FormatDuration(a) == FormatDuration(b)
    ensures a == b
  {
    ParseFormatRoundTrip(a);
    ParseFormatRoundTrip(b);
  }
}
