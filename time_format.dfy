/**
 * The countdown display shared by the image-response and situational-response
 * tests: whole minutes, a colon, and the remaining seconds padded to two digits.
 */
module TimeFormat {
  import opened Wrappers
  import opened Text

  /** `str.padStart(2, '0')`. */
  function PadTwo(str: string): (r: string)
    ensures |r| >= 2
  {
    if |str| == 0 then "00" else if |str| == 1 then "0" + str else str
  }

  /** Padding puts zeros in front of the text, as many as it lacks to reach two characters, and nothing else. */
  lemma PadTwoPads(str: string)
    ensures var r := PadTwo(str);
      && |r| == (if |str| < 2 then 2 else |str|)
      && r[|r| - |str|..] == str
      && forall i :: 0 <= i < |r| - |str| ==> r[i] == '0'
  {
  }

  /** `formatTime(seconds)`: `${Math.floor(seconds / 60)}:${(seconds % 60).toString().padStart(2, '0')}`. */
  function FormatTime(seconds: nat): string {
    NatToString(seconds / 60) + ":" + PadTwo(NatToString(seconds % 60))
  }

  /** Reads back "m:ss": minutes in decimal, then exactly two digits of seconds below 60. */
  function ParseTime(t: string): Option<nat> {
    var parts := Split(t, ':');
    if |parts| != 2 then None
    else
      var m, s := parts[0], parts[1];
      if m == [] || !AllDigits(m) || |s| != 2 || !AllDigits(s) || DigitsValue(s) >= 60 then None
      else Some(DigitsValue(m) * 60 + DigitsValue(s))
  }

  lemma {:induction false} SecondsField(x: nat)
    requires x < 60
    ensures var p := PadTwo(NatToString(x)); |p| == 2 && AllDigits(p) && DigitsValue(p) == x
  {
    var str := NatToString(x);
    if x < 10 {
      var p := "0" + str;
      assert p[..1] == "0";
      assert DigitsValue(p[..1]) == 0;
    } else {
      assert |NatToString(x / 10)| == 1;
    }
  }

  /** The display loses nothing: reading it back gives the number of seconds. */
  lemma {:induction false} FormatTimeRoundTrip(seconds: nat)
    ensures ParseTime(FormatTime(seconds)) == Some(seconds)
  {
    var m := NatToString(seconds / 60);
    var s := PadTwo(NatToString(seconds % 60));
    SecondsField(seconds % 60);
    assert ':' !in m;
    assert ':' !in s;
    SplitAfterPiece(m, s, ':');
    SplitWithoutSeparator(s, ':');
    assert FormatTime(seconds) == m + [':'] + s;
  }

  /** Two different countdown values never show the same text. */
  lemma FormatTimeInjective(a: nat, b: nat)
    requires FormatTime(a) == FormatTime(b)
    ensures a == b
  {
    FormatTimeRoundTrip(a);
    FormatTimeRoundTrip(b);
  }

  /** A one-digit number is written as that digit. */
  lemma OneDigit(d: nat)
    requires d < 10
    ensures NatToString(d) == [DigitChar(d)]
  {
  }

  /** A two-digit number is written as its tens digit and its units digit. */
  lemma TwoDigits(n: nat)
    requires 10 <= n < 100
    ensures NatToString(n) == [DigitChar(n / 10), DigitChar(n % 10)]
  {
    OneDigit(n / 10);
  }

  /** A whole number of minutes shows as those minutes and ":00". */
  lemma WholeMinutes(m: nat)
    ensures FormatTime(60 * m) == NatToString(m) + ":00"
  {
    assert (60 * m) / 60 == m && (60 * m) % 60 == 0;
    OneDigit(0);
  }

  lemma FormatTimeOfWritingPeriod()
    ensures FormatTime(240) == "4:00"
  {
    WholeMinutes(4);
    OneDigit(4);
  }

  lemma FormatTimeOfViewingPeriod()
    ensures FormatTime(30) == "0:30"
  {
    OneDigit(0);
    Thirty();
    assert FormatTime(30) == NatToString(0) + ":" + PadTwo(NatToString(30));
  }

  lemma FormatTimeOfHalfHour()
    ensures FormatTime(1800) == "30:00"
  {
    WholeMinutes(30);
    Thirty();
  }

  lemma Thirty()
    ensures NatToString(30) == "30"
  {
    TwoDigits(30);
    assert DigitChar(3) == '3' && DigitChar(0) == '0';
  }

  lemma FormatTimeOfZero()
    ensures FormatTime(0) == "0:00"
  {
    WholeMinutes(0);
    OneDigit(0);
  }
}
