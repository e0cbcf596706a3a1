/**
 Rendering of playback times as `M:SS`: whole minutes without leading zeros,
 a colon, and the whole seconds within the minute padded to two digits.
 A parser for that format is the partner the rendering is proved against.
 */
module TimeFormat {

  import opened Wrappers

  predicate IsDigit(c: char) {
    '0' <= c <= '9'
  }

  predicate AllDigits(s: string) {
    forall i | 0 <= i < |s| :: IsDigit(s[i])
  }

  function DigitChar(d: nat): (c: char)
    requires d < 10
    ensures IsDigit(c)
  {
    ('0' as int + d) as char
  }

  function DigitValue(c: char): (d: nat)
    requires IsDigit(c)
    ensures d < 10
  {
    c as int - '0' as int
  }

  /** The value of a string of decimal digits (the empty string reads as 0). */
  function DecimalValue(s: string): nat
    requires AllDigits(s)
  {
    if |s| == 0 then 0 else 10 * DecimalValue(s[..|s| - 1]) + DigitValue(s[|s| - 1])
  }

  /** How JavaScript prints a non-negative integer: no sign, no leading zeros. */
  function Decimal(n: nat): (r: string)
    ensures |r| >= 1 && AllDigits(r)
    ensures r[0] == '0' <==> n == 0
    ensures |r| == 1 <==> n < 10
    ensures n < 100 ==> |r| <= 2
  {
    if n < 10 then [DigitChar(n)] else Decimal(n / 10) + [DigitChar(n % 10)]
  }

  lemma {:induction false} DecimalRoundTrip(n: nat)
    ensures DecimalValue(Decimal(n)) == n
  {
    if n >= 10 {
      var r := Decimal(n);
      assert r[..|r| - 1] == Decimal(n / 10);
      DecimalRoundTrip(n / 10);
    }
  }

  /** Distinct numbers print differently. */
  lemma DecimalInjective(a: nat, b: nat)
    requires Decimal(a) == Decimal(b)
    ensures a == b
  {
    DecimalRoundTrip(a);
    DecimalRoundTrip(b);
  }

  /** The seconds field: a single digit gets a leading '0', two digits stay as they are. */
  function PadSeconds(sec: nat): (r: string)
    requires sec < 60
    ensures |r| == 2 && AllDigits(r)
    ensures DecimalValue(r) == sec
  {
    DecimalRoundTrip(sec);
    if sec < 10 then
      var r := "0" + Decimal(sec);
      assert r[..1] == "0";
      r
    else Decimal(sec)
  }

  /** `formatTime` applied to a whole number of seconds. */
  function FormatTime(secs: nat): (r: string)
    ensures |r| >= 4 && r[|r| - 3] == ':'
    ensures AllDigits(r[..|r| - 3]) && AllDigits(r[|r| - 2..])
    ensures |r| == 4 || r[0] != '0'
    ensures DecimalValue(r[..|r| - 3]) == secs / 60
    ensures DecimalValue(r[|r| - 2..]) == secs % 60 < 60
  {
    var m := Decimal(secs / 60);
    var s := PadSeconds(secs % 60);
    DecimalRoundTrip(secs / 60);
    var r := m + ":" + s;
    assert r[..|r| - 3] == m;
    assert r[|r| - 2..] == s;
    r
  }

  /** Reads an `M:SS` label back to seconds; None when the text is not of that shape. */
  function ParseTime(s: string): (r: Option<nat>)
    ensures r.Some? ==> |s| >= 4 && s[|s| - 3] == ':'
  {
    if |s| >= 4 && s[|s| - 3] == ':' && AllDigits(s[..|s| - 3]) && AllDigits(s[|s| - 2..])
       && DecimalValue(s[|s| - 2..]) < 60
    then Some(60 * DecimalValue(s[..|s| - 3]) + DecimalValue(s[|s| - 2..]))
    else None
  }

  lemma FormatTimeRoundTrip(secs: nat)
    ensures ParseTime(FormatTime(secs)) == Some(secs)
  {
  }

  lemma FormatTimeInjective(a: nat, b: nat)
    requires FormatTime(a) == FormatTime(b)
    ensures a == b
  {
    FormatTimeRoundTrip(a);
    FormatTimeRoundTrip(b);
  }

  /** JavaScript's `x % 60` for a non-negative number `x` (truncation and floor agree there). */
  function Rem60(x: real): (r: real)
    requires x >= 0.0
    ensures 0.0 <= r < 60.0
  {
    var q := (x / 60.0).Floor;
    assert q as real <= x / 60.0 < q as real + 1.0;
    x - 60.0 * q as real
  }

  /**
   `formatTime` as written: minutes are `floor(s / 60)`, seconds `floor(s % 60)`.
   The fraction of a second never shows: the label is that of the whole seconds.
   */
  function FormatSeconds(seconds: real): (r: string)
    requires seconds >= 0.0
    ensures r == FormatTime(seconds.Floor)
  {
    FloorParts(seconds);
    var min := (seconds / 60.0).Floor;
    var sec := Rem60(seconds).Floor;
    Decimal(min) + ":" + PadSeconds(sec)
  }

  lemma FloorParts(seconds: real)
    requires seconds >= 0.0
    ensures (seconds / 60.0).Floor == seconds.Floor / 60
    ensures Rem60(seconds).Floor == seconds.Floor % 60
  {
    var f := seconds.Floor;
    var q := f / 60;
    assert q as real * 60.0 <= seconds < q as real * 60.0 + 60.0;
    assert (seconds / 60.0).Floor == q;
  }

  lemma FormatExamples()
    ensures FormatTime(5) == "0:05"
    ensures FormatTime(61) == "1:01"
    ensures FormatSeconds(61.9) == "1:01"
  {
  }
}
