/**
 * formatTime (js/main.js and backup-20260123-152753/main.js, identical in both):
 * seconds rendered as minutes and seconds, each left-padded with '0' to at
 * least two characters and separated by ':'.
 */
module Clock {
  import opened Common

  predicate IsDigit(c: char) { '0' <= c <= '9' }

  predicate AllDigits(s: string) { forall i :: 0 <= i < |s| ==> IsDigit(s[i]) }

  function DigitChar(d: nat): (c: char)
    requires d < 10
    ensures IsDigit(c) && c as int - '0' as int == d
  {
    ('0' as int + d) as char
  }

  function DigitValue(c: char): nat
    requires IsDigit(c)
  {
    c as int - '0' as int
  }

  /** Number.prototype.toString() of a non-negative integer: its decimal digits. */
  function DecimalString(n: nat): (s: string)
    ensures |s| >= 1 && AllDigits(s)
  {
    if n < 10 then [DigitChar(n)] else DecimalString(n / 10) + [DigitChar(n % 10)]
  }

  /** The number a string of decimal digits denotes (leading zeros allowed). */
  function DigitsValue(s: string): nat
    requires AllDigits(s)
  {
    if s == [] then 0 else DigitsValue(s[..|s| - 1]) * 10 + DigitValue(s[|s| - 1])
  }

  /** String.prototype.padStart(width, fill). */
  function PadStart(s: string, width: nat, fill: char): (r: string)
    ensures |r| == if |s| < width then width else |s|
    ensures r[|r| - |s|..] == s
    ensures forall i :: 0 <= i < |r| - |s| ==> r[i] == fill
  {
    if |s| < width then seq(width - |s|, _ => fill) + s else s
  }

  function Pad2(n: nat): string { PadStart(DecimalString(n), 2, '0') }

  /** formatTime(seconds). Only non-negative counts of seconds are ever formatted. */
  function FormatTime(seconds: nat): string
  {
    Pad2(seconds / 60) + ":" + Pad2(seconds % 60)
  }

  /**
   * A field as formatTime writes one: at least two digits, and no leading
   * '0' beyond the one padding may add.
   */
  predicate PaddedField(m: string)
  {
    |m| >= 2 && AllDigits(m) && (|m| == 2 || m[0] != '0')
  }

  function IndexOf(t: string, c: char): (r: Option<nat>)
    ensures r.Some? ==> r.value < |t| && t[r.value] == c && c !in t[..r.value]
    ensures r.None? ==> c !in t
  {
    if t == [] then None
    else if t[0] == c then Some(0)
    else match IndexOf(t[1..], c)
      case None => None
      case Some(k) => assert t[..k + 1] == [t[0]] + t[1..][..k]; Some(k + 1)
  }

  /**
   * Reads a clock string back: the independent reference against which
   * FormatTime is proved (the inverse direction of the display).
   */
  function ParseTime(t: string): Option<nat>
  {
    match IndexOf(t, ':')
    case None => None
    case Some(k) =>
      var m, s := t[..k], t[k + 1..];
      if PaddedField(m) && |s| == 2 && AllDigits(s) && DigitsValue(s) < 60
      then Some(DigitsValue(m) * 60 + DigitsValue(s))
      else None
  }

  // ---------------------------------------------------------------- lemmas

  lemma {:induction false} DecimalStringValue(n: nat)
    ensures DigitsValue(DecimalString(n)) == n
  {
    var s := DecimalString(n);
    if n >= 10 {
      DecimalStringValue(n / 10);
      assert s[..|s| - 1] == DecimalString(n / 10);
    }
  }

  lemma {:induction false} DecimalStringLength(n: nat)
    ensures n < 10 <==> |DecimalString(n)| == 1
    ensures 10 <= n < 100 <==> |DecimalString(n)| == 2
    ensures |DecimalString(n)| >= 2 ==> DecimalString(n)[0] != '0'
  {
    if n >= 10 {
      DecimalStringLength(n / 10);
      assert DecimalString(n)[0] == DecimalString(n / 10)[0];
    }
  }

  /** Prepending zeros does not change the value of a digit string. */
  lemma {:induction false} LeadingZeros(z: nat, s: string)
    requires AllDigits(s)
    ensures AllDigits(seq(z, _ => '0') + s)
    ensures DigitsValue(seq(z, _ => '0') + s) == DigitsValue(s)
  {
    var t := seq(z, _ => '0') + s;
    if s == [] {
      if z > 0 {
        assert t[..|t| - 1] == seq(z - 1, _ => '0') + [];
        LeadingZeros(z - 1, []);
      }
    } else {
      assert t[..|t| - 1] == seq(z, _ => '0') + s[..|s| - 1];
      LeadingZeros(z, s[..|s| - 1]);
    }
  }

  lemma {:induction false} NonZeroLead(s: string)
    requires |s| >= 1 && AllDigits(s) && s[0] != '0'
    ensures DigitsValue(s) >= 1
  {
    if |s| > 1 {
      NonZeroLead(s[..|s| - 1]);
    }
  }

  /** A digit string without a leading zero is what toString prints for its value. */
  lemma {:induction false} CanonicalDigits(s: string)
    requires |s| >= 1 && AllDigits(s) && (|s| == 1 || s[0] != '0')
    ensures DecimalString(DigitsValue(s)) == s
  {
    var v := DigitsValue(s);
    if |s| == 1 {
    } else {
      var p := s[..|s| - 1];
      NonZeroLead(p);
      CanonicalDigits(p);
      assert v / 10 == DigitsValue(p) && v % 10 == DigitValue(s[|s| - 1]);
      assert s == p + [s[|s| - 1]];
    }
  }

  lemma Pad2Field(n: nat)
    ensures PaddedField(Pad2(n)) && DigitsValue(Pad2(n)) == n
    ensures n < 100 ==> |Pad2(n)| == 2
  {
    var d := DecimalString(n);
    DecimalStringLength(n);
    DecimalStringValue(n);
    if |d| < 2 {
      LeadingZeros(2 - |d|, d);
    }
  }

  lemma Pad2OfField(m: string)
    requires PaddedField(m)
    ensures Pad2(DigitsValue(m)) == m
  {
    if m[0] == '0' {
      assert |m| == 2;
      var tail := m[1..];
      assert m == seq(1, _ => '0') + tail;
      LeadingZeros(1, tail);
      CanonicalDigits(tail);
    } else {
      CanonicalDigits(m);
    }
  }

  /** The clock string is five characters long for any time under 100 minutes. */
  lemma FormatTimeLength(seconds: nat)
    requires seconds < 6000
    ensures |FormatTime(seconds)| == 5 && FormatTime(seconds)[2] == ':'
  {
    Pad2Field(seconds / 60);
    Pad2Field(seconds % 60);
  }

  /** Reading a formatted time back gives the same number of seconds. */
  lemma FormatTimeRoundTrip(seconds: nat)
    ensures ParseTime(FormatTime(seconds)) == Some(seconds)
  {
    var m, s := Pad2(seconds / 60), Pad2(seconds % 60);
    Pad2Field(seconds / 60);
    Pad2Field(seconds % 60);
    var t := FormatTime(seconds);
    assert ':' !in m;
    assert t[|m|] == ':' && t[..|m|] == m && t[|m| + 1..] == s;
  }

  lemma MinutesAndSeconds(mv: nat, sv: nat, seconds: nat)
    requires sv < 60 && seconds == mv * 60 + sv
    ensures seconds / 60 == mv && seconds % 60 == sv
  {
  }

  /** Every string ParseTime accepts is exactly the formatting of what it reads. */
  lemma ParseTimeExact(t: string, seconds: nat)
    requires ParseTime(t) == Some(seconds)
    ensures FormatTime(seconds) == t
  {
    var k := IndexOf(t, ':').value;
    var m, s := t[..k], t[k + 1..];
    assert PaddedField(m) && |s| == 2 && AllDigits(s) && DigitsValue(s) < 60;
    assert seconds == DigitsValue(m) * 60 + DigitsValue(s);
    MinutesAndSeconds(DigitsValue(m), DigitsValue(s), seconds);
    Pad2OfField(m);
    Pad2OfField(s);
    assert t == m + ":" + s;
  }
}
