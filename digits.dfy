/** Fixed-width decimal fields, the building block of the date layout. */
module Digits {
  import opened Wrappers

  function Pow10(n: nat): (p: nat)
    ensures p >= 1
  {
    if n == 0 then 1 else 10 * Pow10(n - 1)
  }

  predicate IsDigit(c: char) {
    '0' <= c <= '9'
  }

  predicate AllDigits(s: string) {
    forall i :: 0 <= i < |s| ==> IsDigit(s[i])
  }

  function DigitValue(c: char): (d: nat)
    requires IsDigit(c)
    ensures d < 10
  {
    c as int - '0' as int
  }

  function DigitChar(d: nat): (c: char)
    requires d < 10
    ensures IsDigit(c) && DigitValue(c) == d
  {
    ('0' as int + d) as char
  }

  /** The number a string of decimal digits denotes, most significant digit first. */
  function Value(s: string): (n: nat)
    requires AllDigits(s)
    ensures n < Pow10(|s|)
  {
    if s == [] then 0
    else
      var prefix := s[..|s| - 1];
      assert AllDigits(prefix);
      var high := Value(prefix);
      assert high * 10 <= (Pow10(|s| - 1) - 1) * 10;
      high * 10 + DigitValue(s[|s| - 1])
  }

  /** `n` written with exactly `width` digits, zero-padded on the left. */
  function Pad(n: nat, width: nat): (s: string)
    requires n < Pow10(width)
    ensures |s| == width && AllDigits(s)
  {
    if width == 0 then ""
    else
      assert n / 10 < Pow10(width - 1);
      Pad(n / 10, width - 1) + [DigitChar(n % 10)]
  }

  /** Reads a non-empty run of decimal digits; anything else is rejected. */
  function ReadDigits(s: string): (r: Option<nat>)
    ensures r.Some? <==> s != [] && AllDigits(s)
    ensures r.Some? ==> r.value < Pow10(|s|)
  {
    if s != [] && AllDigits(s) then Some(Value(s)) else None
  }

  lemma {:induction false} ValueOfPad(n: nat, width: nat)
    requires n < Pow10(width)
    ensures Value(Pad(n, width)) == n
  {
    if width > 0 {
      var s := Pad(n, width);
      assert s[..width - 1] == Pad(n / 10, width - 1);
      ValueOfPad(n / 10, width - 1);
    }
  }

  lemma {:induction false} PadOfValue(s: string)
    requires AllDigits(s)
    ensures Pad(Value(s), |s|) == s
  {
    if s != [] {
      var prefix := s[..|s| - 1];
      var n := Value(s);
      var last := DigitValue(s[|s| - 1]);
      assert n == Value(prefix) * 10 + last && last < 10;
      assert n / 10 == Value(prefix) && n % 10 == last;
      PadOfValue(prefix);
      assert DigitChar(last) == s[|s| - 1];
      assert Pad(n, |s|) == Pad(Value(prefix), |prefix|) + [DigitChar(last)];
      assert s == prefix + [s[|s| - 1]];
    }
  }

  /** Writing a field and reading it back gives the number back. */
  lemma ReadPad(n: nat, width: nat)
    requires 0 < width && n < Pow10(width)
    ensures ReadDigits(Pad(n, width)) == Some(n)
  {
    ValueOfPad(n, width);
  }

  /** Reading a field and writing it back at the same width gives the text back. */
  lemma PadRead(s: string)
    requires ReadDigits(s).Some?
    ensures Pad(ReadDigits(s).value, |s|) == s
  {
    PadOfValue(s);
  }
}
