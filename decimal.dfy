/** Decimal digit strings: the pieces of Rust's standard library the timecode
    code leans on. `ParseUnsigned` is `from_str_radix(s, 10)` for an unsigned
    integer type whose values are below `bound` (`u8`, `u32`), and `ZeroPad2`
    is the `{:02}` format of a small unsigned value. */
module Decimal {
  import opened Wrappers

  /** `char::is_digit(10)`: ASCII digits only. */
  predicate IsDigit(c: char) {
    '0' <= c <= '9'
  }

  predicate AllDigits(s: string) {
    forall i :: 0 <= i < |s| ==> IsDigit(s[i])
  }

  function DigitValue(c: char): (d: nat)
    requires IsDigit(c)
    ensures d < 10
  {
    c as int - '0' as int
  }

  function DigitChar(d: nat): (c: char)
    requires d < 10
    ensures IsDigit(c) && DigitValue(c) == d
  {
    ('0' as int + d) as char
  }

  function Pow10(n: nat): (p: nat)
    ensures p >= 1
  {
    if n == 0 then 1 else 10 * Pow10(n - 1)
  }

  /** The value of a digit string, most significant digit first. */
  function DecValue(s: string): nat
    requires AllDigits(s)
  {
    if |s| == 0 then 0 else 10 * DecValue(s[..|s| - 1]) + DigitValue(s[|s| - 1])
  }

  /** The last `w` decimal digits of `n`, with leading zeros. */
  function PadDec(n: nat, w: nat): (r: string)
    ensures |r| == w && AllDigits(r)
  {
    if w == 0 then [] else PadDec(n / 10, w - 1) + [DigitChar(n % 10)]
  }

  lemma PadDecTwo(v: nat)
    requires v < 100
    ensures PadDec(v, 2) == [DigitChar(v / 10), DigitChar(v % 10)]
  {
    assert PadDec(v / 10, 1) == [DigitChar(v / 10)];
  }

  lemma {:induction false} DecValueBound(s: string)
    requires AllDigits(s)
    ensures DecValue(s) < Pow10(|s|)
  {
    if |s| > 0 {
      DecValueBound(s[..|s| - 1]);
    }
  }

  /** Reading back `w` padded digits gives the number, when it has at most `w` digits. */
  lemma {:induction false} DecValuePadDec(n: nat, w: nat)
    requires n < Pow10(w)
    ensures DecValue(PadDec(n, w)) == n
  {
    if w > 0 {
      var p := PadDec(n / 10, w - 1);
      assert PadDec(n, w)[..w - 1] == p;
      DecValuePadDec(n / 10, w - 1);
    }
  }

  /** Padding a digit string's value to its own length gives the string back. */
  lemma {:induction false} PadDecValue(s: string)
    requires AllDigits(s)
    ensures PadDec(DecValue(s), |s|) == s
  {
    if |s| > 0 {
      var init := s[..|s| - 1];
      PadDecValue(init);
      assert s == init + [s[|s| - 1]];
    }
  }

  /** `from_str_radix(s, 10)` for an unsigned type with `bound` values: an
      optional `+`, then at least one ASCII digit and nothing else, and a value
      in range; every other input (empty, a lone `+`, a `-`, any other
      character, an overflow) is an error. */
  function ParseUnsigned(s: string, bound: nat): (r: Option<nat>)
    ensures r.Some? <==> |s| > 0 && var k := if s[0] == '+' then 1 else 0;
      k < |s| && AllDigits(s[k..]) && DecValue(s[k..]) < bound
    ensures r.Some? ==> var k := if s[0] == '+' then 1 else 0;
      r.value == DecValue(s[k..]) && r.value < bound
  {
    if |s| == 0 || (s[0] == '+' && |s| == 1) then None
    else
      var k := if s[0] == '+' then 1 else 0;
      var digits := s[k..];
      if AllDigits(digits) && DecValue(digits) < bound then Some(DecValue(digits)) else None
  }

  lemma ParseUnsignedPadDec(n: nat, w: nat, bound: nat)
    requires 1 <= w && n < Pow10(w)
    ensures ParseUnsigned(PadDec(n, w), bound) == if n < bound then Some(n) else None
  {
    DecValuePadDec(n, w);
  }

  /** One leading `+` is accepted in front of the digits. */
  lemma ParseUnsignedPlusPadDec(n: nat, w: nat, bound: nat)
    requires 1 <= w && n < Pow10(w)
    ensures ParseUnsigned("+" + PadDec(n, w), bound) == if n < bound then Some(n) else None
  {
    DecValuePadDec(n, w);
    assert ("+" + PadDec(n, w))[1..] == PadDec(n, w);
  }

  /** `{:02}` on a value below 1000: at least two digits, zero padded. */
  function ZeroPad2(v: nat): (r: string)
    requires v < 1000
    ensures AllDigits(r) && DecValue(r) == v
    ensures |r| == (if v < 100 then 2 else 3)
  {
    var w := if v < 100 then 2 else 3;
    DecValuePadDec(v, w);
    PadDec(v, w)
  }
}
