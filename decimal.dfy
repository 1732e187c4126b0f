/** Decimal text of natural numbers, as Python writes it with `str(n)` and
    with `"%02d"` / `"%06d"`, and the reading of such text back. */
module Decimal {
  import opened Wrappers

  predicate IsDigit(c: char)
  {
    '0' <= c <= '9'
  }

  predicate AllDigits(s: string)
  {
    forall i :: 0 <= i < |s| ==> IsDigit(s[i])
  }

  function DigitChar(d: nat): (c: char)
    requires d < 10
    ensures IsDigit(c)
  {
    (d + '0' as int) as char
  }

  function DigitValue(c: char): (d: nat)
    requires IsDigit(c)
    ensures d < 10
  {
    c as int - '0' as int
  }

  function Pow10(k: nat): (p: nat)
    ensures p >= 1
  {
    if k == 0 then 1 else 10 * Pow10(k - 1)
  }

  /** `str(n)`: the shortest decimal text of `n`, with no leading zero. */
  function NatToString(n: nat): (s: string)
    ensures |s| >= 1 && AllDigits(s)
    ensures |s| > 1 ==> s[0] != '0'
    decreases n
  {
    if n < 10 then [DigitChar(n)] else NatToString(n / 10) + [DigitChar(n % 10)]
  }

  /** `"%0*d" % (width, n)` for an `n` that fits in `width` digits. */
  function Padded(n: nat, width: nat): (s: string)
    requires n < Pow10(width)
    ensures |s| == width && AllDigits(s)
  {
    if width == 0 then "" else Padded(n / 10, width - 1) + [DigitChar(n % 10)]
  }

  /** The number a string of digits denotes (leading zeros allowed). */
  function ValueOf(s: string): (r: nat)
    requires AllDigits(s)
  {
    if s == [] then 0 else 10 * ValueOf(s[..|s| - 1]) + DigitValue(s[|s| - 1])
  }

  /** `int(s)` restricted to non-empty strings of ASCII digits. */
  function ParseNat(s: string): (r: Option<nat>)
  {
    if |s| > 0 && AllDigits(s) then Some(ValueOf(s)) else None
  }

  lemma {:induction false} ValueOfNatToString(n: nat)
    ensures ValueOf(NatToString(n)) == n
    decreases n
  {
    var s := NatToString(n);
    if n >= 10 {
      ValueOfNatToString(n / 10);
      assert s[..|s| - 1] == NatToString(n / 10);
    }
  }

  /** `str(n)` reads back as `n`. */
  lemma ParseNatToString(n: nat)
    ensures ParseNat(NatToString(n)) == Some(n)
  {
    ValueOfNatToString(n);
  }

  /** A zero-padded field reads back as the number it was written from. */
  lemma {:induction false} ParsePadded(n: nat, width: nat)
    requires 0 < width && n < Pow10(width)
    ensures ParseNat(Padded(n, width)) == Some(n)
  {
    ValueOfPadded(n, width);
  }

  lemma {:induction false} ValueOfPadded(n: nat, width: nat)
    requires n < Pow10(width)
    ensures ValueOf(Padded(n, width)) == n
  {
    if width > 0 {
      var s := Padded(n, width);
      ValueOfPadded(n / 10, width - 1);
      assert s[..|s| - 1] == Padded(n / 10, width - 1);
    }
  }
}
