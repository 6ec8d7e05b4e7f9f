/**
 * Number-to-text conversion as avr-libc's itoa is assumed to do it for a
 * non-negative value: digits in the given base (2..36), most significant
 * first, lower-case letters for digits above 9, no sign, then a NUL byte.
 * avr-libc is not part of this model; this module states the assumption.
 */
module Itoa {
  import opened CTypes

  predicate ValidBase(base: int)
  {
    2 <= base <= 36
  }

  /** The digits of `v` in `base`, most significant first, without leading zeros. */
  function Digits(v: nat, base: int): (ds: seq<nat>)
    requires ValidBase(base)
    ensures 1 <= |ds|
    ensures forall i :: 0 <= i < |ds| ==> ds[i] < base
    ensures |ds| > 1 ==> ds[0] != 0
    decreases v
  {
    if v < base then [v] else Digits(v / base, base) + [v % base]
  }

  /** The number a digit sequence denotes. */
  function Value(ds: seq<nat>, base: nat): nat
  {
    if ds == [] then 0 else Value(ds[..|ds| - 1], base) * base + ds[|ds| - 1]
  }

  function Pow(b: nat, k: nat): nat
  {
    if k == 0 then 1 else b * Pow(b, k - 1)
  }

  /** The character of one digit: '0'..'9', then 'a'..'z'. */
  function DigitChar(d: nat): uint8
    requires d < 36
  {
    if d < 10 then '0' as int + d else 'a' as int + (d - 10)
  }

  predicate IsDigitChar(c: uint8)
  {
    '0' as int <= c <= '9' as int || 'a' as int <= c <= 'z' as int
  }

  /** The digit a character stands for, or 36 for a character that is no digit. */
  function DigitOf(c: uint8): nat
  {
    if '0' as int <= c <= '9' as int then c - '0' as int
    else if 'a' as int <= c <= 'z' as int then c - 'a' as int + 10
    else 36
  }

  /** The text itoa writes for `v`, without its terminating NUL. */
  function Text(v: nat, base: int): (t: seq<uint8>)
    requires ValidBase(base)
    ensures |t| == |Digits(v, base)|
    ensures forall i :: 0 <= i < |t| ==> IsDigitChar(t[i]) && t[i] != 0
  {
    var ds := Digits(v, base);
    seq(|ds|, i requires 0 <= i < |ds| => DigitChar(ds[i]))
  }

  /** Reading a text back: a non-empty run of digits of `base`. */
  function Parse(t: seq<uint8>, base: int): Option<nat>
    requires ValidBase(base)
  {
    if |t| > 0 && forall i :: 0 <= i < |t| ==> DigitOf(t[i]) < base
    then Some(Value(seq(|t|, i requires 0 <= i < |t| => DigitOf(t[i])), base))
    else None
  }

  /** The digits denote the converted value. */
  lemma {:induction false} DigitsValue(v: nat, base: int)
    requires ValidBase(base)
    ensures Value(Digits(v, base), base) == v
    decreases v
  {
    if v >= base {
      var q, r := v / base, v % base;
      var head := Digits(q, base);
      assert Digits(v, base) == head + [r];
      DivSmaller(v, base);
      DigitsValue(q, base);
      ValueSnoc(head, r, base);
      DivMod(v, base);
    }
  }

  lemma DivMod(v: nat, b: nat)
    requires b >= 1
    ensures v == (v / b) * b + v % b
  {
  }

  lemma DivSmaller(v: nat, b: nat)
    requires b >= 2 && v >= 1
    ensures v / b < v
  {
  }

  lemma ValueSnoc(ds: seq<nat>, d: nat, base: nat)
    ensures Value(ds + [d], base) == Value(ds, base) * base + d
  {
    assert (ds + [d])[..|ds|] == ds;
  }

  /** itoa's text reads back as the value it was made from. */
  lemma TextRoundTrip(v: nat, base: int)
    requires ValidBase(base)
    ensures Parse(Text(v, base), base) == Some(v)
  {
    var ds := Digits(v, base);
    var t := Text(v, base);
    assert forall i :: 0 <= i < |t| ==> DigitOf(t[i]) == ds[i];
    assert seq(|t|, i requires 0 <= i < |t| => DigitOf(t[i])) == ds;
    DigitsValue(v, base);
  }

  lemma PowPositive(b: nat, k: nat)
    requires b >= 1
    ensures Pow(b, k) >= 1
  {
  }

  /** `v / b < p` exactly when `v < b * p`. */
  lemma DivBelow(v: nat, b: nat, p: nat)
    requires b >= 1
    ensures v / b < p <==> v < b * p
  {
    var q := v / b;
    assert v == b * q + v % b;
    if q < p {
      assert b * q <= b * (p - 1) by {
        MulMonotone(b, q, p - 1);
      }
    } else {
      MulMonotone(b, p, q);
    }
  }

  lemma MulMonotone(b: nat, x: nat, y: nat)
    requires x <= y
    ensures b * x <= b * y
  {
    assert b * y == b * x + b * (y - x);
  }

  /** A value has at most `k` digits exactly when it is below base^k. */
  lemma {:induction false} DigitsFit(v: nat, base: int, k: nat)
    requires ValidBase(base) && k >= 1
    ensures |Digits(v, base)| <= k <==> v < Pow(base, k)
    decreases v
  {
    var p := Pow(base, k - 1);
    assert Pow(base, k) == base * p;
    PowPositive(base, k - 1);
    MulMonotone(base, 1, p);
    if v >= base {
      var q := v / base;
      assert |Digits(v, base)| == |Digits(q, base)| + 1;
      if k > 1 {
        DivSmaller(v, base);
        DigitsFit(q, base, k - 1);
        DivBelow(v, base, p);
      }
    }
  }

  lemma {:induction false} PowMonotoneBase(a: nat, b: nat, k: nat)
    requires a <= b
    ensures Pow(a, k) <= Pow(b, k)
  {
    if k > 0 {
      PowMonotoneBase(a, b, k - 1);
      MulMonotone(a, Pow(a, k - 1), Pow(b, k - 1));
      assert a * Pow(b, k - 1) <= b * Pow(b, k - 1) by {
        assert b * Pow(b, k - 1) == a * Pow(b, k - 1) + (b - a) * Pow(b, k - 1);
      }
    }
  }

  /** Every byte has at most 6 digits in bases 3 to 36 (255 is 100110 in base 3). */
  lemma ByteDigitsFromBase3(v: uint8, base: int)
    requires 3 <= base <= 36
    ensures |Text(v, base)| <= 6
  {
    DigitsFit(v, base, 6);
    PowMonotoneBase(3, base, 6);
    assert Pow(3, 6) == 729;
  }

  /** In base 2 a byte has at most 6 digits exactly when it is below 64. */
  lemma ByteDigitsBase2(v: uint8)
    ensures |Text(v, 2)| <= 6 <==> v < 64
  {
    DigitsFit(v, 2, 6);
    assert Pow(2, 6) == 64;
  }

  /** Every byte has at most 8 digits in every base 2 to 36. */
  lemma ByteDigits(v: uint8, base: int)
    requires ValidBase(base)
    ensures |Text(v, base)| <= 8
  {
    DigitsFit(v, base, 8);
    PowMonotoneBase(2, base, 8);
    assert Pow(2, 8) == 256;
  }

  /** 255 in base 2 needs 8 digits and a NUL: 9 bytes. */
  lemma Base2ByteNeedsNine()
    ensures |Text(255, 2)| + 1 == 9
  {
    DigitsFit(255, 2, 8);
    DigitsFit(255, 2, 7);
    assert Pow(2, 7) == 128 && Pow(2, 8) == 256;
  }

  /**
   * itoa(value, s, base): writes the text and its NUL at the start of `s`,
   * leaves the rest of `s` alone and returns `s`.
   */
  method Convert(value: nat, s: array<uint8>, base: int) returns (p: array<uint8>)
    requires ValidBase(base)
    requires |Text(value, base)| < s.Length
    modifies s
    ensures p == s
    ensures s[..|Text(value, base)| + 1] == Text(value, base) + [0]
    ensures s[|Text(value, base)| + 1..] == old(s[|Text(value, base)| + 1..])
  {
    var t := Text(value, base);
    forall k | 0 <= k < |t| {
      s[k] := t[k];
    }
    s[|t|] := 0;
    p := s;
  }
}
