/** Hexadecimal numerals. */
module Hexadecimal {
  import opened Bits

  predicate IsXDigit(c: char) {
    '0' <= c <= '9' || 'a' <= c <= 'f' || 'A' <= c <= 'F'
  }

  function XVal(c: char): (v: nat)
    requires IsXDigit(c)
    ensures v < 16
  {
    if c <= '9' then c as int - '0' as int else if c <= 'F' then c as int - 'A' as int + 10 else c as int - 'a' as int + 10
  }

  /** The digits in order, in either case. */
  lemma DigitValues(d: nat)
    requires d < 16
    ensures var c := "0123456789abcdef"[d]; IsXDigit(c) && XVal(c) == d
    ensures var c := "0123456789ABCDEF"[d]; IsXDigit(c) && XVal(c) == d
  {
  }

  function HexValue(s: string): (v: nat)
    requires forall k :: 0 <= k < |s| ==> IsXDigit(s[k])
  {
    if s == [] then 0 else 16 * HexValue(s[..|s| - 1]) + XVal(s[|s| - 1])
  }

  function Digit(d: nat): (c: char)
    requires d < 16
    ensures IsXDigit(c) && XVal(c) == d
  {
    if d < 10 then ('0' as int + d) as char else ('a' as int + d - 10) as char
  }

  /** printf("%x", n) */
  function Hex(n: nat): (s: string)
    ensures |s| > 0 && forall k :: 0 <= k < |s| ==> IsXDigit(s[k])
  {
    if n < 16 then [Digit(n)] else Hex(n / 16) + [Digit(n % 16)]
  }

  lemma {:induction false} HexValueOfHex(n: nat)
    ensures HexValue(Hex(n)) == n
  {
    if n < 16 {
      assert Hex(n)[..0] == [];
    } else {
      HexValueOfHex(n / 16);
      var s := Hex(n / 16) + [Digit(n % 16)];
      assert s[..|s| - 1] == Hex(n / 16) && s[|s| - 1] == Digit(n % 16);
    }
  }

  lemma BitHalf(h: nat, d: nat, k: nat)
    ensures Bit(2 * h + d, k) == if k == 0 then d % 2 == 1 else Bit(h + d / 2, k - 1)
  {
    assert (2 * h + d) / 2 == h + d / 2;
  }

  lemma HexDigitBit(h: nat, d: nat, k: nat)
    requires d < 16
    ensures Bit(16 * h + d, k) == if k < 4 then Bit(d, k) else Bit(h, k - 4)
  {
    var d1, d2, d3 := d / 2, d / 4, d / 8;
    BitHalf(8 * h, d, k);
    if k > 0 { BitHalf(4 * h, d1, k - 1); }
    if k > 1 { BitHalf(2 * h, d2, k - 2); }
    if k > 2 { BitHalf(h, d3, k - 3); }
    if k < 4 { DigitBit(d, k); }
  }

  lemma DigitBit(d: nat, k: nat)
    requires k < 4
    ensures Bit(d, k) == ((if k == 0 then d else if k == 1 then d / 2 else if k == 2 then d / 4 else d / 8) % 2 == 1)
  {
    if k > 0 { assert Bit(d, k) == Bit(d / 2, k - 1); }
    if k > 1 { assert Bit(d / 2, k - 1) == Bit(d / 4, k - 2); }
    if k > 2 { assert Bit(d / 4, k - 2) == Bit(d / 8, k - 3); }
  }

  lemma Pow16(n: nat)
    requires n > 0
    ensures Pow2(4 * n) == 16 * Pow2(4 * (n - 1))
  {
    assert Pow2(4 * n) == 2 * Pow2(4 * n - 1);
    assert Pow2(4 * n - 1) == 2 * Pow2(4 * n - 2);
    assert Pow2(4 * n - 2) == 2 * Pow2(4 * n - 3);
  }

  /** Bit k of a numeral is a bit of its digit k / 4, counted from the right. */
  lemma {:induction false} HexBit(s: string, k: nat)
    requires forall i :: 0 <= i < |s| ==> IsXDigit(s[i])
    ensures Bit(HexValue(s), k) == (k / 4 < |s| && Bit(XVal(s[|s| - 1 - k / 4]), k % 4))
  {
    if s == [] {
      ZeroBit(k);
    } else {
      var t := s[..|s| - 1];
      HexDigitBit(HexValue(t), XVal(s[|s| - 1]), k);
      if k >= 4 {
        HexBit(t, k - 4);
        assert (k - 4) / 4 == k / 4 - 1 && (k - 4) % 4 == k % 4;
      }
    }
  }

  /** A numeral is below 16^n exactly when the digits before its last n are zeros. */
  lemma {:induction false} HexBelow(s: string, n: nat)
    requires forall i :: 0 <= i < |s| ==> IsXDigit(s[i])
    ensures HexValue(s) < Pow2(4 * n) <==> forall i :: 0 <= i < |s| - n ==> s[i] == '0'
  {
    if s != [] {
      var t, d := s[..|s| - 1], XVal(s[|s| - 1]);
      if n == 0 {
        HexBelow(t, 0);
        assert XVal('0') == 0;
        assert HexValue(s) < 1 <==> HexValue(t) < 1 && d == 0;
        assert forall i :: 0 <= i < |t| ==> s[i] == t[i];
        assert d == 0 <==> s[|s| - 1] == '0';
      } else {
        HexBelow(t, n - 1);
        Pow16(n);
        assert forall i :: 0 <= i < |s| - n ==> s[i] == t[i];
      }
    }
  }

  function Zeros(n: nat): (s: string)
    ensures |s| == n && forall k :: 0 <= k < |s| ==> s[k] == '0'
  {
    seq(n, _ => '0')
  }

  lemma ZeroDigit(s: string, n: nat)
    requires n > 0 && forall i :: 0 <= i < |s| ==> IsXDigit(s[i])
    ensures HexValue(s + Zeros(n)) == 16 * HexValue(s + Zeros(n - 1))
  {
    var z := s + Zeros(n);
    assert z[..|z| - 1] == s + Zeros(n - 1) && z[|z| - 1] == '0';
  }

  lemma {:induction false} HexShift(s: string, n: nat)
    requires forall i :: 0 <= i < |s| ==> IsXDigit(s[i])
    ensures HexValue(s + Zeros(n)) == HexValue(s) * Pow2(4 * n)
  {
    hide HexValue;
    if n == 0 {
      assert s + Zeros(n) == s && Pow2(0) == 1;
    } else {
      HexShift(s, n - 1);
      ZeroDigit(s, n);
      Pow16(n);
      hide Pow2;
      Times16(HexValue(s), Pow2(4 * (n - 1)));
    }
  }

  lemma Times16(a: nat, b: nat)
    ensures 16 * (a * b) == a * (16 * b)
  {
  }
}
