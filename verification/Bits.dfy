/** Arithmetic on bits of naturals: powers of two, masks, exclusive or. */
module Bits {
  import opened Common

  function Pow2(k: nat): (r: nat)
    ensures r > 0
  {
    if k == 0 then 1 else 2 * Pow2(k - 1)
  }

  lemma {:induction false} Pow2Split(j: nat, k: nat)
    ensures Pow2(j + k) == Pow2(j) * Pow2(k)
  {
    if j != 0 {
      Pow2Split(j - 1, k);
      assert Pow2(j) * Pow2(k) == 2 * (Pow2(j - 1) * Pow2(k));
    }
  }

  lemma {:induction false} Pow2Order(j: nat, k: nat)
    requires j < k
    ensures 2 * Pow2(j) <= Pow2(k)
    decreases k
  {
    if j < k - 1 { Pow2Order(j, k - 1); }
  }

  lemma Pow2Of32()
    ensures Pow2(4) == 16 && Pow2(8) == 256 && Pow2(16) == 0x1_0000 && Pow2(31) == TWO31 && Pow2(32) == TWO32
  {
    assert Pow2(4) == 16;
    Pow2Split(4, 4);
    Pow2Split(8, 8);
    Pow2Split(16, 16);
    assert Pow2(32) == 2 * Pow2(31);
  }

  ghost predicate IsPow2(n: nat) {
    exists k: nat :: n == Pow2(k)
  }

  /** Bitwise and. */
  function And(x: nat, y: nat): (r: nat)
    ensures r <= x && r <= y
  {
    if x == 0 || y == 0 then 0 else (if x % 2 == 1 && y % 2 == 1 then 1 else 0) + 2 * And(x / 2, y / 2)
  }

  /** Bit k of x. */
  predicate Bit(x: nat, k: nat) {
    if k == 0 then x % 2 == 1 else Bit(x / 2, k - 1)
  }

  lemma {:induction false} AndBit(x: nat, k: nat)
    ensures And(x, Pow2(k)) == if Bit(x, k) then Pow2(k) else 0
  {
    if k == 0 {
      assert And(x / 2, 0) == 0;
    } else {
      if x == 0 { ZeroBit(k); } else { AndBit(x / 2, k - 1); }
    }
  }

  lemma {:induction false} ZeroBit(k: nat)
    ensures !Bit(0, k)
  {
    if k != 0 { ZeroBit(k - 1); }
  }

  /** Exclusive or. */
  function Xor(x: nat, y: nat): (r: nat) {
    if x == 0 then y else if y == 0 then x else (if x % 2 == y % 2 then 0 else 1) + 2 * Xor(x / 2, y / 2)
  }

  lemma {:induction false} XorHalves(x: nat, y: nat)
    ensures Xor(x, y) % 2 == (x + y) % 2 && Xor(x, y) / 2 == Xor(x / 2, y / 2)
  {
  }

  lemma {:induction false} XorCommutes(x: nat, y: nat)
    ensures Xor(x, y) == Xor(y, x)
  {
    if x != 0 && y != 0 { XorCommutes(x / 2, y / 2); }
  }

  lemma {:induction false} XorAssociates(x: nat, y: nat, z: nat)
    ensures Xor(Xor(x, y), z) == Xor(x, Xor(y, z))
    decreases x + y + z
  {
    if x != 0 && y != 0 && z != 0 {
      XorAssociates(x / 2, y / 2, z / 2);
      XorHalves(x, y);
      XorHalves(y, z);
      XorHalves(Xor(x, y), z);
      XorHalves(x, Xor(y, z));
    }
  }

  lemma XorSwap(a: nat, b: nat, c: nat, d: nat)
    ensures Xor(Xor(a, b), Xor(c, d)) == Xor(Xor(a, c), Xor(b, d))
  {
    hide Xor;
    XorAssociates(a, b, Xor(c, d));
    XorAssociates(b, c, d);
    XorCommutes(b, c);
    XorAssociates(c, b, d);
    XorAssociates(a, c, Xor(b, d));
  }

  lemma {:induction false} XorSelf(x: nat)
    ensures Xor(x, x) == 0
  {
    if x != 0 { XorSelf(x / 2); }
  }

  lemma {:induction false} XorBit(x: nat, y: nat, k: nat)
    ensures Bit(Xor(x, y), k) == (Bit(x, k) != Bit(y, k))
  {
    XorHalves(x, y);
    if k != 0 { XorBit(x / 2, y / 2, k - 1); }
  }

  lemma {:induction false} XorBelow(x: nat, y: nat, k: nat)
    requires x < Pow2(k) && y < Pow2(k)
    ensures Xor(x, y) < Pow2(k)
  {
    if k != 0 {
      XorBelow(x / 2, y / 2, k - 1);
      XorHalves(x, y);
    }
  }

  lemma HalfPow2(n: nat)
    requires n > 1
    ensures IsPow2(n) <==> n % 2 == 0 && IsPow2(n / 2)
  {
    if k: nat :| n == Pow2(k) {
      assert n == 2 * Pow2(k - 1);
      assert n / 2 == Pow2(k - 1);
    }
    if n % 2 == 0 && IsPow2(n / 2) {
      var k: nat :| n / 2 == Pow2(k);
      assert n == Pow2(k + 1);
    }
  }

  /** The C test for a power of two is exact. */
  lemma {:induction false} Pow2Test(n: nat)
    requires n > 0
    ensures And(n, n - 1) == 0 <==> IsPow2(n)
  {
    if n == 1 {
      assert n == Pow2(0);
    } else {
      HalfPow2(n);
      hide IsPow2;
      if n % 2 == 0 {
        Pow2Test(n / 2);
        assert (n - 1) / 2 == n / 2 - 1;
      } else {
        assert (n - 1) / 2 == n / 2;
        AndSelf(n / 2);
      }
    }
  }

  lemma {:induction false} AndSelf(x: nat)
    ensures And(x, x) == x
  {
    if x != 0 { AndSelf(x / 2); }
  }

  lemma ModHalf(x: nat, h: nat)
    requires h > 0
    ensures x % (2 * h) == 2 * ((x / 2) % h) + x % 2
  {
    var q, r := (x / 2) / h, (x / 2) % h;
    assert x / 2 == q * h + r;
    assert 2 * (q * h) == q * (2 * h);
    ModUnique(x, q, 2 * r + x % 2, 2 * h);
  }

  lemma DivHalf(x: nat, h: nat)
    requires h > 0
    ensures x / (2 * h) == (x / 2) / h
  {
    var q, r := (x / 2) / h, (x / 2) % h;
    assert x / 2 == q * h + r;
    assert 2 * (q * h) == q * (2 * h);
    DivUnique(x, q, 2 * r + x % 2, 2 * h);
  }

  lemma DivUnique(x: int, q: int, r: int, n: nat)
    requires n > 0 && 0 <= r < n && x == q * n + r
    ensures x / n == q
  {
    ModUnique(x, q, r, n);
    var q' := x / n;
    assert (q - q') * n == 0;
    if q > q' { MulMono(q - q', n); }
    if q < q' { MulMono(q' - q, n); }
  }

  lemma {:induction false} BitDiv(x: nat, k: nat)
    ensures x / Pow2(k) == 2 * (x / Pow2(k + 1)) + if Bit(x, k) then 1 else 0
  {
    if k != 0 {
      BitDiv(x / 2, k - 1);
      DivHalf(x, Pow2(k - 1));
      DivHalf(x, Pow2(k));
    } else {
      assert Pow2(0) == 1 && Pow2(1) == 2;
    }
  }

  lemma AndStep(x: nat, h: nat)
    requires x > 0 && h > 0
    ensures And(x, 2 * h - 1) == x % 2 + 2 * And(x / 2, h - 1)
  {
    var m := 2 * h - 1;
    assert m / 2 == h - 1 && m % 2 == 1;
  }

  /** Masking with one less than a power of two is the remainder. */
  lemma {:induction false} AndMask(x: nat, k: nat)
    ensures And(x, Pow2(k) - 1) == x % Pow2(k)
  {
    if k == 0 || x == 0 {
      ModUnique(x, if k == 0 then x else 0, 0, Pow2(k));
    } else {
      var h := Pow2(k - 1);
      AndMask(x / 2, k - 1);
      hide And;
      AndStep(x, h);
      ModHalf(x, h);
    }
  }

  lemma {:induction false} ModShift(t: int, k: int, n: nat)
    requires n > 0
    ensures (t + k * n) % n == t % n
    decreases if k < 0 then -k else k
  {
    if k > 0 {
      ModShift(t, k - 1, n);
      ModStep(t + (k - 1) * n, n);
      assert t + (k - 1) * n + n == t + k * n;
    } else if k < 0 {
      ModShift(t, k + 1, n);
      ModStep(t + k * n, n);
      assert t + k * n + n == t + (k + 1) * n;
    }
  }

  lemma ModStep(x: int, n: nat)
    requires n > 0
    ensures (x + n) % n == x % n
  {
    var q, r := x / n, x % n;
    assert x + n == (q + 1) * n + r;
    ModUnique(x + n, q + 1, r, n);
  }

  lemma ModUnique(x: int, q: int, r: int, n: nat)
    requires n > 0 && 0 <= r < n && x == q * n + r
    ensures x % n == r
  {
    var q', r' := x / n, x % n;
    assert (q - q') * n == r' - r;
    if q > q' { MulMono(q - q', n); }
    if q < q' { MulMono(q' - q, n); }
  }

  lemma MulMono(a: int, n: nat)
    requires a >= 1
    ensures a * n >= n
  {
  }

  lemma RemainderTwice(t: int, x: nat, n: nat)
    requires x > 0 && n > 0 && x % n == 0
    ensures (t % x) % n == t % n
  {
    var q, m, r := t / x, x / n, t % x;
    Multiple(x, n);
    assert t == r + q * x;
    Regroup(q, m, n);
    ModShift(r, q * m, n);
  }

  lemma Regroup(a: int, b: int, c: int)
    ensures a * (b * c) == (a * b) * c
  {
  }

  lemma Multiple(x: nat, n: nat)
    requires n > 0 && x % n == 0
    ensures x == (x / n) * n
  {
  }

  /** Adding b changes the remainder unless b is a multiple. */
  lemma SameRemainder(a: nat, b: nat, n: nat)
    requires n > 0
    ensures (a + b) % n == a % n <==> b % n == 0
  {
    var q, r, p, d := a / n, a % n, b / n, b % n;
    Divide(a, n);
    Divide(b, n);
    assert (q + p) * n == q * n + p * n && (q + p + 1) * n == (q + p) * n + n;
    if r + d < n {
      ModUnique(a + b, q + p, r + d, n);
    } else {
      ModUnique(a + b, q + p + 1, r + d - n, n);
    }
  }

  lemma Divide(x: int, n: nat)
    requires n > 0
    ensures x == (x / n) * n + x % n && x % n >= 0
  {
  }
}
