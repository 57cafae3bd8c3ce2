/** The software Toeplitz hash (toeplitz_hash) against its definition: the exclusive or of the 32-bit key windows at the
    set bits of the data. */
module Toeplitz {
  import opened Bits
  import opened Common

  /** The bits of a byte string, most significant bit of each byte first. */
  function BitAt(s: seq<Byte>, p: nat): (b: bool) {
    p < 8 * |s| && Bit(s[p / 8], 7 - p % 8)
  }

  function BitsOf(s: seq<Byte>): (r: seq<bool>)
    ensures |r| == 8 * |s|
  {
    seq(8 * |s|, p requires 0 <= p => BitAt(s, p))
  }

  /** The number written by k bits of the key from bit p on; bits past the end of the key are 0. */
  function Word(key: seq<Byte>, p: nat, k: nat): (v: nat)
    ensures v < Pow2(k)
  {
    if k == 0 then 0 else 2 * Word(key, p, k - 1) + AsNumber(BitAt(key, p + k - 1))
  }

  function Window(key: seq<Byte>, p: nat): (v: nat) { Word(key, p, 32) }

  /** The exclusive or of the key windows at the set bits, the first of which has number p. */
  function Windows(key: seq<Byte>, bits: seq<bool>, p: nat): (h: nat) {
    if bits == [] then 0 else Xor(if bits[0] then Window(key, p) else 0, Windows(key, bits[1..], p + 1))
  }

  function BigEndian(a: nat, b: nat, c: nat, d: nat): (v: nat) {
    a * 0x100_0000 + b * 0x1_0000 + c * 0x100 + d
  }

  /** toeplitz_hash. */
  method ToeplitzHash(key: seq<Byte>, data: seq<Byte>) returns (hash: nat)
    requires |key| >= 4
    ensures hash == Windows(key, BitsOf(data), 0) && hash < TWO32
  {
    hide Word, Windows, Xor, BitsOf, Bit, BitAt;
    hash := 0;
    var v := BigEndian(key[0], key[1], key[2], key[3]);
    FirstWindow(key);
    WindowsEmpty(key, BitsOf(data));
    for i := 0 to |data|
      invariant v == Window(key, 8 * i) && hash == Windows(key, BitsOf(data)[..8 * i], 0)
    {
      for b := 0 to 8
        invariant v == Window(key, 8 * i + b) && hash == Windows(key, BitsOf(data)[..8 * i + b], 0)
      {
        NextBit(key, data, i, b);
        NextWindow(key, i, b);
        if And(data[i], Pow2(7 - b)) != 0 {
          hash := Xor(hash, v);
        }
        v := (2 * v) % TWO32;
        if i + 4 < |key| && And(key[i + 4], Pow2(7 - b)) != 0 {
          v := v + 1;
        }
      }
    }
    WindowsBelow(key, BitsOf(data), 0);
    assert BitsOf(data)[..8 * |data|] == BitsOf(data);
  }

  lemma WindowsEmpty(key: seq<Byte>, bits: seq<bool>)
    ensures Windows(key, bits[..0], 0) == 0
  {
  }

  lemma BitsOfAt(s: seq<Byte>, i: nat, b: nat)
    requires i < |s| && b < 8
    ensures BitsOf(s)[8 * i + b] == Bit(s[i], 7 - b)
  {
    assert (8 * i + b) / 8 == i && (8 * i + b) % 8 == b;
  }

  /** One turn of the inner loop: one more data bit, */
  lemma NextBit(key: seq<Byte>, data: seq<Byte>, i: nat, b: nat)
    requires i < |data| && b < 8
    ensures var p := 8 * i + b;
            Windows(key, BitsOf(data)[..p + 1], 0)
            == (if And(data[i], Pow2(7 - b)) != 0
                then Xor(Windows(key, BitsOf(data)[..p], 0), Window(key, p)) else Windows(key, BitsOf(data)[..p], 0))
  {
    hide Word, Windows, Xor;
    var p := 8 * i + b;
    AndBit(data[i], 7 - b);
    BitsOfAt(data, i, b);
    hide BitsOf, And, Bit, Pow2;
    WindowsSnoc(key, BitsOf(data), p);
  }

  /** and the window one bit further on. */
  lemma NextWindow(key: seq<Byte>, i: nat, b: nat)
    requires b < 8
    ensures var p := 8 * i + b;
            Window(key, p + 1) == (2 * Window(key, p)) % TWO32
                                  + (if i + 4 < |key| && And(key[i + 4], Pow2(7 - b)) != 0 then 1 else 0)
  {
    hide Word;
    var p := 8 * i + b;
    assert (p + 32) / 8 == i + 4 && (p + 32) % 8 == b;
    if i + 4 < |key| { AndBit(key[i + 4], 7 - b); }
    hide And, Bit, Pow2;
    WindowShift(key, p);
  }

  lemma WindowsSnoc(key: seq<Byte>, bits: seq<bool>, p: nat)
    requires p < |bits|
    ensures Windows(key, bits[..p + 1], 0)
         == if bits[p] then Xor(Windows(key, bits[..p], 0), Window(key, p)) else Windows(key, bits[..p], 0)
  {
    assert bits[..p + 1] == bits[..p] + [bits[p]];
    WindowsAppend(key, bits[..p], [bits[p]], 0);
    var w := if bits[p] then Window(key, p) else 0;
    assert Windows(key, [bits[p]], p) == w by {
      assert [bits[p]][1..] == [];
      XorCommutes(w, 0);
    }
    hide Windows, Word;
    XorCommutes(Windows(key, bits[..p], 0), 0);
  }

  lemma {:induction false} WindowsAppend(key: seq<Byte>, x: seq<bool>, y: seq<bool>, p: nat)
    ensures Windows(key, x + y, p) == Xor(Windows(key, x, p), Windows(key, y, p + |x|))
    decreases |x|
  {
    if x == [] {
      assert x + y == y;
    } else {
      var w := if x[0] then Window(key, p) else 0;
      assert (x + y)[1..] == x[1..] + y;
      WindowsAppend(key, x[1..], y, p + 1);
      XorAssociates(w, Windows(key, x[1..], p + 1), Windows(key, y, p + |x|));
    }
  }

  lemma {:induction false} WindowsBelow(key: seq<Byte>, bits: seq<bool>, p: nat)
    ensures Windows(key, bits, p) < TWO32
    decreases |bits|
  {
    Pow2Of32();
    if bits != [] {
      WindowsBelow(key, bits[1..], p + 1);
      XorBelow(if bits[0] then Window(key, p) else 0, Windows(key, bits[1..], p + 1), 32);
    }
  }

  lemma {:induction false} WordHead(key: seq<Byte>, p: nat, k: nat)
    ensures Word(key, p, k + 1) == AsNumber(BitAt(key, p)) * Pow2(k) + Word(key, p + 1, k)
  {
    hide BitAt;
    if k != 0 {
      WordHead(key, p, k - 1);
      assert p + 1 + (k - 1) == p + k;
    } else {
      assert Word(key, p, 0) == 0;
    }
  }

  lemma WindowShift(key: seq<Byte>, p: nat)
    ensures Window(key, p + 1) == (2 * Window(key, p)) % TWO32 + AsNumber(BitAt(key, p + 32))
  {
    WordHead(key, p, 31);
    Pow2Of32();
    var top, low := AsNumber(BitAt(key, p)), Word(key, p + 1, 31);
    assert Word(key, p + 1, 32) == 2 * low + AsNumber(BitAt(key, p + 1 + 31));
    hide Word;
    assert low < TWO31;
    assert 2 * Window(key, p) == top * TWO32 + 2 * low;
    ModUnique(2 * Window(key, p), top, 2 * low, TWO32);
  }

  lemma {:induction false} WordSplit(key: seq<Byte>, p: nat, j: nat, k: nat)
    ensures Word(key, p, j + k) == Word(key, p, j) * Pow2(k) + Word(key, p + j, k)
  {
    hide BitAt;
    var w := Word(key, p, j);
    if k != 0 {
      WordSplit(key, p, j, k - 1);
      assert p + (j + k) - 1 == p + j + k - 1;
      var b := AsNumber(BitAt(key, p + (j + k) - 1));
      assert Word(key, p, j + k) == 2 * Word(key, p, j + (k - 1)) + b;
      assert Word(key, p + j, k) == 2 * Word(key, p + j, k - 1) + b;
      hide Word;
      Twice(w, Pow2(k - 1));
    }
  }

  lemma Twice(w: nat, h: nat)
    ensures w * (2 * h) == 2 * (w * h)
  {
  }

  lemma {:induction false} ByteWord(key: seq<Byte>, i: nat, k: nat)
    requires i < |key| && k <= 8
    ensures Word(key, 8 * i, k) == key[i] / Pow2(8 - k)
  {
    if k == 0 {
      Pow2Of32();
    } else {
      ByteWord(key, i, k - 1);
      assert (8 * i + k - 1) / 8 == i && (8 * i + k - 1) % 8 == k - 1;
      BitDiv(key[i], 8 - k);
    }
  }

  lemma WholeByte(key: seq<Byte>, i: nat)
    requires i < |key|
    ensures Word(key, 8 * i, 8) == key[i]
  {
    ByteWord(key, i, 8);
  }

  lemma NextByte(key: seq<Byte>, i: nat)
    requires i < |key|
    ensures Word(key, 0, 8 * i + 8) == Word(key, 0, 8 * i) * 256 + key[i]
  {
    hide Word, Pow2;
    WholeByte(key, i);
    WordSplit(key, 0, 8 * i, 8);
    assert Pow2(8) == 256 by { Pow2Of32(); }
  }

  lemma FirstWindow(key: seq<Byte>)
    requires |key| >= 4
    ensures Window(key, 0) == BigEndian(key[0], key[1], key[2], key[3])
  {
    hide Word;
    WholeByte(key, 0);
    NextByte(key, 1);
    NextByte(key, 2);
    NextByte(key, 3);
  }

  /** At every byte boundary the window is the four key bytes from there on, most significant first. */
  lemma ByteWindow(key: seq<Byte>, i: nat)
    requires i + 4 <= |key|
    ensures Window(key, 8 * i) == BigEndian(key[i], key[i + 1], key[i + 2], key[i + 3])
  {
    hide Word, Pow2;
    WholeByte(key, i);
    WholeByte(key, i + 1);
    WholeByte(key, i + 2);
    WholeByte(key, i + 3);
    WordSplit(key, 8 * i, 8, 8);
    WordSplit(key, 8 * i, 16, 8);
    WordSplit(key, 8 * i, 24, 8);
    assert Pow2(8) == 256 by { Pow2Of32(); }
  }

  lemma {:induction false} NoWindows(key: seq<Byte>, bits: seq<bool>, p: nat)
    requires forall i :: 0 <= i < |bits| ==> !bits[i]
    ensures Windows(key, bits, p) == 0
    decreases |bits|
  {
    if bits != [] { NoWindows(key, bits[1..], p + 1); }
  }

  /** One set bit: the hash is the key window at its place, counted from the most significant bit of the first byte. */
  lemma OneBitHash(key: seq<Byte>, data: seq<Byte>, i: nat, b: nat)
    requires i < |data| && b < 8 && data[i] == Pow2(7 - b)
    requires forall k :: 0 <= k < |data| && k != i ==> data[k] == 0
    ensures Windows(key, BitsOf(data), 0) == Window(key, 8 * i + b)
  {
    var bits, p := BitsOf(data), 8 * i + b;
    hide BitsOf, Word, Bit, Pow2, Windows;
    forall q: nat | q < |bits| ensures bits[q] <==> q == p { OnlyBit(data, i, b, q / 8, q % 8); }
    NoWindows(key, bits[..p], 0);
    NoWindows(key, bits[p + 1..], p + 1);
    assert bits == bits[..p + 1] + bits[p + 1..];
    WindowsAppend(key, bits[..p + 1], bits[p + 1..], 0);
    WindowsSnoc(key, bits, p);
    XorCommutes(Window(key, p), 0);
  }

  lemma OnlyBit(data: seq<Byte>, i: nat, b: nat, j: nat, c: nat)
    requires i < |data| && b < 8 && data[i] == Pow2(7 - b) && j < |data| && c < 8
    requires forall k :: 0 <= k < |data| && k != i ==> data[k] == 0
    ensures BitsOf(data)[8 * j + c] <==> i == j && b == c
  {
    hide BitsOf, Bit, Pow2;
    BitsOfAt(data, j, c);
    if i == j { BitOfPow2(7 - b, 7 - c); } else { ZeroBit(7 - c); }
  }

  lemma {:induction false} BitOfPow2(j: nat, k: nat)
    ensures Bit(Pow2(j), k) <==> j == k
  {
    if k > 0 {
      if j > 0 { BitOfPow2(j - 1, k - 1); } else { ZeroBit(k - 1); }
    }
  }

  // ---- Linearity ----

  function XorBits(x: seq<bool>, y: seq<bool>): (r: seq<bool>)
    requires |x| == |y|
    ensures |r| == |x|
  {
    seq(|x|, i requires 0 <= i < |x| => x[i] != y[i])
  }

  function XorBytes(x: seq<Byte>, y: seq<Byte>): (r: seq<Byte>)
    requires |x| == |y|
    ensures |r| == |x|
  {
    seq(|x|, i requires 0 <= i < |x| => XorByte(x[i], y[i]))
  }

  function XorByte(x: Byte, y: Byte): (r: Byte) {
    Pow2Of32();
    XorBelow(x, y, 8);
    Xor(x, y)
  }

  lemma {:induction false} WindowsLinear(key: seq<Byte>, x: seq<bool>, y: seq<bool>, p: nat)
    requires |x| == |y|
    ensures Windows(key, XorBits(x, y), p) == Xor(Windows(key, x, p), Windows(key, y, p))
    decreases |x|
  {
    if x != [] {
      var z := XorBits(x, y);
      assert z[1..] == XorBits(x[1..], y[1..]);
      WindowsLinear(key, x[1..], y[1..], p + 1);
      var w := Window(key, p);
      var a, b := if x[0] then w else 0, if y[0] then w else 0;
      assert (if z[0] then w else 0) == Xor(a, b) by { XorSelf(w); XorCommutes(w, 0); }
      hide XorBits, Xor, Word;
      XorSwap(a, b, Windows(key, x[1..], p + 1), Windows(key, y[1..], p + 1));
    }
  }

  /** The hash is linear in the data: changing some bits of a header changes the hash by a value that does not depend on
      the other bits. */
  lemma HashLinear(key: seq<Byte>, x: seq<Byte>, y: seq<Byte>)
    requires |x| == |y|
    ensures Windows(key, BitsOf(XorBytes(x, y)), 0) == Xor(Windows(key, BitsOf(x), 0), Windows(key, BitsOf(y), 0))
  {
    forall p: nat | p < 8 * |x| ensures BitAt(XorBytes(x, y), p) == (BitAt(x, p) != BitAt(y, p)) {
      XorBit(x[p / 8], y[p / 8], 7 - p % 8);
    }
    assert BitsOf(XorBytes(x, y)) == XorBits(BitsOf(x), BitsOf(y));
    WindowsLinear(key, BitsOf(x), BitsOf(y), 0);
  }

  // ---- The symmetric key ----

  /** Two bytes over and over, as symmetric_rsskey is. */
  ghost predicate Periodic(key: seq<Byte>) {
    forall i :: 0 <= i && i + 2 < |key| ==> key[i] == key[i + 2]
  }

  /** symmetric_rsskey, of which the first `len` bytes are used. */
  function SymmetricKey(len: nat): (key: seq<Byte>)
    ensures |key| == len && Periodic(key)
  {
    seq(len, i requires 0 <= i => if i % 2 == 0 then 0x6d else 0x5a)
  }

  lemma {:induction false} WordPeriodic(key: seq<Byte>, p: nat, k: nat)
    requires Periodic(key) && p + k + 16 <= 8 * |key|
    ensures Word(key, p, k) == Word(key, p + 16, k)
  {
    if k != 0 {
      WordPeriodic(key, p, k - 1);
      var q := p + k - 1;
      assert (q + 16) / 8 == q / 8 + 2 && (q + 16) % 8 == q % 8;
    }
  }

  lemma {:induction false} WindowsPeriodic(key: seq<Byte>, bits: seq<bool>, p: nat)
    requires Periodic(key) && p + |bits| + 48 <= 8 * |key|
    ensures Windows(key, bits, p) == Windows(key, bits, p + 16)
    decreases |bits|
  {
    if bits != [] {
      WordPeriodic(key, p, 32);
      WindowsPeriodic(key, bits[1..], p + 1);
    }
  }

  lemma BitsOfAppend(x: seq<Byte>, y: seq<Byte>)
    ensures BitsOf(x + y) == BitsOf(x) + BitsOf(y)
  {
    forall p: nat | p < 8 * |x + y| ensures BitsOf(x + y)[p] == (BitsOf(x) + BitsOf(y))[p] {
      if p >= 8 * |x| {
        var q := p - 8 * |x|;
        assert p / 8 == |x| + q / 8 && p % 8 == q % 8;
      }
    }
  }

  lemma HashAppend(key: seq<Byte>, x: seq<Byte>, y: seq<Byte>, p: nat)
    ensures Windows(key, BitsOf(x + y), p) == Xor(Windows(key, BitsOf(x), p), Windows(key, BitsOf(y), p + 8 * |x|))
  {
    BitsOfAppend(x, y);
    WindowsAppend(key, BitsOf(x), BitsOf(y), p);
  }

  /** Two neighbouring fields of the same even length can change places. */
  lemma SwapFields(key: seq<Byte>, x: seq<Byte>, y: seq<Byte>, p: nat)
    requires Periodic(key) && |x| == |y| && (|x| == 2 || |x| == 4) && p + 16 * |x| + 32 <= 8 * |key|
    ensures Windows(key, BitsOf(x + y), p) == Windows(key, BitsOf(y + x), p)
  {
    HashAppend(key, x, y, p);
    HashAppend(key, y, x, p);
    hide Windows, BitsOf, Xor;
    WindowsPeriodic(key, BitsOf(x), p);
    WindowsPeriodic(key, BitsOf(y), p);
    if |x| == 4 {
      WindowsPeriodic(key, BitsOf(x), p + 16);
      WindowsPeriodic(key, BitsOf(y), p + 16);
    }
    XorCommutes(Windows(key, BitsOf(x), p), Windows(key, BitsOf(y), p));
  }

  /** Both directions of a connection hash alike under a two-byte periodic key that covers the twelve data bytes. */
  lemma SymmetricHash(key: seq<Byte>, saddr: seq<Byte>, daddr: seq<Byte>, sport: seq<Byte>, dport: seq<Byte>)
    requires Periodic(key) && |key| >= 16 && |saddr| == |daddr| == 4 && |sport| == |dport| == 2
    ensures Windows(key, BitsOf(saddr + daddr + sport + dport), 0)
         == Windows(key, BitsOf(daddr + saddr + dport + sport), 0)
  {
    hide Windows, BitsOf, Xor, Periodic;
    SwapFields(key, saddr, daddr, 0);
    SwapFields(key, sport, dport, 64);
    assert saddr + daddr + sport + dport == (saddr + daddr) + (sport + dport);
    assert daddr + saddr + dport + sport == (daddr + saddr) + (dport + sport);
    HashAppend(key, saddr + daddr, sport + dport, 0);
    HashAppend(key, daddr + saddr, dport + sport, 0);
  }
}
