/** Definitions shared by every model: optional values, 32-bit wrap-around, and lists without repeats. */
module Common {

  datatype Option<+T> = None | Some(value: T)

  const TWO31: int := 0x8000_0000
  const TWO32: int := 0x1_0000_0000

  /** The value a C `int` holds after computing `x`: two's complement, 32 bits. */
  function Wrap(x: int): (r: int)
    ensures -TWO31 <= r < TWO31
    ensures (r - x) % TWO32 == 0
  {
    (x + TWO31) % TWO32 - TWO31
  }

  /** Two unbounded counters less than 2^32 apart wrap to the same `int` only if they are equal. */
  lemma WrapInjective(x: int, y: int)
    requires -TWO32 < x - y < TWO32
    ensures Wrap(x) == Wrap(y) <==> x == y
  {
  }

  /** Wrapping depends only on the value modulo 2^32. */
  lemma WrapCongruent(x: int, y: int, k: int)
    requires x == y + k * TWO32
    ensures Wrap(x) == Wrap(y)
  {
  }

  /** Adding in `int` arithmetic follows the unbounded sum. */
  lemma WrapAdd(x: int, y: int)
    ensures Wrap(Wrap(x) + y) == Wrap(x + y)
    ensures Wrap(Wrap(x) - Wrap(y)) == Wrap(x - y)
  {
    hide Wrap;
    var k, l := (Wrap(x) - x) / TWO32, (Wrap(y) - y) / TWO32;
    WrapCongruent(Wrap(x) + y, x + y, k);
    WrapCongruent(Wrap(x) - Wrap(y), x - y, k - l);
  }

  /** A list without repeats, as a well-formed LIST, SLIST or STAILQ is. */
  ghost predicate NoDup<T>(s: seq<T>) {
    forall i, j :: 0 <= i < j < |s| ==> s[i] != s[j]
  }

  /** Position of `x` in `s`. */
  function IndexOf<T(==)>(s: seq<T>, x: T): (i: nat)
    requires x in s
    ensures i < |s| && s[i] == x
    ensures forall k :: 0 <= k < i ==> s[k] != x
  {
    if s[0] == x then 0 else 1 + IndexOf(s[1..], x)
  }

  /** LIST_REMOVE. */
  function Remove<T(==)>(s: seq<T>, x: T): (r: seq<T>)
    requires x in s
    ensures |r| == |s| - 1
  {
    var i := IndexOf(s, x);
    s[..i] + s[i + 1..]
  }

  /** LIST_NEXT. */
  function Succ<T(==)>(s: seq<T>, x: T): (r: Option<T>)
    requires x in s
    ensures r.Some? ==> r.value in s
  {
    var i := IndexOf(s, x);
    if i + 1 < |s| then Some(s[i + 1]) else None
  }

  /** The part of a list at or after a cursor; a null cursor leaves nothing. */
  function Suffix<T(==)>(s: seq<T>, at: Option<T>): (r: seq<T>)
    requires at.Some? ==> at.value in s
  {
    if at.None? then [] else s[IndexOf(s, at.value)..]
  }

  lemma RemoveElements<T>(s: seq<T>, x: T)
    requires NoDup(s) && x in s
    ensures NoDup(Remove(s, x))
    ensures forall y :: y in Remove(s, x) <==> y in s && y != x
  {
    var i := IndexOf(s, x);
    var r := Remove(s, x);
    forall y | y in s && y != x
      ensures y in r
    {
      var k := IndexOf(s, y);
      if k < i { assert r[k] == y; } else { assert r[k - 1] == y; }
    }
  }

  /** A list without repeats has as many cells as elements. */
  lemma {:induction false} NoDupCard<T>(s: seq<T>)
    requires NoDup(s)
    ensures |set x | x in s| == |s|
  {
    if s != [] {
      var t := s[..|s| - 1];
      NoDupCard(t);
      assert s == t + [s[|s| - 1]];
      assert (set x | x in s) == (set x | x in t) + {s[|s| - 1]};
    }
  }

  /** Membership in a suffix, by position. */
  lemma InSuffix<T>(s: seq<T>, at: T, y: T)
    requires NoDup(s) && at in s && y in s
    ensures y in Suffix(s, Some(at)) <==> IndexOf(s, at) <= IndexOf(s, y)
  {
    var a, k := IndexOf(s, at), IndexOf(s, y);
    var t := Suffix(s, Some(at));
    if a <= k {
      assert t[k - a] == y;
    }
  }

  /** Removing `x` shifts down by one exactly the positions after it. */
  lemma RemoveIndex<T>(s: seq<T>, x: T, y: T)
    requires NoDup(s) && x in s && y in s && y != x
    ensures y in Remove(s, x)
    ensures var i, k := IndexOf(s, x), IndexOf(s, y);
            IndexOf(Remove(s, x), y) == if k < i then k else k - 1
  {
    RemoveElements(s, x);
    var i, k := IndexOf(s, x), IndexOf(s, y);
    var r := Remove(s, x);
    var k' := if k < i then k else k - 1;
    assert r[k'] == y;
  }

  /** Cursor repair: when the list drops the cursor's own target the cursor moves on, and whatever was
      at or after the old cursor is at or after the new one. */
  lemma RemoveKeepsSuffix<T>(s: seq<T>, x: T, at: Option<T>)
    requires NoDup(s) && x in s
    requires at.Some? ==> at.value in s
    ensures NoDup(Remove(s, x))
    ensures var at' := if at == Some(x) then Succ(s, x) else at;
            && (at'.Some? ==> at'.value in Remove(s, x))
            && forall y :: y in Suffix(s, at) && y != x ==> y in Suffix(Remove(s, x), at')
  {
    RemoveElements(s, x);
    var at' := if at == Some(x) then Succ(s, x) else at;
    forall y | y in Suffix(s, at) && y != x
      ensures at'.Some? && y in Suffix(Remove(s, x), at')
    {
      InSuffix(s, at.value, y);
      RemoveIndex(s, x, y);
      if at.value != x { RemoveIndex(s, x, at.value); }
      else {
        assert at'.value == s[IndexOf(s, x) + 1];
        RemoveIndex(s, x, at'.value);
      }
      InSuffix(Remove(s, x), at'.value, y);
    }
  }

  type Byte = x: nat | x < 256

  function AsNumber(b: bool): (n: nat) { if b then 1 else 0 }

  lemma {:induction false} SubsetCard<T>(x: set<T>, y: set<T>)
    requires x <= y
    ensures |x| <= |y|
  {
    if x != {} {
      var e :| e in x;
      SubsetCard(x - {e}, y - {e});
    }
  }

  /** bcopy into an array. */
  method CopyInto<T>(a: array<T>, at: nat, x: seq<T>)
    requires at + |x| <= a.Length
    modifies a
    ensures a[..at] == old(a[..at]) && a[at..at + |x|] == x && a[at + |x|..] == old(a[at + |x|..])
  {
    for i := 0 to |x|
      invariant a[..at] == old(a[..at]) && a[at..at + i] == x[..i] && a[at + i..] == old(a[at + i..])
    {
      a[at + i] := x[i];
    }
  }
}
