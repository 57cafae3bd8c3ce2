/** Scatter/gather copying: uiomove between a kernel buffer and the places an I/O vector names, and copyinuio, which sets
    a vector up. */
module Uio {
  import opened Common

  const UIO_MAXIOV := 1024
  const INT_MAX := 0x7fff_ffff

  type Memory = map<nat, Byte>
  datatype Iovec = Iovec(base: nat, len: nat)
  datatype Mode = Read | Write | NoCopy   // uio_rw, or UIO_NOCOPY

  /** The addresses a block covers, in order. */
  function Block(base: nat, len: nat): (r: seq<nat>)
    ensures |r| == len
  {
    seq(len, i requires 0 <= i => base + i)
  }

  /** The addresses a vector names, in order. */
  function Places(iov: seq<Iovec>): (r: seq<nat>) {
    if iov == [] then [] else Block(iov[0].base, iov[0].len) + Places(iov[1..])
  }

  function Total(iov: seq<Iovec>): (n: nat) {
    if iov == [] then 0 else iov[0].len + Total(iov[1..])
  }

  lemma {:induction false} PlacesTotal(iov: seq<Iovec>)
    ensures |Places(iov)| == Total(iov)
  {
    if iov != [] { PlacesTotal(iov[1..]); }
  }

  /** Memory after bytes x are stored one by one at addresses a. */
  function Store(m: Memory, a: seq<nat>, x: seq<Byte>): (r: Memory)
    requires |a| == |x|
    ensures m.Keys <= r.Keys
    decreases |a|
  {
    if a == [] then m else Store(m[a[0] := x[0]], a[1..], x[1..])
  }

  ghost predicate Mapped(m: Memory, a: seq<nat>) { forall i :: 0 <= i < |a| ==> a[i] in m }

  function Fetch(m: Memory, a: seq<nat>): (x: seq<Byte>)
    requires Mapped(m, a)
    ensures |x| == |a|
  {
    seq(|a|, i requires 0 <= i < |a| => m[a[i]])
  }

  lemma {:induction false} StoreSplit(m: Memory, a: seq<nat>, b: seq<nat>, x: seq<Byte>, y: seq<Byte>)
    requires |a| == |x| && |b| == |y|
    ensures Store(m, a + b, x + y) == Store(Store(m, a, x), b, y)
    decreases |a|
  {
    if a == [] {
      assert a + b == b && x + y == y;
    } else {
      assert (a + b)[1..] == a[1..] + b && (x + y)[1..] == x[1..] + y;
      StoreSplit(m[a[0] := x[0]], a[1..], b, x[1..], y);
    }
  }

  /** Bytes that a request for n moves. */
  function Moved(n: int, resid: nat): (k: nat)
    ensures k <= resid && (n >= 0 ==> k <= n) && (n > 0 ==> k == n || k == resid)
  {
    if n <= 0 then 0 else if n < resid then n else resid
  }

  /** What a move of k bytes does. */
  datatype Effect = Effect(mem: Memory, buffer: seq<Byte>, places: seq<nat>)

  function Transfer(mode: Mode, mem: Memory, buffer: seq<Byte>, places: seq<nat>, k: nat): (e: Effect)
    requires k <= |places| && k <= |buffer| && Mapped(mem, places)
  {
    assert Mapped(mem, places[..k]);
    match mode
    case Read => Effect(Store(mem, places[..k], buffer[..k]), buffer, places[k..])
    case Write => Effect(mem, Fetch(mem, places[..k]) + buffer[k..], places[k..])
    case NoCopy => Effect(mem, buffer, places[k..])
  }

  /** Which way the bytes go. Read brings the buffer to the places and leaves the buffer alone; Write brings the bytes at
      the places to the buffer and leaves memory alone; a move without copying changes neither. Memory elsewhere and the
      rest of the buffer stay as they are. */
  lemma Directions(mem: Memory, buffer: seq<Byte>, places: seq<nat>, k: nat)
    requires k <= |places| && k <= |buffer| && Mapped(mem, places)
    ensures var e := Transfer(Read, mem, buffer, places, k);
            && e.buffer == buffer && e.mem.Keys == mem.Keys
            && (forall p :: p in mem && p !in places[..k] ==> e.mem[p] == mem[p])
            && (NoDup(places[..k]) ==> forall i :: 0 <= i < k ==> e.mem[places[i]] == buffer[i])
    ensures var e := Transfer(Write, mem, buffer, places, k);
            && e.mem == mem && |e.buffer| == |buffer| && e.buffer[k..] == buffer[k..]
            && forall i :: 0 <= i < k ==> e.buffer[i] == mem[places[i]]
    ensures var e := Transfer(NoCopy, mem, buffer, places, k); e.mem == mem && e.buffer == buffer
  {
    var a, x := places[..k], buffer[..k];
    StoreElsewhere(mem, a, x);
    if NoDup(a) {
      StoreFetch(mem, a, x);
      var e := Transfer(Read, mem, buffer, places, k);
      forall i | 0 <= i < k ensures e.mem[places[i]] == buffer[i] {
        assert Fetch(e.mem, a)[i] == e.mem[a[i]] && a[i] == places[i] && x[i] == buffer[i];
      }
    }
  }

  lemma {:induction false} StoreElsewhere(m: Memory, a: seq<nat>, x: seq<Byte>)
    requires |a| == |x| && Mapped(m, a)
    ensures Store(m, a, x).Keys == m.Keys && forall p :: p in m && p !in a ==> Store(m, a, x)[p] == m[p]
    decreases |a|
  {
    if a != [] { StoreElsewhere(m[a[0] := x[0]], a[1..], x[1..]); }
  }

  /** Moving j bytes and then k more is moving j + k. */
  lemma TransferSplit(mode: Mode, mem: Memory, buffer: seq<Byte>, places: seq<nat>, j: nat, k: nat)
    requires j + k <= |places| && j + k <= |buffer| && Mapped(mem, places)
    ensures var e := Transfer(mode, mem, buffer, places, j);
            && Mapped(e.mem, e.places) && |e.buffer| == |buffer| && k <= |e.buffer| - j
            && var f := Transfer(mode, e.mem, e.buffer[j..], e.places, k);
               Transfer(mode, mem, buffer, places, j + k) == Effect(f.mem, e.buffer[..j] + f.buffer, f.places)
  {
    match mode {
      case Read => ReadSplit(mem, buffer, places, j, k);
      case Write => WriteSplit(mem, buffer, places, j, k);
      case NoCopy =>
        assert places[j..][k..] == places[j + k..];
        assert buffer[..j] + buffer[j..] == buffer;
    }
  }

  lemma ReadSplit(mem: Memory, buffer: seq<Byte>, places: seq<nat>, j: nat, k: nat)
    requires j + k <= |places| && j + k <= |buffer| && Mapped(mem, places)
    ensures var e := Transfer(Read, mem, buffer, places, j);
            && Mapped(e.mem, e.places) && |e.buffer| == |buffer|
            && var f := Transfer(Read, e.mem, e.buffer[j..], e.places, k);
               Transfer(Read, mem, buffer, places, j + k) == Effect(f.mem, e.buffer[..j] + f.buffer, f.places)
  {
    assert places[..j + k] == places[..j] + places[j..][..k] && places[j..][k..] == places[j + k..];
    assert buffer[..j + k] == buffer[..j] + buffer[j..][..k];
    assert buffer[..j] + buffer[j..] == buffer;
    StoreSplit(mem, places[..j], places[j..][..k], buffer[..j], buffer[j..][..k]);
    assert Mapped(Store(mem, places[..j], buffer[..j]), places[j..]);
    hide Store;
  }

  lemma WriteSplit(mem: Memory, buffer: seq<Byte>, places: seq<nat>, j: nat, k: nat)
    requires j + k <= |places| && j + k <= |buffer| && Mapped(mem, places)
    ensures var e := Transfer(Write, mem, buffer, places, j);
            && Mapped(e.mem, e.places) && |e.buffer| == |buffer|
            && var f := Transfer(Write, e.mem, e.buffer[j..], e.places, k);
               Transfer(Write, mem, buffer, places, j + k) == Effect(f.mem, e.buffer[..j] + f.buffer, f.places)
  {
    hide Store;
    assert Mapped(mem, places[..j]) && Mapped(mem, places[..j + k]) && Mapped(mem, places[j..]);
    assert Mapped(mem, places[j..][..k]) && places[j..][k..] == places[j + k..];
    FetchSplit(mem, places, j, k);
    hide Fetch, Mapped;
    var x, y := Fetch(mem, places[..j]), Fetch(mem, places[j..][..k]);
    var b := x + buffer[j..];
    assert b[j..] == buffer[j..] && b[..j] == x && buffer[j..][k..] == buffer[j + k..];
    assert x + (y + buffer[j + k..]) == x + y + buffer[j + k..];
  }

  lemma FetchSplit(mem: Memory, places: seq<nat>, j: nat, k: nat)
    requires j + k <= |places| && Mapped(mem, places[..j]) && Mapped(mem, places[..j + k]) && Mapped(mem, places[j..][..k])
    ensures Fetch(mem, places[..j + k]) == Fetch(mem, places[..j]) + Fetch(mem, places[j..][..k])
  {
  }

  lemma MovedSum(a: nat, b: nat, resid: nat)
    ensures Moved(a + b, resid) == Moved(a, resid) + Moved(b, resid - Moved(a, resid))
  {
  }

  /** Block lengths fit the unsigned int they are read into, as copyinuio sees to. */
  ghost predicate Lengths(iov: seq<Iovec>) { forall i :: 0 <= i < |iov| ==> iov[i].len < TWO32 }

  /** The vector after cnt bytes of its first block are done. */
  function Shorten(iov: seq<Iovec>, cnt: nat): (r: seq<Iovec>)
    requires iov != [] && cnt <= iov[0].len
  {
    [Iovec(iov[0].base + cnt, iov[0].len - cnt)] + iov[1..]
  }

  lemma ShortenPlaces(iov: seq<Iovec>, cnt: nat)
    requires iov != [] && cnt <= iov[0].len
    ensures cnt <= |Places(iov)| && Places(iov)[..cnt] == Block(iov[0].base, cnt)
    ensures Places(Shorten(iov, cnt)) == Places(iov)[cnt..] && Total(Shorten(iov, cnt)) == Total(iov) - cnt
  {
    var b, rest := iov[0], Places(iov[1..]);
    BlockSplit(b.base, b.len, cnt);
    assert Shorten(iov, cnt)[1..] == iov[1..];
    assert Places(Shorten(iov, cnt)) == Block(b.base + cnt, b.len - cnt) + rest;
    hide Block, Places;
    assert (Block(b.base, b.len) + rest)[..cnt] == Block(b.base, b.len)[..cnt];
    assert (Block(b.base, b.len) + rest)[cnt..] == Block(b.base, b.len)[cnt..] + rest;
  }

  lemma BlockSplit(base: nat, len: nat, cnt: nat)
    requires cnt <= len
    ensures Block(base, len)[..cnt] == Block(base, cnt) && Block(base, len)[cnt..] == Block(base + cnt, len - cnt)
  {
  }

  class Uio {
    var iov: seq<Iovec>                   // uio_iov and uio_iovcnt
    var resid: nat
    var offset: int
    const mode: Mode
    var mem: Memory                       // the memory the vector points into

    ghost predicate Valid()
      reads this
    {
      resid == Total(iov) == |Places(iov)| && Mapped(mem, Places(iov)) && Lengths(iov)
    }

    constructor (iov: seq<Iovec>, resid: nat, offset: int, mode: Mode, mem: Memory)
      ensures this.iov == iov && this.resid == resid && this.offset == offset && this.mode == mode && this.mem == mem
    {
      this.iov, this.resid, this.offset, this.mode, this.mem := iov, resid, offset, mode, mem;
    }

    /** uiomove: moves min(n, resid) bytes, in the order of the vector, and leaves the vector at the next one. */
    method Move(cp: array<Byte>, n: int)
      requires Valid() && Moved(n, resid) <= cp.Length
      modifies this, cp
      ensures Valid() && resid == old(resid) - Moved(n, old(resid)) && offset == old(offset) + Moved(n, old(resid))
      ensures if n <= 0 then resid == old(resid) else resid == 0 || resid == old(resid) - n
      ensures Effect(mem, cp[..], Places(iov))
           == Transfer(mode, old(mem), old(cp[..]), old(Places(iov)), Moved(n, old(resid)))
    {
      var left, done := n, 0;
      ghost var mem0, buf0, all := mem, cp[..], Places(iov);
      TransferNone(mode, mem, cp[..], all);
      hide Transfer, Places, Total, Mapped;
      while left > 0 && resid > 0
        invariant Valid() && done + resid == old(resid) && offset == old(offset) + done && left + done == n
        invariant 0 <= done <= Moved(n, old(resid))
        invariant Effect(mem, cp[..], Places(iov)) == Transfer(mode, mem0, buf0, all, done)
        decreases left, |iov|
      {
        NotEmpty(iov);
        var cnt := iov[0].len % TWO32;
        if cnt == 0 {
          SkipEmpty(iov);
          iov := iov[1..];
          continue;
        }
        if cnt > left {
          cnt := left;
        }
        FirstFits(iov);
        Turn(cp, done, cnt, mem0, buf0, all);
        done := done + cnt;
        left := left - cnt;
      }
    }

    /** One turn of the loop of uiomove. */
    method Turn(cp: array<Byte>, done: nat, cnt: nat, ghost mem0: Memory, ghost buf0: seq<Byte>, ghost all: seq<nat>)
      requires Valid() && iov != [] && cnt <= iov[0].len && cnt <= resid && Mapped(mem0, all)
      requires done + cnt <= |buf0| == cp.Length && done + resid == |all|
      requires Effect(mem, cp[..], Places(iov)) == Transfer(mode, mem0, buf0, all, done)
      modifies this, cp
      ensures Valid() && resid == old(resid) - cnt && offset == old(offset) + cnt
      ensures Effect(mem, cp[..], Places(iov)) == Transfer(mode, mem0, buf0, all, done + cnt)
    {
      hide Transfer, Places, Total, Mapped;
      ghost var mem1, buf1, places1 := mem, cp[..], Places(iov);
      assert cp[done..] == buf1[done..] && cp[..done] == buf1[..done];
      MoveBlock(cp, done, cnt);
      assert cp[done..] == cp[..][done..] && cp[..done] == cp[..][..done];
      Compose(mode, mem0, buf0, all, done, cnt, Effect(mem1, buf1, places1), Effect(mem, cp[..], Places(iov)));
      resid := resid - cnt;
      offset := offset + cnt;
    }

    /** cnt bytes between the first block of the vector and the buffer at `at`. */
    method MoveBlock(cp: array<Byte>, at: nat, cnt: nat)
      requires Mapped(mem, Places(iov)) && iov != [] && cnt <= iov[0].len && at + cnt <= cp.Length && cnt <= |Places(iov)|
      modifies `mem, `iov, cp
      ensures Effect(mem, cp[at..], Places(iov)) == Transfer(mode, old(mem), old(cp[at..]), old(Places(iov)), cnt)
      ensures cp[..at] == old(cp[..at]) && Total(iov) == old(Total(iov)) - cnt && Mapped(mem, Places(iov))
      ensures old(Lengths(iov)) ==> Lengths(iov)
    {
      ShortenPlaces(iov, cnt);
      hide Places, Total;
      var base := iov[0].base;
      assert Mapped(mem, Block(base, cnt));
      ghost var was := cp[at..];
      assert cp[at..at + cnt] == was[..cnt];
      match mode {
        case Read =>
          mem := Store(mem, Block(base, cnt), cp[at..at + cnt]);
        case Write =>
          CopyInto(cp, at, Fetch(mem, Block(base, cnt)));
          assert cp[at..] == Fetch(mem, Block(base, cnt)) + was[cnt..];
        case NoCopy =>
      }
      iov := Shorten(iov, cnt);
    }
  }

  lemma TransferNone(mode: Mode, mem: Memory, buffer: seq<Byte>, places: seq<nat>)
    requires Mapped(mem, places)
    ensures Transfer(mode, mem, buffer, places, 0) == Effect(mem, buffer, places)
  {
  }

  lemma Compose(mode: Mode, mem: Memory, buffer: seq<Byte>, places: seq<nat>, j: nat, k: nat, e: Effect, f: Effect)
    requires j + k <= |places| && j + k <= |buffer| && Mapped(mem, places)
    requires e == Transfer(mode, mem, buffer, places, j)
    requires |f.buffer| == |buffer| && |e.buffer| == |buffer| && f.buffer[..j] == e.buffer[..j]
    requires Mapped(e.mem, e.places) && k <= |e.places|
    requires Effect(f.mem, f.buffer[j..], f.places) == Transfer(mode, e.mem, e.buffer[j..], e.places, k)
    ensures f == Transfer(mode, mem, buffer, places, j + k) && |f.places| == |e.places| - k
  {
    TransferSplit(mode, mem, buffer, places, j, k);
    assert |f.places| == |e.places| - k;
    hide Transfer;
    assert f.buffer[..j] + f.buffer[j..] == f.buffer;
  }

  lemma NotEmpty(iov: seq<Iovec>)
    requires Total(iov) > 0
    ensures iov != []
  {
  }

  lemma FirstFits(iov: seq<Iovec>)
    requires iov != []
    ensures iov[0].len <= Total(iov)
  {
  }

  lemma SkipEmpty(iov: seq<Iovec>)
    requires iov != [] && iov[0].len == 0
    ensures Places(iov[1..]) == Places(iov) && Total(iov[1..]) == Total(iov)
  {
  }

  /** Two requests move what one request for both would. */
  lemma MovesAdd(mode: Mode, mem: Memory, buffer: seq<Byte>, places: seq<nat>, a: nat, b: nat)
    requires Moved(a + b, |places|) <= |buffer| && Mapped(mem, places)
    ensures var j, k := Moved(a, |places|), Moved(b, |places| - Moved(a, |places|));
            && j + k <= |buffer| && j + k <= |places|
            && var e := Transfer(mode, mem, buffer, places, j);
               && Mapped(e.mem, e.places) && |e.places| == |places| - j && |e.buffer| == |buffer|
               && var f := Transfer(mode, e.mem, e.buffer[j..], e.places, k);
                  Transfer(mode, mem, buffer, places, Moved(a + b, |places|))
                  == Effect(f.mem, e.buffer[..j] + f.buffer, f.places)
  {
    hide Store, Fetch;
    MovedSum(a, b, |places|);
    TransferSplit(mode, mem, buffer, places, Moved(a, |places|), Moved(b, |places| - Moved(a, |places|)));
  }

  /** What is stored at places that do not overlap is fetched back. */
  lemma {:induction false} StoreFetch(m: Memory, a: seq<nat>, x: seq<Byte>)
    requires |a| == |x| && NoDup(a)
    ensures Mapped(Store(m, a, x), a) && Fetch(Store(m, a, x), a) == x
    ensures forall p :: p in m && p !in a ==> p in Store(m, a, x) && Store(m, a, x)[p] == m[p]
    decreases |a|
  {
    if a != [] {
      var m' := m[a[0] := x[0]];
      StoreFetch(m', a[1..], x[1..]);
      assert a[0] !in a[1..];
      var r := Store(m, a, x);
      assert r == Store(m', a[1..], x[1..]);
      hide Store;
      forall i | 0 <= i < |a| ensures a[i] in r && r[a[i]] == x[i] {
        if i > 0 {
          assert a[1..][i - 1] == a[i] && Fetch(r, a[1..])[i - 1] == x[1..][i - 1];
        }
      }
    }
  }

  // ---- Setting a vector up ----

  lemma {:induction false} TotalSplit(iov: seq<Iovec>, n: nat)
    requires n <= |iov|
    ensures Total(iov) == Total(iov[..n]) + Total(iov[n..])
  {
    if n == 0 {
      assert iov[..0] == [] && iov[0..] == iov;
    } else {
      TotalSplit(iov[1..], n - 1);
      assert iov[..n][1..] == iov[1..][..n - 1] && iov[n..] == iov[1..][n - 1..];
    }
  }

  lemma TotalNext(iov: seq<Iovec>, i: nat)
    requires i < |iov|
    ensures Total(iov[..i + 1]) == Total(iov[..i]) + iov[i].len <= Total(iov)
  {
    TotalSplit(iov, i + 1);
    TotalSplit(iov[..i + 1], i);
    assert iov[..i + 1][..i] == iov[..i] && iov[..i + 1][i..] == [iov[i]];
    assert [iov[i]][1..] == [];
  }

  /** copyinuio: refuses exactly the vectors with too many blocks or too many bytes. */
  method CopyinUio(iovp: seq<Iovec>, mode: Mode, mem: Memory) returns (r: Uio?)
    requires Mapped(mem, Places(iovp))
    ensures r == null <==> |iovp| > UIO_MAXIOV || Total(iovp) > INT_MAX
    ensures r != null ==> fresh(r) && r.Valid() && r.iov == iovp && r.offset == -1 && r.mode == mode && r.mem == mem
  {
    if |iovp| > UIO_MAXIOV {
      return null;
    }
    var resid := 0;
    for i := 0 to |iovp|
      invariant resid == Total(iovp[..i]) <= INT_MAX && Lengths(iovp[..i])
    {
      TotalNext(iovp, i);
      if iovp[i].len > INT_MAX - resid {
        return null;
      }
      resid := resid + iovp[i].len;
    }
    assert iovp[..|iovp|] == iovp;
    PlacesTotal(iovp);
    r := new Uio(iovp, resid, -1, mode, mem);
  }
}
