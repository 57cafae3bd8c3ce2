/** Routing messages: rtsock_msg_buffer writes socket addresses behind a header, rt_xaddrs finds them again. */
module Route {
  import opened Bits
  import opened Common

  const RTAX_MAX := 8
  const RTM_VERSION := 5
  const RTM_NEWADDR := 0xc
  const RTM_DELADDR := 0xd
  const RTM_IFINFO := 0xe
  const RTM_NEWMADDR := 0xf

  /** sizeof of the message headers: short and long form of the address and interface ones. */
  datatype Headers = Headers(ifa: nat, ifal: nat, ifInfo: nat, ifInfol: nat, ifma: nat, rt: nat) {
    predicate Ok() { ifa >= 4 && ifal >= 4 && ifInfo >= 4 && ifInfol >= 4 && ifma >= 4 && rt >= 4 }
  }

  function RoundUp(n: nat): (r: nat)
    ensures n <= r < n + 8 && r % 8 == 0
  {
    (n + 7) / 8 * 8
  }

  /** SA_SIZE: an empty address takes a long, any other is rounded up to whole longs. */
  function SaSize(len: nat): (n: nat)
    ensures n % 8 == 0 && 8 <= n && len <= n && (n == 8 || n < len + 8)
  {
    if len == 0 then 8 else RoundUp(len)
  }

  /** A sockaddr with the padding behind it; its first byte is sa_len. */
  ghost predicate IsSockaddr(b: seq<Byte>) { |b| > 0 && |b| == SaSize(b[0]) }

  type Info = seq<Option<seq<Byte>>>      // rti_info

  ghost predicate InfoOk(info: Info) {
    |info| == RTAX_MAX && forall i :: 0 <= i < |info| && info[i].Some? ==> IsSockaddr(info[i].value)
  }

  /** The addresses in the first n slots, one behind the other. */
  function Image(info: Info, n: nat): (r: seq<Byte>)
    requires n <= |info|
  {
    if n == 0 then [] else Image(info, n - 1) + if info[n - 1].Some? then info[n - 1].value else []
  }

  /** rti_addrs: a bit for each filled slot. */
  function Mask(info: Info, n: nat): (m: nat)
    requires n <= |info|
    ensures m < Pow2(n)
  {
    if n == 0 then 0 else Mask(info, n - 1) + if info[n - 1].Some? then Pow2(n - 1) else 0
  }

  function HeaderLen(h: Headers, kind: nat, long: bool): (n: nat)
    ensures h.Ok() ==> n >= 4
  {
    if kind == RTM_DELADDR || kind == RTM_NEWADDR then (if long then h.ifal else h.ifa)
    else if kind == RTM_IFINFO then (if long then h.ifInfol else h.ifInfo)
    else if kind == RTM_NEWMADDR then h.ifma
    else h.rt
  }

  function Length(h: Headers, kind: nat, long: bool, info: Info): (n: nat)
    requires |info| == RTAX_MAX
  {
    RoundUp(HeaderLen(h, kind, long) + |Image(info, RTAX_MAX)|)
  }

  lemma {:induction false} ImageGrows(info: Info, m: nat, n: nat)
    requires m <= n <= |info|
    ensures |Image(info, m)| <= |Image(info, n)| && Image(info, n)[..|Image(info, m)|] == Image(info, m)
    decreases n
  {
    if m < n {
      ImageGrows(info, m, n - 1);
      var a, b, c := Image(info, m), Image(info, n - 1), Image(info, n);
      assert c[..|a|] == b[..|a|];
    }
  }

  /** The buffer holds what has been written so far: the first n bytes of x from position at on. */
  ghost predicate Written(b: seq<Byte>, at: nat, x: seq<Byte>) {
    forall k :: 0 <= k < |x| ==> at + k < |b| && b[at + k] == x[k]
  }

  /** Positions outside [from, to) are as before. */
  ghost predicate Untouched(b: seq<Byte>, was: seq<Byte>, from: nat, to: nat) {
    |b| == |was| && forall k :: 0 <= k < |b| && !(from <= k < to) ==> b[k] == was[k]
  }

  /** rtsock_msg_buffer; no buffer means that only the length is wanted. `long` is w_op == NET_RT_IFLISTL. The call fails
      exactly when there is a buffer and it is shorter than the length. */
  method MsgBuffer(h: Headers, kind: nat, info: Info, buf: array?<Byte>, long: bool)
    returns (err: bool, len: nat, addrs: nat)
    requires h.Ok() && InfoOk(info)
    modifies if buf == null then {} else {buf}
    ensures len == Length(h, kind, buf != null && long, info) && addrs == Mask(info, RTAX_MAX)
    ensures err <==> buf != null && buf.Length < len
    ensures buf != null && err ==> Untouched(buf[..], old(buf[..]), HeaderLen(h, kind, long), len)
    ensures buf != null && !err ==> Message(buf[..], old(buf[..]), HeaderLen(h, kind, long), kind, len, Image(info, RTAX_MAX))
  {
    hide Written, Untouched, Image, Mask, Message, Pow2;
    var hl := HeaderLen(h, kind, buf != null && long);
    len, addrs := hl, 0;
    var cp, buflen := if buf != null then hl else -1, if buf != null then buf.Length - hl else 0;
    ghost var was := if buf != null then buf[..] else [];
    Start(info, was, hl);
    for i := 0 to RTAX_MAX
      invariant len == hl + |Image(info, i)| && addrs == Mask(info, i)
      invariant buf == null ==> cp == -1
      invariant buf != null && cp != -1 ==> cp == len && buflen == buf.Length - cp && Written(buf[..], hl, Image(info, i))
      invariant buf != null && cp == -1 ==> buf.Length < len
      invariant buf != null ==> Untouched(buf[..], was, hl, len)
    {
      NextSlot(info, i);
      if info[i].None? {
        continue;
      }
      var sa := info[i].value;
      addrs := addrs + Pow2(i);
      var dlen := |sa|;
      if cp != -1 && buflen >= dlen {
        Put(buf, hl, cp, Image(info, i), sa, was);
        cp := cp + dlen;
        buflen := buflen - dlen;
      } else if cp != -1 {
        cp := -1;
      }
      if cp == -1 && buf != null { Wider(buf[..], was, hl, len, len + dlen); }
      len := len + dlen;
    }
    if cp != -1 {
      var dlen := RoundUp(len) - len;
      if buflen < dlen {
        cp := -1;
      } else {
        buflen := buflen - dlen;
      }
    }
    ghost var end := len;
    len := RoundUp(len);
    if cp != -1 {
      ghost var b := buf[..];
      WriteHeader(buf, kind, len);
      Finished(buf[..], b, was, hl, kind, len, Image(info, RTAX_MAX));
    } else if buf != null {
      Wider(buf[..], was, hl, end, len);
    }
    err := buf != null && cp == -1;
  }

  lemma Start(info: Info, b: seq<Byte>, hl: nat)
    ensures Image(info, 0) == [] && Mask(info, 0) == 0 && Written(b, hl, []) && Untouched(b, b, hl, hl)
  {
  }

  lemma NextSlot(info: Info, i: nat)
    requires i < |info|
    ensures Image(info, i + 1) == if info[i].Some? then Image(info, i) + info[i].value else Image(info, i)
    ensures Mask(info, i + 1) == Mask(info, i) + if info[i].Some? then Pow2(i) else 0
  {
  }

  lemma Wider(b: seq<Byte>, was: seq<Byte>, from: nat, to: nat, further: nat)
    requires Untouched(b, was, from, to) && to <= further
    ensures Untouched(b, was, from, further)
  {
  }

  lemma Finished(b: seq<Byte>, before: seq<Byte>, was: seq<Byte>, hl: nat, kind: nat, len: nat, x: seq<Byte>)
    requires 4 <= hl && hl + |x| <= len <= |b| && |b| == |before|
    requires Written(before, hl, x) && Untouched(before, was, hl, hl + |x|)
    requires b[0] == len % 256 && b[1] == len / 256 % 256 && b[2] == RTM_VERSION && b[3] == kind % 256
    requires b[4..] == before[4..]
    ensures Message(b, was, hl, kind, len, x)
  {
    assert forall k :: 4 <= k < |b| ==> b[k] == b[4..][k - 4] && before[k] == before[4..][k - 4];
  }

  /** A finished message: header fields, addresses, and nothing else changed. */
  ghost predicate Message(b: seq<Byte>, was: seq<Byte>, hl: nat, kind: nat, len: nat, x: seq<Byte>) {
    && |b| == |was| && 4 <= hl && len <= |b| && hl + |x| <= len
    && b[0] == len % 256 && b[1] == len / 256 % 256 && b[2] == RTM_VERSION && b[3] == kind % 256
    && b[4..hl] == was[4..hl] && b[hl..hl + |x|] == x && b[hl + |x|..] == was[hl + |x|..]
  }

  method Put(buf: array<Byte>, hl: nat, cp: nat, x: seq<Byte>, sa: seq<Byte>, ghost was: seq<Byte>)
    requires cp == hl + |x| && cp + |sa| <= buf.Length
    requires Written(buf[..], hl, x) && Untouched(buf[..], was, hl, cp)
    modifies buf
    ensures Written(buf[..], hl, x + sa) && Untouched(buf[..], was, hl, cp + |sa|)
  {
    ghost var b := buf[..];
    CopyInto(buf, cp, sa);
    assert buf[..] == b[..cp] + sa + b[cp + |sa|..];
  }

  method WriteHeader(buf: array<Byte>, kind: nat, len: nat)
    requires buf.Length >= 4
    modifies buf
    ensures buf[0] == len % 256 && buf[1] == len / 256 % 256 && buf[2] == RTM_VERSION && buf[3] == kind % 256
    ensures buf[4..] == old(buf[4..])
  {
    buf[0], buf[1] := len % 256, len / 256 % 256;
    buf[2] := RTM_VERSION;
    buf[3] := kind % 256;
  }

  // ---- The two passes ----

  /** The sizing pass and the writing pass give the same length, unless the writing pass uses the long form of a header
      that has one: the long forms are longer by at least a long, so the sizing pass then falls short. */
  lemma SameLength(h: Headers, kind: nat, long: bool, info: Info)
    requires |info| == RTAX_MAX && h.ifal >= h.ifa + 8 && h.ifInfol >= h.ifInfo + 8
    ensures Length(h, kind, false, info) == Length(h, kind, long, info)
       <==> !(long && (kind == RTM_NEWADDR || kind == RTM_DELADDR || kind == RTM_IFINFO))
  {
  }

  /** The sizes of the headers on a 64-bit machine. */
  const LP64 := Headers(20, 176, 168, 176, 16, 152)

  /** What a message without addresses takes there, by its kind. */
  lemma EmptyLengths(kind: nat, long: bool, info: Info)
    requires |info| == RTAX_MAX && forall i :: 0 <= i < RTAX_MAX ==> info[i].None?
    ensures Length(LP64, kind, long, info)
         == if kind == RTM_NEWADDR || kind == RTM_DELADDR then (if long then 176 else 24)
            else if kind == RTM_IFINFO then (if long then 176 else 168)
            else if kind == RTM_NEWMADDR then 16 else 152
  {
    assert forall n: nat :: n <= RTAX_MAX ==> Image(info, n) == [] by {
      forall n: nat | n <= RTAX_MAX ensures Image(info, n) == [] { NoImage(info, n); }
    }
  }

  lemma {:induction false} NoImage(info: Info, n: nat)
    requires n <= |info| && forall i :: 0 <= i < |info| ==> info[i].None?
    ensures Image(info, n) == []
  {
    if n > 0 { NoImage(info, n - 1); }
  }

  /** The sizing pass for an interface's list falls short of what the writing pass needs in the long form. */
  lemma LongFormIsLonger(info: Info)
    requires |info| == RTAX_MAX
    ensures Length(LP64, RTM_IFINFO, false, info) < Length(LP64, RTM_IFINFO, true, info)
  {
  }

  // ---- Reading back ----

  /** What a slot points at: an address in the message, or the constant sa_zero. */
  datatype Found = At(offset: nat) | SaZero

  function Nones(n: nat): (r: seq<Option<Found>>)
    ensures |r| == n && forall i :: 0 <= i < n ==> r[i] == None
  {
    seq(n, _ => None)
  }

  /** rt_xaddrs from slot i on, reading at cp: None is EINVAL. */
  function Read(a: seq<Byte>, lim: nat, mask: nat, i: nat, cp: nat): (r: Option<seq<Option<Found>>>)
    requires i <= RTAX_MAX && lim <= |a|
    ensures r.Some? ==> |r.value| == RTAX_MAX - i
    decreases RTAX_MAX - i
  {
    if i == RTAX_MAX || cp >= lim then Some(Nones(RTAX_MAX - i))
    else if !Bit(mask, i) then Prepend(None, Read(a, lim, mask, i + 1, cp))
    else if cp + a[cp] > lim then None
    else if a[cp] == 0 then Some([Some(SaZero)] + Nones(RTAX_MAX - i - 1))
    else Prepend(Some(At(cp)), Read(a, lim, mask, i + 1, cp + SaSize(a[cp])))
  }

  /** Every address found lies inside the limit, with its whole length, in the slot of a mask bit. */
  lemma {:induction false} ReadInside(a: seq<Byte>, lim: nat, mask: nat, i: nat, cp: nat)
    requires i <= RTAX_MAX && lim <= |a|
    ensures var r := Read(a, lim, mask, i, cp);
            r.Some? ==> forall k :: 0 <= k < |r.value| && r.value[k].Some? ==>
              Bit(mask, i + k) && (r.value[k].value.At? ==> Inside(a, cp, lim, r.value[k].value.offset))
    decreases RTAX_MAX - i
  {
    hide Bit, SaSize;
    if i < RTAX_MAX && cp < lim && (!Bit(mask, i) || (0 < a[cp] && cp + a[cp] <= lim)) {
      var next := if Bit(mask, i) then cp + SaSize(a[cp]) else cp;
      ReadInside(a, lim, mask, i + 1, next);
      var r, rest := Read(a, lim, mask, i, cp), Read(a, lim, mask, i + 1, next);
      hide Read;
      if r.Some? {
        forall k | 0 <= k < |r.value| && r.value[k].Some?
          ensures Bit(mask, i + k) && (r.value[k].value.At? ==> Inside(a, cp, lim, r.value[k].value.offset))
        {
          if k > 0 { assert r.value[k] == rest.value[k - 1] && Bit(mask, i + 1 + (k - 1)); }
        }
      }
    }
  }

  /** They lie one behind the other, in the order of the slots. */
  lemma {:induction false} ReadOrder(a: seq<Byte>, lim: nat, mask: nat, i: nat, cp: nat, j: nat, k: nat)
    requires i <= RTAX_MAX && lim <= |a| && Read(a, lim, mask, i, cp).Some?
    requires j < k < |Read(a, lim, mask, i, cp).value|
    requires FoundAt(Read(a, lim, mask, i, cp).value[j]) && FoundAt(Read(a, lim, mask, i, cp).value[k])
    ensures var r := Read(a, lim, mask, i, cp).value;
            var o := r[j].value.offset; Inside(a, cp, lim, o) && o + a[o] <= r[k].value.offset
    decreases RTAX_MAX - i
  {
    ReadInside(a, lim, mask, i, cp);
    hide Bit;
    var next := if Bit(mask, i) then cp + SaSize(a[cp]) else cp;
    ReadInside(a, lim, mask, i + 1, next);
    var r, rest := Read(a, lim, mask, i, cp).value, Read(a, lim, mask, i + 1, next);
    assert rest.Some? && r == [r[0]] + rest.value;
    if j > 0 {
      assert r[j] == rest.value[j - 1] && r[k] == rest.value[k - 1];
      ReadOrder(a, lim, mask, i + 1, next, j - 1, k - 1);
    } else {
      assert r[k] == rest.value[k - 1];
      assert Inside(a, next, lim, r[k].value.offset);
    }
  }

  /** EINVAL means that an address was met that runs past the limit. */
  lemma {:induction false} ReadFails(a: seq<Byte>, lim: nat, mask: nat, i: nat, cp: nat)
    requires i <= RTAX_MAX && lim <= |a| && Read(a, lim, mask, i, cp).None?
    ensures exists o :: cp <= o < lim && o + a[o] > lim
    decreases RTAX_MAX - i
  {
    hide Bit, SaSize;
    if !Bit(mask, i) {
      ReadFails(a, lim, mask, i + 1, cp);
    } else if cp + a[cp] <= lim {
      ReadFails(a, lim, mask, i + 1, cp + SaSize(a[cp]));
    }
  }

  predicate FoundAt(x: Option<Found>) { x.Some? && x.value.At? }

  predicate Inside(a: seq<Byte>, from: nat, lim: nat, o: nat) {
    from <= o < lim <= |a| && 0 < a[o] && o + a[o] <= lim
  }

  /** An address that is met and runs past the limit is EINVAL: the first one, and by the above no other refusal. */
  lemma {:induction false} ReadRefuses(a: seq<Byte>, lim: nat, mask: nat, i: nat, j: nat, cp: nat)
    requires i <= j < RTAX_MAX && cp < lim <= |a| && Bit(mask, j) && forall k :: i <= k < j ==> !Bit(mask, k)
    ensures Read(a, lim, mask, i, cp).None? <==>
              cp + a[cp] > lim || (a[cp] > 0 && Read(a, lim, mask, j + 1, cp + SaSize(a[cp])).None?)
    decreases j - i
  {
    hide Bit, SaSize;
    if i < j { ReadRefuses(a, lim, mask, i + 1, j, cp); }
  }

  function Prepend(x: Option<Found>, r: Option<seq<Option<Found>>>): (s: Option<seq<Option<Found>>>) {
    if r.None? then None else Some([x] + r.value)
  }

  function Behind(done: seq<Option<Found>>, r: Option<seq<Option<Found>>>): (s: Option<seq<Option<Found>>>) {
    if r.None? then None else Some(done + r.value)
  }

  /** rt_xaddrs. */
  method XAddrs(a: array<Byte>, cp0: nat, lim: nat, mask: nat) returns (r: Option<seq<Option<Found>>>)
    requires lim <= a.Length
    ensures r == Read(a[..], lim, mask, 0, cp0)
  {
    var out: seq<Option<Found>>, cp: nat, i := [], cp0, 0;
    BehindNothing(Read(a[..], lim, mask, 0, cp0));
    while i < RTAX_MAX && cp < lim
      invariant 0 <= i <= RTAX_MAX && |out| == i
      invariant Read(a[..], lim, mask, 0, cp0) == Behind(out, Read(a[..], lim, mask, i, cp))
    {
      AndBit(mask, i);
      hide Bit, And, Pow2, SaSize;
      if And(mask, Pow2(i)) == 0 {
        OneMore(out, None, Read(a[..], lim, mask, i + 1, cp));
        out, i := out + [None], i + 1;
        continue;
      }
      var len := a[cp];
      assert len == a[..][cp];
      if cp + len > lim {
        return None;
      }
      if len == 0 {
        return Some(out + ([Some(SaZero)] + Nones(RTAX_MAX - i - 1)));
      }
      OneMore(out, Some(At(cp)), Read(a[..], lim, mask, i + 1, cp + SaSize(len)));
      out, i, cp := out + [Some(At(cp))], i + 1, cp + SaSize(len);
    }
    r := Some(out + Nones(RTAX_MAX - i));
  }

  lemma BehindNothing(r: Option<seq<Option<Found>>>)
    ensures Behind([], r) == r
  {
    if r.Some? { assert [] + r.value == r.value; }
  }

  lemma OneMore(out: seq<Option<Found>>, x: Option<Found>, r: Option<seq<Option<Found>>>)
    ensures Behind(out, Prepend(x, r)) == Behind(out + [x], r)
  {
    if r.Some? { assert out + ([x] + r.value) == out + [x] + r.value; }
  }

  lemma {:induction false} TopBit(x: nat, n: nat, k: nat)
    requires x < Pow2(n)
    ensures Bit(x + Pow2(n), k) == (k == n || Bit(x, k))
    ensures k >= n ==> !Bit(x, k)
  {
    if n == 0 {
      ZeroBit(k);
      if k > 0 { ZeroBit(k - 1); }
    } else if k > 0 {
      TopBit(x / 2, n - 1, k - 1);
      assert (x + Pow2(n)) / 2 == x / 2 + Pow2(n - 1);
    }
  }

  /** Bit i of the mask says whether slot i is filled. */
  lemma {:induction false} MaskBit(info: Info, n: nat, i: nat)
    requires n <= |info|
    ensures Bit(Mask(info, n), i) == (i < n && info[i].Some?)
  {
    if n == 0 {
      ZeroBit(i);
    } else {
      MaskBit(info, n - 1, i);
      TopBit(Mask(info, n - 1), n - 1, i);
    }
  }

  /** The slots the reader fills: every address at its place, up to the first empty one, which becomes sa_zero. */
  function Expected(info: Info, i: nat, cp: nat): (r: seq<Option<Found>>)
    requires i <= |info| && (forall k :: 0 <= k < |info| && info[k].Some? ==> |info[k].value| > 0)
    ensures |r| == |info| - i
    decreases |info| - i
  {
    if i == |info| then []
    else if info[i].None? then [None] + Expected(info, i + 1, cp)
    else if info[i].value[0] == 0 then [Some(SaZero)] + Nones(|info| - i - 1)
    else [Some(At(cp))] + Expected(info, i + 1, cp + |info[i].value|)
  }

  /** Reading a written message never fails and finds what was written. */
  lemma {:induction false} ReadWritten(a: seq<Byte>, hl: nat, lim: nat, info: Info, i: nat)
    requires InfoOk(info) && i <= RTAX_MAX && hl + |Image(info, RTAX_MAX)| <= lim <= |a|
    requires a[hl..hl + |Image(info, RTAX_MAX)|] == Image(info, RTAX_MAX)
    ensures Read(a, lim, Mask(info, RTAX_MAX), i, hl + |Image(info, i)|) == Some(Expected(info, i, hl + |Image(info, i)|))
    decreases RTAX_MAX - i
  {
    hide Image, Mask, Bit, SaSize;
    var cp := hl + |Image(info, i)|;
    if i < RTAX_MAX {
      NextSlot(info, i);
      MaskBit(info, RTAX_MAX, i);
      SlotBytes(a, hl, info, i);
      ReadWritten(a, hl, lim, info, i + 1);
      if cp >= lim {
        AllNone(info, i, hl, lim);
      } else {
        assert info[i].Some? ==> |info[i].value| == SaSize(a[cp]);
      }
    }
  }

  /** An address of the message is where the reader looks. */
  lemma SlotBytes(a: seq<Byte>, hl: nat, info: Info, i: nat)
    requires InfoOk(info) && i < RTAX_MAX && hl + |Image(info, RTAX_MAX)| <= |a|
    requires a[hl..hl + |Image(info, RTAX_MAX)|] == Image(info, RTAX_MAX)
    ensures info[i].Some? ==>
              var cp := hl + |Image(info, i)|;
              cp + |info[i].value| <= hl + |Image(info, RTAX_MAX)| && a[cp..cp + |info[i].value|] == info[i].value
              && a[cp] == info[i].value[0]
  {
    hide Image;
    NextSlot(info, i);
    ImageGrows(info, i + 1, RTAX_MAX);
    if info[i].Some? {
      Slice(a, hl, Image(info, RTAX_MAX), Image(info, i), info[i].value);
    }
  }

  lemma Slice(a: seq<Byte>, hl: nat, all: seq<Byte>, x: seq<Byte>, sa: seq<Byte>)
    requires hl + |all| <= |a| && a[hl..hl + |all|] == all && |sa| > 0
    requires |x + sa| <= |all| && all[..|x + sa|] == x + sa
    ensures a[hl + |x|..hl + |x| + |sa|] == sa && a[hl + |x|] == sa[0]
  {
    forall k | 0 <= k < |sa| ensures a[hl + |x| + k] == sa[k] {
      assert a[hl..hl + |all|][|x| + k] == all[|x| + k] == all[..|x + sa|][|x| + k] == (x + sa)[|x| + k];
    }
  }

  lemma {:induction false} AllNone(info: Info, i: nat, hl: nat, lim: nat)
    requires InfoOk(info) && i <= RTAX_MAX && hl + |Image(info, RTAX_MAX)| <= lim <= hl + |Image(info, i)|
    ensures Expected(info, i, hl + |Image(info, i)|) == Nones(RTAX_MAX - i)
    decreases RTAX_MAX - i
  {
    hide Image;
    if i < RTAX_MAX {
      NextSlot(info, i);
      ImageGrows(info, i + 1, RTAX_MAX);
      AllNone(info, i + 1, hl, lim);
    }
  }

  /** Every filled slot, and no other, points at its own address. */
  ghost predicate Finds(a: seq<Byte>, info: Info, out: seq<Option<Found>>) {
    |out| == |info| && forall i :: 0 <= i < |info| ==> SlotFinds(a, info[i], out[i])
  }

  ghost predicate SlotFinds(a: seq<Byte>, sa: Option<seq<Byte>>, o: Option<Found>) {
    if sa.None? then o == None
    else o.Some? && o.value.At? && o.value.offset + |sa.value| <= |a|
         && a[o.value.offset..o.value.offset + |sa.value|] == sa.value
  }

  ghost predicate EmptyAt(info: Info, i: nat) {
    i < |info| && info[i].Some? && |info[i].value| > 0 && info[i].value[0] == 0
  }

  lemma {:induction false} ExpectedSlot(info: Info, hl: nat, j: nat, i: nat)
    requires InfoOk(info) && j <= i < RTAX_MAX && forall m: nat :: j <= m < i ==> !EmptyAt(info, m)
    ensures Expected(info, j, hl + |Image(info, j)|)[i - j]
         == if info[i].None? then None else if EmptyAt(info, i) then Some(SaZero) else Some(At(hl + |Image(info, i)|))
    decreases i - j
  {
    hide Image;
    NextSlot(info, j);
    if j < i {
      assert !EmptyAt(info, j);
      ExpectedSlot(info, hl, j + 1, i);
    }
  }

  lemma {:induction false} FirstEmpty(info: Info, k: nat) returns (m: nat)
    requires EmptyAt(info, k)
    ensures m <= k && EmptyAt(info, m) && forall i: nat :: i < m ==> !EmptyAt(info, i)
  {
    if i: nat :| i < k && EmptyAt(info, i) { m := FirstEmpty(info, i); } else { m := k; }
  }

  lemma ReadAll(a: seq<Byte>, hl: nat, lim: nat, info: Info)
    requires InfoOk(info) && hl + |Image(info, RTAX_MAX)| <= lim <= |a|
    requires a[hl..hl + |Image(info, RTAX_MAX)|] == Image(info, RTAX_MAX)
    ensures Read(a, lim, Mask(info, RTAX_MAX), 0, hl) == Some(Expected(info, 0, hl))
  {
    hide Read, Mask, Expected;
    ReadWritten(a, hl, lim, info, 0);
    assert Image(info, 0) == [];
  }

  lemma SlotFound(a: seq<Byte>, hl: nat, info: Info, i: nat)
    requires InfoOk(info) && i < RTAX_MAX && hl + |Image(info, RTAX_MAX)| <= |a|
    requires a[hl..hl + |Image(info, RTAX_MAX)|] == Image(info, RTAX_MAX)
    requires forall m: nat :: m < i ==> !EmptyAt(info, m)
    ensures SlotFinds(a, info[i], Expected(info, 0, hl)[i]) <==> !EmptyAt(info, i)
  {
    assert Image(info, 0) == [];
    hide Image, Expected;
    ExpectedSlot(info, hl, 0, i);
    SlotBytes(a, hl, info, i);
  }

  /** rt_xaddrs on a written message returns the same addresses in the same slots exactly when no address has sa_len 0;
      reading up to the message's length, with the mask the writer set. */
  lemma RoundTrip(a: seq<Byte>, hl: nat, lim: nat, info: Info)
    requires InfoOk(info) && hl + |Image(info, RTAX_MAX)| <= lim <= |a|
    requires a[hl..hl + |Image(info, RTAX_MAX)|] == Image(info, RTAX_MAX)
    ensures var r := Read(a, lim, Mask(info, RTAX_MAX), 0, hl);
            r.Some? && (Finds(a, info, r.value) <==> forall i: nat :: !EmptyAt(info, i))
  {
    hide Read, Mask, Image, Expected, SlotFinds, EmptyAt;
    ReadAll(a, hl, lim, info);
    if k: nat :| EmptyAt(info, k) {
      var m := FirstEmpty(info, k);
      assert m < |info| by { EmptyInside(info, m); }
      SlotFound(a, hl, info, m);
    } else {
      forall i: nat | i < RTAX_MAX ensures SlotFinds(a, info[i], Expected(info, 0, hl)[i]) {
        SlotFound(a, hl, info, i);
      }
    }
  }

  lemma EmptyInside(info: Info, i: nat)
    requires EmptyAt(info, i)
    ensures i < |info|
  {
  }

  const EMPTY_ADDRESS: seq<Byte> := [0, 0, 0, 0, 0, 0, 0, 0]

  /** A message with an empty netmask and nothing else. */
  function NetmaskOnly(): (info: Info)
    ensures |info| == RTAX_MAX
  {
    [None, None, Some(EMPTY_ADDRESS), None, None, None, None, None]
  }

  /** Such a message is written and read without an error, and does not come back as it was. */
  lemma EmptyNetmaskLost(a: seq<Byte>, hl: nat, lim: nat)
    requires hl + |Image(NetmaskOnly(), RTAX_MAX)| <= lim <= |a|
    requires a[hl..hl + |Image(NetmaskOnly(), RTAX_MAX)|] == Image(NetmaskOnly(), RTAX_MAX)
    ensures InfoOk(NetmaskOnly())
    ensures var r := Read(a, lim, Mask(NetmaskOnly(), RTAX_MAX), 0, hl); r.Some? && !Finds(a, NetmaskOnly(), r.value)
  {
    hide Image, Mask, Read;
    RoundTrip(a, hl, lim, NetmaskOnly());
    assert EmptyAt(NetmaskOnly(), 2);
  }
}
