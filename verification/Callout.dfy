/** The callout timing wheel: hashed buckets, a lagging scan counter, 32-bit ticks, and handlers that
    re-enter the facility while a bucket is being scanned. */
module Callout {
  import opened Bits
  import opened CalloutSpec
  import opened Common

  datatype Lock = NoLock | Giant | OtherLock

  /** struct callout. CALLOUT_PROCESSED is never set in this build, so `pending` means "on the wheel". */
  datatype Callout = Callout(time: int, func: Func, arg: Arg, pending: bool, direct: bool, localAlloc: bool, lock: Lock)

  type Buckets = seq<seq<Id>>

  /** The bucket of tick t. */
  function Bucket(t: int, size: nat): (b: nat)
    requires size > 0
    ensures b < size
  {
    t % size
  }

  lemma BucketOfWrap(t: int, size: nat)
    requires size > 0 && TWO32 % size == 0
    ensures Bucket(Wrap(t), size) == Bucket(t, size)
  {
    var k := (Wrap(t) - t) / TWO32;
    var q := TWO32 / size;
    assert Wrap(t) == t + (k * q) * size by {
      assert TWO32 == q * size;
      assert (k * q) * size == k * (q * size);
    }
    ModShift(t, k * q, size);
  }

  /** The next power of two above `ncallout`: 1 << fls(ncallout). */
  function Fls(n: nat): (k: nat) {
    if n == 0 then 0 else 1 + Fls(n / 2)
  }

  lemma {:induction false} FlsBound(n: nat, k: nat)
    requires n < Pow2(k)
    ensures Fls(n) <= k
  {
    if n != 0 { FlsBound(n / 2, k - 1); }
  }

  /** What the size of a wheel is: a power of two that divides the 32-bit tick space. */
  ghost predicate WheelSize(size: nat) { size > 0 && IsPow2(size) && TWO32 % size == 0 }

  lemma WheelSizeOf(ncallout: nat)
    requires ncallout < TWO31
    ensures WheelSize(Pow2(Fls(ncallout)))
  {
    Pow2Of32();
    FlsBound(ncallout, 31);
    var k := Fls(ncallout);
    Pow2Split(32 - k, k);
    ModUnique(TWO32, Pow2(32 - k), 0, Pow2(k));
  }

  /** t & callwheelmask, on the 32 bits of t. */
  function Masked(t: int, size: nat): (b: nat)
    requires size > 0
    ensures b < size
  {
    And(t % TWO32, size - 1)
  }

  /** Masking picks the bucket of the tick, whatever multiple of 2^32 the tick has lost. */
  lemma MaskIsBucket(t: int, size: nat)
    requires WheelSize(size)
    ensures Masked(t, size) == Bucket(t, size) == Masked(Wrap(t), size)
  {
    MaskIsRemainder(t, size);
    MaskIsRemainder(Wrap(t), size);
    hide WheelSize, Masked, Bucket;
    BucketOfWrap(t, size) by { SizeDivides(size); }
  }

  lemma SizeDivides(size: nat)
    requires WheelSize(size)
    ensures size > 0 && TWO32 % size == 0
  {
  }

  lemma MaskIsRemainder(t: int, size: nat)
    requires WheelSize(size)
    ensures Masked(t, size) == Bucket(t, size)
  {
    var k: nat :| size == Pow2(k);
    AndMask(t % TWO32, k);
    hide And, Pow2;
    RemainderTwice(t, TWO32, size);
  }

  // ---- Representation, on values ----

  /** Every bucket lists, once each, exactly the pending callouts that hash to it. */
  ghost predicate Linked(wheel: Buckets, co: map<Id, Callout>, size: nat) {
    && 0 < size == |wheel|
    && (forall b :: 0 <= b < size ==> NoDup(wheel[b]))
    && (forall b, c :: 0 <= b < size && c in wheel[b] ==> c in co && co[c].pending && Bucket(co[c].time, size) == b)
    && (forall c :: c in co && co[c].pending ==> c in wheel[Bucket(co[c].time, size)])
  }

  /** The 32-bit c_time of each pending callout stands for one unbounded expiry tick. */
  ghost predicate Timed(co: map<Id, Callout>, due: map<Id, int>, lo: int, hi: int) {
    && (forall c :: c in due ==> c in co && co[c].pending && co[c].time == Wrap(due[c]) && lo <= due[c] < hi)
    && (forall c :: c in co && co[c].pending ==> c in due)
  }

  ghost predicate Remembered(co: map<Id, Callout>, what: map<Id, Work>, local: set<Id>) {
    && what.Keys == co.Keys
    && forall c :: c in co ==> what[c] == (co[c].func, co[c].arg) && (co[c].localAlloc <==> c in local)
  }

  /** While bucket `b` is scanned for tick `cur`, every pending callout due then is at or after the cursor. */
  ghost predicate CursorOk(wheel: Buckets, due: map<Id, int>, next: Option<Id>, b: nat, cur: int) {
    && b < |wheel|
    && (next.Some? ==> next.value in wheel[b])
    && forall c :: c in wheel[b] && c in due && due[c] == cur ==> c in Suffix(wheel[b], next)
  }

  lemma LinkInsert(wheel: Buckets, co: map<Id, Callout>, size: nat, c: Id, v: Callout)
    requires Linked(wheel, co, size) && c in co && !co[c].pending && v.pending
    ensures var b := Bucket(v.time, size);
            Linked(wheel[b := [c] + wheel[b]], co[c := v], size)
  {
    var b := Bucket(v.time, size);
    var w, m := wheel[b := [c] + wheel[b]], co[c := v];
    assert c !in wheel[b];
    forall x | x in m && m[x].pending ensures x in w[Bucket(m[x].time, size)] {
      if x == c { assert w[b][0] == c; }
      else if Bucket(m[x].time, size) == b { assert w[b][IndexOf(wheel[b], x) + 1] == x; }
    }
  }

  lemma LinkRemove(wheel: Buckets, co: map<Id, Callout>, size: nat, c: Id, v: Callout)
    requires Linked(wheel, co, size) && c in co && co[c].pending && !v.pending
    ensures var b := Bucket(co[c].time, size);
            Linked(wheel[b := Remove(wheel[b], c)], co[c := v], size)
  {
    RemoveElements(wheel[Bucket(co[c].time, size)], c);
  }

  /** Insertion at the head moves the cursor to the new head when it is the scanned bucket. */
  lemma CursorInsert(wheel: Buckets, due: map<Id, int>, next: Option<Id>, b: nat, cur: int, c: Id, at: nat, d: int)
    requires CursorOk(wheel, due, next, b, cur) && at < |wheel| && d != cur
    requires NoDup(wheel[b]) && c !in wheel[b]
    ensures CursorOk(wheel[at := [c] + wheel[at]], due[c := d], if b == at then Some(c) else next, b, cur)
  {
    if b == at {
      assert ([c] + wheel[at])[0] == c;
      assert Suffix([c] + wheel[at], Some(c)) == [c] + wheel[at];
    }
  }

  lemma CursorRemove(wheel: Buckets, due: map<Id, int>, next: Option<Id>, b: nat, cur: int, c: Id, at: nat)
    requires CursorOk(wheel, due, next, b, cur) && at < |wheel| && c in wheel[at]
    requires NoDup(wheel[at]) && (b != at ==> c !in wheel[b])
    ensures CursorOk(wheel[at := Remove(wheel[at], c)], due - {c},
                     if next == Some(c) then Succ(wheel[at], c) else next, b, cur)
  {
    if b == at {
      RemoveElements(wheel[at], c);
      RemoveKeepsSuffix(wheel[at], c, next);
    }
  }

  /** The three together. */
  ghost predicate Rep(wheel: Buckets, co: map<Id, Callout>, size: nat, due: map<Id, int>, what: map<Id, Work>,
                      local: set<Id>, lo: int, hi: int)
  {
    Linked(wheel, co, size) && Timed(co, due, lo, hi) && Remembered(co, what, local)
  }

  ghost predicate Scan(scanning: Option<int>, wheel: Buckets, due: map<Id, int>, next: Option<Id>, b: nat, now: int) {
    scanning.Some? ==> scanning.value < now && CursorOk(wheel, due, next, b, scanning.value)
  }

  lemma BalancedNow(s: Sched, local: set<Id>, now: int)
    requires Balanced(s, local, None)
    ensures Balanced(s.(now := now), local, None)
  {
  }

  lemma WrapSmall(x: int)
    requires -TWO31 <= x < TWO31
    ensures Wrap(x) == x
  {
  }

  lemma ScanNone(wheel: Buckets, due: map<Id, int>, next: Option<Id>, b: nat, now: int)
    ensures Scan(None, wheel, due, next, b, now)
  {
  }

  lemma ScanMake(cur: int, wheel: Buckets, due: map<Id, int>, next: Option<Id>, b: nat, now: int)
    requires CursorOk(wheel, due, next, b, cur) && cur < now
    ensures Scan(Some(cur), wheel, due, next, b, now)
  {
  }

  lemma CursorMember(wheel: Buckets, due: map<Id, int>, next: Option<Id>, b: nat, cur: int)
    requires CursorOk(wheel, due, next, b, cur)
    ensures b < |wheel| && (next.Some? ==> next.value in wheel[b])
  {
  }

  lemma ScanSome(cur: int, wheel: Buckets, due: map<Id, int>, next: Option<Id>, b: nat, now: int)
    requires Scan(Some(cur), wheel, due, next, b, now)
    ensures CursorOk(wheel, due, next, b, cur)
  {
  }

  lemma RepInsert(wheel: Buckets, co: map<Id, Callout>, size: nat, due: map<Id, int>, what: map<Id, Work>,
                  local: set<Id>, lo: int, hi: int, c: Id, v: Callout, d: int,
                  scanning: Option<int>, next: Option<Id>, b: nat, now: int)
    requires Rep(wheel, co, size, due, what, local, lo, hi) && Scan(scanning, wheel, due, next, b, now)
    requires c in co && !co[c].pending && v.pending && v.time == Wrap(d) && lo <= d < hi && now < d
    requires v.localAlloc == co[c].localAlloc
    ensures var at := Bucket(v.time, size);
            && Rep(wheel[at := [c] + wheel[at]], co[c := v], size, due[c := d], what[c := (v.func, v.arg)], local, lo, hi)
            && Scan(scanning, wheel[at := [c] + wheel[at]], due[c := d], if b == at then Some(c) else next, b, now)
  {
    LinkInsert(wheel, co, size, c, v);
    if scanning.Some? {
      NotListed(wheel, co, size, c, b);
    }
    hide Linked, Timed, Remembered, CursorOk;
    TimedInsert(co, due, lo, hi, c, v, d);
    RememberInsert(co, what, local, c, v);
    if scanning.Some? {
      CursorInsert(wheel, due, next, b, scanning.value, c, Bucket(v.time, size), d);
    }
  }

  lemma NotListed(wheel: Buckets, co: map<Id, Callout>, size: nat, c: Id, b: nat)
    requires Linked(wheel, co, size) && c in co && !co[c].pending && b < |wheel|
    ensures NoDup(wheel[b]) && c !in wheel[b]
  {
  }

  lemma TimedInsert(co: map<Id, Callout>, due: map<Id, int>, lo: int, hi: int, c: Id, v: Callout, d: int)
    requires Timed(co, due, lo, hi) && c in co && v.pending && v.time == Wrap(d) && lo <= d < hi
    ensures Timed(co[c := v], due[c := d], lo, hi)
  {
  }

  lemma RememberInsert(co: map<Id, Callout>, what: map<Id, Work>, local: set<Id>, c: Id, v: Callout)
    requires Remembered(co, what, local) && c in co && v.localAlloc == co[c].localAlloc
    ensures Remembered(co[c := v], what[c := (v.func, v.arg)], local)
  {
  }

  lemma RepRemove(wheel: Buckets, co: map<Id, Callout>, size: nat, due: map<Id, int>, what: map<Id, Work>,
                  local: set<Id>, lo: int, hi: int, c: Id, v: Callout,
                  scanning: Option<int>, next: Option<Id>, b: nat, now: int)
    requires Rep(wheel, co, size, due, what, local, lo, hi) && Scan(scanning, wheel, due, next, b, now)
    requires c in co && co[c].pending && !v.pending
    requires v.func == co[c].func && v.arg == co[c].arg && v.localAlloc == co[c].localAlloc
    ensures var at := Bucket(co[c].time, size);
            && c in wheel[at]
            && Rep(wheel[at := Remove(wheel[at], c)], co[c := v], size, due - {c}, what, local, lo, hi)
            && Scan(scanning, wheel[at := Remove(wheel[at], c)], due - {c},
                    if next == Some(c) then Succ(wheel[at], c) else next, b, now)
  {
    LinkRemove(wheel, co, size, c, v);
    if scanning.Some? {
      CursorRemove(wheel, due, next, b, scanning.value, c, Bucket(co[c].time, size));
    }
  }

  lemma RepForget(wheel: Buckets, co: map<Id, Callout>, size: nat, due: map<Id, int>, what: map<Id, Work>,
                  local: set<Id>, lo: int, hi: int, c: Id)
    requires Rep(wheel, co, size, due, what, local, lo, hi) && c in co && c in local
    ensures c in what
    ensures Rep(wheel, co[c := co[c].(func := NULL)], size, due, what[c := (NULL, what[c].1)], local, lo, hi)
  {
    var v := co[c].(func := NULL);
    assert Linked(wheel, co[c := v], size);
    hide Linked;
    assert Timed(co[c := v], due, lo, hi);
    hide Timed;
    RememberInsert(co, what, local, c, v);
  }

  lemma RepFacts(wheel: Buckets, co: map<Id, Callout>, size: nat, due: map<Id, int>, what: map<Id, Work>,
                 local: set<Id>, lo: int, hi: int, c: Id)
    requires Rep(wheel, co, size, due, what, local, lo, hi) && c in co
    ensures co[c].pending <==> c in due
    ensures co[c].localAlloc <==> c in local
    ensures c in what && what[c] == (co[c].func, co[c].arg)
  {
  }

  /** Members of a bucket, and how their 32-bit times compare with a tick of the current backlog. */
  lemma RepBucket(wheel: Buckets, co: map<Id, Callout>, size: nat, due: map<Id, int>, what: map<Id, Work>,
                  local: set<Id>, lo: int, hi: int, b: nat, c: Id, cur: int)
    requires Rep(wheel, co, size, due, what, local, lo, hi) && b < size && c in wheel[b]
    requires cur <= lo && hi - cur <= TWO32
    ensures c in co && co[c].pending && c in due && NoDup(wheel[b])
    ensures lo <= due[c]
    ensures co[c].time == Wrap(cur) <==> due[c] == cur
  {
    WrapInjective(due[c], cur);
  }

  /** A callout due at `cur` is found in the bucket of `cur`. */
  lemma RepFind(wheel: Buckets, co: map<Id, Callout>, size: nat, due: map<Id, int>, what: map<Id, Work>,
                local: set<Id>, lo: int, hi: int, cur: int)
    requires Rep(wheel, co, size, due, what, local, lo, hi)
    ensures |wheel| == size > 0
    ensures forall c :: c in due && due[c] == cur ==> c in wheel[Bucket(Wrap(cur), size)]
  {
  }

  lemma CursorStart(wheel: Buckets, due: map<Id, int>, b: nat, cur: int)
    requires b < |wheel|
    ensures CursorOk(wheel, due, if wheel[b] == [] then None else Some(wheel[b][0]), b, cur)
  {
    if wheel[b] != [] {
      assert Suffix(wheel[b], Some(wheel[b][0])) == wheel[b];
    }
  }

  /** Stepping over a callout that is not due loses nothing. */
  lemma CursorSkip(wheel: Buckets, due: map<Id, int>, c: Id, b: nat, cur: int)
    requires CursorOk(wheel, due, Some(c), b, cur) && NoDup(wheel[b])
    requires c in due ==> due[c] != cur
    ensures CursorOk(wheel, due, Succ(wheel[b], c), b, cur)
    ensures |Suffix(wheel[b], Succ(wheel[b], c))| < |Suffix(wheel[b], Some(c))|
  {
    var l, n := wheel[b], Succ(wheel[b], c);
    if n.Some? {
      assert IndexOf(l, n.value) == IndexOf(l, c) + 1;
      assert Suffix(l, Some(c)) == [c] + Suffix(l, n);
    } else {
      assert Suffix(l, Some(c)) == [c];
    }
  }

  /** When the cursor has left the bucket nothing due is pending any more. */
  lemma CursorEnd(wheel: Buckets, due: map<Id, int>, b: nat, cur: int)
    requires CursorOk(wheel, due, None, b, cur)
    requires forall c :: c in due && due[c] == cur ==> c in wheel[b]
    ensures forall c :: c in due ==> due[c] != cur
  {
  }

  /** The clock moves on: later expiries become possible, and a tick with nothing due is behind us. */
  lemma RepAdvance(wheel: Buckets, co: map<Id, Callout>, size: nat, due: map<Id, int>, what: map<Id, Work>,
                   local: set<Id>, lo: int, hi: int, lo': int, hi': int)
    requires Rep(wheel, co, size, due, what, local, lo, hi)
    requires hi <= hi' && lo <= lo'
    requires forall c :: c in due ==> !(lo <= due[c] < lo')
    ensures Rep(wheel, co, size, due, what, local, lo', hi')
  {
  }

  /** The signed 32-bit difference tells whether the scan lags, for a backlog below 2^31. */
  lemma TickBehind(soft: int, now: int)
    requires soft <= now < soft + TWO31
    ensures Wrap(Wrap(soft) - Wrap(now)) < 0 <==> soft < now
  {
    WrapAdd(soft, now);
  }

  function LocalIds(n: nat): (r: set<Id>)
    ensures forall c: nat :: c in r <==> c < n
  {
    if n == 0 then {} else LocalIds(n - 1) + {n - 1}
  }

  /** callout_cpu_init: the preallocated callouts, pushed one by one on the free list. */
  method Preallocate(ncallout: nat) returns (free: seq<Id>, co: map<Id, Callout>)
    ensures |free| == ncallout && forall i :: 0 <= i < ncallout ==> free[i] == ncallout - 1 - i
    ensures co.Keys == LocalIds(ncallout)
    ensures forall c :: c in co ==> co[c] == Callout(0, NULL, 0, false, false, true, Giant)
  {
    free, co := [], map[];
    for i := 0 to ncallout
      invariant |free| == i && forall k :: 0 <= k < i ==> free[k] == i - 1 - k
      invariant co.Keys == LocalIds(i)
      invariant forall c :: c in co ==> co[c] == Callout(0, NULL, 0, false, false, true, Giant)
    {
      co := co[i := Callout(0, NULL, 0, false, false, true, Giant)];
      free := [i] + free;
    }
  }

  /** callout_init and callout_init_lock for the clients' own callouts. */
  function Clients(locks: map<Id, Lock>): (co: map<Id, Callout>)
    ensures co.Keys == locks.Keys
  {
    map c | c in locks :: Callout(0, NULL, 0, false, false, false, locks[c])
  }

  lemma BootRep(co: map<Id, Callout>, size: nat, what: map<Id, Work>, local: set<Id>, lo: int, hi: int)
    requires size > 0
    requires what.Keys == co.Keys
    requires forall c :: c in co ==> !co[c].pending && what[c] == (co[c].func, co[c].arg) && (co[c].localAlloc <==> c in local)
    ensures Rep(seq(size, _ => []), co, size, map[], what, local, lo, hi)
  {
  }

  lemma BootBalanced(s: Sched, n: nat, local: set<Id>)
    requires local == LocalIds(n) && local <= s.what.Keys && s.due == map[]
    requires |s.free| == n && forall i :: 0 <= i < n ==> s.free[i] == n - 1 - i
    ensures Balanced(s, local, None) && forall c :: c in local ==> c in s.free
  {
    forall c | c in local ensures c in s.free { assert s.free[n - 1 - c] == c; }
  }

  // ---- The per-CPU state ----

  /** Handlers name callouts that exist: they reset and stop clients' callouts, and use handles for the others. */
  ghost predicate HandlersOk(handler: (nat, Id) -> seq<Cmd>, ids: set<Id>, local: set<Id>) {
    forall k, c, cmd :: cmd in handler(k, c) ==> WellFormed(ids, local, cmd)
  }

  lemma ScriptOk(handler: (nat, Id) -> seq<Cmd>, ids: set<Id>, local: set<Id>, k: nat, c: Id)
    requires HandlersOk(handler, ids, local)
    ensures forall cmd :: cmd in handler(k, c) ==> WellFormed(ids, local, cmd)
  {
  }

  class CalloutCpu {
    const size: nat                          // callwheelsize
    const ids: set<Id>
    const local: set<Id>                     // the ncallout preallocated ones
    const giantOwned: bool                   // answer of mtx_owned(&Giant)
    const handler: (nat, Id) -> seq<Cmd>     // calls made by the k-th handler invocation

    var ticks: int
    var softticks: int
    var wheel: Buckets
    var next: Option<Id>                     // cc_next
    var bucket: nat                          // cc_bucket
    var free: seq<Id>                        // cc_callfree
    var co: map<Id, Callout>
    var curr: seq<Option<Id>>                // cc_exec_entity[].cc_curr
    var cancel: seq<bool>                    // cc_exec_entity[].cc_cancel
    var invoked: nat
    var panicked: bool

    ghost var now: int                       // ticks, unbounded
    ghost var soft: int                      // softticks, unbounded
    ghost var due: map<Id, int>
    ghost var what: map<Id, Work>
    ghost var scanning: Option<int>          // tick whose bucket a handler is interrupting
    ghost var lo: int                        // no callout is due before this tick
    ghost var boot: Sched
    ghost var events: seq<Event>
    ghost var fired: seq<Firing>             // handlers run so far in the current tick

    /** callout_callwheel_init. Nothing is scheduled; the scan counter starts at 0. */
    constructor (ncallout: nat, locks: map<Id, Lock>, ticks0: nat, giantOwned: bool, handler: (nat, Id) -> seq<Cmd>)
      requires ncallout < TWO31 && ticks0 < TWO31 - 1
      requires forall c :: c in locks ==> c >= ncallout
      requires HandlersOk(handler, LocalIds(ncallout) + locks.Keys, LocalIds(ncallout))
      ensures Valid() && events == [] && !panicked
      ensures due == map[] && ticks == ticks0 && softticks == 0
      ensures local == LocalIds(ncallout) && ids == local + locks.Keys && this.handler == handler
      ensures forall c :: c in local ==> c in free
    {
      hide HandlersOk, WheelSize, Masked, Rep, Scan, Balanced, Wrap, Run, RunOk, Pow2, Fls, LocalIds;
      var f, pre := Preallocate(ncallout);
      WheelSizeOf(ncallout);
      var n := Pow2(Fls(ncallout));
      var all := pre + Clients(locks);
      ghost var w: map<Id, Work> := map c | c in all :: (NULL, 0);
      BootRep(all, n, w, pre.Keys, ticks0, ticks0 + TWO31);
      ScanNone(seq(n, _ => []), map[], None, 0, ticks0);
      ghost var s := Sched(ticks0, map[], f, w, false);
      BootBalanced(s, ncallout, pre.Keys);
      RunNone(s, pre.Keys + locks.Keys, pre.Keys);
      WrapSmall(ticks0);
      WrapSmall(0);
      size := n;
      wheel := seq(n, _ => []);
      local := pre.Keys;
      ids := pre.Keys + locks.Keys;
      co := all;
      free := f;
      this.giantOwned, this.handler := giantOwned, handler;
      ticks, softticks := ticks0, 0;
      next, bucket, curr, cancel, invoked, panicked := None, 0, [None, None], [false, false], 0, false;
      now, soft, lo := ticks0, 0, ticks0;
      due, what := map[], w;
      scanning, boot, events, fired := None, s, [], [];
    }

    ghost function Abs(): Sched
      reads this
    {
      Sched(now, due, free, what, panicked)
    }

    /** The wheel itself: lists, times, cursor, execution slots. */
    ghost predicate Wheel()
      reads this
    {
      && co.Keys == ids && local <= ids
      && 0 < size == |wheel| && WheelSize(size)
      && Rep(wheel, co, size, due, what, local, lo, now + TWO31)
      && Scan(scanning, wheel, due, next, bucket, now)
      && ticks == Wrap(now) && softticks == Wrap(soft) && soft <= now < soft + TWO31
      && now - 1 <= lo <= now
      && |curr| == 2 == |cancel| && curr[0].None?
      && (curr[1].Some? ==> curr[1].value in co && (co[curr[1].value].lock.NoLock? || cancel[1]))
      && HandlersOk(handler, ids, local)
    }

    ghost predicate Inner()
      reads this
    {
      Wheel() && Balanced(Abs(), local, curr[1])
    }

    /** callout_cc_add. */
    method CcAdd(c: Id, toTicks: int, func: Func, arg: Arg, direct: bool)
      requires Wheel() && c in ids && !co[c].pending
      requires 1 <= toTicks < TWO31
      modifies `co, `wheel, `next, `due, `what
      ensures Wheel()
      ensures due == old(due)[c := now + toTicks] && what == old(what)[c := (func, arg)]
    {
      hide HandlersOk, WheelSize, Masked, Rep, Scan, Wrap, Bucket;
      var v := co[c];
      v := v.(arg := arg, pending := true, direct := v.direct || direct, func := func, time := Wrap(ticks + toTicks));
      MaskIsBucket(v.time, size);
      var b := Masked(v.time, size);
      WrapAdd(now, toTicks);
      RepInsert(wheel, co, size, due, what, local, lo, now + TWO31, c, v, now + toTicks, scanning, next, bucket, now);
      co, wheel := co[c := v], wheel[b := [c] + wheel[b]];
      if bucket == b {
        next := Some(c);
      }
      due, what := due[c := now + toTicks], what[c := (func, arg)];
    }

    /** LIST_REMOVE of a pending callout, with the cursor repair both callers perform. */
    method Unlink(c: Id)
      requires Wheel() && c in ids && co[c].pending
      modifies `co, `wheel, `next, `due
      ensures Wheel() && co == old(co)[c := old(co[c]).(pending := false)]
      ensures due == old(due) - {c}
    {
      hide HandlersOk, WheelSize, Masked, Rep, Scan;
      var v := co[c].(pending := false);
      var b := Bucket(co[c].time, size);
      RepRemove(wheel, co, size, due, what, local, lo, now + TWO31, c, v, scanning, next, bucket, now);
      if next == Some(c) {
        next := Succ(wheel[b], c);
      }
      wheel := wheel[b := Remove(wheel[b], c)];
      co := co[c := v];
      due := due - {c};
    }

    /** callout_cc_del: a preallocated callout returns to the free list. */
    method CcDel(c: Id)
      requires Wheel() && c in ids
      modifies `co, `free, `what
      ensures Wheel() && Abs() == Release(old(Abs()), local, c)
    {
      hide HandlersOk, WheelSize, Masked, Rep, Scan;
      RepFacts(wheel, co, size, due, what, local, lo, now + TWO31, c);
      if !co[c].localAlloc {
        return;
      }
      RepForget(wheel, co, size, due, what, local, lo, now + TWO31, c);
      co := co[c := co[c].(func := NULL)];
      what := what[c := (NULL, what[c].1)];
      free := [c] + free;
    }

    /** callout_reset_tick_on. Returns whether a pending callout was rescheduled. */
    method Reset(c: Id, toTicks: int, func: Func, arg: Arg, direct: bool) returns (cancelled: bool)
      requires Wheel() && c in ids && -TWO31 <= toTicks < TWO31
      modifies `co, `wheel, `next, `due, `what
      ensures Wheel() && Abs() == Schedule(old(Abs()), c, toTicks, func, arg)
      ensures cancelled <==> c in old(due)
    {
      hide HandlersOk, WheelSize, Masked, Rep, Scan;
      RepFacts(wheel, co, size, due, what, local, lo, now + TWO31, c);
      cancelled := false;
      var slot := if direct then 1 else 0;
      // The branch that cancels a handler waiting for its lock is dead: such a handler has cc_cancel set.
      assert curr[slot] == Some(c) ==> co[c].lock.NoLock? || cancel[slot];
      if co[c].pending {
        Unlink(c);
        cancelled := true;
      }
      CcAdd(c, if toTicks <= 0 then 1 else toTicks, func, arg, direct);
      assert due == old(due)[c := now + Delay(toTicks)];
    }

    /** _callout_stop_safe without CS_DRAIN. */
    method Stop(c: Id) returns (r: int)
      requires Wheel() && c in ids
      modifies `co, `wheel, `next, `due, `what, `free
      ensures Wheel() && Abs() == Cancel(old(Abs()), local, c)
      ensures due == old(due) - {c}
      ensures r == if old(co[c].direct && curr[1] == Some(c)) then 0 else if c in old(due) then 1 else -1
    {
      hide HandlersOk, WheelSize, Masked, Rep, Scan;
      RepFacts(wheel, co, size, due, what, local, lo, now + TWO31, c);
      var useLock := co[c].lock.OtherLock? || (co[c].lock.Giant? && giantOwned);
      var slot := if co[c].direct then 1 else 0;
      assert curr[slot] == Some(c) ==> !useLock || cancel[slot];  // as in Reset
      r := if curr[slot] == Some(c) then 0 else 1;
      if !co[c].pending {
        if curr[slot] != Some(c) {
          r := -1;
        }
        return;
      }
      Unlink(c);
      CcDel(c);
    }

    /** timeout: a full table is a panic. */
    method Timeout(func: Func, arg: Arg, toTicks: int) returns (handle: Option<Id>)
      requires Inner() && !panicked && -TWO31 <= toTicks < TWO31
      modifies `co, `wheel, `next, `due, `what, `free, `panicked
      ensures Wheel() && Abs() == Exec(old(Abs()), local, Cmd.Timeout(func, arg, toTicks))
      ensures panicked <==> old(free) == []
      ensures handle == if old(free) == [] then None else Some(old(free)[0])
      ensures handle.Some? ==> handle.value !in old(due) && handle.value !in free
    {
      hide HandlersOk, WheelSize, Masked, Rep, Scan;
      if free == [] {
        panicked := true;
        return None;
      }
      var c := free[0];
      assert c in free;
      free := free[1..];
      var _ := Reset(c, toTicks, func, arg, false);
      handle := Some(c);
    }

    /** untimeout. */
    method Untimeout(func: Func, arg: Arg, handle: Option<Id>)
      requires Wheel() && !panicked && (handle.Some? ==> handle.value in local)
      modifies `co, `wheel, `next, `due, `what, `free
      ensures Wheel() && Abs() == Exec(old(Abs()), local, Cmd.Untimeout(func, arg, handle))
      ensures due == if handle.Some? && old(co[handle.value].func == func && co[handle.value].arg == arg)
                     then old(due) - {handle.value} else old(due)
    {
      hide HandlersOk, WheelSize, Masked, Rep, Scan;
      if handle.None? {
        return;
      }
      RepFacts(wheel, co, size, due, what, local, lo, now + TWO31, handle.value);
      if co[handle.value].func == func && co[handle.value].arg == arg {
        var _ := Stop(handle.value);
      }
    }

    method Do(cmd: Cmd)
      requires Inner() && WellFormed(ids, local, cmd)
      modifies `co, `wheel, `next, `due, `what, `free, `panicked
      ensures Inner() && Abs() == Exec(old(Abs()), local, cmd)
    {
      hide HandlersOk, WheelSize, Masked, Rep, Scan, Balanced;
      ExecBalanced(Abs(), ids, local, cmd, curr[1]);
      if panicked {
        return;
      }
      match cmd
      case Reset(c, n, f, a, direct) => var _ := Reset(c, n, f, a, direct);
      case Stop(c) => var _ := Stop(c);
      case Timeout(f, a, n) => var _ := Timeout(f, a, n);
      case Untimeout(f, a, h) => Untimeout(f, a, h);
    }

    /** The body of a handler: any finite script of calls. */
    method RunHandler(script: seq<Cmd>)
      requires Inner() && forall cmd :: cmd in script ==> WellFormed(ids, local, cmd)
      modifies `co, `wheel, `next, `due, `what, `free, `panicked
      ensures Inner() && Abs() == ExecAll(old(Abs()), local, script)
    {
      hide HandlersOk, WheelSize, Masked, Rep, Scan, Balanced;
      for i := 0 to |script|
        invariant Inner() && Abs() == ExecAll(old(Abs()), local, script[..i])
      {
        assert script[..i + 1][..i] == script[..i];
        Do(script[i]);
      }
      assert script[..|script|] == script;
    }

    /** Take an expired callout off its bucket: the start of softclock's second branch, with the flag change
        that opens softclock_call_cc. */
    method Detach(c: Id, ghost cur: int)
      requires Wheel() && curr[1].None?
      requires c in ids && co[c].pending && cur < now
      requires CursorOk(wheel, due, Some(c), Bucket(co[c].time, size), cur)
      modifies `co, `wheel, `next, `bucket, `due, `scanning
      ensures Wheel() && scanning == Some(cur)
      ensures bucket == old(Bucket(co[c].time, size))
      ensures due == old(due) - {c}
    {
      hide HandlersOk, WheelSize, Masked, Rep, Scan, CursorOk, Remove, Succ, Wrap;
      var was := co[c];
      MaskIsBucket(was.time, size);
      var b := Masked(was.time, size);
      var v := if was.localAlloc then was.(pending := false, direct := false) else was.(pending := false);
      ScanMake(cur, wheel, due, Some(c), b, now);
      RepRemove(wheel, co, size, due, what, local, lo, now + TWO31, c, v, Some(cur), Some(c), b, now);
      hide Bucket;
      next, bucket, wheel, co := Succ(wheel[b], c), b, wheel[b := Remove(wheel[b], c)], co[c := v];
      due, scanning := due - {c}, Some(cur);
    }

    /** Make it the running callout. The no-op lock leaves cc_cancel clear, so the handler is never skipped;
        cc_cancel is then set for a locked handler. */
    method Begin(c: Id, ghost cur: int)
      requires Inner() && !panicked && curr[1].None? && scanning.None?
      requires c in ids && co[c].pending && c in due && due[c] == cur < now
      requires CursorOk(wheel, due, Some(c), Bucket(co[c].time, size), cur)
      modifies `co, `wheel, `next, `bucket, `due, `curr, `cancel, `scanning
      ensures Inner() && curr[1] == Some(c) && scanning == Some(cur)
      ensures bucket == old(Bucket(co[c].time, size))
      ensures Abs() == old(Abs()).(due := old(due) - {c})
    {
      hide HandlersOk, WheelSize, Masked, Rep, Scan, Balanced, CursorOk, Wrap;
      StartBalanced(Abs(), local, c);
      Detach(c, cur);
      curr := curr[1 := Some(c)];
      cancel := cancel[1 := !co[c].lock.NoLock?];
    }

    /** The end of softclock_call_cc. */
    method Finish(c: Id)
      requires Inner() && !panicked && curr[1] == Some(c)
      modifies `co, `free, `what, `curr, `scanning
      ensures Inner() && curr[1].None? && scanning.None?
      ensures Abs() == Release(old(Abs()), local, c)
    {
      hide HandlersOk, WheelSize, Masked, Rep, Scan, Balanced;
      ReleaseBalanced(Abs(), local, c);
      curr := curr[1 := None];
      scanning := None;
      assert Wheel() by { ScanNone(wheel, due, next, bucket, now); }
      CcDel(c);
    }

    /** The run of one expired callout. */
    method SoftclockCall(c: Id, ghost cur: int)
      requires Inner() && !panicked && curr[1].None? && scanning.None?
      requires c in ids && co[c].pending && c in due && due[c] == cur < now
      requires CursorOk(wheel, due, Some(c), Bucket(co[c].time, size), cur)
      modifies `co, `wheel, `next, `bucket, `due, `what, `free, `panicked, `curr, `cancel, `invoked, `scanning, `fired
      ensures Inner() && scanning.None?
      ensures c in old(what) && fired == old(fired) + [Firing(c, old(what[c]), handler(old(invoked), c))]
      ensures Abs() == Fire(old(Abs()), local, Firing(c, old(what[c]), handler(old(invoked), c)))
      ensures !panicked ==> curr[1].None? && CursorOk(wheel, due, next, old(Bucket(co[c].time, size)), cur)
    {
      hide HandlersOk, WheelSize, Masked, Rep, Scan, Balanced, CursorOk;
      Begin(c, cur);
      Invoke(c);
      if panicked {
        scanning := None;
        ScanNone(wheel, due, next, bucket, now);
        return;
      }
      ScanSome(cur, wheel, due, next, bucket, now);
      Finish(c);
    }

    /** Calls the handler the callout holds, with the argument it holds. */
    method Invoke(c: Id)
      requires Inner() && c in ids
      modifies `co, `wheel, `next, `due, `what, `free, `panicked, `invoked, `fired
      ensures Inner()
      ensures c in old(what) && fired == old(fired) + [Firing(c, old(what[c]), handler(old(invoked), c))]
      ensures Abs() == ExecAll(old(Abs()), local, handler(old(invoked), c))
    {
      hide HandlersOk, WheelSize, Masked, Rep, Scan, Balanced, ExecAll;
      RepFacts(wheel, co, size, due, what, local, lo, now + TWO31, c);
      var work := (co[c].func, co[c].arg);
      var script := handler(invoked, c);
      ScriptOk(handler, ids, local, invoked, c);
      invoked := invoked + 1;
      fired := fired + [Firing(c, work, script)];
      RunHandler(script);
    }

    /** Idle between handlers of a tick that started in `base`. */
    ghost predicate Ticking(base: Sched)
      reads this
    {
      && Inner() && scanning.None? && (panicked || curr[1].None?)
      && MayFireAll(base, ids, local, fired) && Abs() == FireAll(base, local, fired)
      && base.now == now
    }

    /** One expired callout inside a tick; `at` is where the scan resumes. */
    method Expire(c: Id, b: nat, ghost cur: int, ghost base: Sched) returns (at: Option<Id>)
      requires Ticking(base) && !panicked
      requires c in ids && co[c].pending && c in due && due[c] == cur == now - 1 && b == Bucket(co[c].time, size)
      requires CursorOk(wheel, due, Some(c), b, cur)
      modifies `co, `wheel, `next, `bucket, `due, `what, `free, `panicked, `curr, `cancel, `invoked, `scanning, `fired
      ensures Ticking(base)
      ensures DueAt(due, cur) < old(DueAt(due, cur))
      ensures !panicked ==> CursorOk(wheel, due, at, b, cur)
    {
      hide HandlersOk, WheelSize, Masked, Rep, Scan, Balanced, CursorOk, Wrap, FireAll, MayFireAll, DueAt, Fire;
      RepFacts(wheel, co, size, due, what, local, lo, now + TWO31, c);
      ghost var s, f := Abs(), Firing(c, what[c], handler(invoked, c));
      ScriptOk(handler, ids, local, invoked, c);
      assert MayFire(s, ids, local, f);
      FireAppend(base, ids, local, fired, f);
      FireShrinks(s, ids, local, f);
      SoftclockCall(c, cur);
      at := next;
      if !panicked {
        next := None;
        ScanNone(wheel, due, next, bucket, now);
      }
    }

    /** softclock's inner loop: scan bucket `curticks`. It ends because each handler leaves fewer callouts due
        at this tick, and between handlers the cursor advances. */
    method ScanBucket(curticks: int, ghost cur: int, ghost base: Sched)
      requires Ticking(base) && !panicked
      requires cur == soft - 1 && cur < now && curticks == Wrap(cur)
      modifies `co, `wheel, `next, `bucket, `due, `what, `free, `panicked, `curr, `cancel, `invoked, `scanning, `fired
      ensures Ticking(base)
      ensures panicked || forall c :: c in due ==> due[c] != cur
    {
      hide HandlersOk, WheelSize, Masked, Rep, Scan, Balanced, CursorOk, Wrap, FireAll, MayFireAll, DueAt, Suffix, Succ;
      MaskIsBucket(curticks, size);
      var b := Masked(curticks, size);
      CursorStart(wheel, due, b, cur);
      var at := if wheel[b] == [] then None else Some(wheel[b][0]);
      while at.Some?
        invariant Ticking(base) && !panicked
        invariant at.Some? ==> at.value in wheel[b]
        invariant CursorOk(wheel, due, at, b, cur)
        decreases DueAt(due, cur), |Suffix(wheel[b], at)|
      {
        var c := at.value;
        RepBucket(wheel, co, size, due, what, local, lo, now + TWO31, b, c, cur);
        if co[c].time != curticks {
          CursorSkip(wheel, due, c, b, cur);
          at := Succ(wheel[b], c);
        } else {
          at := Expire(c, b, cur, base);
          if panicked {
            return;
          }
          CursorMember(wheel, due, at, b, cur);
        }
      }
      RepFind(wheel, co, size, due, what, local, lo, now + TWO31, cur);
      CursorEnd(wheel, due, b, cur);
    }

    /** softclock. */
    method Softclock(ghost base: Sched)
      requires Ticking(base) && !panicked && (soft == now ==> NoneDue(Abs()))
      modifies `co, `wheel, `next, `bucket, `due, `what, `free, `panicked, `curr, `cancel, `invoked, `scanning, `fired, `softticks, `soft
      ensures Ticking(base) && (panicked || (soft == now && NoneDue(Abs())))
    {
      hide HandlersOk, WheelSize, Masked, Rep, Scan, Balanced, CursorOk, Wrap, FireAll, MayFireAll;
      WrapInjective(soft, now);
      while softticks != ticks
        invariant Ticking(base) && !panicked && (soft == now ==> NoneDue(Abs()))
        invariant softticks != ticks <==> soft != now
        decreases now - soft
      {
        var curticks := softticks;
        WrapAdd(soft, 1);
        WrapInjective(soft + 1, now);
        softticks := Wrap(softticks + 1);
        soft := soft + 1;
        ScanBucket(curticks, soft - 1, base);
        if panicked {
          return;
        }
      }
    }

    /** callout_tick: skip empty buckets without running softclock. */
    method CalloutTick(ghost base: Sched)
      requires Ticking(base) && !panicked && soft < now
      modifies `co, `wheel, `next, `bucket, `due, `what, `free, `panicked, `curr, `cancel, `invoked, `scanning, `fired, `softticks, `soft
      ensures Ticking(base) && (panicked || (soft == now && NoneDue(Abs())))
    {
      hide HandlersOk, WheelSize, Masked, Rep, Scan, Balanced, CursorOk, Wrap, FireAll, MayFireAll;
      var needSoftclock := false;
      TickBehind(soft, now);
      while Wrap(softticks - ticks) < 0
        invariant Ticking(base) && !panicked && (soft == now ==> NoneDue(Abs()))
        invariant Wrap(softticks - ticks) < 0 <==> soft < now
        decreases now - soft
      {
        MaskIsBucket(softticks, size);
        var b := Masked(softticks, size);
        if wheel[b] != [] {
          needSoftclock := true;
          break;
        }
        SkipBucket(base);
      }
      if needSoftclock {
        Softclock(base);
      }
    }

    /** Leaves an empty bucket behind. */
    method SkipBucket(ghost base: Sched)
      requires Ticking(base) && !panicked && soft < now && wheel[Bucket(softticks, size)] == []
      modifies `softticks, `soft
      ensures Ticking(base) && soft == old(soft) + 1
      ensures Wrap(softticks - ticks) < 0 <==> soft < now
      ensures soft == now ==> NoneDue(Abs())
    {
      hide HandlersOk, WheelSize, Masked, Rep, Scan, Balanced, CursorOk, Wrap, FireAll, MayFireAll, Bucket;
      RepFind(wheel, co, size, due, what, local, lo, now + TWO31, soft);
      WrapAdd(soft, 1);
      TickBehind(soft + 1, now);
      softticks := Wrap(softticks + 1);
      soft := soft + 1;
    }

    /** Between calls: the concrete state is the abstract schedule reached by a legal history. */
    ghost predicate Valid()
      reads this
    {
      && Inner() && Balanced(boot, local, None)
      && RunOk(boot, ids, local, events) && Abs() == Run(boot, local, events)
      && (!panicked ==> curr[1].None? && scanning.None? && lo == now && now - soft < TWO31 - 1)
    }

    /** atomic_add_int(&ticks, 1). */
    method Advance()
      requires Inner() && !panicked && curr[1].None? && scanning.None? && lo == now && now - soft < TWO31 - 1
      modifies `ticks, `now, `fired
      ensures Ticking(old(Abs()).(now := now)) && now == old(now) + 1 && ticks == Wrap(old(ticks) + 1)
    {
      hide HandlersOk, WheelSize, Masked, Rep, Scan, Balanced, Wrap, FireAll, MayFireAll;
      ghost var s := Abs();
      FireNone(s.(now := s.now + 1), ids, local);
      RepAdvance(wheel, co, size, due, what, local, lo, now + TWO31, lo, now + 1 + TWO31);
      WrapAdd(now, 1);
      ScanNone(wheel, due, next, bucket, now + 1);
      BalancedNow(s, local, s.now + 1);
      fired := [];
      ticks := Wrap(ticks + 1);
      now := now + 1;
    }

    /** Record the tick just finished. */
    ghost method Record(s: Sched)
      requires Inner() && RunOk(boot, ids, local, events) && s == Run(boot, local, events) && !s.panicked
      requires Balanced(boot, local, None) && Ticking(s.(now := s.now + 1))
      requires panicked || (soft == now && NoneDue(Abs()))
      modifies `events, `lo
      ensures Valid() && events == old(events) + [Tick(fired)]
    {
      hide HandlersOk, WheelSize, Masked, Rep, Scan, Balanced, Wrap, FireAll, MayFireAll, RunOk, Run;
      RunAppend(boot, ids, local, events, Tick(fired));
      events := events + [Tick(fired)];
      if !panicked {
        RepAdvance(wheel, co, size, due, what, local, lo, now + TWO31, now, now + TWO31);
        lo := now;
      }
    }

    /** ff_hardclock: one clock tick. */
    method Hardclock()
      requires Valid()
      modifies this
      ensures Valid()
      ensures exists fs :: events == old(events) + [Tick(fs)]
      ensures !panicked ==> softticks == ticks == Wrap(old(ticks) + 1)
    {
      hide HandlersOk, WheelSize, Masked, Rep, Scan, Balanced, CursorOk, Wrap, FireAll, MayFireAll, RunOk, Run;
      if panicked {
        RunAppend(boot, ids, local, events, Tick([]));
        events := events + [Tick([])];
        return;
      }
      ghost var s := Abs();
      Advance();
      CalloutTick(s.(now := s.now + 1));
      Record(s);
    }

    /** A call from outside any handler. */
    method Call(cmd: Cmd)
      requires Valid() && WellFormed(ids, local, cmd)
      modifies this
      ensures Valid()
      ensures events == old(events) + [Event.Call(cmd)]
      ensures ticks == old(ticks) && softticks == old(softticks)
    {
      hide HandlersOk, WheelSize, Masked, Rep, Scan, Balanced, CursorOk, Wrap, RunOk, Run, Exec;
      RunAppend(boot, ids, local, events, Event.Call(cmd));
      ExecPanicked(Abs(), local, cmd);
      Do(cmd);
      events := events + [Event.Call(cmd)];
    }
  }
}
