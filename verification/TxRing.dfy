/** The transmit ring that keeps BSD mbufs alive until the card has sent them: it has one slot for each of the card's
    descriptors, and an mbuf is freed when its slot comes round again. */
module TxRing {
  const TX_QUEUE_SIZE := 512
  const NULL := 0

  type Ptr = nat                          // address of an mbuf, or NULL

  /** The descriptors one packet takes: the mbuf goes with the last of its segments. */
  function Descriptors(p: Ptr, segments: int): (d: seq<Ptr>)
    ensures |d| >= 1 && d[|d| - 1] == p && forall i :: 0 <= i < |d| - 1 ==> d[i] == NULL
    ensures segments >= 1 ==> |d| == segments
  {
    seq(if segments > 1 then segments - 1 else 0, _ => NULL) + [p]
  }

  function NonNull(s: seq<Ptr>): (r: seq<Ptr>)
    ensures |r| <= |s| && forall p :: p in r <==> p in s && p != NULL
  {
    if s == [] then [] else
    var r := NonNull(s[..|s| - 1]);
    if s[|s| - 1] == NULL then r else r + [s[|s| - 1]]
  }

  /** How many of n descriptors have had their slot reused. */
  function Reused(n: nat): (k: nat) { if n <= TX_QUEUE_SIZE then 0 else n - TX_QUEUE_SIZE }

  lemma {:induction false} NonNullAppend(s: seq<Ptr>, t: seq<Ptr>)
    ensures NonNull(s + t) == NonNull(s) + NonNull(t)
  {
    if t == [] {
      assert s + t == s;
    } else {
      var n := |t| - 1;
      assert (s + t)[..|s + t| - 1] == s + t[..n];
      NonNullAppend(s, t[..n]);
    }
  }

  /** The slots hold the latest TX_QUEUE_SIZE descriptors. */
  ghost predicate Holds(t: seq<Ptr>, history: seq<Ptr>) {
    && |t| == TX_QUEUE_SIZE
    && (forall d :: Reused(|history|) <= d < |history| ==> t[d % TX_QUEUE_SIZE] == history[d])
    && (forall k :: |history| <= k < TX_QUEUE_SIZE ==> t[k] == NULL)
  }

  class Ring {
    const table: array<Ptr>               // m_table
    var head: nat
    ghost var history: seq<Ptr>           // the mbuf of every descriptor used so far
    ghost var freed: seq<Ptr>             // the mbufs given to ff_mbuf_free, in order

    /** The slots hold the latest TX_QUEUE_SIZE descriptors, and exactly the mbufs of the older ones have been freed, once
        each and in order. */
    ghost predicate Valid()
      reads this, table
    {
      && Holds(table[..], history) && head == |history| % TX_QUEUE_SIZE
      && freed == NonNull(history[..Reused(|history|)])
    }

    constructor ()
      ensures Valid() && history == [] && fresh(table)
    {
      table := new Ptr[TX_QUEUE_SIZE](_ => NULL);
      head, history, freed := 0, [], [];
    }

    /** One descriptor: free what the slot holds, put p in its place, move on. */
    method Advance(p: Ptr)
      requires Valid()
      modifies this, table
      ensures Valid() && history == old(history) + [p]
    {
      ghost var was := table[..];
      SlotHolds(history, was, p);
      FreedNext(history, p);
      NextSlot(|history|);
      hide NonNull, Holds, Reused, Outgoing;
      if table[head] != NULL {
        freed := freed + [table[head]];
      }
      table[head] := p;
      assert table[..] == was[head := p];
      head := head + 1;
      if head >= TX_QUEUE_SIZE {
        head := 0;
      }
      history := history + [p];
    }

    /** Nothing is lost and nothing is freed twice: what has been freed and what the slots hold is all that was put in. */
    lemma Conserved()
      requires Valid()
      ensures multiset(freed) + multiset(NonNull(table[..])) == multiset(NonNull(history))
    {
      Conservation(table[..], history);
    }

    /** The mbuf of a descriptor is freed exactly when TX_QUEUE_SIZE more descriptors have been used after it; until then
        it is in its slot. An address that is used again counts anew. */
    lemma FreedWhenReached(d: nat)
      requires Valid() && d < |history| && history[d] != NULL
      ensures var n := |NonNull(history[..d])|;
              && (n < |freed| <==> d + TX_QUEUE_SIZE < |history|)
              && (n < |freed| ==> freed[n] == history[d])
              && (n >= |freed| ==> table[d % TX_QUEUE_SIZE] == history[d])
    {
      FreedNumber(history, d, Reused(|history|));
    }

    /** ff_txring_enqueue, through ff_enq_tx_bsdmbuf. */
    method Enqueue(p: Ptr, segments: int)
      requires Valid()
      modifies this, table
      ensures Valid() && history == old(history) + Descriptors(p, segments)
    {
      ghost var all := Descriptors(p, segments);
      var i := 0;
      while i < segments - 1
        invariant 0 <= i < |all| && (segments >= 1 ==> i <= segments - 1)
        invariant Valid() && history == old(history) + all[..i]
      {
        Advance(NULL);
        i := i + 1;
      }
      assert all == all[..i] + [p];
      Advance(p);
    }
  }

  /** What the slot of the next descriptor holds. */
  function Outgoing(history: seq<Ptr>): (p: Ptr) {
    if |history| < TX_QUEUE_SIZE then NULL else history[|history| - TX_QUEUE_SIZE]
  }

  lemma SlotHolds(history: seq<Ptr>, t: seq<Ptr>, p: Ptr)
    requires Holds(t, history)
    ensures |t| == TX_QUEUE_SIZE && t[|history| % TX_QUEUE_SIZE] == Outgoing(history)
    ensures Holds(t[|history| % TX_QUEUE_SIZE := p], history + [p])
  {
    Oldest(|history|);
    var d := |history| - TX_QUEUE_SIZE;
    if d >= 0 { assert t[d % TX_QUEUE_SIZE] == history[d]; }
  }

  lemma NextSlot(n: nat)
    ensures (n + 1) % TX_QUEUE_SIZE == if n % TX_QUEUE_SIZE + 1 >= TX_QUEUE_SIZE then 0 else n % TX_QUEUE_SIZE + 1
  {
  }

  lemma FreedNext(history: seq<Ptr>, p: Ptr)
    ensures NonNull((history + [p])[..Reused(|history| + 1)])
         == NonNull(history[..Reused(|history|)]) + if Outgoing(history) != NULL then [Outgoing(history)] else []
  {
    var k, h := Reused(|history|), history + [p];
    if |history| < TX_QUEUE_SIZE {
      assert h[..0] == history[..0];
    } else {
      assert h[..k + 1][..k] == history[..k];
    }
  }

  /** Slots of different descriptors among the latest TX_QUEUE_SIZE are different. */
  lemma Oldest(n: nat)
    ensures forall d :: n < d + TX_QUEUE_SIZE && 0 <= d < n ==> d % TX_QUEUE_SIZE != n % TX_QUEUE_SIZE
    ensures n >= TX_QUEUE_SIZE ==> (n - TX_QUEUE_SIZE) % TX_QUEUE_SIZE == n % TX_QUEUE_SIZE
  {
  }

  /** The slots of a full ring are the latest descriptors, from some slot on and round to it. */
  lemma Rotation(t: seq<Ptr>, history: seq<Ptr>)
    requires Holds(t, history) && |history| > TX_QUEUE_SIZE
    ensures var w, s := history[Reused(|history|)..], Reused(|history|) % TX_QUEUE_SIZE;
            |w| == TX_QUEUE_SIZE && t == w[TX_QUEUE_SIZE - s..] + w[..TX_QUEUE_SIZE - s]
  {
    var k := Reused(|history|);
    var w, s := history[k..], k % TX_QUEUE_SIZE;
    forall j | 0 <= j < TX_QUEUE_SIZE ensures t[j] == (w[TX_QUEUE_SIZE - s..] + w[..TX_QUEUE_SIZE - s])[j] {
      var d := if j >= s then k + j - s else k + j - s + TX_QUEUE_SIZE;
      SlotOf(k, j);
      assert t[d % TX_QUEUE_SIZE] == history[d];
    }
  }

  lemma SlotOf(k: nat, j: nat)
    requires j < TX_QUEUE_SIZE
    ensures var s := k % TX_QUEUE_SIZE;
            (if j >= s then k + j - s else k + j - s + TX_QUEUE_SIZE) % TX_QUEUE_SIZE == j
  {
  }

  lemma {:induction false} NoMbufs(n: nat)
    ensures NonNull(seq(n, _ => NULL)) == []
  {
    if n != 0 {
      NoMbufs(n - 1);
      assert seq(n, _ => NULL)[..n - 1] == seq(n - 1, _ => NULL);
    }
  }

  /** The ring holds exactly the mbufs of the latest descriptors. */
  lemma HeldMbufs(t: seq<Ptr>, history: seq<Ptr>)
    requires Holds(t, history)
    ensures multiset(NonNull(t)) == multiset(NonNull(history[Reused(|history|)..]))
  {
    var w := history[Reused(|history|)..];
    if |history| <= TX_QUEUE_SIZE {
      var n := TX_QUEUE_SIZE - |history|;
      assert forall d :: 0 <= d < |history| ==> d % TX_QUEUE_SIZE == d;
      assert t == history + seq(n, _ => NULL) && w == history;
      NonNullAppend(history, seq(n, _ => NULL));
      NoMbufs(n);
    } else {
      Rotation(t, history);
      var m := TX_QUEUE_SIZE - Reused(|history|) % TX_QUEUE_SIZE;
      hide Holds;
      assert w == w[..m] + w[m..];
      NonNullAppend(w[..m], w[m..]);
      NonNullAppend(w[m..], w[..m]);
    }
  }

  lemma Conservation(t: seq<Ptr>, history: seq<Ptr>)
    requires Holds(t, history)
    ensures multiset(NonNull(history[..Reused(|history|)])) + multiset(NonNull(t)) == multiset(NonNull(history))
  {
    HeldMbufs(t, history);
    hide Holds;
    var k := Reused(|history|);
    assert history == history[..k] + history[k..];
    NonNullAppend(history[..k], history[k..]);
  }

  /** The mbuf of descriptor d is, among the mbufs put in, number |NonNull(history[..d])|; whether the freed list has come
      to that number depends on d alone. */
  lemma FreedNumber(history: seq<Ptr>, d: nat, k: nat)
    requires d < |history| && history[d] != NULL && k <= |history|
    ensures var n, freed := |NonNull(history[..d])|, NonNull(history[..k]);
            (n < |freed| <==> d < k) && (d < k ==> freed[n] == history[d])
  {
    if d < k {
      assert history[..k] == history[..d] + [history[d]] + history[d + 1..k];
      NonNullAppend(history[..d] + [history[d]], history[d + 1..k]);
      NonNullAppend(history[..d], [history[d]]);
      assert [history[d]][..0] == [];
      assert NonNull([history[d]]) == [history[d]];
    } else {
      assert history[..d] == history[..k] + history[k..d];
      NonNullAppend(history[..k], history[k..d]);
    }
  }
}
