/** Which process owns a flow: the port's queues are dealt to processes by lcore, the card spreads flows over the queues
    through its indirection table, and every process decides by itself, from the Toeplitz hash, whether a flow is its
    own. */
module Flow {
  import opened Bits
  import opened Common
  import opened Lcores
  import opened Toeplitz

  const RTE_RETA_GROUP_SIZE := 64

  /** The queue of an lcore: the last place in the port's list that names it. */
  method QueueOf(lcoreList: seq<nat>, lcore: nat) returns (queue: int)
    ensures queue == Queue(lcoreList, lcore)
  {
    queue := -1;
    for i := 0 to |lcoreList|
      invariant queue == Queue(lcoreList[..i], lcore)
    {
      assert lcoreList[..i + 1][..i] == lcoreList[..i];
      if lcoreList[i] == lcore {
        queue := i;
      }
    }
    assert lcoreList[..|lcoreList|] == lcoreList;
  }

  function Queue(lcoreList: seq<nat>, lcore: nat): (queue: int)
    ensures queue == -1 <==> lcore !in lcoreList
    ensures queue != -1 ==> 0 <= queue < |lcoreList| && lcoreList[queue] == lcore
    ensures forall i :: queue < i < |lcoreList| ==> lcoreList[i] != lcore
  {
    if lcoreList == [] then -1
    else if lcoreList[|lcoreList| - 1] == lcore then |lcoreList| - 1
    else Queue(lcoreList[..|lcoreList| - 1], lcore)
  }

  /** Entries in whole groups, at least one. */
  function TableSize(reta: nat): (n: nat) {
    if reta == 0 then 0
    else RTE_RETA_GROUP_SIZE * if reta < RTE_RETA_GROUP_SIZE then 1 else reta / RTE_RETA_GROUP_SIZE
  }

  /** set_rss_table: the entries given to the card. */
  method SetRssTable(reta: nat, queues: nat) returns (table: array<nat>)
    requires queues > 0
    ensures table.Length == TableSize(reta) && forall k :: 0 <= k < table.Length ==> table[k] == k % queues
  {
    var groups := if reta / RTE_RETA_GROUP_SIZE > 1 then reta / RTE_RETA_GROUP_SIZE else 1;
    table := new nat[if reta == 0 then 0 else RTE_RETA_GROUP_SIZE * groups];
    if reta == 0 {
      return;
    }
    var hash := 0;
    for i := 0 to groups
      invariant hash == RTE_RETA_GROUP_SIZE * i
      invariant forall k :: 0 <= k < hash ==> table[k] == k % queues
    {
      for j := 0 to RTE_RETA_GROUP_SIZE
        invariant hash == RTE_RETA_GROUP_SIZE * i + j
        invariant forall k :: 0 <= k < hash ==> table[k] == k % queues
      {
        table[RTE_RETA_GROUP_SIZE * i + j] := hash % queues;
        hash := hash + 1;
      }
    }
  }

  datatype Tuple = Tuple(saddr: seq<Byte>, daddr: seq<Byte>, sport: seq<Byte>, dport: seq<Byte>) {
    predicate Ok() { |saddr| == |daddr| == 4 && |sport| == |dport| == 2 }
    function Data(): (d: seq<Byte>) { saddr + daddr + sport + dport }
  }

  function HashOf(key: seq<Byte>, t: Tuple): (h: nat) {
    Windows(key, BitsOf(t.Data()), 0)
  }

  /** ff_rss_check at the process that serves `queue` of a port with `queues` queues. */
  method RssCheck(key: seq<Byte>, reta: nat, queues: nat, queue: nat, t: Tuple) returns (mine: bool)
    requires |key| >= 4 && t.Ok()
    ensures mine <==> Claims(key, reta, queues, queue, t)
  {
    if queues <= 1 {
      return true;
    }
    var hash := ToeplitzHash(key, t.Data());
    // a table of size 0 leaves the whole hash: the mask is then all ones
    var index := if reta == 0 then hash else And(hash, reta - 1);
    mine := index % queues == queue;
  }

  predicate Claims(key: seq<Byte>, reta: nat, queues: nat, queue: nat, t: Tuple) {
    queues <= 1 || (if reta == 0 then HashOf(key, t) else And(HashOf(key, t), reta - 1)) % queues == queue
  }

  /** The receive-side-scaling hash of an IPv4 flow, field by field: source address at key bit 0, destination address at
      bit 32, source port at bit 64 and destination port at bit 80. */
  function CardHash(key: seq<Byte>, t: Tuple): (h: nat) {
    Xor(Xor(Windows(key, BitsOf(t.saddr), 0), Windows(key, BitsOf(t.daddr), 32)),
        Xor(Windows(key, BitsOf(t.sport), 64), Windows(key, BitsOf(t.dport), 80)))
  }

  /** The queue the card puts the flow on: the table entry that the low bits of its hash select. */
  function CardQueue(key: seq<Byte>, table: seq<nat>, reta: nat, t: Tuple): (q: nat)
    requires 0 < reta <= |table|
  {
    table[CardHash(key, t) % reta]
  }

  /** The process hashes each field where the card does. */
  lemma HashFields(key: seq<Byte>, t: Tuple)
    requires t.Ok()
    ensures HashOf(key, t) == CardHash(key, t)
  {
    hide Windows, BitsOf, Xor;
    var addrs, ports := t.saddr + t.daddr, t.sport + t.dport;
    assert t.Data() == addrs + ports;
    HashAppend(key, addrs, ports, 0);
    HashAppend(key, t.saddr, t.daddr, 0);
    HashAppend(key, t.sport, t.dport, 64);
  }

  /** What init_lcore_conf gives the process with number `proc`. */
  predicate Serves(lcoreList: seq<nat>, procLcore: seq<nat>, proc: nat) {
    proc < |procLcore| && Queue(lcoreList, procLcore[proc]) >= 0
  }

  function QueueAt(lcoreList: seq<nat>, procLcore: seq<nat>, proc: nat): (q: nat)
    requires Serves(lcoreList, procLcore, proc)
    ensures q < |lcoreList| && lcoreList[q] == procLcore[proc]
  {
    Queue(lcoreList, procLcore[proc])
  }

  /** The size the driver reports is asserted to be a power of two; the table then has that many entries. */
  lemma TableCovers(reta: nat)
    requires reta > 0 && And(reta, reta - 1) == 0
    ensures IsPow2(reta) && reta <= TableSize(reta)
  {
    Pow2Test(reta);
    var k: nat :| reta == Pow2(k);
    hide And;
    if k >= 6 {
      Pow2Split(6, k - 6);
      assert Pow2(6) == 64;
      hide Pow2;
      WholeGroups(Pow2(k - 6));
    } else {
      Pow2Order(k, 6);
      assert Pow2(6) == 64;
    }
  }

  lemma WholeGroups(m: nat)
    requires m > 0
    ensures TableSize(64 * m) == 64 * m
  {
    assert (64 * m) / 64 == m;
  }

  /** The process-side answer is the card's placement. */
  lemma ClaimsIsPlacement(key: seq<Byte>, reta: nat, table: seq<nat>, queues: nat, queue: nat, t: Tuple)
    requires 0 < reta <= |table| && IsPow2(reta) && 0 <= queue < queues && t.Ok()
    requires forall k :: 0 <= k < |table| ==> table[k] == k % queues
    ensures Claims(key, reta, queues, queue, t) <==> CardQueue(key, table, reta, t) == queue
  {
    var k: nat :| reta == Pow2(k);
    var h := HashOf(key, t);
    AndMask(h, k);
    HashFields(key, t);
    hide HashOf, CardHash, And, Pow2;
    assert table[h % reta] == (h % reta) % queues;
    if queues == 1 { assert (h % reta) % 1 == 0; }
  }

  /** The number of the process that owns the flow. */
  lemma OwnerExists(lcoreList: seq<nat>, procLcore: seq<nat>, q: nat) returns (proc: nat)
    requires NoDup(lcoreList) && q < |lcoreList| && lcoreList[q] in procLcore
    ensures Serves(lcoreList, procLcore, proc) && QueueAt(lcoreList, procLcore, proc) == q
  {
    proc :| proc < |procLcore| && procLcore[proc] == lcoreList[q];
    var l := Queue(lcoreList, procLcore[proc]);
    assert lcoreList[l] == lcoreList[q];
  }

  /** Exactly one process of the port claims each flow, and it is the one whose queue the card puts the flow on. */
  lemma ExactlyOneOwner(key: seq<Byte>, reta: nat, table: seq<nat>, lcoreList: seq<nat>, procLcore: seq<nat>, t: Tuple)
    returns (owner: nat)
    requires NoDup(lcoreList) && Increasing(procLcore) && lcoreList != [] && t.Ok()
    requires forall k :: 0 <= k < |lcoreList| ==> lcoreList[k] in procLcore
    requires 0 < reta <= |table| && IsPow2(reta) && forall k :: 0 <= k < |table| ==> table[k] == k % |lcoreList|
    ensures Serves(lcoreList, procLcore, owner)
    ensures QueueAt(lcoreList, procLcore, owner) == CardQueue(key, table, reta, t)
    ensures forall p: nat :: Serves(lcoreList, procLcore, p)
              ==> (Claims(key, reta, |lcoreList|, QueueAt(lcoreList, procLcore, p), t) <==> p == owner)
  {
    var q := CardQueue(key, table, reta, t);
    assert q < |lcoreList| by {
      assert table[CardHash(key, t) % reta] == (CardHash(key, t) % reta) % |lcoreList|;
    }
    hide CardQueue, CardHash, Queue, Claims, HashOf;
    owner := OwnerExists(lcoreList, procLcore, q);
    forall p: nat | Serves(lcoreList, procLcore, p)
      ensures Claims(key, reta, |lcoreList|, QueueAt(lcoreList, procLcore, p), t) <==> p == owner
    {
      ClaimsIsPlacement(key, reta, table, |lcoreList|, QueueAt(lcoreList, procLcore, p), t);
      assert p < owner ==> procLcore[p] < procLcore[owner];
      assert owner < p ==> procLcore[owner] < procLcore[p];
    }
  }

  /** A queue has a process exactly when its core is enabled and is not named again further on: with a core repeated, the
      flows of the earlier queue have no owner. */
  lemma QueueServed(lcoreList: seq<nat>, procLcore: seq<nat>, q: nat)
    requires q < |lcoreList|
    ensures (exists p: nat :: Serves(lcoreList, procLcore, p) && QueueAt(lcoreList, procLcore, p) == q)
       <==> lcoreList[q] in procLcore && forall i :: q < i < |lcoreList| ==> lcoreList[i] != lcoreList[q]
  {
    if lcoreList[q] in procLcore && forall i :: q < i < |lcoreList| ==> lcoreList[i] != lcoreList[q] {
      var p :| 0 <= p < |procLcore| && procLcore[p] == lcoreList[q];
      assert Queue(lcoreList, procLcore[p]) >= q;
      assert Serves(lcoreList, procLcore, p) && QueueAt(lcoreList, procLcore, p) == q;
    }
  }

  /** A list that names its only core twice leaves its first queue to nobody. */
  lemma RepeatedCore(core: nat)
    ensures !exists p: nat :: Serves([core, core], [core], p) && QueueAt([core, core], [core], p) == 0
  {
    QueueServed([core, core], [core], 0);
    assert [core, core][1] == core;
  }

  /** For every list: at most one process claims a flow, and one does exactly when the core of the queue that the card
      uses is enabled and not named again further on. */
  lemma OwnerIff(key: seq<Byte>, reta: nat, table: seq<nat>, lcoreList: seq<nat>, procLcore: seq<nat>, t: Tuple)
    requires Increasing(procLcore) && lcoreList != [] && t.Ok()
    requires 0 < reta <= |table| && IsPow2(reta) && forall k :: 0 <= k < |table| ==> table[k] == k % |lcoreList|
    ensures forall p: nat, p': nat :: Owns(key, reta, lcoreList, procLcore, p, t) && Owns(key, reta, lcoreList, procLcore, p', t)
              ==> p == p'
    ensures CardQueue(key, table, reta, t) < |lcoreList|
    ensures (exists p: nat :: Owns(key, reta, lcoreList, procLcore, p, t))
       <==> var q := CardQueue(key, table, reta, t);
            lcoreList[q] in procLcore && forall i :: q < i < |lcoreList| ==> lcoreList[i] != lcoreList[q]
  {
    var q := CardQueue(key, table, reta, t);
    assert q < |lcoreList| by {
      assert table[CardHash(key, t) % reta] == (CardHash(key, t) % reta) % |lcoreList|;
    }
    hide CardQueue, CardHash, Queue, Claims, HashOf;
    forall p: nat ensures Owns(key, reta, lcoreList, procLcore, p, t)
                     <==> Serves(lcoreList, procLcore, p) && QueueAt(lcoreList, procLcore, p) == q
    {
      if Serves(lcoreList, procLcore, p) {
        ClaimsIsPlacement(key, reta, table, |lcoreList|, QueueAt(lcoreList, procLcore, p), t);
      }
    }
    QueueServed(lcoreList, procLcore, q);
  }

  /** The flow from address 0, port 0 to address 0, port 0, whose hash is 0 under every key. */
  function ZeroTuple(): (t: Tuple)
    ensures t.Ok()
  {
    Tuple([0, 0, 0, 0], [0, 0, 0, 0], [0, 0], [0, 0])
  }

  lemma ZeroHash(key: seq<Byte>)
    ensures HashOf(key, ZeroTuple()) == 0
  {
    var d := ZeroTuple().Data();
    assert |d| == 12 && forall i :: 0 <= i < |d| ==> d[i] == 0;
    forall p: nat | p < 8 * |d| ensures !BitsOf(d)[p] { ZeroBit(7 - p % 8); }
    NoWindows(key, BitsOf(d), 0);
  }

  /** ... and so a flow to nobody: the card puts it on that queue and no process claims it. */
  lemma FlowToNobody(key: seq<Byte>, reta: nat, table: seq<nat>, core: nat)
    requires 0 < reta <= |table| && IsPow2(reta) && forall k :: 0 <= k < |table| ==> table[k] == k % 2
    ensures !exists p: nat :: Owns(key, reta, [core, core], [core], p, ZeroTuple())
  {
    ZeroHash(key);
    HashFields(key, ZeroTuple());
    assert CardQueue(key, table, reta, ZeroTuple()) == 0;
    hide HashOf, CardHash, CardQueue, Owns;
    OwnerIff(key, reta, table, [core, core], [core], ZeroTuple());
    assert [core, core][1] == [core, core][0];
  }

  /** Process p serves the port and claims the flow. */
  predicate Owns(key: seq<Byte>, reta: nat, lcoreList: seq<nat>, procLcore: seq<nat>, p: nat, t: Tuple) {
    Serves(lcoreList, procLcore, p) && Claims(key, reta, |lcoreList|, QueueAt(lcoreList, procLcore, p), t)
  }

  /** The list a port gets by default, all processes' cores, gives process p queue p. */
  lemma DefaultList(procLcore: seq<nat>)
    requires Increasing(procLcore)
    ensures NoDup(procLcore)
    ensures forall p: nat :: p < |procLcore| ==> Serves(procLcore, procLcore, p) && QueueAt(procLcore, procLcore, p) == p
  {
    forall p: nat | p < |procLcore| ensures Serves(procLcore, procLcore, p) && QueueAt(procLcore, procLcore, p) == p {
      assert procLcore[p] in procLcore;
    }
  }

  /** Under the symmetric key both directions of a connection have the same owner. */
  lemma SameOwnerBothWays(len: nat, reta: nat, queues: nat, queue: nat, t: Tuple)
    requires len >= 16 && t.Ok()
    ensures Claims(SymmetricKey(len), reta, queues, queue, t)
       <==> Claims(SymmetricKey(len), reta, queues, queue, Tuple(t.daddr, t.saddr, t.dport, t.sport))
  {
    SymmetricHash(SymmetricKey(len), t.saddr, t.daddr, t.sport, t.dport);
  }
}
