/** Netgraph's ID and name tables: chained hashes that double as nodes are added, the wrapping search for a new ID,
    and the names that are told apart from ID references. */
module NgHash {
  import opened Bits
  import opened Common
  import opened Hexadecimal
  import opened NgNames

  type NodeId = nat                       // address of a struct ng_node
  type Table = seq<seq<NodeId>>

  // ---- A chained hash over keys ----

  /** The chain of key k. */
  function Chain(t: Table, k: nat): (b: nat)
    requires |t| > 0
    ensures b < |t|
  {
    k % |t|
  }

  /** Every node of `key` is in exactly the chain of its key, once. */
  ghost predicate Filed(t: Table, key: map<NodeId, nat>) {
    && |t| > 0 && IsPow2(|t|)
    && (forall b :: 0 <= b < |t| ==> NoDup(t[b]))
    && (forall b, n :: 0 <= b < |t| && n in t[b] ==> n in key && Chain(t, key[n]) == b)
    && (forall n :: n in key ==> n in t[Chain(t, key[n])])
  }

  /** LIST_INSERT_HEAD into a chain. */
  function Insert(t: Table, b: nat, n: NodeId): (r: Table)
    requires b < |t|
  {
    t[b := [n] + t[b]]
  }

  /** LIST_REMOVE. */
  function Delete(t: Table, b: nat, n: NodeId): (r: Table)
    requires b < |t| && n in t[b]
  {
    t[b := Remove(t[b], n)]
  }

  lemma InsertFiled(t: Table, key: map<NodeId, nat>, n: NodeId, k: nat)
    requires Filed(t, key) && n !in key
    ensures Filed(Insert(t, Chain(t, k), n), key[n := k])
  {
    var b, key' := Chain(t, k), key[n := k];
    var r := Insert(t, b, n);
    assert n !in t[b];
    HeadElements(t[b], n);
    assert r[b] == [n] + t[b] && forall c :: 0 <= c < |t| && c != b ==> r[c] == t[c];
    SameChain(t, r);
    hide Insert, Chain;
    forall x | x in key' ensures x in r[Chain(r, key'[x])] {
      if x != n { assert x in t[Chain(t, key[x])]; }
    }
  }

  lemma SameChain(t: Table, r: Table)
    requires |t| == |r| > 0
    ensures forall k :: Chain(t, k) == Chain(r, k)
  {
  }

  lemma HeadElements(l: seq<NodeId>, n: NodeId)
    requires NoDup(l) && n !in l
    ensures NoDup([n] + l) && forall x :: x in [n] + l <==> x == n || x in l
  {
  }

  lemma DeleteFiled(t: Table, key: map<NodeId, nat>, n: NodeId)
    requires Filed(t, key) && n in key
    ensures n in t[Chain(t, key[n])]
    ensures Filed(Delete(t, Chain(t, key[n]), n), key - {n})
  {
    RemoveElements(t[Chain(t, key[n])], n);
  }

  /** hashinit_flags: the largest power of two not above `elements`. */
  method HashSize(elements: nat) returns (size: nat)
    requires elements > 0
    ensures IsPow2(size) && size <= elements < 2 * size
  {
    size := 1;
    ghost var k := 0;
    while size <= elements
      invariant size == Pow2(k) && (k > 0 ==> Pow2(k - 1) <= elements)
      decreases elements + 1 - size
    {
      size, k := size * 2, k + 1;
    }
    size := size / 2;
    assert size == Pow2(k - 1);
  }

  lemma Pow2Between(a: nat, b: nat)
    requires IsPow2(a) && IsPow2(b) && a <= b < 2 * a
    ensures a == b
  {
    var j: nat :| a == Pow2(j);
    var k: nat :| b == Pow2(k);
    if j < k { Pow2Order(j, k); }
    if k < j { Pow2Order(k, j); }
  }

  /** ng_ID_rehash and ng_name_rehash: every node moves to the chain of its key in a table twice as big. `was` is what the
      nodes were filed under until now. When the bigger table cannot be allocated the old one stays. */
  method Rehash(t: Table, ghost was: map<NodeId, nat>, key: map<NodeId, nat>, room: bool) returns (r: Table)
    requires Filed(t, was) && key.Keys == was.Keys
    ensures Filed(r, if room then key else was)
    ensures |r| == if room then 2 * |t| else |t|
  {
    var size := HashSize(2 * |t|);
    if !room {
      return t;
    }
    DoubleSize(|t|, size);
    r := seq(size, _ => []);
    for i := 0 to |t|
      invariant |r| == size && Moved(r, t, was, key, i, 0)
    {
      var l := t[i];
      for j := 0 to |l|
        invariant |r| == size && Moved(r, t, was, key, i, j)
      {
        assert l[j] in t[i] && l[j] in was.Keys;
        MoveOne(r, t, was, key, i, j);
        r := Insert(r, Chain(r, key[l[j]]), l[j]);
      }
      MovedChain(r, t, was, key, i);
    }
    MovedAll(r, t, was, key);
  }

  lemma DoubleSize(n: nat, size: nat)
    requires IsPow2(n) && IsPow2(size) && n > 0 && size <= 2 * n < 2 * size
    ensures size == 2 * n
  {
    var k: nat :| n == Pow2(k);
    assert 2 * n == Pow2(k + 1);
    Pow2Between(size, 2 * n);
  }

  /** The nodes in the first i chains, and the first j of chain i, are exactly those in the new table. */
  ghost predicate Moved(r: Table, t: Table, was: map<NodeId, nat>, key: map<NodeId, nat>, i: nat, j: nat)
    requires i <= |t| && (i < |t| ==> j <= |t[i]|)
  {
    && |r| > 0 && IsPow2(|r|) && key.Keys == was.Keys
    && (forall b :: 0 <= b < |r| ==> NoDup(r[b]))
    && (forall b, n :: 0 <= b < |r| && n in r[b] ==> n in key && Chain(r, key[n]) == b && Passed(t, was, i, j, n))
    && (forall n :: n in key && Passed(t, was, i, j, n) ==> n in r[Chain(r, key[n])])
  }

  ghost predicate Passed(t: Table, was: map<NodeId, nat>, i: nat, j: nat, n: NodeId)
    requires n in was && i <= |t| && (i < |t| ==> j <= |t[i]|)
  {
    |t| > 0 && (Chain(t, was[n]) < i || (i < |t| && Chain(t, was[n]) == i && n in t[i][..j]))
  }

  lemma MoveOne(r: Table, t: Table, was: map<NodeId, nat>, key: map<NodeId, nat>, i: nat, j: nat)
    requires Filed(t, was) && i < |t| && j < |t[i]| && Moved(r, t, was, key, i, j) && t[i][j] in key
    ensures Moved(Insert(r, Chain(r, key[t[i][j]]), t[i][j]), t, was, key, i, j + 1)
  {
    var n := t[i][j];
    assert n in t[i];
    var b := Chain(r, key[n]);
    var r' := Insert(r, b, n);
    assert t[i][..j + 1] == t[i][..j] + [n];
    assert !Passed(t, was, i, j, n);
    assert n !in r[b];
    assert forall x :: x in key ==> (Passed(t, was, i, j + 1, x) <==> Passed(t, was, i, j, x) || x == n);
    hide Passed, Filed, Insert;
    HeadElements(r[b], n);
    assert r'[b] == [n] + r[b] && forall c :: 0 <= c < |r| && c != b ==> r'[c] == r[c];
    SameChain(r, r');
    hide Chain;
    assert forall x :: x in key && Passed(t, was, i, j + 1, x) ==> x in r'[Chain(r', key[x])];
  }

  lemma MovedChain(r: Table, t: Table, was: map<NodeId, nat>, key: map<NodeId, nat>, i: nat)
    requires Filed(t, was) && i < |t| && Moved(r, t, was, key, i, |t[i]|)
    ensures Moved(r, t, was, key, i + 1, 0)
  {
    assert t[i][..|t[i]|] == t[i];
    assert forall x :: x in key ==> (Passed(t, was, i + 1, 0, x) <==> Passed(t, was, i, |t[i]|, x));
  }

  lemma MovedAll(r: Table, t: Table, was: map<NodeId, nat>, key: map<NodeId, nat>)
    requires Filed(t, was) && Moved(r, t, was, key, |t|, 0)
    ensures Filed(r, key)
  {
    assert forall x :: x in key ==> Passed(t, was, |t|, 0, x);
  }

  // ---- The nodes ----

  /** The fields of a node that the tables depend on. `given` is the name passed to ng_name_node, empty for no name; the
      node keeps what fits of it. It is filed under the name it was given until a rehash files it under the one it keeps. */
  datatype Rec = Rec(id: nat, given: string, refiled: bool, valid: bool) {
    function Name(): (r: string) { Stored(given) }

    function Under(): (r: string) { if refiled then Name() else given }
  }

  function IdKey(nodes: map<NodeId, Rec>): (r: map<NodeId, nat>) {
    map n | n in nodes :: nodes[n].id
  }

  function NameKey(nodes: map<NodeId, Rec>, hash: string -> nat): (r: map<NodeId, nat>) {
    map n | n in nodes && nodes[n].given != "" :: hash(nodes[n].Under())
  }

  /** All nodes filed under the names they keep. */
  function Refile(nodes: map<NodeId, Rec>): (r: map<NodeId, Rec>)
    ensures r.Keys == nodes.Keys
  {
    map n | n in nodes :: nodes[n].(refiled := true)
  }

  predicate HasId(v: Rec, id: nat) { v.valid && v.id == id }

  predicate HasName(v: Rec, name: string) { v.valid && v.Name() == name && name != "" }

  /** The node has the name and is in the chain where the name is looked for. */
  predicate Reached(t: Table, hash: string -> nat, v: Rec, name: string)
    requires |t| > 0
  {
    HasName(v, name) && Chain(t, hash(v.Under())) == Chain(t, hash(name))
  }

  /** IDs are non-zero 32-bit numbers, names given are acceptable ones, no two valid nodes share an ID, and no two valid
      nodes were given the same name that fits. */
  ghost predicate Distinct(nodes: map<NodeId, Rec>) {
    && (forall n :: n in nodes ==> 0 < nodes[n].id < TWO32 && (nodes[n].given == "" || Accepted(nodes[n].given)))
    && (forall m, n :: m in nodes && n in nodes && nodes[m].valid && nodes[n].valid && nodes[m].id == nodes[n].id ==> m == n)
    && (forall m, n :: m in nodes && n in nodes && SameName(nodes[m], nodes[n]) ==> m == n)
  }

  predicate SameName(v: Rec, w: Rec) {
    v.valid && w.valid && v.given == w.given && v.given != "" && |v.given| < NG_NODESIZ
  }

  /** The IDs in use, and 0. */
  ghost function Taken(nodes: map<NodeId, Rec>): (r: set<nat>) {
    (set n | n in nodes && nodes[n].valid :: nodes[n].id) + {0}
  }

  function Nth(start: nat, i: nat): (r: nat)
    ensures r < TWO32
  {
    (start + i) % TWO32
  }

  lemma NthNext(start: nat, i: nat)
    ensures (Nth(start, i) + 1) % TWO32 == Nth(start, i + 1)
  {
  }

  lemma NthApart(start: nat, i: nat, j: nat)
    requires i < j < i + TWO32
    ensures Nth(start, i) != Nth(start, j)
  {
  }

  /** The k numbers from `start` on, modulo 2^32. */
  ghost function Seen(start: nat, k: nat): (r: set<nat>) {
    if k == 0 then {} else Seen(start, k - 1) + {Nth(start, k - 1)}
  }

  lemma {:induction false} SeenElements(start: nat, k: nat, x: nat) returns (i: nat)
    requires x in Seen(start, k)
    ensures i < k && x == Nth(start, i)
  {
    if x == Nth(start, k - 1) { i := k - 1; } else { i := SeenElements(start, k - 1, x); }
  }

  lemma {:induction false} SeenCard(start: nat, k: nat)
    requires k <= TWO32
    ensures |Seen(start, k)| == k
  {
    hide Nth;
    if k != 0 {
      SeenCard(start, k - 1);
      if Nth(start, k - 1) in Seen(start, k - 1) {
        var i := SeenElements(start, k - 1, Nth(start, k - 1));
        NthApart(start, i, k - 1);
      }
    }
  }

  /** Each number that turns out to be taken is a new one, so the search cannot go on for ever. */
  lemma SeenStep(start: nat, k: nat, taken: set<nat>)
    requires Seen(start, k) <= taken && Nth(start, k) in taken && k < TWO32
    ensures Seen(start, k + 1) <= taken && k + 1 <= |taken|
  {
    SubsetCard(Seen(start, k + 1), taken);
    SeenCard(start, k + 1);
  }

  /** hash & hmask is the chain of the hash. */
  lemma MaskIsChain(t: Table, k: nat)
    requires |t| > 0 && IsPow2(|t|)
    ensures And(k, |t| - 1) == Chain(t, k)
  {
    var j: nat :| |t| == Pow2(j);
    AndMask(k, j);
  }

  class NodeTable {
    const hash: string -> nat              // hash32_str(name, HASHINIT)

    var nodes: map<NodeId, Rec>
    var ids: Table                         // ng_ID_hash
    var names: Table                       // ng_name_hash
    var nextId: nat
    var count: nat                         // ng_nodes
    var named: nat                         // ng_named_nodes

    ghost predicate Valid()
      reads this
    {
      && Filed(ids, IdKey(nodes)) && Filed(names, NameKey(nodes, hash)) && Distinct(nodes)
      && nextId < TWO32 && count == |nodes| && named == |NameKey(nodes, hash)|
    }

    constructor (hash: string -> nat)
      ensures Valid() && nodes == map[] && |ids| == |names| == 16
    {
      this.hash := hash;
      nodes, nextId, count, named := map[], 1, 0, 0;
      var size := HashSize(16);
      assert IsPow2(16) by { assert Pow2(4) == 16; }
      Pow2Between(size, 16);
      ids, names := seq(size, _ => []), seq(size, _ => []);
    }

    /** NG_IDHASH_FIND: agrees with a search over all nodes. */
    method FindId(id: nat) returns (r: Option<NodeId>)
      requires Valid()
      ensures IsOnly(nodes, n => HasId(n, id), r)
    {
      hide Distinct, Filed, NameKey;
      ChainHas(ids, IdKey(nodes), id);
      var l := ids[Chain(ids, id)];
      for i := 0 to |l|
        invariant forall k :: 0 <= k < i ==> l[k] in nodes && !HasId(nodes[l[k]], id)
      {
        assert l[i] in l;
        if HasId(nodes[l[i]], id) {
          IdUnique(nodes, l[i]);
          return Some(l[i]);
        }
      }
      r := None;
      assert forall n :: n in nodes && nodes[n].id == id ==> n in IdKey(nodes) && n in l;
    }

    /** The search for a new ID in ng_make_node_common. */
    method NewId() returns (id: nat)
      requires Valid() && |ValidNodes(nodes)| < TWO32 - 1
      modifies `nextId
      ensures Valid() && id !in Taken(nodes) && 0 < id < TWO32
    {
      hide Filed, Distinct, Taken, NameKey, IdKey, Seen, Nth, IsOnly, ValidNodes;
      TakenCard(nodes);
      ghost var start, tried := nextId, 0;
      SeenStart(start);
      while true
        invariant Valid() && nextId == Nth(start, tried)
        invariant Seen(start, tried) <= Taken(nodes) && tried <= |Taken(nodes)|
        decreases |Taken(nodes)| - tried
      {
        id := nextId;
        NthNext(start, tried);
        nextId := (nextId + 1) % TWO32;
        var other := FindId(id);
        TakenIff(nodes, id, other);
        if id != 0 && other.None? {
          return;
        }
        SeenStep(start, tried, Taken(nodes));
        tried := tried + 1;
      }
    }

    /** ng_make_node_common: the new node gets an ID that no valid node has, and is filed under it, in a bigger table
        when the load calls for one and `room` allows it. */
    method MakeNode(n: NodeId, room: bool) returns (id: nat)
      requires Valid() && n !in nodes && |ValidNodes(nodes)| < TWO32 - 1
      modifies `nodes, `ids, `nextId, `count
      ensures Valid() && 0 < id < TWO32 && nodes == old(nodes)[n := Rec(id, "", false, true)]
      ensures forall m :: m in old(nodes) && old(nodes)[m].valid ==> old(nodes)[m].id != id
    {
      hide Filed, Distinct, Taken, NameKey, IdKey;
      id := NewId();
      AddNode(nodes, hash, n, id);
      count := count + 1;
      if count * 2 > |ids| - 1 {
        ids := Rehash(ids, IdKey(nodes), IdKey(nodes), room);
      }
      FiledSize(ids, IdKey(nodes));
      InsertFiled(ids, IdKey(nodes), n, id);
      ids := Insert(ids, Chain(ids, id), n);
      nodes := nodes[n := Rec(id, "", false, true)];
    }

    /** The search by name in ng_name_node and ng_name2noderef. */
    method FindName(name: string) returns (r: Option<NodeId>)
      requires Valid()
      ensures |names| > 0 && Finds(names, hash, nodes, name, r)
    {
      hide Distinct, Filed, IdKey, Stored;
      FiledSize(names, NameKey(nodes, hash));
      MaskIsChain(names, hash(name));
      ChainHas(names, NameKey(nodes, hash), hash(name));
      var l := names[And(hash(name), |names| - 1)];
      for i := 0 to |l|
        invariant forall k :: 0 <= k < i ==> l[k] in nodes && !Reached(names, hash, nodes[l[k]], name)
      {
        assert l[i] in l;
        NamedIsNamed(nodes[l[i]]);
        if nodes[l[i]].valid && nodes[l[i]].Name() == name {
          return Some(l[i]);
        }
      }
      r := None;
      forall n | n in nodes && HasName(nodes[n], name) ensures n in NameKey(nodes, hash) { NamedIsNamed(nodes[n]); }
      assert forall n :: n in nodes && Reached(names, hash, nodes[n], name) ==> n in NameKey(nodes, hash) && n in l;
    }

    /** ng_name_node. The name is looked for, and the node is filed, under the name as given; the node keeps what fits. */
    method NameNode(n: NodeId, name: string, room: bool) returns (r: NameResult)
      requires Valid() && n in nodes && forall k :: 0 <= k < |name| ==> name[k] != '\0'
      modifies `nodes, `names, `named
      ensures Valid() && |names| > 0
      ensures var grows := Accepted(name) && old(named) * 2 > |old(names)| - 1 && room;
              var was := if grows then Refile(old(nodes)) else old(nodes);
              && |names| == (if grows then 2 else 1) * |old(names)|
              && r == (if !Accepted(name) then NameInvalid
                       else if exists m :: m in was && Reached(names, hash, was[m], name) then NameInUse else NameSet)
              && nodes == if r.NameSet? then was[n := was[n].(given := name, refiled := false)] else was
      ensures Accepted(name) && |name| == NG_NODESIZ ==> r == NameSet
    {
      hide Filed, Distinct, NameKey, IdKey, Reached, Stored;
      FiledSize(names, NameKey(nodes, hash));
      var ok := CheckName(name);
      if !ok || DecodeId(name) != 0 {
        return NameInvalid;
      }
      if named * 2 > |names| - 1 {
        Grow(room);
      }
      var other := FindName(name);
      if |name| == NG_NODESIZ { LongNameNotFound(names, hash, nodes, name, other); }
      if other.Some? {
        return NameInUse;
      }
      assert forall m :: m in nodes ==> !Reached(names, hash, nodes[m], name);
      ghost var t := names;
      File(n, name);
      ReachedSize(t, names, hash, name);
      r := NameSet;
    }

    /** ng_name_rehash. */
    method Grow(room: bool)
      requires Valid()
      modifies `nodes, `names
      ensures Valid() && |names| == (if room then 2 else 1) * |old(names)|
      ensures nodes == if room then Refile(old(nodes)) else old(nodes)
    {
      hide Filed, Distinct, NameKey, IdKey, Refile;
      Refiled(nodes, hash);
      names := Rehash(names, NameKey(nodes, hash), NameKey(Refile(nodes), hash), room);
      if room {
        nodes := Refile(nodes);
      }
    }

    /** The end of ng_name_node: leave the old chain, store the name, enter the new chain. */
    method File(n: NodeId, name: string)
      requires Valid() && n in nodes && Accepted(name) && |names| > 0
      requires forall m :: m in nodes ==> !Reached(names, hash, nodes[m], name)
      modifies `nodes, `names, `named
      ensures Valid() && |names| == |old(names)|
      ensures nodes == old(nodes)[n := old(nodes)[n].(given := name, refiled := false)]
    {
      hide Filed, Distinct, NameKey, IdKey, HasName, Accepted, Insert, Delete, And, Reached, Stored, Chain;
      AcceptedNonEmpty(name);
      RenamedDistinct(names, hash, nodes, n, name);
      Renamed(nodes, hash, n, name);
      FiledSize(names, NameKey(nodes, hash));
      if nodes[n].given != "" {
        DeleteFiled(names, NameKey(nodes, hash), n);
        DeleteSize(names, Chain(names, hash(nodes[n].Under())), n);
        names := Delete(names, Chain(names, hash(nodes[n].Under())), n);
      } else {
        named := named + 1;
      }
      MaskIsChain(names, hash(name));
      InsertFiled(names, NameKey(nodes, hash) - {n}, n, hash(name));
      InsertSize(names, And(hash(name), |names| - 1), n);
      names := Insert(names, And(hash(name), |names| - 1), n);
      nodes := nodes[n := nodes[n].(given := name, refiled := false)];
    }

    /** ng_name2noderef: "." is the caller's node, a bracketed ID the node of that ID, anything else a name. */
    method NameToNode(here: NodeId, name: string) returns (r: Option<NodeId>)
      requires Valid()
      ensures |names| > 0 && Resolves(names, hash, nodes, here, name, r)
    {
      hide Filed, Distinct, NameKey, IdKey, Reached, Stored, DecodeId;
      FiledSize(names, NameKey(nodes, hash));
      if name == "." {
        return Some(here);
      }
      var id := DecodeId(name);
      if id != 0 {
        r := FindId(id);
      } else {
        r := FindName(name);
      }
    }

    /** NG_NODE invalidated by ng_rmnode: the node stays filed, and no look-up returns it again. */
    method Invalidate(n: NodeId)
      requires Valid() && n in nodes
      modifies `nodes
      ensures Valid() && nodes == old(nodes)[n := old(nodes)[n].(valid := false)]
    {
      hide Filed, Distinct, NameKey, IdKey;
      Invalidated(nodes, hash, n);
      nodes := nodes[n := nodes[n].(valid := false)];
    }

    /** ng_unref_node when the last reference goes: the node leaves both tables. */
    method Forget(n: NodeId)
      requires Valid() && n in nodes
      modifies `nodes, `names, `named, `ids, `count
      ensures Valid() && nodes == old(nodes) - {n}
    {
      hide Filed, NameKey, IdKey, Distinct, HasName;
      Dropped(nodes, hash, n);
      DropCard(nodes, n);
      Fewer(nodes, n);
      ForgetName(n);
      count := count - 1;
      FiledSize(ids, IdKey(nodes));
      DeleteFiled(ids, IdKey(nodes), n);
      ids := Delete(ids, Chain(ids, nodes[n].id), n);
      nodes := nodes - {n};
    }

    method ForgetName(n: NodeId)
      requires n in nodes && Filed(names, NameKey(nodes, hash)) && named == |NameKey(nodes, hash)|
      modifies `names, `named
      ensures Filed(names, NameKey(nodes, hash) - {n}) && named == |NameKey(nodes, hash) - {n}|
    {
      hide Filed, NameKey;
      InNameKey(nodes, hash, n);
      DropCard(NameKey(nodes, hash), n);
      if nodes[n].given != "" {
        named := named - 1;
        FiledSize(names, NameKey(nodes, hash));
        DeleteFiled(names, NameKey(nodes, hash), n);
        names := Delete(names, Chain(names, hash(nodes[n].Under())), n);
      }
    }
  }

  /** r is the one node with property p, or None when there is none: the answer of a search over all nodes. */
  ghost predicate IsOnly(nodes: map<NodeId, Rec>, p: Rec -> bool, r: Option<NodeId>) {
    && (r.Some? ==> r.value in nodes && p(nodes[r.value]))
    && (forall n :: n in nodes && p(nodes[n]) ==> r == Some(n))
  }

  /** r is a valid node with that name in the chain where the name is looked for, or None when there is none. */
  ghost predicate Finds(t: Table, hash: string -> nat, nodes: map<NodeId, Rec>, name: string, r: Option<NodeId>)
    requires |t| > 0
  {
    && (r.Some? ==> r.value in nodes && Reached(t, hash, nodes[r.value], name))
    && (r.None? ==> forall n :: n in nodes ==> !Reached(t, hash, nodes[n], name))
  }

  /** r is what the look-up of an absolute address comes to. */
  ghost predicate Resolves(t: Table, hash: string -> nat, nodes: map<NodeId, Rec>, here: NodeId, name: string,
                           r: Option<NodeId>)
    requires |t| > 0
  {
    if name == "." then r == Some(here)
    else if DecodeId(name) != 0 then IsOnly(nodes, n => HasId(n, DecodeId(name)), r)
    else Finds(t, hash, nodes, name, r)
  }

  // ---- Which look-ups agree with a search over all nodes ----

  /** A name that no valid node keeps as the cut form of a longer one: the look-up is a search over all nodes. */
  lemma LookupAgrees(t: Table, hash: string -> nat, nodes: map<NodeId, Rec>, name: string, r: Option<NodeId>)
    requires |t| > 0 && Distinct(nodes) && Finds(t, hash, nodes, name, r)
    requires forall n :: n in nodes && HasName(nodes[n], name) ==> |nodes[n].given| < NG_NODESIZ
    ensures IsOnly(nodes, n => HasName(n, name), r)
  {
    hide Chain;
    forall n | n in nodes && HasName(nodes[n], name) ensures r == Some(n) {
      assert nodes[n].given == name && Reached(t, hash, nodes[n], name);
      assert SameName(nodes[n], nodes[r.value]);
    }
  }

  /** The one valid node that keeps a name is found under it exactly when the name and what the node is filed under hash to
      one chain. A node given 32 characters is filed under all of them until the next rehash, and after it under those it
      keeps. */
  lemma FoundIff(t: Table, hash: string -> nat, nodes: map<NodeId, Rec>, n: NodeId, r: Option<NodeId>)
    requires |t| > 0 && n in nodes && nodes[n].valid && nodes[n].Name() != ""
    requires forall m :: m in nodes && HasName(nodes[m], nodes[n].Name()) ==> m == n
    requires Finds(t, hash, nodes, nodes[n].Name(), r)
    ensures r == Some(n) <==> Chain(t, hash(nodes[n].Under())) == Chain(t, hash(nodes[n].Name()))
    ensures nodes[n].refiled || |nodes[n].given| < NG_NODESIZ ==> r == Some(n)
  {
    hide Chain;
    assert Reached(t, hash, nodes[n], nodes[n].Name())
      <==> Chain(t, hash(nodes[n].Under())) == Chain(t, hash(nodes[n].Name()));
  }

  /** Nothing is ever found, or found to be in use, under a name of 32 characters or more: so ng_name_node gives out each
      acceptable name of 32 characters as often as it is asked to. */
  lemma LongNameNotFound(t: Table, hash: string -> nat, nodes: map<NodeId, Rec>, name: string, r: Option<NodeId>)
    requires |t| > 0 && |name| >= NG_NODESIZ && Finds(t, hash, nodes, name, r)
    ensures r == None && forall m :: m in nodes ==> !Reached(t, hash, nodes[m], name)
  {
  }

  /** HASHSTEP, in 32 bits; the characters of a name are bytes. */
  function HashStep(h: nat, c: char): (r: nat) { (33 * h + c as int) % TWO32 }

  /** hash32_str(s, HASHINIT). */
  function Hash32(s: string): (h: nat) {
    if s == [] then 5381 else HashStep(Hash32(s[..|s| - 1]), s[|s| - 1])
  }

  /** Two names worked out: the second multiplies by 33 and adds, both start from 5381. */
  lemma KnownHashes()
    ensures Hash32("a") == 177670 && Hash32("ab") == 5863208
  {
    assert "a"[..0] == "" && "ab"[..1] == "a";
  }

  /** One more character keeps the chain exactly when 32 times the hash and the character add up to a multiple of the
      number of chains; with 16 chains, exactly when the character is a multiple of 16. */
  lemma StepKeepsChain(t: Table, h: nat, c: char)
    requires |t| > 0 && TWO32 % |t| == 0
    ensures Chain(t, HashStep(h, c)) == Chain(t, h) <==> (32 * h + c as int) % |t| == 0
    ensures |t| == 16 ==> (Chain(t, HashStep(h, c)) == Chain(t, h) <==> c as int % 16 == 0)
  {
    RemainderTwice(33 * h + c as int, TWO32, |t|);
    SameRemainder(h, 32 * h + c as int, |t|);
    if |t| == 16 { ModShift(c as int, 2 * h, 16); }
  }

  /** With the real hash: the one valid node that keeps the first 31 of the 32 characters it was given, and has not been
      refiled, is found under them exactly when its last character keeps the chain. In a first table of 16 chains that is
      when the last character is a multiple of 16, which can be told before the node is named. */
  lemma LongFoundIff(t: Table, nodes: map<NodeId, Rec>, n: NodeId, r: Option<NodeId>)
    requires |t| > 0 && TWO32 % |t| == 0 && n in nodes
    requires nodes[n].valid && !nodes[n].refiled && |nodes[n].given| == NG_NODESIZ
    requires forall m :: m in nodes && HasName(nodes[m], nodes[n].Name()) ==> m == n
    requires Finds(t, Hash32, nodes, nodes[n].Name(), r)
    ensures r == Some(n)
       <==> (32 * Hash32(nodes[n].Name()) + nodes[n].given[NG_NODESIZ - 1] as int) % |t| == 0
    ensures |t| == 16 ==> (r == Some(n) <==> nodes[n].given[NG_NODESIZ - 1] as int % 16 == 0)
  {
    var v := nodes[n];
    assert Hash32(v.given) == HashStep(Hash32(v.Name()), v.given[NG_NODESIZ - 1]);
    hide Hash32, HashStep, Chain;
    StepKeepsChain(t, Hash32(v.Name()), v.given[NG_NODESIZ - 1]);
    FoundIff(t, Hash32, nodes, n, r);
  }

  /** A node that is lost: the only one, given 32 times the letter n, in the first table. */
  lemma LongNameLost(n: NodeId, id: nat, t: Table, r: Option<NodeId>)
    requires |t| == 16
    requires var name := seq(NG_NODESIZ, _ => 'n'); Finds(t, Hash32, map[n := Rec(id, name, false, true)], Stored(name), r)
    ensures Accepted(seq(NG_NODESIZ, _ => 'n')) && r == None
  {
    var name := seq(NG_NODESIZ, _ => 'n');
    assert name[0] == 'n';
    LongFoundIff(t, map[n := Rec(id, name, false, true)], n, r);
  }

  /** Every valid node is found by its printed ID. One with a name that fits is found by its name, alone if no other node
      keeps that name as the cut form of a longer one: a name is never taken for "." or for an ID. */
  lemma EveryNodeIsFound(t: Table, hash: string -> nat, nodes: map<NodeId, Rec>, here: NodeId, n: NodeId,
                         byId: Option<NodeId>, byName: Option<NodeId>)
    requires |t| > 0 && Distinct(nodes) && n in nodes && nodes[n].valid
    requires Resolves(t, hash, nodes, here, "[" + Hex(nodes[n].id) + "]", byId)
    requires Resolves(t, hash, nodes, here, nodes[n].Name(), byName)
    ensures byId == Some(n)
    ensures 0 < |nodes[n].given| < NG_NODESIZ ==>
              byName.Some? && byName.value in nodes && HasName(nodes[byName.value], nodes[n].Name())
    ensures (0 < |nodes[n].given| < NG_NODESIZ
             && forall m :: m in nodes && HasName(nodes[m], nodes[n].Name()) ==> |nodes[m].given| < NG_NODESIZ)
            ==> byName == Some(n)
  {
    var v := nodes[n];
    DecodePrinted(v.id);
    var printed := "[" + Hex(v.id) + "]";
    assert printed[0] == '[';
    hide Hex, DecodeId, Chain;
    assert IsOnly(nodes, n => HasId(n, DecodeId(printed)), byId) && HasId(v, DecodeId(printed));
    if 0 < |v.given| < NG_NODESIZ {
      assert v.given[0] != '.';
      assert Finds(t, hash, nodes, v.Name(), byName) && Reached(t, hash, v, v.Name());
      if forall m :: m in nodes && HasName(nodes[m], v.Name()) ==> |nodes[m].given| < NG_NODESIZ {
        LookupAgrees(t, hash, nodes, v.Name(), byName);
        assert IsOnly(nodes, n => HasName(n, v.Name()), byName) && HasName(v, v.Name());
      }
    }
  }

  lemma AcceptedNonEmpty(name: string)
    requires Accepted(name)
    ensures name != ""
  {
  }

  lemma ReachedSize(t: Table, u: Table, hash: string -> nat, name: string)
    requires |t| == |u| > 0
    ensures forall v :: Reached(t, hash, v, name) <==> Reached(u, hash, v, name)
  {
    SameChain(t, u);
    hide Chain;
  }

  lemma NamedIsNamed(v: Rec)
    ensures v.Name() == "" <==> v.given == ""
  {
  }

  lemma SeenStart(start: nat)
    requires start < TWO32
    ensures Seen(start, 0) == {} && Nth(start, 0) == start
  {
  }

  lemma ChainHas(t: Table, key: map<NodeId, nat>, k: nat)
    requires Filed(t, key)
    ensures |t| > 0
    ensures forall n :: n in t[Chain(t, k)] <==> n in key && Chain(t, key[n]) == Chain(t, k)
  {
  }

  datatype NameResult = NameInvalid | NameInUse | NameSet

  ghost function ValidNodes(nodes: map<NodeId, Rec>): (r: set<NodeId>) {
    set n | n in nodes && nodes[n].valid
  }

  lemma TakenCard(nodes: map<NodeId, Rec>)
    ensures |Taken(nodes)| <= |ValidNodes(nodes)| + 1
  {
    var vs := ValidNodes(nodes);
    var taken := set n | n in vs :: nodes[n].id;
    ImageCard(nodes, vs);
    assert Taken(nodes) == taken + {0};
  }

  lemma {:induction false} ImageCard(nodes: map<NodeId, Rec>, vs: set<NodeId>)
    requires vs <= nodes.Keys
    ensures |set n | n in vs :: nodes[n].id| <= |vs|
  {
    if vs != {} {
      var e :| e in vs;
      var ws := vs - {e};
      ImageCard(nodes, ws);
      assert (set n | n in vs :: nodes[n].id) == (set n | n in ws :: nodes[n].id) + {nodes[e].id};
    }
  }

  lemma FiledSize(t: Table, key: map<NodeId, nat>)
    requires Filed(t, key)
    ensures |t| > 0 && IsPow2(|t|)
  {
  }

  lemma AddNode(nodes: map<NodeId, Rec>, hash: string -> nat, n: NodeId, id: nat)
    requires Distinct(nodes) && n !in nodes && id !in Taken(nodes) && 0 < id < TWO32
    ensures var m := nodes[n := Rec(id, "", false, true)];
            && IdKey(m) == IdKey(nodes)[n := id] && NameKey(m, hash) == NameKey(nodes, hash) && Distinct(m)
    ensures n !in IdKey(nodes)
    ensures forall x :: x in nodes && nodes[x].valid ==> nodes[x].id != id
  {
    hide Distinct, IdKey, NameKey, Taken;
    NotTaken(nodes, id);
    AddKeys(nodes, hash, n, id);
    AddDistinct(nodes, n, id);
  }

  lemma NotTaken(nodes: map<NodeId, Rec>, id: nat)
    requires id !in Taken(nodes)
    ensures forall x :: x in nodes && nodes[x].valid ==> nodes[x].id != id
  {
    forall x | x in nodes && nodes[x].valid ensures nodes[x].id != id {
      assert nodes[x].id in Taken(nodes);
    }
  }

  lemma AddKeys(nodes: map<NodeId, Rec>, hash: string -> nat, n: NodeId, id: nat)
    requires n !in nodes
    ensures IdKey(nodes[n := Rec(id, "", false, true)]) == IdKey(nodes)[n := id]
    ensures NameKey(nodes[n := Rec(id, "", false, true)], hash) == NameKey(nodes, hash)
    ensures n !in IdKey(nodes)
  {
  }

  lemma AddDistinct(nodes: map<NodeId, Rec>, n: NodeId, id: nat)
    requires Distinct(nodes) && n !in nodes && 0 < id < TWO32
    requires forall x :: x in nodes && nodes[x].valid ==> nodes[x].id != id
    ensures Distinct(nodes[n := Rec(id, "", false, true)])
  {
    var m := nodes[n := Rec(id, "", false, true)];
    forall x, y | x in m && y in m && m[x].valid && m[y].valid && m[x].id == m[y].id ensures x == y {
      assert x == n || x in nodes;
      assert y == n || y in nodes;
    }
    forall x, y | x in m && y in m && SameName(m[x], m[y]) ensures x == y {
      assert x in nodes && y in nodes && SameName(nodes[x], nodes[y]);
    }
  }

  lemma Renamed(nodes: map<NodeId, Rec>, hash: string -> nat, n: NodeId, name: string)
    requires n in nodes && name != ""
    ensures var m := nodes[n := nodes[n].(given := name, refiled := false)];
            && IdKey(m) == IdKey(nodes)
            && NameKey(m, hash) == (NameKey(nodes, hash) - {n})[n := hash(name)]
            && |NameKey(m, hash)| == |NameKey(nodes, hash)| + if nodes[n].given == "" then 1 else 0
    ensures n in NameKey(nodes, hash) <==> nodes[n].given != ""
    ensures n in NameKey(nodes, hash) ==> NameKey(nodes, hash)[n] == hash(nodes[n].Under())
    ensures n !in NameKey(nodes, hash) ==> NameKey(nodes, hash) - {n} == NameKey(nodes, hash)
  {
    RenamedKeys(nodes, hash, n, name);
    InNameKey(nodes, hash, n);
    hide NameKey, IdKey;
    Rekeyed(NameKey(nodes, hash), n, hash(name));
  }

  lemma RenamedKeys(nodes: map<NodeId, Rec>, hash: string -> nat, n: NodeId, name: string)
    requires n in nodes && name != ""
    ensures IdKey(nodes[n := nodes[n].(given := name, refiled := false)]) == IdKey(nodes)
    ensures NameKey(nodes[n := nodes[n].(given := name, refiled := false)], hash)
         == (NameKey(nodes, hash) - {n})[n := hash(name)]
  {
    var m := nodes[n := nodes[n].(given := name, refiled := false)];
    assert IdKey(m) == IdKey(nodes);
    hide IdKey;
    var k, k' := NameKey(nodes, hash), NameKey(m, hash);
    assert forall x :: x in k' <==> x == n || x in k;
    assert forall x :: x in k' ==> k'[x] == (k - {n})[n := hash(name)][x];
  }

  lemma InNameKey(nodes: map<NodeId, Rec>, hash: string -> nat, n: NodeId)
    requires n in nodes
    ensures n in NameKey(nodes, hash) <==> nodes[n].given != ""
    ensures n in NameKey(nodes, hash) ==> NameKey(nodes, hash)[n] == hash(nodes[n].Under())
  {
  }

  lemma Refiled(nodes: map<NodeId, Rec>, hash: string -> nat)
    ensures IdKey(Refile(nodes)) == IdKey(nodes) && |Refile(nodes)| == |nodes|
    ensures NameKey(Refile(nodes), hash).Keys == NameKey(nodes, hash).Keys
    ensures |NameKey(Refile(nodes), hash)| == |NameKey(nodes, hash)|
    ensures Distinct(nodes) ==> Distinct(Refile(nodes))
  {
    RefiledKeys(nodes, hash);
    var k, k' := NameKey(nodes, hash), NameKey(Refile(nodes), hash);
    assert |k| == |k.Keys| && |k'| == |k'.Keys|;
    assert |Refile(nodes)| == |Refile(nodes).Keys| && |nodes| == |nodes.Keys|;
    hide NameKey, IdKey;
    if Distinct(nodes) { FewerValid(nodes, Refile(nodes)); }
  }

  lemma RefiledKeys(nodes: map<NodeId, Rec>, hash: string -> nat)
    ensures IdKey(Refile(nodes)) == IdKey(nodes)
    ensures NameKey(Refile(nodes), hash).Keys == NameKey(nodes, hash).Keys
  {
  }

  lemma Rekeyed(k: map<NodeId, nat>, n: NodeId, v: nat)
    ensures |(k - {n})[n := v]| == |k| + if n in k then 0 else 1
    ensures n !in k ==> k - {n} == k
  {
    assert (k - {n})[n := v].Keys == k.Keys + {n};
    assert |k - {n}| == |(k - {n}).Keys| && (k - {n}).Keys == k.Keys - {n};
  }

  lemma Dropped(nodes: map<NodeId, Rec>, hash: string -> nat, n: NodeId)
    requires n in nodes
    ensures IdKey(nodes - {n}) == IdKey(nodes) - {n} && NameKey(nodes - {n}, hash) == NameKey(nodes, hash) - {n}
    ensures n in IdKey(nodes) && IdKey(nodes)[n] == nodes[n].id
  {
    hide NameKey;
    assert IdKey(nodes - {n}) == IdKey(nodes) - {n};
    DroppedName(nodes, hash, n);
  }

  lemma DroppedName(nodes: map<NodeId, Rec>, hash: string -> nat, n: NodeId)
    requires n in nodes
    ensures NameKey(nodes - {n}, hash) == NameKey(nodes, hash) - {n}
  {
  }

  lemma DropCard<V>(m: map<NodeId, V>, n: NodeId)
    ensures |m - {n}| == |m| - if n in m then 1 else 0
    ensures n !in m ==> m - {n} == m
  {
    assert (m - {n}).Keys == m.Keys - {n};
    assert |m - {n}| == |(m - {n}).Keys| && |m| == |m.Keys|;
  }

  lemma Invalidated(nodes: map<NodeId, Rec>, hash: string -> nat, n: NodeId)
    requires n in nodes && Distinct(nodes)
    ensures var m := nodes[n := nodes[n].(valid := false)];
            && IdKey(m) == IdKey(nodes) && NameKey(m, hash) == NameKey(nodes, hash) && |m| == |nodes| && Distinct(m)
  {
    hide Distinct;
    var m := nodes[n := nodes[n].(valid := false)];
    SameKeys(nodes, m, hash);
    FewerValid(nodes, m);
    hide NameKey, IdKey;
    assert m.Keys == nodes.Keys;
    assert |m| == |m.Keys|;
  }

  lemma SameKeys(nodes: map<NodeId, Rec>, m: map<NodeId, Rec>, hash: string -> nat)
    requires m.Keys == nodes.Keys && forall x :: x in m ==> m[x] == nodes[x].(valid := m[x].valid)
    ensures IdKey(m) == IdKey(nodes) && NameKey(m, hash) == NameKey(nodes, hash)
  {
  }

  lemma Fewer(nodes: map<NodeId, Rec>, n: NodeId)
    requires Distinct(nodes)
    ensures Distinct(nodes - {n})
  {
    hide Distinct;
    FewerValid(nodes, nodes - {n});
  }

  /** Fewer valid nodes under the same IDs and names are still told apart. */
  lemma FewerValid(nodes: map<NodeId, Rec>, m: map<NodeId, Rec>)
    requires Distinct(nodes) && m.Keys <= nodes.Keys
    requires forall x :: x in m ==> m[x].id == nodes[x].id && m[x].given == nodes[x].given && (m[x].valid ==> nodes[x].valid)
    ensures Distinct(m)
  {
    forall x, y | x in m && y in m && SameName(m[x], m[y]) ensures x == y {
      assert SameName(nodes[x], nodes[y]);
    }
  }

  lemma RenamedDistinct(t: Table, hash: string -> nat, nodes: map<NodeId, Rec>, n: NodeId, name: string)
    requires Distinct(nodes) && n in nodes && Accepted(name) && |t| > 0
    requires forall m :: m in nodes ==> !Reached(t, hash, nodes[m], name)
    ensures Distinct(nodes[n := nodes[n].(given := name, refiled := false)])
  {
    hide Chain;
    var m := nodes[n := nodes[n].(given := name, refiled := false)];
    forall x, y | x in m && y in m && SameName(m[x], m[y]) ensures x == y {
      if x == n {
        assert !Reached(t, hash, nodes[y], name);
      } else {
        assert !Reached(t, hash, nodes[x], name);
        assert SameName(nodes[x], nodes[y]);
      }
    }
  }

  lemma DeleteSize(t: Table, b: nat, n: NodeId)
    requires b < |t| && n in t[b]
    ensures |Delete(t, b, n)| == |t|
  {
  }

  lemma InsertSize(t: Table, b: nat, n: NodeId)
    requires b < |t|
    ensures |Insert(t, b, n)| == |t|
  {
  }

  lemma IdUnique(nodes: map<NodeId, Rec>, n: NodeId)
    requires Distinct(nodes) && n in nodes && nodes[n].valid
    ensures forall m :: m in nodes && HasId(nodes[m], nodes[n].id) ==> m == n
  {
  }

  lemma TakenIff(nodes: map<NodeId, Rec>, id: nat, r: Option<NodeId>)
    requires IsOnly(nodes, n => HasId(n, id), r)
    ensures id in Taken(nodes) <==> id == 0 || r.Some?
  {
    var p := (n: Rec) => HasId(n, id);
    if id in Taken(nodes) && id != 0 {
      var n :| n in nodes && nodes[n].valid && nodes[n].id == id;
      assert p(nodes[n]);
    }
  }
}
