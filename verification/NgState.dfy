/** The netgraph node and hook graph as values: peer links, reference counts, and what destroying a hook leaves. The dead
    node and the dead hook are None. */
module NgState {
  import opened Common

  type NodeId = nat
  type HookId = nat

  /** struct ng_hook; `valid` is the absence of HK_INVALID. */
  datatype Hook = Hook(name: string, node: Option<NodeId>, peer: Option<HookId>, refs: int, valid: bool)

  /** struct ng_node; NGF_INVALID and NGF_CLOSING. */
  datatype Node = Node(hooks: seq<HookId>, numhooks: int, refs: int, invalid: bool, closing: bool)

  /** A hook's count is one for the node's list, one for the peer link, and the references held outside;
      nothing else keeps it alive. Peers point at each other. */
  ghost predicate HookOk(hooks: map<HookId, Hook>, held: multiset<HookId>, h: HookId)
    requires h in hooks
  {
    var v := hooks[h];
    && v.refs == AsNumber(v.node.Some?) + AsNumber(v.peer.Some?) + held[h] && v.refs > 0
    && (v.valid ==> v.node.Some?)
    && (v.peer.Some? ==> v.peer.value != h && v.peer.value in hooks && hooks[v.peer.value].peer == Some(h))
  }

  ghost predicate HooksOk(hooks: map<HookId, Hook>, held: multiset<HookId>) {
    && (forall h :: h in hooks ==> HookOk(hooks, held, h))
    && (forall h :: h in held ==> h in hooks)
  }

  /** A node has one reference per attached hook and those held outside; the hook list and numhooks agree. */
  ghost predicate NodeOk(v: Node, held: nat) {
    && v.numhooks == |v.hooks| && NoDup(v.hooks)
    && v.refs == |v.hooks| + held && v.refs > 0
  }

  ghost predicate NodesOk(nodes: map<NodeId, Node>, held: multiset<NodeId>) {
    && (forall n :: n in nodes ==> NodeOk(nodes[n], held[n]))
    && (forall n :: n in held ==> n in nodes)
  }

  /** A hook is on a node's list exactly when it is attached to that node. */
  ghost predicate ListsOk(nodes: map<NodeId, Node>, hooks: map<HookId, Hook>) {
    && (forall h :: h in hooks && hooks[h].node.Some? ==>
          hooks[h].node.value in nodes && h in nodes[hooks[h].node.value].hooks)
    && (forall n, h :: n in nodes && h in nodes[n].hooks ==> h in hooks && hooks[h].node == Some(n))
  }

  // ---- What destroying a hook leaves behind ----

  /** A hook that has lost its node and its peer lives on only while someone holds it. */
  function Loose(hooks: map<HookId, Hook>, h: HookId, held: multiset<HookId>): (r: map<HookId, Hook>)
    requires h in hooks
  {
    if h in held then hooks[h := Hook(hooks[h].name, None, None, held[h], false)] else hooks - {h}
  }

  /** A node after hook h has left its list; it goes away with its last hook unless someone holds it. */
  function Shrunk(nodes: map<NodeId, Node>, n: NodeId, h: HookId, held: multiset<NodeId>): (r: map<NodeId, Node>) {
    if n !in nodes || h !in nodes[n].hooks then nodes else
    var l := Remove(nodes[n].hooks, h);
    if l == [] && n !in held then nodes - {n}
    else nodes[n := nodes[n].(hooks := l, numhooks := |l|, refs := |l| + held[n])]
  }

  /** The peer stays where it is: there is no item for the message that would destroy it, or its node is being shut down and
      refuses the message. */
  predicate Stays(nodes: map<NodeId, Node>, v: Hook, item: bool) {
    v.node.Some? && v.node.value in nodes && (!item || nodes[v.node.value].invalid)
  }

  /** The hooks after the peer has been dealt with. */
  function AfterPeer(nodes: map<NodeId, Node>, hooks: map<HookId, Hook>, held: multiset<HookId>, p: HookId, item: bool)
    : (r: map<HookId, Hook>)
    requires p in hooks
  {
    if Stays(nodes, hooks[p], item) then hooks[p := hooks[p].(peer := None, refs := hooks[p].refs - 1)]
    else Loose(hooks, p, held)
  }

  /** Both hooks of a link come loose, except a peer that stays on the list of a node being shut down. */
  function DestroyedHooks(nodes: map<NodeId, Node>, hooks: map<HookId, Hook>, held: multiset<HookId>, h: HookId, item: bool)
    : (r: map<HookId, Hook>)
    requires h in hooks && (hooks[h].peer.Some? ==> hooks[h].peer.value in hooks && hooks[h].peer.value != h)
  {
    var p := hooks[h].peer;
    if p.None? then Loose(hooks, h, held)
    else
      Loose(AfterPeer(nodes, hooks, held, p.value, item), h, held)
  }

  function DestroyedNodes(nodes: map<NodeId, Node>, hooks: map<HookId, Hook>, held: multiset<NodeId>, h: HookId, item: bool)
    : (r: map<NodeId, Node>)
    requires h in hooks && (hooks[h].peer.Some? ==> hooks[h].peer.value in hooks)
  {
    var p := hooks[h].peer;
    var nodes1 := if p.Some? && hooks[p.value].node.Some? && !Stays(nodes, hooks[p.value], item)
                  then Shrunk(nodes, hooks[p.value].node.value, p.value, held) else nodes;
    if hooks[h].node.Some? then Shrunk(nodes1, hooks[h].node.value, h, held) else nodes1
  }

  // ---- Elementary changes ----

  lemma HookCount(hooks: map<HookId, Hook>, held: multiset<HookId>, h: HookId, held': multiset<HookId>)
    requires HooksOk(hooks, held) && h in hooks
    requires held' == held + multiset{h} || (h in held && hooks[h].refs > 1 && held' == held - multiset{h})
    ensures HooksOk(hooks[h := hooks[h].(refs := hooks[h].refs + held'[h] - held[h])], held')
  {
  }

  lemma HookFree(hooks: map<HookId, Hook>, held: multiset<HookId>, h: HookId)
    requires HooksOk(hooks, held) && h in held && hooks[h].refs == 1
    ensures hooks[h].node.None? && hooks[h].peer.None? && held[h] == 1
    ensures HooksOk(hooks - {h}, held - multiset{h})
  {
  }

  lemma NodeCount(nodes: map<NodeId, Node>, held: multiset<NodeId>, n: NodeId, held': multiset<NodeId>)
    requires NodesOk(nodes, held) && n in nodes
    requires held' == held + multiset{n} || (n in held && nodes[n].refs > 1 && held' == held - multiset{n})
    ensures NodesOk(nodes[n := nodes[n].(refs := nodes[n].refs + held'[n] - held[n])], held')
  {
  }

  lemma NodeFree(nodes: map<NodeId, Node>, held: multiset<NodeId>, n: NodeId)
    requires NodesOk(nodes, held) && n in held && nodes[n].refs == 1
    ensures nodes[n].hooks == [] && held[n] == 1
    ensures NodesOk(nodes - {n}, held - multiset{n})
  {
  }

  lemma ListsSameHook(nodes: map<NodeId, Node>, hooks: map<HookId, Hook>, h: HookId, v: Hook)
    requires ListsOk(nodes, hooks) && h in hooks && v.node == hooks[h].node
    ensures ListsOk(nodes, hooks[h := v])
  {
  }

  lemma ListsSameNode(nodes: map<NodeId, Node>, hooks: map<HookId, Hook>, n: NodeId, v: Node)
    requires ListsOk(nodes, hooks) && n in nodes && v.hooks == nodes[n].hooks
    ensures ListsOk(nodes[n := v], hooks)
  {
  }

  lemma ListsFree(nodes: map<NodeId, Node>, hooks: map<HookId, Hook>)
    requires ListsOk(nodes, hooks)
    ensures forall h :: h in hooks && hooks[h].node.None? ==> ListsOk(nodes, hooks - {h})
    ensures forall n :: n in nodes && nodes[n].hooks == [] ==> ListsOk(nodes - {n}, hooks)
  {
  }

  /** Setting both ends of a peer link to the dead hook leaves two references in the hands of the caller. */
  lemma HookDivorce(hooks: map<HookId, Hook>, held: multiset<HookId>, h: HookId, p: HookId)
    requires HooksOk(hooks, held) && h in hooks && hooks[h].peer == Some(p)
    ensures p in hooks && p != h
    ensures HooksOk(hooks[p := hooks[p].(peer := None)][h := hooks[h].(peer := None)], held + multiset{h, p})
  {
    assert HookOk(hooks, held, h) && HookOk(hooks, held, p);
    var m, k := hooks[p := hooks[p].(peer := None)][h := hooks[h].(peer := None)], held + multiset{h, p};
    forall x | x in m ensures HookOk(m, k, x) {
      assert HookOk(hooks, held, x);
    }
  }

  lemma HookFlag(hooks: map<HookId, Hook>, held: multiset<HookId>, h: HookId, valid: bool)
    requires HooksOk(hooks, held) && h in hooks && (valid ==> hooks[h].node.Some?)
    ensures HooksOk(hooks[h := hooks[h].(valid := valid)], held)
  {
  }

  lemma HookDetach(hooks: map<HookId, Hook>, held: multiset<HookId>, h: HookId)
    requires HooksOk(hooks, held) && h in hooks && hooks[h].node.Some? && !hooks[h].valid
    ensures HooksOk(hooks[h := hooks[h].(node := None)], held + multiset{h})
  {
  }

  lemma NodeDetach(nodes: map<NodeId, Node>, held: multiset<NodeId>, n: NodeId, h: HookId)
    requires NodesOk(nodes, held) && n in nodes && h in nodes[n].hooks
    ensures NodesOk(nodes[n := nodes[n].(hooks := Remove(nodes[n].hooks, h), numhooks := nodes[n].numhooks - 1)],
                    held + multiset{n})
  {
    RemoveElements(nodes[n].hooks, h);
  }

  lemma ListsDetach(nodes: map<NodeId, Node>, hooks: map<HookId, Hook>, n: NodeId, h: HookId, v: Node)
    requires ListsOk(nodes, hooks) && h in hooks && hooks[h].node == Some(n) && NoDup(nodes[n].hooks)
    requires v.hooks == Remove(nodes[n].hooks, h)
    ensures ListsOk(nodes[n := v], hooks[h := hooks[h].(node := None)])
  {
    RemoveElements(nodes[n].hooks, h);
  }

  datatype Errno = EINVAL | EEXIST | ENOMEM | ENOENT | EREFUSED

  datatype Result = Success(hook: HookId) | Error(errno: Errno)

  const NG_HOOKSIZ := 32

  /** strlcpy into hk_name. */
  function Stored(name: string): (r: string)
    ensures |r| < NG_HOOKSIZ && r <= name
  {
    if |name| < NG_HOOKSIZ then name else name[..NG_HOOKSIZ - 1]
  }

  ghost predicate Named(nodes: map<NodeId, Node>, hooks: map<HookId, Hook>, n: NodeId, name: string)
    requires n in nodes
  {
    exists h :: h in nodes[n].hooks && h in hooks && hooks[h].valid && hooks[h].name == name
  }

  /** A node type's own search for a hook: None if the type has none, else what it answers. */
  type OwnSearch = Option<Option<HookId>>

  /** The search for a hook by name finds one. */
  ghost predicate InUse(nodes: map<NodeId, Node>, hooks: map<HookId, Hook>, n: NodeId, name: string, own: OwnSearch)
    requires n in nodes
  {
    if own.Some? then own.value.Some? else Named(nodes, hooks, n, name)
  }

  /** A node with one more hook at the head of its list, and the reference that goes with it. */
  function Attach(nodes: map<NodeId, Node>, n: NodeId, h: HookId): (r: map<NodeId, Node>)
    requires n in nodes
  {
    var v := nodes[n];
    nodes[n := v.(hooks := [h] + v.hooks, numhooks := v.numhooks + 1, refs := v.refs + 1)]
  }

  lemma AttachFold(nodes: map<NodeId, Node>, n: NodeId, h: HookId, m: map<NodeId, Node>)
    requires n in nodes && m == nodes[n := nodes[n].(refs := nodes[n].refs + 1)]
    ensures m[n := m[n].(hooks := [h] + m[n].hooks, numhooks := m[n].numhooks + 1)] == Attach(nodes, n, h)
  {
  }

  lemma RefUnrefAny(nodes: map<NodeId, Node>, held: multiset<NodeId>, n: NodeId)
    requires NodesOk(nodes, held) && n in nodes
    ensures UnrefN(nodes[n := nodes[n].(refs := nodes[n].refs + 1)], n) == nodes
  {
    assert NodeOk(nodes[n], held[n]);
  }

  lemma AttachOk(nodes: map<NodeId, Node>, hooks: map<HookId, Hook>, hh: multiset<HookId>, nh: multiset<NodeId>,
                 n: NodeId, h: HookId, v: Hook)
    requires HooksOk(hooks, hh) && NodesOk(nodes, nh) && ListsOk(nodes, hooks)
    requires n in nodes && h !in hooks && v.node == Some(n) && v.peer.None? && v.refs == 2 && !v.valid
    ensures HooksOk(hooks[h := v], hh + multiset{h})
    ensures NodesOk(Attach(nodes, n, h), nh) && ListsOk(Attach(nodes, n, h), hooks[h := v])
  {
    assert NodeOk(nodes[n], nh[n]);
    assert h !in hh;
    assert h !in nodes[n].hooks;
    var m := hooks[h := v];
    forall x | x in m ensures HookOk(m, hh + multiset{h}, x) {
      if x != h { assert HookOk(hooks, hh, x); }
    }
    assert ([h] + nodes[n].hooks)[0] == h;
    assert forall x :: x in [h] + nodes[n].hooks <==> x == h || x in nodes[n].hooks;
  }

  function Divorced(hooks: map<HookId, Hook>, h: HookId): (r: map<HookId, Hook>)
    requires h in hooks && hooks[h].peer.Some? && hooks[h].peer.value in hooks
  {
    var q := hooks[h].peer.value;
    hooks[q := hooks[q].(peer := None)][h := hooks[h].(peer := None)]
  }

  /** The divorce alone: the peer is destroyed unless its node refuses; the hook loses its peer. */
  function UnpeeredHooks(nodes: map<NodeId, Node>, hooks: map<HookId, Hook>, held: multiset<HookId>, h: HookId, item: bool)
    : (r: map<HookId, Hook>)
    requires h in hooks && hooks[h].peer.Some? && hooks[h].peer.value in hooks && hooks[h].peer.value != h
  {
    var hooks1 := AfterPeer(nodes, hooks, held, hooks[h].peer.value, item);
    if hooks[h].node.Some? then hooks1[h := hooks[h].(peer := None, refs := hooks[h].refs - 1)]
    else Loose(hooks1, h, held)
  }

  function UnpeeredNodes(nodes: map<NodeId, Node>, hooks: map<HookId, Hook>, held: multiset<NodeId>, h: HookId, item: bool)
    : (r: map<NodeId, Node>)
    requires h in hooks && hooks[h].peer.Some? && hooks[h].peer.value in hooks
  {
    var v := hooks[hooks[h].peer.value];
    if v.node.Some? && !Stays(nodes, v, item) then Shrunk(nodes, v.node.value, hooks[h].peer.value, held) else nodes
  }

  function Unref(hooks: map<HookId, Hook>, h: HookId): (r: map<HookId, Hook>)
    requires h in hooks
  {
    if hooks[h].refs == 1 then hooks - {h} else hooks[h := hooks[h].(refs := hooks[h].refs - 1)]
  }

  function UnrefN(nodes: map<NodeId, Node>, n: NodeId): (r: map<NodeId, Node>)
    requires n in nodes
  {
    if nodes[n].refs == 1 then nodes - {n} else nodes[n := nodes[n].(refs := nodes[n].refs - 1)]
  }

  lemma UnrefHookOk(nodes: map<NodeId, Node>, hooks: map<HookId, Hook>, held: multiset<HookId>, h: HookId)
    requires HooksOk(hooks, held) && ListsOk(nodes, hooks) && h in held
    ensures h in hooks
    ensures HooksOk(Unref(hooks, h), held - multiset{h}) && ListsOk(nodes, Unref(hooks, h))
  {
    assert HookOk(hooks, held, h);
    if hooks[h].refs == 1 {
      HookFree(hooks, held, h);
      ListsFree(nodes, hooks);
    } else {
      HookCount(hooks, held, h, held - multiset{h});
      ListsSameHook(nodes, hooks, h, hooks[h].(refs := hooks[h].refs - 1));
    }
  }

  lemma UnrefNodeOk(nodes: map<NodeId, Node>, hooks: map<HookId, Hook>, held: multiset<NodeId>, n: NodeId)
    requires NodesOk(nodes, held) && ListsOk(nodes, hooks) && n in held
    ensures n in nodes
    ensures NodesOk(UnrefN(nodes, n), held - multiset{n}) && ListsOk(UnrefN(nodes, n), hooks)
  {
    assert NodeOk(nodes[n], held[n]);
    if nodes[n].refs == 1 {
      NodeFree(nodes, held, n);
      ListsFree(nodes, hooks);
    } else {
      NodeCount(nodes, held, n, held - multiset{n});
      ListsSameNode(nodes, hooks, n, nodes[n].(refs := nodes[n].refs - 1));
    }
  }

  /** Destroying a peerless hook while an item holds the hook... */
  lemma RefUnrefHook(hooks: map<HookId, Hook>, held: multiset<HookId>, p: HookId)
    requires p in hooks && p in held && hooks[p].refs >= 1
    ensures var hooks1 := hooks[p := hooks[p].(refs := hooks[p].refs + 1)];
            && Unref(hooks1, p) == hooks
            && p in Loose(hooks1, p, held + multiset{p})
            && Unref(Loose(hooks1, p, held + multiset{p}), p) == Loose(hooks, p, held)
  {
  }

  /** ... and its node. */
  lemma RefUnrefNode(nodes: map<NodeId, Node>, held: multiset<NodeId>, n: NodeId, p: HookId)
    requires n in nodes && nodes[n].refs >= 1 && p in nodes[n].hooks
    ensures var nodes1 := nodes[n := nodes[n].(refs := nodes[n].refs + 1)];
            && UnrefN(nodes1, n) == nodes
            && n in Shrunk(nodes1, n, p, held + multiset{n})
            && UnrefN(Shrunk(nodes1, n, p, held + multiset{n}), n) == Shrunk(nodes, n, p, held)
  {
  }

  /** How the divorce, the destruction of the peer and the two released references compose. */
  lemma UnpeerFacts(hooks: map<HookId, Hook>, held: multiset<HookId>, h: HookId)
    requires HooksOk(hooks, held) && h in hooks && hooks[h].peer.Some?
    ensures var q := hooks[h].peer.value;
            && q in hooks && q != h
            && var d, k := Divorced(hooks, h), held + multiset{h, q};
               && h in d && q in d && d[q].node == hooks[q].node && d[q].peer.None?
               && q in k && k - multiset{q} - multiset{h} == held && h in k - multiset{q}
  {
    assert HookOk(hooks, held, h);
  }

  lemma UnpeerKept(nodes: map<NodeId, Node>, hooks: map<HookId, Hook>, held: multiset<HookId>, h: HookId, q: HookId, item: bool)
    requires HooksOk(hooks, held) && h in hooks && hooks[h].peer == Some(q) && q in hooks && q != h && !hooks[h].valid
    requires hooks[q].node.None? || Stays(nodes, hooks[q], item)
    ensures var d := Divorced(hooks, h);
            h in Unref(d, q) && Unref(Unref(d, q), h) == UnpeeredHooks(nodes, hooks, held, h, item)
  {
    assert HookOk(hooks, held, h) && HookOk(hooks, held, q);
  }

  lemma UnpeerGone(nodes: map<NodeId, Node>, hooks: map<HookId, Hook>, held: multiset<HookId>, h: HookId, q: HookId, item: bool)
    requires HooksOk(hooks, held) && h in hooks && hooks[h].peer == Some(q) && q in hooks && q != h && !hooks[h].valid
    requires hooks[q].node.Some? && !Stays(nodes, hooks[q], item)
    ensures var l := Loose(Divorced(hooks, h), q, held + multiset{h, q});
            q in l && h in Unref(l, q) && Unref(Unref(l, q), h) == UnpeeredHooks(nodes, hooks, held, h, item)
  {
    assert HookOk(hooks, held, h) && HookOk(hooks, held, q);
    hide HooksOk;
    var d, x := Divorced(hooks, h), hooks[h].(peer := None);
    LooseHeld(d, held, h, q);
    var m := Loose(hooks, q, held);
    assert Loose(d, q, held) == m[h := x] by { LooseOther(hooks, held, h, q, x); }
    hide Loose;
    LastUnref(m, held, h, x);
  }

  /** A loose hook that is held once more, and let go. */
  lemma LooseHeld(m: map<HookId, Hook>, held: multiset<HookId>, h: HookId, q: HookId)
    requires q in m && h != q
    ensures var l := Loose(m, q, held + multiset{h, q}); q in l && Unref(l, q) == Loose(m, q, held)
  {
    var k := held + multiset{h, q};
    assert k[q] == held[q] + 1;
    var l := Loose(m, q, k);
    assert l[q].refs == held[q] + 1;
    assert l - {q} == m - {q};
  }

  lemma LooseOther(hooks: map<HookId, Hook>, held: multiset<HookId>, h: HookId, q: HookId, x: Hook)
    requires h in hooks && hooks[h].peer == Some(q) && q in hooks && q != h && x == hooks[h].(peer := None)
    ensures h in Loose(hooks, q, held) && Loose(Divorced(hooks, h), q, held) == Loose(hooks, q, held)[h := x]
  {
    assert Divorced(hooks, h) - {q} == (hooks - {q})[h := x];
  }

  /** Dropping the peer's reference. */
  lemma LastUnref(m: map<HookId, Hook>, held: multiset<HookId>, h: HookId, x: Hook)
    requires h in m && x.peer.None? && !x.valid && x.name == m[h].name
    requires x.refs == AsNumber(x.node.Some?) + 1 + held[h]
    ensures Unref(m[h := x], h)
         == if x.node.Some? then m[h := x.(refs := x.refs - 1)] else Loose(m, h, held)
  {
    assert m[h := x] - {h} == m - {h};
  }

  /** How clearing the flag, the divorce and the detachment compose. */
  lemma DestroyFacts(nodes: map<NodeId, Node>, hooks: map<HookId, Hook>, hh: multiset<HookId>, nh: multiset<NodeId>, h: HookId, item: bool)
    requires HooksOk(hooks, hh) && h in hooks
    ensures hooks[h].peer.Some? ==> hooks[h].peer.value in hooks && hooks[h].peer.value != h
    ensures var v := hooks[h := hooks[h].(valid := false)];
            if hooks[h].peer.None? then
              && Loose(v, h, hh) == DestroyedHooks(nodes, hooks, hh, h, item)
              && (hooks[h].node.None? ==> v == DestroyedHooks(nodes, hooks, hh, h, item) && nodes == DestroyedNodes(nodes, hooks, nh, h, item))
              && (hooks[h].node.Some? ==>
                    Shrunk(nodes, hooks[h].node.value, h, nh) == DestroyedNodes(nodes, hooks, nh, h, item))
            else
              var u, w := UnpeeredHooks(nodes, v, hh, h, item), UnpeeredNodes(nodes, v, nh, h, item);
              if hooks[h].node.None? then
                u == DestroyedHooks(nodes, hooks, hh, h, item) && w == DestroyedNodes(nodes, hooks, nh, h, item)
              else
                && h in u && u[h].node == hooks[h].node && u[h].peer.None? && !u[h].valid
                && Loose(u, h, hh) == DestroyedHooks(nodes, hooks, hh, h, item)
                && Shrunk(w, hooks[h].node.value, h, nh) == DestroyedNodes(nodes, hooks, nh, h, item)
  {
    assert HookOk(hooks, hh, h);
    hide HooksOk, HookOk;
    var v := hooks[h := hooks[h].(valid := false)];
    if hooks[h].peer.Some? {
      DestroyPeered(nodes, hooks, v, hh, nh, h, item);
    } else {
      assert Loose(v, h, hh) == Loose(hooks, h, hh);
    }
  }

  /** What that graph is, hook by hook. The hook itself has no node and no peer any more and lives on only while someone
      holds it. So does its peer, unless the peer is attached to a node that refuses the message or there is no item for
      the message: then it stays attached, and only loses its peer. No other hook changes. */
  lemma DestroyEffect(nodes: map<NodeId, Node>, hooks: map<HookId, Hook>, hh: multiset<HookId>, h: HookId, item: bool)
    requires HooksOk(hooks, hh) && ListsOk(nodes, hooks) && h in hooks
    ensures hooks[h].peer.Some? ==> hooks[h].peer.value in hooks && hooks[h].peer.value != h
    ensures var d := DestroyedHooks(nodes, hooks, hh, h, item);
            && (h in d <==> h in hh)
            && (h in d ==> d[h].node.None? && d[h].peer.None? && !d[h].valid)
            && (forall x :: x in hooks && x != h && hooks[h].peer != Some(x) ==> x in d && d[x] == hooks[x])
            && forall p :: hooks[h].peer == Some(p) ==>
                 if hooks[p].node.Some? && (!item || nodes[hooks[p].node.value].invalid) then
                   p in d && d[p].node == hooks[p].node && d[p].peer.None? && d[p].valid == hooks[p].valid
                 else (p in d <==> p in hh) && (p in d ==> d[p].node.None? && d[p].peer.None? && !d[p].valid)
  {
    assert HookOk(hooks, hh, h);
  }

  lemma DestroyPeered(nodes: map<NodeId, Node>, hooks: map<HookId, Hook>, v: map<HookId, Hook>, hh: multiset<HookId>,
                      nh: multiset<NodeId>, h: HookId, item: bool)
    requires h in hooks && v == hooks[h := hooks[h].(valid := false)]
    requires hooks[h].peer.Some? && hooks[h].peer.value in hooks && hooks[h].peer.value != h
    ensures var u, w := UnpeeredHooks(nodes, v, hh, h, item), UnpeeredNodes(nodes, v, nh, h, item);
            if hooks[h].node.None? then
              u == DestroyedHooks(nodes, hooks, hh, h, item) && w == DestroyedNodes(nodes, hooks, nh, h, item)
            else
              && h in u && u[h].node == hooks[h].node && u[h].peer.None? && !u[h].valid
              && Loose(u, h, hh) == DestroyedHooks(nodes, hooks, hh, h, item)
              && Shrunk(w, hooks[h].node.value, h, nh) == DestroyedNodes(nodes, hooks, nh, h, item)
  {
    hide Shrunk;
    var p, x := hooks[h].peer.value, hooks[h];
    PeerLeft(nodes, hooks, hh, h, v[h], item);
    var m := AfterPeer(nodes, hooks, hh, p, item);
    LooseAny(m, hh, h, v[h]);
    LooseAny(m, hh, h, x.(valid := false, peer := None, refs := x.refs - 1));
    hide Loose;
    var mv: map<HookId, Hook> := m[h := v[h]];
    assert AfterPeer(nodes, v, hh, p, item) == mv;
    assert mv[h := v[h].(peer := None, refs := x.refs - 1)] == m[h := x.(valid := false, peer := None, refs := x.refs - 1)];
  }

  lemma PeerLeft(nodes: map<NodeId, Node>, hooks: map<HookId, Hook>, hh: multiset<HookId>, h: HookId, x: Hook, item: bool)
    requires h in hooks && hooks[h].peer.Some? && hooks[h].peer.value in hooks && hooks[h].peer.value != h
    ensures var p := hooks[h].peer.value;
            h in AfterPeer(nodes, hooks, hh, p, item)
            && AfterPeer(nodes, hooks[h := x], hh, p, item) == AfterPeer(nodes, hooks, hh, p, item)[h := x]
  {
    var p := hooks[h].peer.value;
    assert hooks[h := x] - {p} == (hooks - {p})[h := x];
  }

  /** Coming loose forgets everything but the name. */
  lemma LooseAny(hooks: map<HookId, Hook>, hh: multiset<HookId>, h: HookId, x: Hook)
    requires h in hooks && x.name == hooks[h].name
    ensures Loose(hooks[h := x], h, hh) == Loose(hooks, h, hh)
  {
    assert hooks[h := x] - {h} == hooks - {h};
  }

  /** An rmhook message to a peerless hook has been dealt with. */
  ghost predicate RmDone(nodes: map<NodeId, Node>, hooks: map<HookId, Hook>, hh: multiset<HookId>, nh: multiset<NodeId>,
                         p: HookId, nodes': map<NodeId, Node>, hooks': map<HookId, Hook>, item: bool)
  {
    && p in hooks && hooks[p].node.Some?
    && if Stays(nodes, hooks[p], item) then hooks' == hooks && nodes' == nodes
       else hooks' == Loose(hooks, p, hh) && nodes' == Shrunk(nodes, hooks[p].node.value, p, nh)
  }

  lemma NoItem(nodes: map<NodeId, Node>, hooks: map<HookId, Hook>, hh: multiset<HookId>, nh: multiset<NodeId>, p: HookId)
    requires p in hooks && hooks[p].node.Some? && hooks[p].node.value in nodes
    ensures RmDone(nodes, hooks, hh, nh, p, nodes, hooks, false)
  {
  }

  /** The references the item holds meanwhile cancel out. */
  lemma RmCompose(nodes: map<NodeId, Node>, hooks: map<HookId, Hook>, hh: multiset<HookId>, nh: multiset<NodeId>,
                  n: NodeId, p: HookId, nodes2: map<NodeId, Node>, hooks2: map<HookId, Hook>, item: bool)
    requires p in hooks && p in hh && hooks[p].refs >= 1 && hooks[p].node == Some(n)
    requires n in nodes && nodes[n].refs >= 1 && p in nodes[n].hooks
    requires RmDone(nodes[n := nodes[n].(refs := nodes[n].refs + 1)], hooks[p := hooks[p].(refs := hooks[p].refs + 1)],
                    hh + multiset{p}, nh + multiset{n}, p, nodes2, hooks2, item)
    ensures p in hooks2 && n in nodes2
    ensures RmDone(nodes, hooks, hh, nh, p, UnrefN(nodes2, n), Unref(hooks2, p), item)
  {
    hide Loose, Shrunk, Unref, UnrefN;
    RefUnrefHook(hooks, hh, p);
    RefUnrefNode(nodes, nh, n, p);
  }

  lemma PeerlessDestroyed(nodes: map<NodeId, Node>, hooks: map<HookId, Hook>, hh: multiset<HookId>,
                          nh: multiset<NodeId>, h: HookId, item: bool)
    requires h in hooks && hooks[h].peer.None?
    ensures DestroyedHooks(nodes, hooks, hh, h, item) == Loose(hooks, h, hh)
    ensures hooks[h].node.Some? ==> DestroyedNodes(nodes, hooks, nh, h, item) == Shrunk(nodes, hooks[h].node.value, h, nh)
    ensures hooks[h].node.None? ==> DestroyedNodes(nodes, hooks, nh, h, item) == nodes
  {
  }

  lemma AddDrop<T>(m: multiset<T>, x: T)
    ensures m + multiset{x} - multiset{x} == m
    ensures (m + multiset{x})[x] == m[x] + 1 && forall y :: y in m ==> y in m + multiset{x}
  {
  }

  /** h has left the list of n. */
  ghost predicate Left(nodes: map<NodeId, Node>, n: NodeId, h: HookId, nodes': map<NodeId, Node>) {
    && n in nodes && h in nodes[n].hooks
    && nodes' == nodes[n := nodes[n].(hooks := Remove(nodes[n].hooks, h), numhooks := nodes[n].numhooks - 1)]
  }

  /** Leaving the list and then dropping one reference gives Shrunk. */
  lemma ShrunkFold(nodes: map<NodeId, Node>, n: NodeId, h: HookId, held: multiset<NodeId>, nodes1: map<NodeId, Node>)
    requires Left(nodes, n, h, nodes1)
    requires nodes[n].numhooks == |nodes[n].hooks| && nodes[n].refs == |nodes[n].hooks| + held[n]
    ensures n in nodes1
    ensures Shrunk(nodes, n, h, held) == UnrefN(nodes1, n)
  {
  }

  lemma LooseFold(hooks: map<HookId, Hook>, h: HookId, held: multiset<HookId>)
    requires h in hooks && hooks[h].peer.None? && !hooks[h].valid && hooks[h].refs == 1 + held[h]
    ensures Loose(hooks, h, held) == Unref(hooks[h := hooks[h].(node := None)], h)
  {
  }

  lemma DetachFacts(nodes: map<NodeId, Node>, hooks: map<HookId, Hook>, hh: multiset<HookId>, nh: multiset<NodeId>, h: HookId)
    requires HooksOk(hooks, hh) && NodesOk(nodes, nh) && ListsOk(nodes, hooks)
    requires h in hooks && hooks[h].node.Some?
    ensures var n := hooks[h].node.value;
            && n in nodes && h in nodes[n].hooks && NoDup(nodes[n].hooks)
            && nodes[n].refs == |nodes[n].hooks| + nh[n] && nodes[n].numhooks == |nodes[n].hooks|
    ensures hooks[h].refs == 1 + AsNumber(hooks[h].peer.Some?) + hh[h]
  {
  }
}
