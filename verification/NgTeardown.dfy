/** Draining and shutting down a node, bypassing two hooks, and adding a node with its first link. */
module NgTeardown {
  import opened Common
  import opened NgConnect
  import opened NgState

  /** h was on node n, or its peer was. */
  ghost predicate Affected(hooks0: map<HookId, Hook>, n: NodeId, h: HookId)
    requires h in hooks0
  {
    || hooks0[h].node == Some(n)
    || (hooks0[h].peer.Some? && hooks0[h].peer.value in hooks0 && hooks0[hooks0[h].peer.value].node == Some(n))
  }

  /** While node n is drained: hooks it does not affect are untouched, no hook appears, and a hook of n is either still
      on the list or loose. */
  ghost predicate Draining(n: NodeId, hooks0: map<HookId, Hook>, hooks: map<HookId, Hook>) {
    && hooks.Keys <= hooks0.Keys
    && (forall h :: h in hooks0 && !Affected(hooks0, n, h) ==> h in hooks && hooks[h] == hooks0[h])
    && (forall h :: h in hooks ==> hooks[h].peer == hooks0[h].peer || hooks[h].peer.None?)
    && (forall h :: h in hooks ==> hooks[h].node == hooks0[h].node || (hooks[h].node.None? && hooks[h].peer.None?))
  }

  /** All hooks of n are loose or gone, so are their peers unless on another node being shut down, and nothing else
      changed. */
  ghost predicate Drained(n: NodeId, hooks0: map<HookId, Hook>, hooks: map<HookId, Hook>) {
    && hooks.Keys <= hooks0.Keys
    && (forall h :: h in hooks0 && !Affected(hooks0, n, h) ==> h in hooks && hooks[h] == hooks0[h])
    && (forall h :: h in hooks && Affected(hooks0, n, h) ==> hooks[h].peer.None? && hooks[h].node != Some(n))
  }

  lemma DrainStart(hooks: map<HookId, Hook>, n: NodeId)
    ensures Draining(n, hooks, hooks)
  {
  }

  lemma DrainEnd(n: NodeId, hooks0: map<HookId, Hook>, nodes: map<NodeId, Node>, hooks: map<HookId, Hook>,
                 hh: multiset<HookId>)
    requires Draining(n, hooks0, hooks) && ListsOk(nodes, hooks) && HooksOk(hooks, hh) && n in nodes && nodes[n].hooks == []
    ensures Drained(n, hooks0, hooks)
  {
    forall h | h in hooks && Affected(hooks0, n, h)
      ensures hooks[h].peer.None? && hooks[h].node != Some(n)
    {
      assert HookOk(hooks, hh, h);
      if hooks[h].peer.Some? {
        assert HookOk(hooks, hh, hooks[h].peer.value);
      }
    }
  }

  lemma DrainStep(n: NodeId, hooks0: map<HookId, Hook>, nodes: map<NodeId, Node>, hooks: map<HookId, Hook>,
                  hh: multiset<HookId>, nh: multiset<NodeId>)
    requires Draining(n, hooks0, hooks) && ListsOk(nodes, hooks) && HooksOk(hooks, hh) && NodesOk(nodes, nh)
    requires n in nh && n in nodes && nodes[n].hooks != []
    ensures var h := nodes[n].hooks[0];
            && h in hooks && (hooks[h].peer.Some? ==> hooks[h].peer.value in hooks && hooks[h].peer.value != h)
            && var nodes1, hooks1 := DestroyedNodes(nodes, hooks, nh, h, true), DestroyedHooks(nodes, hooks, hh, h, true);
               && Draining(n, hooks0, hooks1)
               && n in nodes1 && nodes1[n].invalid == nodes[n].invalid && nodes1[n].closing == nodes[n].closing
               && |nodes1[n].hooks| < |nodes[n].hooks|
  {
    var h := nodes[n].hooks[0];
    assert h in nodes[n].hooks;
    assert HookOk(hooks, hh, h);
    DrainNodes(nodes, hooks, nh, n, h);
    DrainHooks(n, hooks0, nodes, hooks, hh, h);
  }

  lemma DrainNodes(nodes: map<NodeId, Node>, hooks: map<HookId, Hook>, nh: multiset<NodeId>, n: NodeId, h: HookId)
    requires NodesOk(nodes, nh) && n in nh && n in nodes && h in hooks && h in nodes[n].hooks && hooks[h].node == Some(n)
    requires hooks[h].peer.Some? ==> hooks[h].peer.value in hooks && hooks[h].peer.value != h
    ensures var nodes1 := DestroyedNodes(nodes, hooks, nh, h, true);
            && n in nodes1 && nodes1[n].invalid == nodes[n].invalid && nodes1[n].closing == nodes[n].closing
            && |nodes1[n].hooks| < |nodes[n].hooks|
  {
    assert NodeOk(nodes[n], nh[n]);
    var p := hooks[h].peer;
    if p.Some? && hooks[p.value].node == Some(n) && !Stays(nodes, hooks[p.value], true) && p.value in nodes[n].hooks {
      RemoveElements(nodes[n].hooks, p.value);
    }
  }

  /** Destroying a hook changes that hook and its peer and nothing else. */
  lemma DestroyedShape(nodes: map<NodeId, Node>, hooks: map<HookId, Hook>, hh: multiset<HookId>, h: HookId)
    requires h in hooks && (hooks[h].peer.Some? ==> hooks[h].peer.value in hooks && hooks[h].peer.value != h)
    ensures var r := DestroyedHooks(nodes, hooks, hh, h, true);
            && r.Keys <= hooks.Keys
            && (forall x :: x in hooks && x != h && hooks[h].peer != Some(x) ==> x in r && r[x] == hooks[x])
            && (h in r ==> r[h].node.None? && r[h].peer.None?)
            && (forall x :: x in r && hooks[h].peer == Some(x) ==>
                  r[x].peer.None? && (r[x].node == hooks[x].node || r[x].node.None?))
  {
  }

  lemma DrainHooks(n: NodeId, hooks0: map<HookId, Hook>, nodes: map<NodeId, Node>, hooks: map<HookId, Hook>,
                   hh: multiset<HookId>, h: HookId)
    requires Draining(n, hooks0, hooks) && HooksOk(hooks, hh) && h in hooks && hooks[h].node == Some(n)
    requires hooks[h].peer.Some? ==> hooks[h].peer.value in hooks && hooks[h].peer.value != h
    ensures Draining(n, hooks0, DestroyedHooks(nodes, hooks, hh, h, true))
  {
    hide HooksOk, DestroyedHooks;
    DestroyedShape(nodes, hooks, hh, h);
    assert hooks0[h].node == Some(n);
    if hooks[h].peer.Some? {
      var p := hooks[h].peer.value;
      PeerBack(hooks, hh, h);
      assert hooks0[p].peer == Some(h);
      assert Affected(hooks0, n, p);
    }
    assert Affected(hooks0, n, h);
  }

  lemma PeerBack(hooks: map<HookId, Hook>, hh: multiset<HookId>, h: HookId)
    requires HooksOk(hooks, hh) && h in hooks && hooks[h].peer.Some?
    ensures hooks[h].peer.value in hooks && hooks[hooks[h].peer.value].peer == Some(h)
  {
    assert HookOk(hooks, hh, h);
  }

  /** What the type's shutdown method does: bring the node back, release the creator's reference (as ng_rmnode itself
      does when there is no method), or leave that reference with some lingering holder. */
  datatype Shutdown = Survives | Releases | Keeps

  function Remaining(held: multiset<NodeId>, n: NodeId, sd: Shutdown): (r: multiset<NodeId>) {
    if sd.Releases? then held - multiset{n} else held
  }

  /** A hookless node after ng_rmnode. */
  function Closed(nodes: map<NodeId, Node>, n: NodeId, held: multiset<NodeId>, closing: bool): (r: map<NodeId, Node>) {
    if n in held then nodes[n := Node([], 0, held[n], closing, closing)] else nodes - {n}
  }

  lemma MarkOk(nodes: map<NodeId, Node>, held: multiset<NodeId>, n: NodeId, closing: bool)
    requires NodesOk(nodes, held) && n in nodes
    ensures NodesOk(nodes[n := nodes[n].(invalid := closing, closing := closing)], held)
  {
    assert NodeOk(nodes[n], held[n]);
  }

  lemma RetiredCount(nodes: map<NodeId, Node>, hooks: map<HookId, Hook>, held: multiset<NodeId>, n: NodeId)
    requires NodesOk(nodes, held) && (n in nodes ==> nodes[n].hooks == [])
    ensures n in nodes <==> n in held
    ensures n in nodes ==> nodes[n].refs == held[n] && nodes[n].numhooks == 0
  {
    if n in nodes { assert NodeOk(nodes[n], held[n]); }
  }

  lemma ClosedFold(nodes0: map<NodeId, Node>, n: NodeId, held0: multiset<NodeId>, nodes: map<NodeId, Node>,
                   held: multiset<NodeId>, sd: Shutdown)
    requires n in nodes0 && NodesOk(nodes, held)
    requires forall x :: x != n ==> (x in nodes <==> x in nodes0) && (x in nodes ==> nodes[x] == nodes0[x])
    requires n in nodes ==> nodes[n].hooks == [] && nodes[n].closing == !sd.Survives? && nodes[n].invalid == !sd.Survives?
    ensures nodes == Closed(nodes0, n, held, !sd.Survives?)
  {
    RetiredCount(nodes, map[], held, n);
    assert nodes.Keys == Closed(nodes0, n, held, !sd.Survives?).Keys;
  }

  // ---- Bypass ----

  function Spliced(hooks: map<HookId, Hook>, h1: HookId, h2: HookId): (r: map<HookId, Hook>)
    requires h1 in hooks && h2 in hooks && hooks[h1].peer.Some? && hooks[h2].peer.Some?
    requires hooks[h1].peer.value in hooks && hooks[h2].peer.value in hooks
  {
    var p1, p2 := hooks[h1].peer.value, hooks[h2].peer.value;
    var m := if p1 == h2 then hooks
             else hooks[p1 := hooks[p1].(peer := Some(p2))][p2 := hooks[p2].(peer := Some(p1))];
    m[h1 := m[h1].(peer := None)][h2 := m[h2].(peer := None)]
  }

  /** The two hooks are loose; their former peers, if they were not each other's, are now linked, with their counts
      unchanged. */
  ghost predicate BypassHooks(hooks0: map<HookId, Hook>, hh: multiset<HookId>, h1: HookId, h2: HookId, hooks: map<HookId, Hook>)
    requires h1 in hooks0 && h2 in hooks0
  {
    && (forall x :: x in hooks0 && x != h1 && x != h2 ==>
          x in hooks && hooks[x] == if hooks0[h1].peer == Some(x) then hooks0[x].(peer := hooks0[h2].peer)
                                    else if hooks0[h2].peer == Some(x) then hooks0[x].(peer := hooks0[h1].peer)
                                    else hooks0[x])
    && (forall x :: x in hooks ==> x in hooks0)
    && (h1 in hooks <==> h1 in hh) && (h1 in hooks ==> hooks[h1] == Hook(hooks0[h1].name, None, None, hh[h1], false))
    && (h2 in hooks <==> h2 in hh) && (h2 in hooks ==> hooks[h2] == Hook(hooks0[h2].name, None, None, hh[h2], false))
  }

  /** The same as a function. */
  function Bypassed(hooks: map<HookId, Hook>, held: multiset<HookId>, h1: HookId, h2: HookId): (r: map<HookId, Hook>)
    requires h1 in hooks && h2 in hooks
  {
    map x | x in hooks && ((x != h1 && x != h2) || x in held) ::
      if x == h1 || x == h2 then Hook(hooks[x].name, None, None, held[x], false)
      else if hooks[h1].peer == Some(x) then hooks[x].(peer := hooks[h2].peer)
      else if hooks[h2].peer == Some(x) then hooks[x].(peer := hooks[h1].peer)
      else hooks[x]
  }

  lemma BypassIsBypassed(hooks0: map<HookId, Hook>, hh: multiset<HookId>, h1: HookId, h2: HookId, hooks: map<HookId, Hook>)
    requires h1 in hooks0 && h2 in hooks0 && BypassHooks(hooks0, hh, h1, h2, hooks)
    ensures hooks == Bypassed(hooks0, hh, h1, h2)
  {
    assert forall x :: x in hooks <==> x in Bypassed(hooks0, hh, h1, h2);
  }

  /** Two distinct valid hooks of node n that both have a peer. */
  ghost predicate Through(hooks: map<HookId, Hook>, n: NodeId, h1: HookId, h2: HookId) {
    && h1 in hooks && h2 in hooks && h1 != h2 && hooks[h1].valid && hooks[h2].valid
    && hooks[h1].node == Some(n) && hooks[h2].node == Some(n) && hooks[h1].peer.Some? && hooks[h2].peer.Some?
  }

  /** What the type's close method does before the drain: nothing, or extricate the node from between two hooks. */
  datatype Close = Nothing | Extricate(h1: HookId, h2: HookId)

  function AfterClose(hooks: map<HookId, Hook>, held: multiset<HookId>, close: Close): (r: map<HookId, Hook>)
    requires close.Extricate? ==> close.h1 in hooks && close.h2 in hooks
  {
    if close.Nothing? then hooks else Bypassed(hooks, held, close.h1, close.h2)
  }

  /** A node that extricates itself leaves the two neighbours linked to each other when it is gone. */
  lemma NeighboursStayLinked(n: NodeId, hooks0: map<HookId, Hook>, held: multiset<HookId>, h1: HookId, h2: HookId,
                             hooks: map<HookId, Hook>)
    requires HooksOk(hooks0, held) && Through(hooks0, n, h1, h2) && Drained(n, Bypassed(hooks0, held, h1, h2), hooks)
    requires hooks0[h1].peer.value in hooks0 && hooks0[hooks0[h1].peer.value].node != Some(n)
    requires hooks0[h2].peer.value in hooks0 && hooks0[hooks0[h2].peer.value].node != Some(n)
    ensures var p1, p2 := hooks0[h1].peer.value, hooks0[h2].peer.value;
            && p1 != p2 && p1 in hooks && hooks[p1] == hooks0[p1].(peer := Some(p2))
            && p2 in hooks && hooks[p2] == hooks0[p2].(peer := Some(p1))
  {
    var p1, p2 := hooks0[h1].peer.value, hooks0[h2].peer.value;
    assert HookOk(hooks0, held, h1) && HookOk(hooks0, held, h2);
    var m := Bypassed(hooks0, held, h1, h2);
    assert m[p1] == hooks0[p1].(peer := Some(p2)) && m[p2] == hooks0[p2].(peer := Some(p1));
    hide HooksOk, Bypassed;
    assert !Affected(m, n, p1) && !Affected(m, n, p2);
  }

  lemma BypassKeepsNode(nodes: map<NodeId, Node>, hooks: map<HookId, Hook>, hh: multiset<HookId>, nh: multiset<NodeId>,
                        h1: HookId, h2: HookId, nodes': map<NodeId, Node>, hooks': map<HookId, Hook>, n: NodeId)
    requires BypassDone(nodes, hooks, hh, nh, h1, h2, nodes', hooks') && n in nodes && n in nh
    ensures n in nodes' && nodes'[n].invalid == nodes[n].invalid && nodes'[n].closing == nodes[n].closing
  {
  }

  /** ... and both have left their node. */
  ghost predicate BypassDone(nodes0: map<NodeId, Node>, hooks0: map<HookId, Hook>, hh: multiset<HookId>, nh: multiset<NodeId>,
                             h1: HookId, h2: HookId, nodes: map<NodeId, Node>, hooks: map<HookId, Hook>)
  {
    && h1 in hooks0 && h2 in hooks0 && hooks0[h1].node.Some?
    && BypassHooks(hooks0, hh, h1, h2, hooks)
    && nodes == Shrunk(Shrunk(nodes0, hooks0[h1].node.value, h1, nh), hooks0[h1].node.value, h2, nh)
  }

  lemma SpliceOk(hooks: map<HookId, Hook>, hh: multiset<HookId>, h1: HookId, h2: HookId)
    requires HooksOk(hooks, hh) && h1 in hooks && h2 in hooks && h1 != h2 && hooks[h1].peer.Some? && hooks[h2].peer.Some?
    ensures hooks[h1].peer.value in hooks && hooks[h2].peer.value in hooks
    ensures hooks[h1].peer.value != h1 && hooks[h2].peer.value != h2 && hooks[h1].peer != hooks[h2].peer
    ensures hooks[h1].peer == Some(h2) <==> hooks[h2].peer == Some(h1)
    ensures HooksOk(Spliced(hooks, h1, h2), hh + multiset{h1, h2})
  {
    assert HookOk(hooks, hh, h1) && HookOk(hooks, hh, h2);
    var p1, p2 := hooks[h1].peer.value, hooks[h2].peer.value;
    assert HookOk(hooks, hh, p1) && HookOk(hooks, hh, p2);
    var m, k := Spliced(hooks, h1, h2), hh + multiset{h1, h2};
    forall x | x in m ensures HookOk(m, k, x) {
      SpliceOne(hooks, hh, h1, h2, x);
    }
  }

  lemma SpliceOne(hooks: map<HookId, Hook>, hh: multiset<HookId>, h1: HookId, h2: HookId, x: HookId)
    requires HooksOk(hooks, hh) && h1 in hooks && h2 in hooks && h1 != h2 && x in hooks
    requires hooks[h1].peer.Some? && hooks[h2].peer.Some? && hooks[h1].peer.value in hooks && hooks[h2].peer.value in hooks
    ensures HookOk(Spliced(hooks, h1, h2), hh + multiset{h1, h2}, x)
  {
    assert HookOk(hooks, hh, h1) && HookOk(hooks, hh, h2) && HookOk(hooks, hh, x);
    assert HookOk(hooks, hh, hooks[h1].peer.value) && HookOk(hooks, hh, hooks[h2].peer.value);
    if hooks[x].peer.Some? { assert HookOk(hooks, hh, hooks[x].peer.value); }
    hide HooksOk;
    assert (hh + multiset{h1, h2})[x] == hh[x] + if x == h1 || x == h2 then 1 else 0;
  }

  lemma SpliceLists(nodes: map<NodeId, Node>, hooks: map<HookId, Hook>, h1: HookId, h2: HookId)
    requires ListsOk(nodes, hooks)
    requires h1 in hooks && h2 in hooks && hooks[h1].peer.Some? && hooks[h2].peer.Some?
    requires hooks[h1].peer.value in hooks && hooks[h2].peer.value in hooks
    ensures ListsOk(nodes, Spliced(hooks, h1, h2))
  {
    hide ListsOk, Spliced;
    SplicedNodes(hooks, h1, h2);
    ListsByNode(nodes, hooks, Spliced(hooks, h1, h2));
  }

  lemma SplicedNodes(hooks: map<HookId, Hook>, h1: HookId, h2: HookId)
    requires h1 in hooks && h2 in hooks && hooks[h1].peer.Some? && hooks[h2].peer.Some?
    requires hooks[h1].peer.value in hooks && hooks[h2].peer.value in hooks
    ensures var m := Spliced(hooks, h1, h2);
            m.Keys == hooks.Keys && forall x :: x in hooks ==> m[x].node == hooks[x].node
  {
  }

  lemma ListsByNode(nodes: map<NodeId, Node>, hooks: map<HookId, Hook>, hooks': map<HookId, Hook>)
    requires ListsOk(nodes, hooks) && hooks'.Keys == hooks.Keys && forall x :: x in hooks ==> hooks'[x].node == hooks[x].node
    ensures ListsOk(nodes, hooks')
  {
  }

  /** The four assignments of ng_bypass, in their order, give Spliced. */
  lemma SpliceSteps(hooks: map<HookId, Hook>, h1: HookId, h2: HookId, p1: HookId, p2: HookId)
    requires h1 in hooks && h2 in hooks && h1 != h2 && hooks[h1].peer == Some(p1) && hooks[h2].peer == Some(p2)
    requires p1 in hooks && p2 in hooks && p1 != h1 && p2 != h2 && p1 != p2 && (p1 == h2 <==> p2 == h1)
    ensures var a := hooks[p1 := hooks[p1].(peer := Some(p2))];
            var b := a[p2 := a[p2].(peer := Some(p1))];
            b[h1 := b[h1].(peer := None)][h2 := b[h2].(peer := None)] == Spliced(hooks, h1, h2)
            && a[h2].peer == Some(p2) && a[h1].peer == Some(p1)
  {
  }

  lemma UnrefTwo(m: map<HookId, Hook>, h1: HookId, h2: HookId)
    requires h1 in m && h2 in m && h1 != h2 && m[h1].refs >= 2 && m[h2].refs >= 2
    ensures h2 in Unref(m, h1)
    ensures Unref(Unref(m, h1), h2) == m[h1 := m[h1].(refs := m[h1].refs - 1)][h2 := m[h2].(refs := m[h2].refs - 1)]
  {
  }

  lemma LooseTwo(hooks: map<HookId, Hook>, hh: multiset<HookId>, h1: HookId, h2: HookId, u: map<HookId, Hook>)
    requires h1 in hooks && h2 in hooks && h1 != h2 && hooks[h1].peer.Some? && hooks[h2].peer.Some?
    requires hooks[h1].peer.value in hooks && hooks[h2].peer.value in hooks && hooks[h1].peer != hooks[h2].peer
    requires hooks[h1].peer == Some(h2) <==> hooks[h2].peer == Some(h1)
    requires u.Keys == hooks.Keys && u[h1].name == hooks[h1].name && u[h2].name == hooks[h2].name
    requires forall x :: x in hooks && x != h1 && x != h2 ==> u[x] == Spliced(hooks, h1, h2)[x]
    ensures h2 in Loose(u, h1, hh) && Loose(u, h1, hh)[h2] == u[h2]
    ensures BypassHooks(hooks, hh, h1, h2, Loose(Loose(u, h1, hh), h2, hh))
  {
    var r := Loose(Loose(u, h1, hh), h2, hh);
    LooseBoth(u, hh, h1, h2);
    hide Loose;
    SplicedOthers(hooks, h1, h2);
    hide Spliced;
    assert forall x :: x in hooks && x != h1 && x != h2 ==> x in r && r[x] == u[x];
  }

  lemma LooseBoth(u: map<HookId, Hook>, hh: multiset<HookId>, h1: HookId, h2: HookId)
    requires h1 in u && h2 in u && h1 != h2
    ensures h2 in Loose(u, h1, hh) && Loose(u, h1, hh)[h2] == u[h2]
    ensures var r := Loose(Loose(u, h1, hh), h2, hh);
            && (forall x :: x != h1 && x != h2 ==> (x in r <==> x in u) && (x in r ==> r[x] == u[x]))
            && (h1 in r <==> h1 in hh) && (h1 in r ==> r[h1] == Hook(u[h1].name, None, None, hh[h1], false))
            && (h2 in r <==> h2 in hh) && (h2 in r ==> r[h2] == Hook(u[h2].name, None, None, hh[h2], false))
  {
  }

  lemma SplicedOthers(hooks: map<HookId, Hook>, h1: HookId, h2: HookId)
    requires h1 in hooks && h2 in hooks && h1 != h2 && hooks[h1].peer.Some? && hooks[h2].peer.Some?
    requires hooks[h1].peer.value in hooks && hooks[h2].peer.value in hooks && hooks[h1].peer != hooks[h2].peer
    requires hooks[h1].peer == Some(h2) <==> hooks[h2].peer == Some(h1)
    ensures forall x :: x in hooks && x != h1 && x != h2 ==>
              x in Spliced(hooks, h1, h2)
              && Spliced(hooks, h1, h2)[x] == if hooks[h1].peer == Some(x) then hooks[x].(peer := hooks[h2].peer)
                                              else if hooks[h2].peer == Some(x) then hooks[x].(peer := hooks[h1].peer)
                                              else hooks[x]
  {
  }

  /** How the re-linking, the two released references and the two destructions compose. */
  lemma BypassFacts(nodes: map<NodeId, Node>, hooks: map<HookId, Hook>, hh: multiset<HookId>, nh: multiset<NodeId>,
                    h1: HookId, h2: HookId)
    requires HooksOk(hooks, hh) && h1 in hooks && h2 in hooks && h1 != h2
    requires hooks[h1].peer.Some? && hooks[h2].peer.Some? && hooks[h1].valid && hooks[h1].node == hooks[h2].node
    ensures hooks[h1].peer.value in hooks && hooks[h2].peer.value in hooks
    ensures var k, m := hh + multiset{h1, h2}, Spliced(hooks, h1, h2);
            && h1 in k && h2 in k - multiset{h1} && k - multiset{h1} - multiset{h2} == hh
            && h1 in m && h2 in Unref(m, h1)
            && var u := Unref(Unref(m, h1), h2);
               && h1 in u && u[h1].peer.None?
               && var u1, nodes1 := DestroyedHooks(nodes, u, hh, h1, true), DestroyedNodes(nodes, u, nh, h1, true);
                  && h2 in u1 && u1[h2].peer.None?
                  && BypassDone(nodes, hooks, hh, nh, h1, h2, DestroyedNodes(nodes1, u1, nh, h2, true), DestroyedHooks(nodes1, u1, hh, h2, true))
  {
    SpliceOk(hooks, hh, h1, h2);
    assert HookOk(hooks, hh, h1) && HookOk(hooks, hh, h2);
    hide HooksOk, Unref, Loose, Shrunk, DestroyedHooks, DestroyedNodes, BypassHooks;
    HeldBoth(hh, h1, h2);
    var m := Spliced(hooks, h1, h2);
    UnrefTwo(m, h1, h2);
    var u := Unref(Unref(m, h1), h2);
    LooseTwo(hooks, hh, h1, h2, u);
    PeerlessDestroyed(nodes, u, hh, nh, h1, true);
    PeerlessDestroyed(DestroyedNodes(nodes, u, nh, h1, true), Loose(u, h1, hh), hh, nh, h2, true);
  }

  // ---- Valid hooks have peers ----

  /** A valid hook on a node that is not being shut down has a peer. */
  ghost predicate Wired(nodes: map<NodeId, Node>, hooks: map<HookId, Hook>) {
    forall h :: (h in hooks && hooks[h].valid && hooks[h].node.Some? && hooks[h].node.value in nodes
                 && !nodes[hooks[h].node.value].invalid) ==> hooks[h].peer.Some?
  }

  lemma DestroyedFlags(nodes: map<NodeId, Node>, hooks: map<HookId, Hook>, nh: multiset<NodeId>, h: HookId)
    requires h in hooks && (hooks[h].peer.Some? ==> hooks[h].peer.value in hooks)
    ensures var r := DestroyedNodes(nodes, hooks, nh, h, true);
            forall x :: x in r ==> x in nodes && r[x].invalid == nodes[x].invalid
  {
  }

  lemma DestroyWired(nodes: map<NodeId, Node>, hooks: map<HookId, Hook>, hh: multiset<HookId>, nh: multiset<NodeId>, h: HookId)
    requires h in hooks && (hooks[h].peer.Some? ==> hooks[h].peer.value in hooks && hooks[h].peer.value != h)
    ensures Wired(nodes, hooks) ==> Wired(DestroyedNodes(nodes, hooks, nh, h, true), DestroyedHooks(nodes, hooks, hh, h, true))
  {
    if Wired(nodes, hooks) {
      DestroyedFlags(nodes, hooks, nh, h);
      DestroyedShape(nodes, hooks, hh, h);
      var r, m := DestroyedNodes(nodes, hooks, nh, h, true), DestroyedHooks(nodes, hooks, hh, h, true);
      if hooks[h].peer.Some? {
        var p := hooks[h].peer.value;
        assert p in m && !Stays(nodes, hooks[p], true) ==> m[p].node.None?;
      }
      hide DestroyedNodes, DestroyedHooks;
    }
  }

  lemma WiredMark(nodes: map<NodeId, Node>, nodes': map<NodeId, Node>, hooks: map<HookId, Hook>, n: NodeId)
    requires n in nodes' && nodes'[n].invalid && forall x :: x in nodes' && x != n ==> x in nodes && nodes'[x] == nodes[x]
    ensures Wired(nodes, hooks) ==> Wired(nodes', hooks)
  {
  }

  lemma WiredRetire(nodes: map<NodeId, Node>, nodes': map<NodeId, Node>, hooks: map<HookId, Hook>, n: NodeId)
    requires ListsOk(nodes, hooks) && n in nodes && nodes[n].hooks == []
    requires forall x :: x != n ==> (x in nodes' <==> x in nodes) && (x in nodes' ==> nodes'[x] == nodes[x])
    ensures Wired(nodes, hooks) ==> Wired(nodes', hooks)
  {
  }

  lemma ConnectWired(b: Base, c: Link, nodes: map<NodeId, Node>, hooks: map<HookId, Hook>)
    requires Wired(b.nodes, b.hooks) && Connected(b, c, nodes, hooks)
    ensures Wired(nodes, hooks)
  {
    assert forall x :: x in nodes ==> x in b.nodes && nodes[x].invalid == b.nodes[x].invalid;
  }

  lemma BypassWired(nodes0: map<NodeId, Node>, hooks0: map<HookId, Hook>, hh: multiset<HookId>, nh: multiset<NodeId>,
                    h1: HookId, h2: HookId, nodes: map<NodeId, Node>, hooks: map<HookId, Hook>)
    requires Wired(nodes0, hooks0) && BypassDone(nodes0, hooks0, hh, nh, h1, h2, nodes, hooks)
    requires hooks0[h1].peer.Some? && hooks0[h2].peer.Some?
    ensures Wired(nodes, hooks)
  {
    assert forall x :: x in nodes ==> x in nodes0 && nodes[x].invalid == nodes0[x].invalid;
  }

  lemma AddWired(nodes: map<NodeId, Node>, hooks: map<HookId, Hook>, n: NodeId, h: HookId, v: Hook)
    requires n in nodes && h !in hooks && !v.valid
    ensures Wired(nodes, hooks) ==> Wired(Attach(nodes, n, h), hooks[h := v])
  {
    assert forall x :: x in Attach(nodes, n, h) ==> x in nodes && Attach(nodes, n, h)[x].invalid == nodes[x].invalid;
  }

  lemma NodeWired(nodes: map<NodeId, Node>, hooks: map<HookId, Hook>, n: NodeId, v: Node)
    requires ListsOk(nodes, hooks) && n !in nodes
    ensures Wired(nodes, hooks) ==> Wired(nodes[n := v], hooks)
  {
  }

  /** Letting a reference go, the last one too, keeps valid hooks on live nodes peered. */
  lemma UnrefHookWired(nodes: map<NodeId, Node>, hooks: map<HookId, Hook>, h: HookId)
    requires h in hooks
    ensures Wired(nodes, hooks) ==> Wired(nodes, Unref(hooks, h))
  {
  }

  lemma UnrefNodeWired(nodes: map<NodeId, Node>, hooks: map<HookId, Hook>, n: NodeId)
    requires n in nodes
    ensures Wired(nodes, hooks) ==> Wired(UnrefN(nodes, n), hooks)
  {
  }

  lemma HeldHere(hooks: map<HookId, Hook>, hh: multiset<HookId>, h: HookId)
    requires HooksOk(hooks, hh) && h in hh
    ensures h in hooks
  {
  }

  lemma NodeHeldHere(nodes: map<NodeId, Node>, nh: multiset<NodeId>, n: NodeId)
    requires NodesOk(nodes, nh) && n in nh
    ensures n in nodes
  {
  }

  /** The node of the hook is there and not being shut down. */
  predicate Live(nodes: map<NodeId, Node>, v: Hook) {
    v.node.Some? && v.node.value in nodes && !nodes[v.node.value].invalid
  }

  lemma LivePeer(nodes: map<NodeId, Node>, hooks: map<HookId, Hook>, h: HookId)
    requires Wired(nodes, hooks) && h in hooks && hooks[h].valid && Live(nodes, hooks[h])
    ensures hooks[h].peer.Some?
  {
  }

  // ---- Make a peer ----

  const Newborn := Node([], 0, 1, false, false)

  lemma ListsNewNode(nodes: map<NodeId, Node>, hooks: map<HookId, Hook>, n: NodeId)
    requires ListsOk(nodes, hooks) && n !in nodes
    ensures ListsOk(nodes[n := Newborn], hooks)
  {
  }

  /** Two hooks just added to two different nodes. */
  ghost predicate LinkReady(b: Base, c: Link, nodes: map<NodeId, Node>, hooks: map<HookId, Hook>) {
    && c.n in b.nodes && c.n2 in b.nodes && c.h1 !in b.hooks && c.h2 !in b.hooks && c.h1 != c.h2
    && hooks == b.hooks[c.h1 := Hook(c.name1, Some(c.n), None, 2, false)][c.h2 := Hook(c.name2, Some(c.n2), None, 2, false)]
    && nodes == Attach(Attach(b.nodes, c.n, c.h1), c.n2, c.h2)
  }

  lemma LinkBothOk(nodes: map<NodeId, Node>, hooks: map<HookId, Hook>, hh: multiset<HookId>, h1: HookId, h2: HookId)
    requires HooksOk(hooks, hh) && ListsOk(nodes, hooks) && h1 in hooks && h2 in hooks && h1 != h2
    requires hooks[h1].peer.None? && hooks[h2].peer.None?
    ensures var hooks1 := hooks[h1 := hooks[h1].(peer := Some(h2), refs := hooks[h1].refs + 1)]
                               [h2 := hooks[h2].(peer := Some(h1), refs := hooks[h2].refs + 1)];
            HooksOk(hooks1, hh) && ListsOk(nodes, hooks1)
  {
    var m := hooks[h1 := hooks[h1].(peer := Some(h2), refs := hooks[h1].refs + 1)]
                  [h2 := hooks[h2].(peer := Some(h1), refs := hooks[h2].refs + 1)];
    forall x | x in m ensures HookOk(m, hh, x) {
      assert HookOk(hooks, hh, x);
    }
  }

  lemma LinkBothStaged(b: Base, c: Link, nodes: map<NodeId, Node>, hooks: map<HookId, Hook>)
    requires LinkReady(b, c, nodes, hooks)
    ensures c.h1 in hooks && c.h2 in hooks && hooks[c.h1].peer.None? && hooks[c.h2].peer.None?
    ensures Staged(b, c, nodes, hooks[c.h1 := hooks[c.h1].(peer := Some(c.h2), refs := hooks[c.h1].refs + 1)]
                                     [c.h2 := hooks[c.h2].(peer := Some(c.h1), refs := hooks[c.h2].refs + 1)],
                   Some(c.n2), false, false)
  {
  }

  /** What a freshly made node adds, and what its shutdown leaves. */
  lemma NewcomerFacts(nodes: map<NodeId, Node>, hooks: map<HookId, Hook>, nh: multiset<NodeId>, n: NodeId, n2: NodeId, name: string, sd: Shutdown)
    requires NodesOk(nodes, nh) && n in nodes && n2 !in nodes && n in nh
    ensures (nh + multiset{n2})[n2] == 1 && n != n2 && n in nh + multiset{n2}
    ensures Named(nodes[n2 := Newborn], hooks, n, name) <==> Named(nodes, hooks, n, name)
    ensures var m, k := nodes[n2 := Newborn], Remaining(nh + multiset{n2}, n2, sd);
            && (sd.Releases? ==> k == nh && Closed(m, n2, k, !sd.Survives?) == nodes)
            && (!sd.Releases? ==> Closed(m, n2, k, !sd.Survives?) == nodes[n2 := Newborn.(invalid := !sd.Survives?, closing := !sd.Survives?)])
  {
    assert n2 !in nh;
    var m := nodes[n2 := Newborn];
    assert m[n] == nodes[n];
    assert m - {n2} == nodes;
  }

  lemma NoName(nodes: map<NodeId, Node>, hooks: map<HookId, Hook>, n: NodeId, name: string)
    requires n in nodes && nodes[n].hooks == []
    ensures !Named(nodes, hooks, n, name)
  {
  }

  lemma ClosedAttach(nodes: map<NodeId, Node>, n: NodeId, h: HookId, n2: NodeId, nh: multiset<NodeId>, closing: bool)
    requires n in nodes && n2 in nodes && n != n2
    ensures n in Closed(nodes, n2, nh, closing)
    ensures Closed(Attach(nodes, n, h), n2, nh, closing) == Attach(Closed(nodes, n2, nh, closing), n, h)
  {
  }

  lemma ClosedOk(nodes: map<NodeId, Node>, n2: NodeId, nh: multiset<NodeId>, sd: Shutdown)
    requires NodesOk(nodes, nh) && n2 in nodes && nodes[n2].hooks == [] && nh[n2] == 1
    ensures NodesOk(Closed(nodes, n2, Remaining(nh, n2, sd), !sd.Survives?), Remaining(nh, n2, sd))
  {
  }
}
