/** The stages of connecting two nodes, and what undoing each of them restores. */
module NgConnect {
  import opened Common
  import opened NgState

  /** The graph before the connect. */
  datatype Base = Base(nodes: map<NodeId, Node>, hooks: map<HookId, Hook>)

  /** What is being connected: the two nodes, the storage of the two hooks, and their stored names. */
  datatype Link = Link(n: NodeId, h1: HookId, name1: string, n2: NodeId, h2: HookId, name2: string)

  /** The node types' answers along the way (true is a refusal), whether an item can be allocated, and the types' own
      searches for hooks: of the first node, of the second, and of the second when it is asked again. */
  datatype Answers = Answers(newhook1: bool, newhook2: bool, connect2: bool, connect1: bool, item: bool,
                             search1: OwnSearch, search2: OwnSearch, again2: OwnSearch)

  /** A hook without its count. */
  function Bare(v: Hook): (r: Hook) { v.(refs := 0) }

  /** Everything but the two new hooks is as before, counts aside. */
  ghost predicate OtherHooks(b: Base, c: Link, hooks: map<HookId, Hook>) {
    && c.h1 !in b.hooks && c.h2 !in b.hooks && c.h1 != c.h2
    && hooks.Keys == b.hooks.Keys + {c.h1, c.h2}
    && forall x :: x in b.hooks ==> Bare(hooks[x]) == Bare(b.hooks[x])
  }

  /** `l1` and `l2` tell on whose lists the two new hooks are. */
  ghost predicate Lists(b: Base, c: Link, nodes: map<NodeId, Node>, l1: Option<NodeId>, l2: Option<NodeId>) {
    && c.h1 != c.h2 && c.n in b.nodes && c.n2 in b.nodes && nodes.Keys == b.nodes.Keys
    && forall x :: x in b.nodes ==>
         && nodes[x].invalid == b.nodes[x].invalid && nodes[x].closing == b.nodes[x].closing
         && nodes[x].hooks == Pre(l2, x, c.h2) + (Pre(l1, x, c.h1) + b.nodes[x].hooks)
  }

  function Pre(l: Option<NodeId>, x: NodeId, h: HookId): (r: seq<HookId>) {
    if l == Some(x) then [h] else []
  }

  /** The two hooks are peers; the first is attached, the second is attached to `m2`. */
  ghost predicate Staged(b: Base, c: Link, nodes: map<NodeId, Node>, hooks: map<HookId, Hook>,
                         m2: Option<NodeId>, v1: bool, v2: bool)
  {
    && OtherHooks(b, c, hooks) && Lists(b, c, nodes, Some(c.n), m2)
    && Bare(hooks[c.h1]) == Hook(c.name1, Some(c.n), Some(c.h2), 0, v1)
    && Bare(hooks[c.h2]) == Hook(c.name2, m2, Some(c.h1), 0, v2)
  }

  /** The two hooks are on no list and have no peer; only references held outside keep them. */
  ghost predicate Aborted(b: Base, c: Link, nodes: map<NodeId, Node>, hooks: map<HookId, Hook>) {
    && OtherHooks(b, c, hooks) && Lists(b, c, nodes, None, None)
    && Bare(hooks[c.h1]) == Hook(c.name1, None, None, 0, false)
    && Bare(hooks[c.h2]) == Hook(c.name2, None, None, 0, false)
  }

  lemma StagedFacts(b: Base, c: Link, nodes: map<NodeId, Node>, hooks: map<HookId, Hook>,
                    m2: Option<NodeId>, v1: bool, v2: bool)
    requires Staged(b, c, nodes, hooks, m2, v1, v2)
    ensures c.h1 in hooks && c.h2 in hooks && c.n in nodes && c.n2 in nodes && c.h1 != c.h2
    ensures hooks[c.h1].node == Some(c.n) && hooks[c.h1].peer == Some(c.h2)
    ensures hooks[c.h2].node == m2 && hooks[c.h2].peer == Some(c.h1)
    ensures nodes[c.n].invalid == b.nodes[c.n].invalid && nodes[c.n2].invalid == b.nodes[c.n2].invalid
  {
  }

  lemma StagedFlag(b: Base, c: Link, nodes: map<NodeId, Node>, hooks: map<HookId, Hook>, m2: Option<NodeId>, h: HookId)
    requires Staged(b, c, nodes, hooks, m2, false, false) || (h == c.h2 && Staged(b, c, nodes, hooks, m2, true, false))
    requires h == c.h1 || h == c.h2
    ensures h in hooks
    ensures h == c.h1 ==> Staged(b, c, nodes, hooks[h := hooks[h].(valid := true)], m2, true, false)
    ensures h == c.h2 && Staged(b, c, nodes, hooks, m2, true, false) ==>
              Staged(b, c, nodes, hooks[h := hooks[h].(valid := true)], m2, true, true)
  {
  }

  lemma ShrunkHeld(nodes: map<NodeId, Node>, n: NodeId, h: HookId, held: multiset<NodeId>, pre: seq<HookId>, post: seq<HookId>)
    requires n in nodes && n in held && nodes[n].hooks == pre + [h] + post && h !in pre
    ensures var r := Shrunk(nodes, n, h, held);
            && r.Keys == nodes.Keys
            && r[n] == nodes[n].(hooks := pre + post, numhooks := |pre + post|, refs := |pre + post| + held[n])
            && forall x :: x in nodes && x != n ==> r[x] == nodes[x]
  {
    assert nodes[n].hooks[|pre|] == h;
    assert IndexOf(nodes[n].hooks, h) == |pre|;
  }

  lemma DropSecond(b: Base, c: Link, nodes: map<NodeId, Node>, nh: multiset<NodeId>, l1: Option<NodeId>)
    requires Lists(b, c, nodes, l1, Some(c.n2)) && c.n2 in nh
    ensures Lists(b, c, Shrunk(nodes, c.n2, c.h2, nh), l1, None)
  {
    ShrunkHeld(nodes, c.n2, c.h2, nh, [], Pre(l1, c.n2, c.h1) + b.nodes[c.n2].hooks);
  }

  lemma DropFirst(b: Base, c: Link, nodes: map<NodeId, Node>, nh: multiset<NodeId>, l2: Option<NodeId>)
    requires Lists(b, c, nodes, Some(c.n), l2) && c.n in nh
    ensures Lists(b, c, Shrunk(nodes, c.n, c.h1, nh), None, l2)
  {
    hide Shrunk;
    var pre, post := Pre(l2, c.n, c.h2), b.nodes[c.n].hooks;
    assert nodes[c.n].hooks == pre + [c.h1] + post by {
      assert pre + ([c.h1] + post) == pre + [c.h1] + post;
    }
    ShrunkHeld(nodes, c.n, c.h1, nh, pre, post);
    var r := Shrunk(nodes, c.n, c.h1, nh);
    forall x | x in b.nodes
      ensures r[x].hooks == Pre(l2, x, c.h2) + (Pre(None, x, c.h1) + b.nodes[x].hooks)
    {
      if x == c.n { assert pre + post == pre + ([] + post); }
      else { assert r[x] == nodes[x]; }
    }
  }

  /** Destroying either hook undoes the connect. */
  lemma AbortFirst(b: Base, c: Link, nodes: map<NodeId, Node>, hooks: map<HookId, Hook>,
                   hh: multiset<HookId>, nh: multiset<NodeId>, m2: Option<NodeId>)
    requires Staged(b, c, nodes, hooks, m2, false, false) && (m2 == None || (m2 == Some(c.n2) && !nodes[c.n2].invalid))
    requires c.h1 in hh && c.h2 in hh && c.n in nh && c.n2 in nh
    ensures Aborted(b, c, DestroyedNodes(nodes, hooks, nh, c.h1, true), DestroyedHooks(nodes, hooks, hh, c.h1, true))
  {
    hide Lists, Shrunk;
    if m2.None? {
      DropFirst(b, c, nodes, nh, None);
    } else {
      DropSecond(b, c, nodes, nh, Some(c.n));
      DropFirst(b, c, Shrunk(nodes, c.n2, c.h2, nh), nh, None);
    }
  }

  lemma AbortSecond(b: Base, c: Link, nodes: map<NodeId, Node>, hooks: map<HookId, Hook>,
                    hh: multiset<HookId>, nh: multiset<NodeId>, m2: Option<NodeId>)
    requires Staged(b, c, nodes, hooks, m2, false, false) && (m2 == None || m2 == Some(c.n2)) && !nodes[c.n].invalid
    requires c.h1 in hh && c.h2 in hh && c.n in nh && c.n2 in nh
    ensures Aborted(b, c, DestroyedNodes(nodes, hooks, nh, c.h2, true), DestroyedHooks(nodes, hooks, hh, c.h2, true))
  {
    hide Lists, Shrunk;
    DropFirst(b, c, nodes, nh, m2);
    if m2.Some? {
      DropSecond(b, c, Shrunk(nodes, c.n, c.h1, nh), nh, None);
    }
  }

  /** Destroying a destroyed hook changes nothing. */
  lemma DestroyedTwice(nodes: map<NodeId, Node>, hooks: map<HookId, Hook>, hh: multiset<HookId>, nh: multiset<NodeId>, h: HookId,
                       item: bool)
    requires HooksOk(hooks, hh) && h in hooks && hooks[h].node.None? && hooks[h].peer.None?
    ensures DestroyedHooks(nodes, hooks, hh, h, item) == hooks && DestroyedNodes(nodes, hooks, nh, h, item) == nodes
  {
    assert HookOk(hooks, hh, h);
  }

  lemma AbortedFacts(b: Base, c: Link, nodes: map<NodeId, Node>, hooks: map<HookId, Hook>)
    requires Aborted(b, c, nodes, hooks)
    ensures c.h1 in hooks && c.h2 in hooks && c.n in nodes && c.n2 in nodes
    ensures hooks[c.h1].node.None? && hooks[c.h1].peer.None? && hooks[c.h2].node.None? && hooks[c.h2].peer.None?
    ensures nodes[c.n].invalid == b.nodes[c.n].invalid && nodes[c.n2].invalid == b.nodes[c.n2].invalid
  {
  }

  /** Counts do not matter to the shape. */
  lemma StagedCounts(b: Base, c: Link, nodes: map<NodeId, Node>, hooks: map<HookId, Hook>, m2: Option<NodeId>,
                     v1: bool, v2: bool, n: NodeId, rn: int, h: HookId, rh: int)
    requires Staged(b, c, nodes, hooks, m2, v1, v2) && n in nodes && h in hooks
    ensures Staged(b, c, nodes[n := nodes[n].(refs := rn)], hooks[h := hooks[h].(refs := rh)], m2, v1, v2)
  {
  }

  lemma AbortedCounts(b: Base, c: Link, nodes: map<NodeId, Node>, hooks: map<HookId, Hook>,
                      n: NodeId, rn: int, h: HookId, rh: int)
    requires Aborted(b, c, nodes, hooks) && n in nodes && h in hooks
    ensures Aborted(b, c, nodes[n := nodes[n].(refs := rn)], hooks[h := hooks[h].(refs := rh)])
  {
  }

  /** Dropping a reference that is not the last keeps the shape. */
  lemma DropCounts(b: Base, c: Link, nodes: map<NodeId, Node>, hooks: map<HookId, Hook>,
                   hh: multiset<HookId>, nh: multiset<NodeId>, m2: Option<NodeId>, v1: bool, n: NodeId, h: HookId)
    requires HooksOk(hooks, hh) && NodesOk(nodes, nh) && hh[h] >= 2 && nh[n] >= 2
    ensures h in hooks && n in nodes
    ensures forall v2 :: Staged(b, c, nodes, hooks, m2, v1, v2) ==> Staged(b, c, UnrefN(nodes, n), Unref(hooks, h), m2, v1, v2)
    ensures Aborted(b, c, nodes, hooks) ==> Aborted(b, c, UnrefN(nodes, n), Unref(hooks, h))
  {
    hide Staged, Aborted;
    assert h in hh && n in nh;
    assert HookOk(hooks, hh, h) && NodeOk(nodes[n], nh[n]);
    forall v2 | Staged(b, c, nodes, hooks, m2, v1, v2)
      ensures Staged(b, c, UnrefN(nodes, n), Unref(hooks, h), m2, v1, v2)
    {
      StagedCounts(b, c, nodes, hooks, m2, v1, v2, n, nodes[n].refs - 1, h, hooks[h].refs - 1);
    }
    if Aborted(b, c, nodes, hooks) {
      AbortedCounts(b, c, nodes, hooks, n, nodes[n].refs - 1, h, hooks[h].refs - 1);
    }
  }

  lemma AttachSecondOk(b: Base, c: Link, nodes: map<NodeId, Node>, hooks: map<HookId, Hook>,
                       hh: multiset<HookId>, nh: multiset<NodeId>)
    requires HooksOk(hooks, hh) && NodesOk(nodes, nh) && ListsOk(nodes, hooks)
    requires Staged(b, c, nodes, hooks, None, false, false)
    ensures c.h2 in hooks && c.n2 in nodes
    ensures var hooks1 := hooks[c.h2 := hooks[c.h2].(node := Some(c.n2), refs := hooks[c.h2].refs + 1)];
            var nodes1 := Attach(nodes, c.n2, c.h2);
            && HooksOk(hooks1, hh) && NodesOk(nodes1, nh) && ListsOk(nodes1, hooks1)
            && Staged(b, c, nodes1, hooks1, Some(c.n2), false, false)
  {
    StagedFacts(b, c, nodes, hooks, None, false, false);
    AttachHooks(hooks, hh, c.h2, c.n2);
    AttachNodes(nodes, hooks, nh, c.n2, c.h2, hooks[c.h2].(node := Some(c.n2), refs := hooks[c.h2].refs + 1));
    AttachStaged(b, c, nodes, hooks);
  }

  lemma AttachHooks(hooks: map<HookId, Hook>, hh: multiset<HookId>, h: HookId, n: NodeId)
    requires HooksOk(hooks, hh) && h in hooks && hooks[h].node.None?
    ensures HooksOk(hooks[h := hooks[h].(node := Some(n), refs := hooks[h].refs + 1)], hh)
  {
    var m := hooks[h := hooks[h].(node := Some(n), refs := hooks[h].refs + 1)];
    forall x | x in m ensures HookOk(m, hh, x) {
      assert HookOk(hooks, hh, x);
    }
  }

  lemma AttachNodes(nodes: map<NodeId, Node>, hooks: map<HookId, Hook>, nh: multiset<NodeId>, n: NodeId, h: HookId, v: Hook)
    requires NodesOk(nodes, nh) && ListsOk(nodes, hooks) && n in nodes && h in hooks && hooks[h].node.None?
    requires v.node == Some(n)
    ensures NodesOk(Attach(nodes, n, h), nh) && ListsOk(Attach(nodes, n, h), hooks[h := v])
  {
    assert NodeOk(nodes[n], nh[n]);
    assert h !in nodes[n].hooks;
    assert ([h] + nodes[n].hooks)[0] == h;
    assert forall x :: x in [h] + nodes[n].hooks <==> x == h || x in nodes[n].hooks;
  }

  lemma AttachStaged(b: Base, c: Link, nodes: map<NodeId, Node>, hooks: map<HookId, Hook>)
    requires Staged(b, c, nodes, hooks, None, false, false) && c.h2 in hooks && c.n2 in nodes
    ensures Staged(b, c, Attach(nodes, c.n2, c.h2), hooks[c.h2 := hooks[c.h2].(node := Some(c.n2), refs := hooks[c.h2].refs + 1)],
                   Some(c.n2), false, false)
  {
    hide Attach, Lists, OtherHooks;
    AttachLists(b, c, nodes);
    AttachOthers(b, c, hooks, hooks[c.h2].(node := Some(c.n2), refs := hooks[c.h2].refs + 1));
  }

  lemma AttachLists(b: Base, c: Link, nodes: map<NodeId, Node>)
    requires Lists(b, c, nodes, Some(c.n), None)
    ensures c.n2 in nodes && Lists(b, c, Attach(nodes, c.n2, c.h2), Some(c.n), Some(c.n2))
  {
  }

  lemma AttachOthers(b: Base, c: Link, hooks: map<HookId, Hook>, v: Hook)
    requires OtherHooks(b, c, hooks)
    ensures OtherHooks(b, c, hooks[c.h2 := v])
  {
  }

  /** Nobody objects to the second half of the connect. */
  ghost predicate Agreed(nodes: map<NodeId, Node>, hooks: map<HookId, Hook>, c: Link, a: Answers)
    requires c.n2 in nodes
  {
    && !nodes[c.n2].invalid && !InUse(nodes, hooks, c.n2, c.name2, a.again2)
    && !a.newhook2 && !a.connect2 && !a.connect1
  }

  /** After the second half: connected, undone, or not begun. */
  ghost predicate Outcome(b: Base, c: Link, nodes: map<NodeId, Node>, hooks: map<HookId, Hook>, ok: bool) {
    if ok then Staged(b, c, nodes, hooks, Some(c.n2), true, true)
    else Aborted(b, c, nodes, hooks) || Staged(b, c, nodes, hooks, None, false, false)
  }

  lemma OutcomeNotBegun(b: Base, c: Link, nodes: map<NodeId, Node>, hooks: map<HookId, Hook>)
    requires Staged(b, c, nodes, hooks, None, false, false)
    ensures Outcome(b, c, nodes, hooks, false)
  {
  }

  lemma OutcomeDrop(b: Base, c: Link, nodes: map<NodeId, Node>, hooks: map<HookId, Hook>,
                    hh: multiset<HookId>, nh: multiset<NodeId>, ok: bool)
    requires HooksOk(hooks, hh) && NodesOk(nodes, nh) && hh[c.h2] >= 2 && nh[c.n2] >= 2
    requires Outcome(b, c, nodes, hooks, ok)
    ensures c.h2 in hooks && c.n2 in nodes
    ensures Outcome(b, c, UnrefN(nodes, c.n2), Unref(hooks, c.h2), ok)
  {
    hide HooksOk, NodesOk, Staged, Aborted, Unref, UnrefN;
    DropCounts(b, c, nodes, hooks, hh, nh, None, false, c.n2, c.h2);
    DropCounts(b, c, nodes, hooks, hh, nh, Some(c.n2), true, c.n2, c.h2);
  }

  lemma AgreedCounts(nodes: map<NodeId, Node>, hooks: map<HookId, Hook>, c: Link, a: Answers, rn: int, rh: int)
    requires c.n2 in nodes && c.h2 in hooks
    ensures Agreed(nodes[c.n2 := nodes[c.n2].(refs := rn)], hooks[c.h2 := hooks[c.h2].(refs := rh)], c, a)
            <==> Agreed(nodes, hooks, c, a)
  {
    hide Named;
    NamedCounts(nodes, hooks, c.n2, rn, c.h2, rh, c.name2);
  }

  lemma NamedCounts(nodes: map<NodeId, Node>, hooks: map<HookId, Hook>, n: NodeId, rn: int, h: HookId, rh: int, name: string)
    requires n in nodes && h in hooks
    ensures Named(nodes[n := nodes[n].(refs := rn)], hooks[h := hooks[h].(refs := rh)], n, name) <==> Named(nodes, hooks, n, name)
  {
    var nodes1, hooks1 := nodes[n := nodes[n].(refs := rn)], hooks[h := hooks[h].(refs := rh)];
    assert nodes1[n].hooks == nodes[n].hooks;
    assert forall x :: x in hooks ==> hooks1[x].valid == hooks[x].valid && hooks1[x].name == hooks[x].name;
    if Named(nodes, hooks, n, name) {
      var x :| x in nodes[n].hooks && x in hooks && hooks[x].valid && hooks[x].name == name;
      assert x in nodes1[n].hooks && x in hooks1 && hooks1[x].valid;
    }
  }

  lemma MakePeerOk(b: Base, c: Link, nodes: map<NodeId, Node>, hooks: map<HookId, Hook>, hh: multiset<HookId>)
    requires HooksOk(hooks, hh) && ListsOk(nodes, hooks) && c.h1 in hooks && c.h2 !in hooks && c.h1 != c.h2
    requires hooks[c.h1].peer.None?
    ensures var hooks1 := hooks[c.h2 := Hook(c.name2, None, Some(c.h1), 2, false)]
                               [c.h1 := hooks[c.h1].(peer := Some(c.h2), refs := hooks[c.h1].refs + 1)];
            HooksOk(hooks1, hh + multiset{c.h2}) && ListsOk(nodes, hooks1)
  {
    var m := hooks[c.h2 := Hook(c.name2, None, Some(c.h1), 2, false)]
                  [c.h1 := hooks[c.h1].(peer := Some(c.h2), refs := hooks[c.h1].refs + 1)];
    assert c.h2 !in hh;
    forall x | x in m ensures HookOk(m, hh + multiset{c.h2}, x) {
      if x != c.h2 { assert HookOk(hooks, hh, x); }
    }
  }

  lemma MakePeerStaged(b: Base, c: Link)
    requires c.n in b.nodes && c.n2 in b.nodes && c.h1 !in b.hooks && c.h2 !in b.hooks && c.h1 != c.h2
    ensures var hooks := b.hooks[c.h1 := Hook(c.name1, Some(c.n), None, 2, false)];
            Staged(b, c, Attach(b.nodes, c.n, c.h1),
                   hooks[c.h2 := Hook(c.name2, None, Some(c.h1), 2, false)]
                        [c.h1 := hooks[c.h1].(peer := Some(c.h2), refs := hooks[c.h1].refs + 1)], None, false, false)
  {
  }

  /** The shape and the references held outside determine the counts. */
  lemma RestoredHooks(hooks0: map<HookId, Hook>, hooks: map<HookId, Hook>, hh: multiset<HookId>)
    requires HooksOk(hooks, hh) && HooksOk(hooks0, hh)
    requires hooks.Keys == hooks0.Keys && forall x :: x in hooks0 ==> Bare(hooks[x]) == Bare(hooks0[x])
    ensures hooks == hooks0
  {
    forall x | x in hooks0 ensures hooks[x] == hooks0[x] {
      assert HookOk(hooks, hh, x) && HookOk(hooks0, hh, x);
    }
  }

  lemma RestoredNodes(nodes0: map<NodeId, Node>, nodes: map<NodeId, Node>, nh: multiset<NodeId>)
    requires NodesOk(nodes, nh) && NodesOk(nodes0, nh) && nodes.Keys == nodes0.Keys
    requires forall x :: x in nodes0 ==> && nodes[x].hooks == nodes0[x].hooks && nodes[x].invalid == nodes0[x].invalid
                                         && nodes[x].closing == nodes0[x].closing
    ensures nodes == nodes0
  {
    forall x | x in nodes0 ensures nodes[x] == nodes0[x] {
      assert NodeOk(nodes[x], nh[x]) && NodeOk(nodes0[x], nh[x]);
    }
  }

  /** Releasing the two references of an aborted connect leaves the graph exactly as it was. */
  lemma AbortedEnd(b: Base, c: Link, nodes: map<NodeId, Node>, hooks: map<HookId, Hook>, hh: multiset<HookId>, nh: multiset<NodeId>)
    requires HooksOk(hooks, hh + multiset{c.h1, c.h2}) && NodesOk(nodes, nh) && HooksOk(b.hooks, hh) && NodesOk(b.nodes, nh)
    requires Aborted(b, c, nodes, hooks)
    ensures c.h1 in hooks && c.h2 in Unref(hooks, c.h1)
    ensures Unref(Unref(hooks, c.h1), c.h2) == b.hooks && nodes == b.nodes
  {
    hide HooksOk, NodesOk, Aborted, Unref;
    AbortedHooksEnd(b, c, nodes, hooks, hh);
    AbortedNodesEnd(b, c, nodes, hooks, nh);
  }

  lemma FreeTwo(hooks: map<HookId, Hook>, hh: multiset<HookId>, h: HookId, k: HookId)
    requires HooksOk(hooks, hh + multiset{h, k}) && h !in hh && k !in hh && h != k && h in hooks && k in hooks
    requires hooks[h].node.None? && hooks[h].peer.None? && hooks[k].node.None? && hooks[k].peer.None?
    ensures k in Unref(hooks, h) && Unref(Unref(hooks, h), k) == hooks - {h} - {k}
    ensures HooksOk(hooks - {h} - {k}, hh)
  {
    var m := hh + multiset{h, k};
    assert HookOk(hooks, m, h) && HookOk(hooks, m, k);
    HookFree(hooks, m, h);
    HookFree(hooks - {h}, m - multiset{h}, k);
    assert m - multiset{h} - multiset{k} == hh;
  }

  /** Both hooks valid, mutually peered, on their lists, with exactly two references each; nothing else changed. */
  ghost predicate Connected(b: Base, c: Link, nodes: map<NodeId, Node>, hooks: map<HookId, Hook>) {
    && c.n in b.nodes && c.n2 in b.nodes
    && hooks == b.hooks[c.h1 := Hook(c.name1, Some(c.n), Some(c.h2), 2, true)]
                       [c.h2 := Hook(c.name2, Some(c.n2), Some(c.h1), 2, true)]
    && nodes == Attach(Attach(b.nodes, c.n, c.h1), c.n2, c.h2)
  }

  /** The search for this name on n finds a hook, and h is one that has the name. */
  ghost predicate Carries(nodes: map<NodeId, Node>, hooks: map<HookId, Hook>, n: NodeId, h: HookId, name: string) {
    n in nodes && h in nodes[n].hooks && h in hooks && hooks[h].name == name && Named(nodes, hooks, n, name)
  }

  /** After a connect both names are in use, */
  lemma ConnectedNames(b: Base, c: Link, nodes: map<NodeId, Node>, hooks: map<HookId, Hook>)
    requires Connected(b, c, nodes, hooks) && c.h1 != c.h2
    ensures Carries(nodes, hooks, c.n, c.h1, c.name1) && Carries(nodes, hooks, c.n2, c.h2, c.name2)
  {
    var one := Attach(b.nodes, c.n, c.h1);
    assert one[c.n].hooks[0] == c.h1 && nodes[c.n2].hooks[0] == c.h2;
    assert c.h1 in nodes[c.n].hooks by {
      if c.n == c.n2 { assert nodes[c.n].hooks[1] == c.h1; }
    }
  }

  /** and no other name has come into use. */
  lemma StillUnnamed(b: Base, c: Link, nodes: map<NodeId, Node>, hooks: map<HookId, Hook>, n: NodeId, name: string)
    requires Connected(b, c, nodes, hooks) && n in b.nodes && !Named(b.nodes, b.hooks, n, name)
    requires name != c.name1 && name != c.name2
    ensures n in nodes && !Named(nodes, hooks, n, name)
  {
  }

  /** In terms of the names given: a name of fewer than 32 characters is found whole, a longer one is found by its first
      31 characters and is not found whole. */
  lemma NewNames(b: Base, c: Link, nodes: map<NodeId, Node>, hooks: map<HookId, Hook>, name1: string, name2: string)
    requires Connected(b, c, nodes, hooks) && c.h1 != c.h2 && c.name1 == Stored(name1) && c.name2 == Stored(name2)
    ensures c.n in nodes && c.n2 in nodes
    ensures |name1| < NG_HOOKSIZ ==> Carries(nodes, hooks, c.n, c.h1, name1)
    ensures |name2| < NG_HOOKSIZ ==> Carries(nodes, hooks, c.n2, c.h2, name2)
    ensures |name1| >= NG_HOOKSIZ ==> Carries(nodes, hooks, c.n, c.h1, name1[..NG_HOOKSIZ - 1])
                                      && (!Named(b.nodes, b.hooks, c.n, name1) ==> !Named(nodes, hooks, c.n, name1))
    ensures |name2| >= NG_HOOKSIZ ==> Carries(nodes, hooks, c.n2, c.h2, name2[..NG_HOOKSIZ - 1])
                                      && (!Named(b.nodes, b.hooks, c.n2, name2) ==> !Named(nodes, hooks, c.n2, name2))
  {
    ConnectedNames(b, c, nodes, hooks);
    hide Named, Carries;
    if |name1| >= NG_HOOKSIZ && !Named(b.nodes, b.hooks, c.n, name1) { StillUnnamed(b, c, nodes, hooks, c.n, name1); }
    if |name2| >= NG_HOOKSIZ && !Named(b.nodes, b.hooks, c.n2, name2) { StillUnnamed(b, c, nodes, hooks, c.n2, name2); }
  }

  lemma HeldBoth(hh: multiset<HookId>, h: HookId, k: HookId)
    requires h != k
    ensures h in hh + multiset{h, k} && k in hh + multiset{h, k} && k in hh + multiset{h, k} - multiset{h}
    ensures hh + multiset{h, k} - multiset{h} - multiset{k} == hh
  {
  }

  lemma HeldTwo(hh: multiset<HookId>, h: HookId, k: HookId)
    ensures hh + multiset{h} + multiset{k} == hh + multiset{h, k}
  {
  }

  lemma NamedStaged(b: Base, c: Link, nodes: map<NodeId, Node>, hooks: map<HookId, Hook>)
    requires Staged(b, c, nodes, hooks, None, false, false) && ListsOk(b.nodes, b.hooks)
    ensures c.n2 in nodes && c.n2 in b.nodes
    ensures Named(nodes, hooks, c.n2, c.name2) <==> Named(b.nodes, b.hooks, c.n2, c.name2)
  {
    var l, l0 := nodes[c.n2].hooks, b.nodes[c.n2].hooks;
    assert forall x :: x in l0 ==> x in b.hooks;
    assert forall x :: x in l <==> x in l0 || (x == c.h1 && c.n2 == c.n) by {
      assert l == [] + (Pre(Some(c.n), c.n2, c.h1) + l0);
    }
    assert !hooks[c.h1].valid by { assert Bare(hooks[c.h1]).valid == false; }
    assert forall x :: x in b.hooks ==> hooks[x].valid == b.hooks[x].valid && hooks[x].name == b.hooks[x].name by {
      forall x | x in b.hooks ensures hooks[x].valid == b.hooks[x].valid && hooks[x].name == b.hooks[x].name {
        assert Bare(hooks[x]) == Bare(b.hooks[x]);
      }
    }
    if Named(b.nodes, b.hooks, c.n2, c.name2) {
      var x :| x in l0 && x in b.hooks && b.hooks[x].valid && b.hooks[x].name == c.name2;
      assert x in l && x in hooks && hooks[x].valid && hooks[x].name == c.name2;
    }
  }

  lemma ConnectedEnd(b: Base, c: Link, nodes: map<NodeId, Node>, hooks: map<HookId, Hook>, hh: multiset<HookId>, nh: multiset<NodeId>)
    requires HooksOk(hooks, hh + multiset{c.h1, c.h2}) && NodesOk(nodes, nh) && HooksOk(b.hooks, hh) && NodesOk(b.nodes, nh)
    requires Staged(b, c, nodes, hooks, Some(c.n2), true, true)
    ensures c.h1 in hooks && c.h2 in Unref(hooks, c.h1)
    ensures Connected(b, c, nodes, Unref(Unref(hooks, c.h1), c.h2))
  {
    hide Attach;
    assert c.h1 !in hh && c.h2 !in hh;
    ConnectedHooks(b, c, hooks, hh);
    ConnectedNodes(b, c, nodes, nh);
  }

  lemma ConnectedHooks(b: Base, c: Link, hooks: map<HookId, Hook>, hh: multiset<HookId>)
    requires HooksOk(hooks, hh + multiset{c.h1, c.h2}) && HooksOk(b.hooks, hh) && OtherHooks(b, c, hooks)
    requires Bare(hooks[c.h1]) == Hook(c.name1, Some(c.n), Some(c.h2), 0, true)
    requires Bare(hooks[c.h2]) == Hook(c.name2, Some(c.n2), Some(c.h1), 0, true)
    ensures c.h1 in hooks && c.h2 in Unref(hooks, c.h1)
    ensures Unref(Unref(hooks, c.h1), c.h2) == b.hooks[c.h1 := Hook(c.name1, Some(c.n), Some(c.h2), 2, true)]
                                                      [c.h2 := Hook(c.name2, Some(c.n2), Some(c.h1), 2, true)]
  {
    hide HooksOk;
    SameCounts(b, c, hooks, hh);
    assert hooks[c.h1] == Hook(c.name1, Some(c.n), Some(c.h2), 3, true);
    assert hooks[c.h2] == Hook(c.name2, Some(c.n2), Some(c.h1), 3, true);
  }

  lemma SameCounts(b: Base, c: Link, hooks: map<HookId, Hook>, hh: multiset<HookId>)
    requires HooksOk(hooks, hh + multiset{c.h1, c.h2}) && HooksOk(b.hooks, hh) && OtherHooks(b, c, hooks)
    requires hooks[c.h1].node.Some? && hooks[c.h1].peer.Some? && hooks[c.h2].node.Some? && hooks[c.h2].peer.Some?
    ensures forall x :: x in b.hooks ==> hooks[x] == b.hooks[x]
    ensures hooks[c.h1].refs == 3 && hooks[c.h2].refs == 3
  {
    var k := hh + multiset{c.h1, c.h2};
    assert c.h1 !in hh && c.h2 !in hh && k[c.h1] == 1 && k[c.h2] == 1;
    assert HookOk(hooks, k, c.h1) && HookOk(hooks, k, c.h2);
    forall x | x in b.hooks ensures hooks[x] == b.hooks[x] {
      assert HookOk(hooks, k, x) && HookOk(b.hooks, hh, x);
      assert Bare(hooks[x]) == Bare(b.hooks[x]);
      assert k[x] == hh[x];
    }
  }

  lemma ConnectedNodes(b: Base, c: Link, nodes: map<NodeId, Node>, nh: multiset<NodeId>)
    requires NodesOk(nodes, nh) && NodesOk(b.nodes, nh) && Lists(b, c, nodes, Some(c.n), Some(c.n2))
    ensures nodes == Attach(Attach(b.nodes, c.n, c.h1), c.n2, c.h2)
  {
    var t := Attach(Attach(b.nodes, c.n, c.h1), c.n2, c.h2);
    assert nodes.Keys == t.Keys;
    forall x | x in b.nodes ensures nodes[x] == t[x] {
      assert NodeOk(nodes[x], nh[x]) && NodeOk(b.nodes[x], nh[x]);
      ConnectedNode(b, c, nodes, nh, x);
    }
  }

  lemma ConnectedNode(b: Base, c: Link, nodes: map<NodeId, Node>, nh: multiset<NodeId>, x: NodeId)
    requires Lists(b, c, nodes, Some(c.n), Some(c.n2)) && x in b.nodes && c.n in b.nodes && c.n2 in b.nodes
    requires NodeOk(nodes[x], nh[x]) && NodeOk(b.nodes[x], nh[x])
    ensures nodes[x] == Attach(Attach(b.nodes, c.n, c.h1), c.n2, c.h2)[x]
  {
    var p2, p1, l := Pre(Some(c.n2), x, c.h2), Pre(Some(c.n), x, c.h1), b.nodes[x].hooks;
    assert p2 + p1 + l == p2 + (p1 + l);
    NodeGrows(b.nodes[x], nodes[x], nh[x], p2 + p1);
    hide NodeOk;
  }

  /** The list decides the counts. */
  lemma NodeGrows(v: Node, w: Node, held: nat, more: seq<HookId>)
    requires NodeOk(v, held) && NodeOk(w, held) && w.hooks == more + v.hooks
    ensures w.numhooks == v.numhooks + |more| && w.refs == v.refs + |more|
  {
  }

  lemma DropNewFacts(b: Base, n: NodeId, h: HookId, hooks: map<HookId, Hook>, nodes: map<NodeId, Node>,
                     hh: multiset<HookId>, nh: multiset<NodeId>)
    requires n in b.nodes && h !in b.hooks && h in hooks && n in nh && HooksOk(b.hooks, hh) && NodesOk(b.nodes, nh)
    requires hooks == b.hooks[h := Hook(hooks[h].name, Some(n), None, 2, false)] && nodes == Attach(b.nodes, n, h)
    ensures var d := DestroyedHooks(nodes, hooks, hh + multiset{h}, h, true);
            h in d && Unref(d, h) == b.hooks
    ensures DestroyedNodes(nodes, hooks, nh, h, true) == b.nodes
  {
    assert h !in hh by { NotHeld(b.hooks, hh, h); }
    hide HooksOk, NodesOk, Attach, Shrunk, Loose, DestroyedHooks, DestroyedNodes, Unref;
    PeerlessDestroyed(nodes, hooks, hh + multiset{h}, nh, h, true);
    DropAdded(b.hooks, hh, h, hooks[h]);
    UndoAttach(b.nodes, n, h, nh);
  }

  lemma NotHeld(hooks: map<HookId, Hook>, hh: multiset<HookId>, h: HookId)
    requires HooksOk(hooks, hh) && h !in hooks
    ensures h !in hh
  {
  }

  lemma DropAdded(hooks: map<HookId, Hook>, hh: multiset<HookId>, h: HookId, v: Hook)
    requires h !in hooks && h !in hh
    ensures var d := Loose(hooks[h := v], h, hh + multiset{h}); h in d && Unref(d, h) == hooks
  {
    var d := Loose(hooks[h := v], h, hh + multiset{h});
    assert (hh + multiset{h})[h] == 1;
    assert d[h].refs == 1;
    assert d - {h} == hooks;
  }

  lemma UndoAttach(nodes: map<NodeId, Node>, n: NodeId, h: HookId, nh: multiset<NodeId>)
    requires NodesOk(nodes, nh) && n in nodes && n in nh
    ensures Shrunk(Attach(nodes, n, h), n, h, nh) == nodes
  {
    assert NodeOk(nodes[n], nh[n]);
    hide Shrunk, NodesOk, NoDup;
    var m, l := Attach(nodes, n, h), nodes[n].hooks;
    assert m[n].hooks == [] + [h] + l && [] + l == l;
    ShrunkHeld(m, n, h, nh, [], l);
    var r := Shrunk(m, n, h, nh);
    assert r[n] == m[n].(hooks := l, numhooks := |l|, refs := |l| + nh[n]);
    assert r[n] == nodes[n];
    assert forall x :: x in nodes && x != n ==> m[x] == nodes[x];
    hide Attach;
    assert r.Keys == nodes.Keys && forall x :: x in nodes ==> r[x] == nodes[x];
  }

  // ---- Letting an aborted connect go ----

  lemma AbortedHooksEnd(b: Base, c: Link, nodes: map<NodeId, Node>, hooks: map<HookId, Hook>, hh: multiset<HookId>)
    requires HooksOk(hooks, hh + multiset{c.h1, c.h2}) && HooksOk(b.hooks, hh) && Aborted(b, c, nodes, hooks)
    ensures c.h1 in hooks && c.h2 in Unref(hooks, c.h1)
    ensures Unref(Unref(hooks, c.h1), c.h2) == b.hooks
  {
    hide Lists;
    assert c.h1 !in hh && c.h2 !in hh;
    FreeTwo(hooks, hh, c.h1, c.h2);
    RestoredHooks(b.hooks, hooks - {c.h1} - {c.h2}, hh);
  }

  lemma AbortedNodesEnd(b: Base, c: Link, nodes: map<NodeId, Node>, hooks: map<HookId, Hook>, nh: multiset<NodeId>)
    requires NodesOk(nodes, nh) && NodesOk(b.nodes, nh) && Aborted(b, c, nodes, hooks)
    ensures nodes == b.nodes
  {
    RestoredNodes(b.nodes, nodes, nh);
  }
}
