/** The netgraph operations on nodes and hooks in the synchronous configuration. */
module NgGraph {
  import opened Common
  import opened NgConnect
  import opened NgState
  import opened NgTeardown

  class Graph {
    var nodes: map<NodeId, Node>
    var hooks: map<HookId, Hook>

    ghost var hookHeld: multiset<HookId>     // references held by items, callers and local variables
    ghost var nodeHeld: multiset<NodeId>

    ghost predicate Valid()
      reads this
    {
      HooksOk(hooks, hookHeld) && NodesOk(nodes, nodeHeld) && ListsOk(nodes, hooks)
    }

    constructor ()
      ensures Valid() && nodes == map[] && hooks == map[] && Wired(nodes, hooks)
    {
      nodes, hooks := map[], map[];
      hookHeld, nodeHeld := multiset{}, multiset{};
    }

    /** NG_HOOK_REF. */
    method RefHook(h: HookId)
      requires Valid() && h in hooks
      modifies `hooks, `hookHeld
      ensures Valid() && hookHeld == old(hookHeld) + multiset{h}
      ensures hooks == old(hooks)[h := old(hooks[h]).(refs := old(hooks[h]).refs + 1)]
      ensures Wired(old(nodes), old(hooks)) ==> Wired(nodes, hooks)
    {
      hide HooksOk, NodesOk, ListsOk;
      HookCount(hooks, hookHeld, h, hookHeld + multiset{h});
      ListsSameHook(nodes, hooks, h, hooks[h].(refs := hooks[h].refs + 1));
      hooks := hooks[h := hooks[h].(refs := hooks[h].refs + 1)];
      hookHeld := hookHeld + multiset{h};
    }

    /** ng_unref_hook: the last reference frees the hook. A hook whose last reference is held outside is not
        attached, so its node is the dead node. */
    method UnrefHook(h: HookId)
      requires Valid() && h in hookHeld
      modifies `hooks, `hookHeld
      ensures Valid() && hookHeld == old(hookHeld) - multiset{h} && h in old(hooks)
      ensures hooks == Unref(old(hooks), h)
      ensures Wired(old(nodes), old(hooks)) ==> Wired(nodes, hooks)
    {
      hide HooksOk, NodesOk, ListsOk, Wired;
      UnrefHookWired(nodes, hooks, h) by { HeldHere(hooks, hookHeld, h); }
      UnrefHookOk(nodes, hooks, hookHeld, h);
      if hooks[h].refs == 1 {
        hooks := hooks - {h};
      } else {
        hooks := hooks[h := hooks[h].(refs := hooks[h].refs - 1)];
      }
      hookHeld := hookHeld - multiset{h};
    }

    /** NG_NODE_REF. */
    method RefNode(n: NodeId)
      requires Valid() && n in nodes
      modifies `nodes, `nodeHeld
      ensures Valid() && nodeHeld == old(nodeHeld) + multiset{n}
      ensures nodes == old(nodes)[n := old(nodes[n]).(refs := old(nodes[n]).refs + 1)]
      ensures Wired(old(nodes), old(hooks)) ==> Wired(nodes, hooks)
    {
      hide HooksOk, NodesOk, ListsOk;
      NodeCount(nodes, nodeHeld, n, nodeHeld + multiset{n});
      ListsSameNode(nodes, hooks, n, nodes[n].(refs := nodes[n].refs + 1));
      nodes := nodes[n := nodes[n].(refs := nodes[n].refs + 1)];
      nodeHeld := nodeHeld + multiset{n};
    }

    /** ng_unref_node. */
    method UnrefNode(n: NodeId)
      requires Valid() && n in nodeHeld
      modifies `nodes, `nodeHeld
      ensures Valid() && nodeHeld == old(nodeHeld) - multiset{n} && n in old(nodes)
      ensures nodes == UnrefN(old(nodes), n)
      ensures Wired(old(nodes), old(hooks)) ==> Wired(nodes, hooks)
    {
      hide HooksOk, NodesOk, ListsOk, Wired;
      UnrefNodeWired(nodes, hooks, n) by { NodeHeldHere(nodes, nodeHeld, n); }
      UnrefNodeOk(nodes, hooks, nodeHeld, n);
      if nodes[n].refs == 1 {
        nodes := nodes - {n};
      } else {
        nodes := nodes[n := nodes[n].(refs := nodes[n].refs - 1)];
      }
      nodeHeld := nodeHeld - multiset{n};
    }

    /** LIST_REMOVE, numhooks-- and the divorce from the node; two references are now the caller's to drop. */
    method LeaveList(h: HookId)
      requires Valid() && h in hooks && hooks[h].node.Some? && !hooks[h].valid
      modifies `nodes, `hooks, `hookHeld, `nodeHeld
      ensures Valid()
      ensures hookHeld == old(hookHeld) + multiset{h}
      ensures nodeHeld == old(nodeHeld) + multiset{old(hooks[h].node.value)}
      ensures hooks == old(hooks)[h := old(hooks[h]).(node := None)]
      ensures Left(old(nodes), old(hooks[h].node.value), h, nodes)
    {
      hide HooksOk, NodesOk, ListsOk, Remove, NoDup, Wired;
      var n := hooks[h].node.value;
      DetachFacts(nodes, hooks, hookHeld, nodeHeld, h);
      HookDetach(hooks, hookHeld, h);
      NodeDetach(nodes, nodeHeld, n, h);
      var v := nodes[n].(hooks := Remove(nodes[n].hooks, h), numhooks := nodes[n].numhooks - 1);
      ListsDetach(nodes, hooks, n, h, v);
      nodes := nodes[n := v];
      hooks := hooks[h := hooks[h].(node := None)];
      nodeHeld := nodeHeld + multiset{n};
      hookHeld := hookHeld + multiset{h};
    }

    /** The end of ng_destroy_hook: leave the node's list and drop both references that went with it. */
    method Detach(h: HookId)
      requires Valid() && h in hooks && hooks[h].node.Some? && hooks[h].peer.None? && !hooks[h].valid
      modifies `nodes, `hooks, `hookHeld, `nodeHeld
      ensures Valid() && hookHeld == old(hookHeld) && nodeHeld == old(nodeHeld)
      ensures hooks == Loose(old(hooks), h, hookHeld)
      ensures nodes == Shrunk(old(nodes), old(hooks[h].node.value), h, nodeHeld)
    {
      hide HooksOk, NodesOk, ListsOk, Loose, Shrunk, Left, Unref, UnrefN, Wired;
      var n := hooks[h].node.value;
      DetachFacts(nodes, hooks, hookHeld, nodeHeld, h);
      LooseFold(hooks, h, hookHeld);
      AddDrop(hookHeld, h);
      AddDrop(nodeHeld, n);
      LeaveList(h);
      ShrunkFold(old(nodes), n, h, old(nodeHeld), nodes);
      UnrefNode(n);
      UnrefHook(h);
    }

    /** ng_apply_item for ng_rmhook_part2: a node being shut down refuses it. */
    method ApplyRmhook(p: HookId)
      requires Valid() && p in hookHeld && p in hooks && hooks[p].node.Some? && hooks[p].peer.None?
      modifies `nodes, `hooks, `hookHeld, `nodeHeld
      ensures Valid() && hookHeld == old(hookHeld) && nodeHeld == old(nodeHeld)
      ensures RmDone(old(nodes), old(hooks), hookHeld, nodeHeld, p, nodes, hooks, true)
      decreases 1
    {
      hide HooksOk, NodesOk, ListsOk, Loose, Shrunk, DestroyedHooks, DestroyedNodes, Wired;
      DetachFacts(nodes, hooks, hookHeld, nodeHeld, p);
      if !nodes[hooks[p].node.value].invalid {
        PeerlessDestroyed(nodes, hooks, hookHeld, nodeHeld, p, true);
        DestroyHook(p, true);
      }
    }

    /** ng_rmhook_self: without an item nothing happens. */
    method RmhookSelf(p: HookId, item: bool)
      requires Valid() && p in hookHeld && p in hooks && hooks[p].node.Some? && hooks[p].peer.None?
      modifies `nodes, `hooks, `hookHeld, `nodeHeld
      ensures Valid() && hookHeld == old(hookHeld) && nodeHeld == old(nodeHeld)
      ensures RmDone(old(nodes), old(hooks), hookHeld, nodeHeld, p, nodes, hooks, item)
      decreases 3
    {
      hide HooksOk, NodesOk, ListsOk, RmDone, Wired;
      if item {
        SendRmhook(p);
      } else {
        DetachFacts(nodes, hooks, hookHeld, nodeHeld, p);
        NoItem(nodes, hooks, hookHeld, nodeHeld, p);
      }
    }

    /** ng_send_fn and ng_snd_item in the synchronous build: the item holds the hook and the node while the function
        runs. */
    method SendRmhook(p: HookId)
      requires Valid() && p in hookHeld && p in hooks && hooks[p].node.Some? && hooks[p].peer.None?
      modifies `nodes, `hooks, `hookHeld, `nodeHeld
      ensures Valid() && hookHeld == old(hookHeld) && nodeHeld == old(nodeHeld)
      ensures RmDone(old(nodes), old(hooks), hookHeld, nodeHeld, p, nodes, hooks, true)
      decreases 2
    {
      hide HooksOk, NodesOk, ListsOk, Unref, UnrefN, RmDone, Wired;
      var n := hooks[p].node.value;
      DetachFacts(nodes, hooks, hookHeld, nodeHeld, p);
      AddDrop(hookHeld, p);
      AddDrop(nodeHeld, n);
      RefNode(n);
      RefHook(p);
      ApplyRmhook(p);
      RmCompose(old(nodes), old(hooks), old(hookHeld), old(nodeHeld), n, p, nodes, hooks, true);
      UnrefHook(p);
      UnrefNode(n);
    }

    /** Setting both hk_peer fields to the dead hook. */
    method Divorce(h: HookId)
      requires Valid() && h in hooks && hooks[h].peer.Some?
      modifies `hooks, `hookHeld
      ensures Valid() && hookHeld == old(hookHeld) + multiset{h, old(hooks[h].peer.value)}
      ensures hooks == Divorced(old(hooks), h)
    {
      hide HooksOk, NodesOk, ListsOk, Wired;
      var q := hooks[h].peer.value;
      HookDivorce(hooks, hookHeld, h, q);
      ListsSameHook(nodes, hooks, q, hooks[q].(peer := None));
      ListsSameHook(nodes, hooks[q := hooks[q].(peer := None)], h, hooks[h].(peer := None));
      hooks := hooks[q := hooks[q].(peer := None)][h := hooks[h].(peer := None)];
      hookHeld := hookHeld + multiset{h, q};
    }

    /** The divorce in ng_destroy_hook, with the destruction of the peer. */
    method Unpeer(h: HookId, item: bool)
      requires Valid() && h in hooks && hooks[h].peer.Some? && !hooks[h].valid
      modifies `nodes, `hooks, `hookHeld, `nodeHeld
      ensures Valid() && hookHeld == old(hookHeld) && nodeHeld == old(nodeHeld)
      ensures hooks == UnpeeredHooks(old(nodes), old(hooks), hookHeld, h, item)
      ensures nodes == UnpeeredNodes(old(nodes), old(hooks), nodeHeld, h, item)
      decreases 4
    {
      hide HooksOk, NodesOk, ListsOk, Loose, Shrunk, Unref, UnpeeredHooks, Divorced, Wired;
      var q := hooks[h].peer.value;
      UnpeerFacts(hooks, hookHeld, h);
      if hooks[q].node.None? || Stays(nodes, hooks[q], item) {
        UnpeerKept(nodes, hooks, hookHeld, h, q, item);
      } else {
        UnpeerGone(nodes, hooks, hookHeld, h, q, item);
      }
      Divorce(h);
      if hooks[q].node.Some? {
        RmhookSelf(q, item);
      }
      UnrefHook(q);
      UnrefHook(h);
    }

    /** ng_destroy_hook: both ends of the link are destroyed. `item` tells whether the message to the peer finds an item. */
    method DestroyHook(h: HookId, item: bool)
      requires Valid() && h in hooks
      modifies `nodes, `hooks, `hookHeld, `nodeHeld
      ensures Valid() && hookHeld == old(hookHeld) && nodeHeld == old(nodeHeld)
      ensures hooks == DestroyedHooks(old(nodes), old(hooks), hookHeld, h, item)
      ensures nodes == DestroyedNodes(old(nodes), old(hooks), nodeHeld, h, item)
      ensures item && Wired(old(nodes), old(hooks)) ==> Wired(nodes, hooks)
      decreases if hooks[h].peer.Some? then 5 else 0
    {
      hide HooksOk, NodesOk, ListsOk, Loose, Shrunk, DestroyedHooks, DestroyedNodes, UnpeeredHooks, UnpeeredNodes, Wired;
      var node := hooks[h].node;
      DestroyFacts(nodes, hooks, hookHeld, nodeHeld, h, item);
      DestroyWired(nodes, hooks, hookHeld, nodeHeld, h);
      HookFlag(hooks, hookHeld, h, false);
      ListsSameHook(nodes, hooks, h, hooks[h].(valid := false));
      hooks := hooks[h := hooks[h].(valid := false)];
      if hooks[h].peer.Some? {
        Unpeer(h, item);
      }
      if node.None? {
        return;
      }
      Detach(h);
    }

    /** ng_findhook: the first valid hook of that name. */
    method FindHook(n: NodeId, name: string, own: OwnSearch) returns (r: Option<HookId>)
      requires Valid() && n in nodes
      ensures r.Some? <==> InUse(nodes, hooks, n, name, own)
      ensures if own.Some? then r == own.value
              else r.Some? ==> r.value in nodes[n].hooks && r.value in hooks && hooks[r.value].valid && hooks[r.value].name == name
    {
      if own.Some? {
        return own.value;
      }
      var l := nodes[n].hooks;
      for i := 0 to |l|
        invariant forall k :: 0 <= k < i ==> l[k] in hooks && !(hooks[l[k]].valid && hooks[l[k]].name == name)
      {
        assert l[i] in l;
        if hooks[l[i]].valid && hooks[l[i]].name == name {
          return Some(l[i]);
        }
      }
      r := None;
    }

    /** The second half of ng_add_hook: initialise the hook, ask the type, and put it on the list. The node reference
        is taken first; a refusal drops it together with the hook. */
    method LinkIn(n: NodeId, name: string, h: HookId, refused: bool) returns (accepted: bool)
      requires Valid() && n in nodes && h !in hooks
      modifies `nodes, `hooks, `hookHeld, `nodeHeld
      ensures Valid() && nodeHeld == old(nodeHeld) && accepted == !refused
      ensures refused ==> hooks == old(hooks) && nodes == old(nodes) && hookHeld == old(hookHeld)
      ensures !refused ==>
                && hookHeld == old(hookHeld) + multiset{h}
                && hooks == old(hooks)[h := Hook(name, Some(n), None, 2, false)]
                && nodes == Attach(old(nodes), n, h)
    {
      hide HooksOk, NodesOk, ListsOk, Attach, UnrefN, Wired;
      AddDrop(nodeHeld, n);
      if refused {
        RefUnrefAny(nodes, nodeHeld, n);
        RefNode(n);
        UnrefNode(n);
        return false;
      }
      AttachOk(nodes, hooks, hookHeld, nodeHeld, n, h, Hook(name, Some(n), None, 2, false));
      ghost var goal := Attach(nodes, n, h);
      RefNode(n);
      AttachFold(old(nodes), n, h, nodes);
      nodes := nodes[n := nodes[n].(hooks := [h] + nodes[n].hooks, numhooks := nodes[n].numhooks + 1)];
      assert nodes == goal;
      hooks := hooks[h := Hook(name, Some(n), None, 2, false)];
      nodeHeld := nodeHeld - multiset{n};
      hookHeld := hookHeld + multiset{h};
      accepted := true;
    }

    /** ng_add_hook. `storage` is what malloc returns, if any; `refused` is the type's newhook answer.
        The hook comes back with one reference for the caller. */
    method AddHook(n: NodeId, name: Option<string>, storage: Option<HookId>, refused: bool,
                   own: OwnSearch) returns (r: Result)
      requires Valid() && n in nodes && (storage.Some? ==> storage.value !in hooks)
      modifies `nodes, `hooks, `hookHeld, `nodeHeld
      ensures Valid() && nodeHeld == old(nodeHeld)
      ensures r.Success? <==> name.Some? && storage.Some? && !refused
                              && !InUse(old(nodes), old(hooks), n, name.value, own)
      ensures r.Error? ==> hooks == old(hooks) && nodes == old(nodes) && hookHeld == old(hookHeld)
      ensures r.Success? ==>
                && r.hook == storage.value && hookHeld == old(hookHeld) + multiset{r.hook}
                && hooks == old(hooks)[r.hook := Hook(Stored(name.value), Some(n), None, 2, false)]
                && nodes == Attach(old(nodes), n, r.hook)
                && (|name.value| < NG_HOOKSIZ ==> hooks[r.hook].name == name.value)
                && (|name.value| >= NG_HOOKSIZ ==> hooks[r.hook].name == name.value[..NG_HOOKSIZ - 1])
      ensures Wired(old(nodes), old(hooks)) ==> Wired(nodes, hooks)
    {
      hide HooksOk, NodesOk, ListsOk, Wired;
      if name.None? {
        return Error(EINVAL);
      }
      var found := FindHook(n, name.value, own);
      if found.Some? {
        return Error(EEXIST);
      }
      if storage.None? {
        return Error(ENOMEM);
      }
      AddWired(nodes, hooks, n, storage.value, Hook(Stored(name.value), Some(n), None, 2, false));
      var accepted := LinkIn(n, Stored(name.value), storage.value, refused);
      r := if accepted then Success(storage.value) else Error(EREFUSED);
    }

    /** ng_con_part3: the first node's type has the last word. */
    method Part3(ghost b: Base, c: Link, refused: bool) returns (ok: bool)
      requires Valid() && Staged(b, c, nodes, hooks, Some(c.n2), false, false)
      requires c.h1 in hookHeld && c.h2 in hookHeld && c.n in nodeHeld && c.n2 in nodeHeld
      requires !nodes[c.n2].invalid
      modifies `nodes, `hooks, `hookHeld, `nodeHeld
      ensures Valid() && hookHeld == old(hookHeld) && nodeHeld == old(nodeHeld) && ok == !refused
      ensures if ok then Staged(b, c, nodes, hooks, Some(c.n2), true, false) else Aborted(b, c, nodes, hooks)
    {
      hide HooksOk, NodesOk, ListsOk, Staged, Aborted, DestroyedHooks, DestroyedNodes, Wired;
      StagedFacts(b, c, nodes, hooks, Some(c.n2), false, false);
      if refused {
        AbortFirst(b, c, nodes, hooks, hookHeld, nodeHeld, Some(c.n2));
        DestroyHook(c.h1, true);
        return false;
      }
      HookFlag(hooks, hookHeld, c.h1, true);
      ListsSameHook(nodes, hooks, c.h1, hooks[c.h1].(valid := true));
      StagedFlag(b, c, nodes, hooks, Some(c.n2), c.h1);
      hooks := hooks[c.h1 := hooks[c.h1].(valid := true)];
      ok := true;
    }

    /** ng_send_fn2 for ng_con_part3, reusing the item: it holds the node and the hook meanwhile. */
    method SendPart3(ghost b: Base, c: Link, refused: bool) returns (ok: bool)
      requires Valid() && Staged(b, c, nodes, hooks, Some(c.n2), false, false)
      requires c.h1 in hookHeld && c.h2 in hookHeld && c.n in nodeHeld && c.n2 in nodeHeld
      requires !nodes[c.n].invalid && !nodes[c.n2].invalid
      modifies `nodes, `hooks, `hookHeld, `nodeHeld
      ensures Valid() && hookHeld == old(hookHeld) && nodeHeld == old(nodeHeld) && ok == !refused
      ensures if ok then Staged(b, c, nodes, hooks, Some(c.n2), true, false) else Aborted(b, c, nodes, hooks)
    {
      hide HooksOk, NodesOk, ListsOk, Staged, Aborted, Unref, UnrefN, Bare, Wired;
      StagedFacts(b, c, nodes, hooks, Some(c.n2), false, false);
      AddDrop(nodeHeld, c.n);
      AddDrop(hookHeld, c.h1);
      StagedCounts(b, c, nodes, hooks, Some(c.n2), false, false, c.n, nodes[c.n].refs + 1, c.h1, hooks[c.h1].refs + 1);
      RefNode(c.n);
      RefHook(c.h1);
      ok := Part3(b, c, refused);
      DropCounts(b, c, nodes, hooks, hookHeld, nodeHeld, Some(c.n2), true, c.n, c.h1);
      UnrefHook(c.h1);
      UnrefNode(c.n);
    }

    /** In ng_con_part2: attach the second hook. */
    method AttachSecond(ghost b: Base, c: Link)
      requires Valid() && Staged(b, c, nodes, hooks, None, false, false)
      modifies `nodes, `hooks
      ensures Valid() && Staged(b, c, nodes, hooks, Some(c.n2), false, false)
    {
      hide HooksOk, NodesOk, ListsOk, Staged, Attach, Wired;
      StagedFacts(b, c, nodes, hooks, None, false, false);
      AttachSecondOk(b, c, nodes, hooks, hookHeld, nodeHeld);
      hooks := hooks[c.h2 := hooks[c.h2].(node := Some(c.n2), refs := hooks[c.h2].refs + 1)];
      nodes := Attach(nodes, c.n2, c.h2);
    }

    /** ng_con_part2. */
    method Part2(ghost b: Base, c: Link, a: Answers) returns (ok: bool)
      requires Valid() && Staged(b, c, nodes, hooks, None, false, false)
      requires c.h1 in hookHeld && c.h2 in hookHeld && c.n in nodeHeld && c.n2 in nodeHeld
      requires !nodes[c.n].invalid && !nodes[c.n2].invalid
      modifies `nodes, `hooks, `hookHeld, `nodeHeld
      ensures Valid() && hookHeld == old(hookHeld) && nodeHeld == old(nodeHeld)
      ensures ok <==> !InUse(old(nodes), old(hooks), c.n2, c.name2, a.again2) && !a.newhook2 && !a.connect2 && !a.connect1
      ensures if ok then Staged(b, c, nodes, hooks, Some(c.n2), true, true) else Aborted(b, c, nodes, hooks)
    {
      hide HooksOk, NodesOk, ListsOk, Staged, Aborted, DestroyedHooks, DestroyedNodes, Named, Wired;
      StagedFacts(b, c, nodes, hooks, None, false, false);
      var found := FindHook(c.n2, c.name2, a.again2);
      if found.Some? || a.newhook2 {
        AbortSecond(b, c, nodes, hooks, hookHeld, nodeHeld, None);
        DestroyHook(c.h2, true);
        return false;
      }
      AttachSecond(b, c);
      StagedFacts(b, c, nodes, hooks, Some(c.n2), false, false);
      if a.connect2 {
        AbortSecond(b, c, nodes, hooks, hookHeld, nodeHeld, Some(c.n2));
        DestroyHook(c.h2, true);
        return false;
      }
      ok := SendPart3(b, c, a.connect1);
      if !ok {
        AbortedFacts(b, c, nodes, hooks);
        DestroyedTwice(nodes, hooks, hookHeld, nodeHeld, c.h2, true);
        DestroyHook(c.h2, true);
        return false;
      }
      StagedFacts(b, c, nodes, hooks, Some(c.n2), true, false);
      HookFlag(hooks, hookHeld, c.h2, true);
      ListsSameHook(nodes, hooks, c.h2, hooks[c.h2].(valid := true));
      StagedFlag(b, c, nodes, hooks, Some(c.n2), c.h2);
      hooks := hooks[c.h2 := hooks[c.h2].(valid := true)];
    }

    /** ng_apply_item for ng_con_part2: a node being shut down refuses the function. */
    method ApplyPart2(ghost b: Base, c: Link, a: Answers) returns (ok: bool)
      requires Valid() && Staged(b, c, nodes, hooks, None, false, false)
      requires c.h1 in hookHeld && c.h2 in hookHeld && c.n in nodeHeld && c.n2 in nodeHeld
      requires !nodes[c.n].invalid
      modifies `nodes, `hooks, `hookHeld, `nodeHeld
      ensures Valid() && hookHeld == old(hookHeld) && nodeHeld == old(nodeHeld)
      ensures ok <==> Agreed(old(nodes), old(hooks), c, a)
      ensures Outcome(b, c, nodes, hooks, ok)
    {
      hide HooksOk, NodesOk, ListsOk, Staged, Aborted, Named, Wired;
      StagedFacts(b, c, nodes, hooks, None, false, false);
      if nodes[c.n2].invalid {
        return false;
      }
      ok := Part2(b, c, a);
    }

    /** ng_send_fn2 for ng_con_part2: it needs a new item, which holds the node and the hook meanwhile. */
    method SendPart2(ghost b: Base, c: Link, a: Answers) returns (ok: bool)
      requires Valid() && Staged(b, c, nodes, hooks, None, false, false)
      requires c.h1 in hookHeld && c.h2 in hookHeld && c.n in nodeHeld && c.n2 in nodeHeld
      requires !nodes[c.n].invalid
      modifies `nodes, `hooks, `hookHeld, `nodeHeld
      ensures Valid() && hookHeld == old(hookHeld) && nodeHeld == old(nodeHeld)
      ensures ok <==> a.item && Agreed(old(nodes), old(hooks), c, a)
      ensures Outcome(b, c, nodes, hooks, ok)
    {
      hide HooksOk, NodesOk, ListsOk, Staged, Unref, UnrefN, Agreed, Outcome, Wired;
      StagedFacts(b, c, nodes, hooks, None, false, false);
      if !a.item {
        OutcomeNotBegun(b, c, nodes, hooks);
        return false;
      }
      AddDrop(nodeHeld, c.n2);
      AddDrop(hookHeld, c.h2);
      StagedCounts(b, c, nodes, hooks, None, false, false, c.n2, nodes[c.n2].refs + 1, c.h2, hooks[c.h2].refs + 1);
      AgreedCounts(nodes, hooks, c, a, nodes[c.n2].refs + 1, hooks[c.h2].refs + 1);
      ghost var agreed := Agreed(nodes, hooks, c, a);
      RefNode(c.n2);
      RefHook(c.h2);
      assert Agreed(nodes, hooks, c, a) <==> agreed;
      ok := ApplyPart2(b, c, a);
      OutcomeDrop(b, c, nodes, hooks, hookHeld, nodeHeld, ok);
      UnrefHook(c.h2);
      UnrefNode(c.n2);
    }

    /** The middle of ng_con_nodes: make the second hook, unattached, and link the two together. */
    method MakePeer(ghost b: Base, c: Link)
      requires Valid() && c.n in b.nodes && c.n2 in b.nodes && c.h1 !in b.hooks && c.h2 !in b.hooks && c.h1 != c.h2
      requires hooks == b.hooks[c.h1 := Hook(c.name1, Some(c.n), None, 2, false)] && nodes == Attach(b.nodes, c.n, c.h1)
      modifies `hooks, `hookHeld
      ensures Valid() && hookHeld == old(hookHeld) + multiset{c.h2}
      ensures Staged(b, c, nodes, hooks, None, false, false)
    {
      hide HooksOk, NodesOk, ListsOk, Attach, Wired;
      MakePeerOk(b, c, nodes, hooks, hookHeld);
      MakePeerStaged(b, c);
      hooks := hooks[c.h2 := Hook(c.name2, None, Some(c.h1), 2, false)]
                    [c.h1 := hooks[c.h1].(peer := Some(c.h2), refs := hooks[c.h1].refs + 1)];
      hookHeld := hookHeld + multiset{c.h2};
    }

    /** The end of ng_con_nodes: run the second half, undo everything on an error, let both hooks go. */
    method Conclude(ghost b: Base, c: Link, a: Answers, ghost hh: multiset<HookId>) returns (ok: bool)
      requires Valid() && Staged(b, c, nodes, hooks, None, false, false) && hookHeld == hh + multiset{c.h1, c.h2}
      requires HooksOk(b.hooks, hh) && NodesOk(b.nodes, nodeHeld)
      requires c.n in nodeHeld && c.n2 in nodeHeld && !nodes[c.n].invalid
      modifies `nodes, `hooks, `hookHeld, `nodeHeld
      ensures Valid() && hookHeld == hh && nodeHeld == old(nodeHeld)
      ensures ok <==> a.item && Agreed(old(nodes), old(hooks), c, a)
      ensures !ok ==> hooks == b.hooks && nodes == b.nodes
      ensures ok ==> Connected(b, c, nodes, hooks)
    {
      hide HooksOk, NodesOk, ListsOk, Staged, Aborted, Unref, UnrefN, Agreed, DestroyedHooks, DestroyedNodes, Connected, Wired;
      StagedFacts(b, c, nodes, hooks, None, false, false);
      HeldBoth(hh, c.h1, c.h2);
      ok := SendPart2(b, c, a);
      if ok {
        ConnectedEnd(b, c, nodes, hooks, hh, nodeHeld);
      } else {
        Undo(b, c);
        AbortedEnd(b, c, nodes, hooks, hh, nodeHeld);
      }
      UnrefHook(c.h1);
      UnrefHook(c.h2);
    }

    /** ng_destroy_hook on the first hook after a failure, whether or not the second half has undone the connect. */
    method Undo(ghost b: Base, c: Link)
      requires Valid() && Outcome(b, c, nodes, hooks, false)
      requires c.h1 in hookHeld && c.h2 in hookHeld && c.n in nodeHeld && c.n2 in nodeHeld
      modifies `nodes, `hooks, `hookHeld, `nodeHeld
      ensures Valid() && hookHeld == old(hookHeld) && nodeHeld == old(nodeHeld)
      ensures Aborted(b, c, nodes, hooks)
    {
      hide HooksOk, NodesOk, ListsOk, Staged, Aborted, DestroyedHooks, DestroyedNodes, Wired;
      if Staged(b, c, nodes, hooks, None, false, false) {
        StagedFacts(b, c, nodes, hooks, None, false, false);
        AbortFirst(b, c, nodes, hooks, hookHeld, nodeHeld, None);
      } else {
        AbortedFacts(b, c, nodes, hooks);
        DestroyedTwice(nodes, hooks, hookHeld, nodeHeld, c.h1, true);
      }
      DestroyHook(c.h1, true);
    }

    /** ng_con_nodes. The caller holds both nodes; `s1` and `s2` are the storage malloc returns for the two hooks. */
    method ConNodes(n: NodeId, name1: string, n2: NodeId, name2: string, s1: Option<HookId>, s2: Option<HookId>, a: Answers)
      returns (ok: bool)
      requires Valid() && n in nodes && n2 in nodes && n in nodeHeld && n2 in nodeHeld && !nodes[n].invalid
      requires (s1.Some? ==> s1.value !in hooks) && (s2.Some? ==> s2.value !in hooks) && (s1.Some? ==> s1 != s2)
      modifies `nodes, `hooks, `hookHeld, `nodeHeld
      ensures Valid() && hookHeld == old(hookHeld) && nodeHeld == old(nodeHeld)
      ensures ok <==> && s1.Some? && s2.Some? && a.item && !a.newhook1 && !a.newhook2 && !a.connect2 && !a.connect1
                      && !InUse(old(nodes), old(hooks), n, name1, a.search1)
                      && !InUse(old(nodes), old(hooks), n2, name2, a.search2)
                      && !InUse(old(nodes), old(hooks), n2, Stored(name2), a.again2) && !old(nodes)[n2].invalid
      ensures !ok ==> hooks == old(hooks) && nodes == old(nodes)
      ensures ok ==> Connected(Base(old(nodes), old(hooks)), Link(n, s1.value, Stored(name1), n2, s2.value, Stored(name2)), nodes, hooks)
      ensures ok && |name1| < NG_HOOKSIZ ==> Carries(nodes, hooks, n, s1.value, name1)
      ensures ok && |name2| < NG_HOOKSIZ ==> Carries(nodes, hooks, n2, s2.value, name2)
      ensures ok && |name1| >= NG_HOOKSIZ ==>
                && Carries(nodes, hooks, n, s1.value, name1[..NG_HOOKSIZ - 1])
                && (a.search1.None? ==> !Named(nodes, hooks, n, name1))
      ensures ok && |name2| >= NG_HOOKSIZ ==>
                && Carries(nodes, hooks, n2, s2.value, name2[..NG_HOOKSIZ - 1])
                && (a.search2.None? ==> !Named(nodes, hooks, n2, name2))
      ensures Wired(old(nodes), old(hooks)) ==> Wired(nodes, hooks)
    {
      hide HooksOk, NodesOk, ListsOk, Staged, Named, Connected, Attach, Wired;
      ghost var b := Base(nodes, hooks);
      ghost var hh := hookHeld;
      var found := FindHook(n2, name2, a.search2);
      if found.Some? {
        return false;
      }
      var r := AddHook(n, Some(name1), s1, a.newhook1, a.search1);
      if r.Error? {
        return false;
      }
      if s2.None? {
        DropNew(b, n, r.hook, hh);
        return false;
      }
      var c := Link(n, s1.value, Stored(name1), n2, s2.value, Stored(name2));
      MakePeer(b, c);
      NamedStaged(b, c, nodes, hooks);
      StagedFacts(b, c, nodes, hooks, None, false, false);
      HeldTwo(hh, c.h1, c.h2);
      ok := Conclude(b, c, a, hh);
      if ok {
        NewNames(b, c, nodes, hooks, name1, name2);
        if Wired(b.nodes, b.hooks) { ConnectWired(b, c, nodes, hooks); }
      }
    }

    /** ng_destroy_hook and NG_HOOK_UNREF on a hook just added: the addition is undone. */
    method DropNew(ghost b: Base, n: NodeId, h: HookId, ghost hh: multiset<HookId>)
      requires Valid() && n in b.nodes && h !in b.hooks && hookHeld == hh + multiset{h} && n in nodeHeld
      requires hooks == b.hooks[h := Hook(hooks[h].name, Some(n), None, 2, false)] && nodes == Attach(b.nodes, n, h)
      requires HooksOk(b.hooks, hh) && NodesOk(b.nodes, nodeHeld)
      modifies `nodes, `hooks, `hookHeld, `nodeHeld
      ensures Valid() && hookHeld == hh && nodeHeld == old(nodeHeld)
      ensures hooks == b.hooks && nodes == b.nodes
    {
      hide HooksOk, NodesOk, ListsOk, DestroyedHooks, DestroyedNodes, Unref, Attach, Wired;
      DropNewFacts(b, n, h, hooks, nodes, hh, nodeHeld);
      AddDrop(hh, h);
      DestroyHook(h, true);
      UnrefHook(h);
    }

    /** The loop of ng_rmnode that destroys every hook of the node. It ends because each turn shortens the list:
        the node is already invalid, so a peer on the same node stays for a later turn. */
    method Drain(n: NodeId)
      requires Valid() && n in nodes && n in nodeHeld
      modifies `nodes, `hooks, `hookHeld, `nodeHeld
      ensures Valid() && hookHeld == old(hookHeld) && nodeHeld == old(nodeHeld)
      ensures n in nodes && nodes[n].hooks == []
      ensures nodes[n].invalid == old(nodes[n]).invalid && nodes[n].closing == old(nodes[n]).closing
      ensures Drained(n, old(hooks), hooks)
      ensures old(nodes[n].hooks) == [] ==> hooks == old(hooks) && nodes == old(nodes)
      ensures Wired(old(nodes), old(hooks)) ==> Wired(nodes, hooks)
    {
      hide HooksOk, NodesOk, ListsOk, DestroyedHooks, DestroyedNodes, Drained, Wired;
      DrainStart(hooks, n);
      while nodes[n].hooks != []
        invariant Valid() && hookHeld == old(hookHeld) && nodeHeld == old(nodeHeld)
        invariant n in nodes && nodes[n].invalid == old(nodes[n]).invalid && nodes[n].closing == old(nodes[n]).closing
        invariant Draining(n, old(hooks), hooks)
        invariant old(nodes[n].hooks) == [] ==> hooks == old(hooks) && nodes == old(nodes)
        invariant Wired(old(nodes), old(hooks)) ==> Wired(nodes, hooks)
        decreases |nodes[n].hooks|
      {
        var h := nodes[n].hooks[0];
        DrainStep(n, old(hooks), nodes, hooks, hookHeld, nodeHeld);
        DestroyWired(nodes, hooks, hookHeld, nodeHeld, h);
        DestroyHook(h, true);
      }
      DrainEnd(n, old(hooks), nodes, hooks, hookHeld);
    }

    /** Setting or clearing NGF_INVALID and NGF_CLOSING. */
    method Mark(n: NodeId, closing: bool)
      requires Valid() && n in nodes
      modifies `nodes
      ensures Valid() && nodes == old(nodes)[n := old(nodes[n]).(invalid := closing, closing := closing)]
    {
      hide HooksOk, NodesOk, ListsOk, Wired;
      MarkOk(nodes, nodeHeld, n, closing);
      ListsSameNode(nodes, hooks, n, nodes[n].(invalid := closing, closing := closing));
      nodes := nodes[n := nodes[n].(invalid := closing, closing := closing)];
    }

    /** ng_rmnode. The node survives only while someone still holds it. */
    method Rmnode(n: NodeId, close: Close, sd: Shutdown)
      requires Valid() && n in nodes && (sd.Releases? ==> n in nodeHeld)
      requires close.Extricate? ==> Through(hooks, n, close.h1, close.h2)
      modifies `nodes, `hooks, `hookHeld, `nodeHeld
      ensures Valid() && hookHeld == old(hookHeld)
      ensures old(nodes[n].closing) ==> nodes == old(nodes) && hooks == old(hooks) && nodeHeld == old(nodeHeld)
      ensures !old(nodes[n].closing) ==>
                && nodeHeld == Remaining(old(nodeHeld), n, sd)
                && (n in nodes <==> n in nodeHeld)
                && (n in nodes ==> nodes[n].hooks == [] && nodes[n].closing == !sd.Survives? && nodes[n].invalid == !sd.Survives?)
                && Drained(n, AfterClose(old(hooks), hookHeld, close), hooks)
                && (old(nodes[n].hooks) == [] && close.Nothing? ==>
                      hooks == old(hooks) && nodes == Closed(old(nodes), n, nodeHeld, !sd.Survives?))
      ensures Wired(old(nodes), old(hooks)) ==> Wired(nodes, hooks)
    {
      hide HooksOk, NodesOk, ListsOk, Drained, UnrefN, Closed, Wired, Through, AfterClose;
      if nodes[n].closing {
        return;
      }
      AddDrop(nodeHeld, n);
      RefNode(n);
      Mark(n, true);
      WiredMark(old(nodes), nodes, hooks, n);
      CloseMethod(n, close);
      Drain(n);
      ghost var nodes1 := nodes;
      Retire(n, sd);
      WiredRetire(nodes1, nodes, hooks, n);
      RetiredCount(nodes, hooks, nodeHeld, n);
      if old(nodes[n].hooks) == [] && close.Nothing? {
        ClosedFold(old(nodes), n, old(nodeHeld), nodes, nodeHeld, sd);
      }
    }

    /** The type's close method. */
    method CloseMethod(n: NodeId, close: Close)
      requires Valid() && n in nodes && n in nodeHeld && (close.Extricate? ==> Through(hooks, n, close.h1, close.h2))
      modifies `nodes, `hooks, `hookHeld, `nodeHeld
      ensures Valid() && hookHeld == old(hookHeld) && nodeHeld == old(nodeHeld)
      ensures close.Extricate? ==> close.h1 in old(hooks) && close.h2 in old(hooks)
      ensures hooks == AfterClose(old(hooks), hookHeld, close)
      ensures n in nodes && nodes[n].invalid == old(nodes[n]).invalid && nodes[n].closing == old(nodes[n]).closing
      ensures close.Nothing? ==> hooks == old(hooks) && nodes == old(nodes)
      ensures Wired(old(nodes), old(hooks)) ==> Wired(nodes, hooks)
    {
      hide HooksOk, NodesOk, ListsOk, Wired, Bypassed, BypassHooks, Shrunk;
      if close.Extricate? {
        var ok := Bypass(close.h1, close.h2);
        BypassIsBypassed(old(hooks), hookHeld, close.h1, close.h2, hooks);
        BypassKeepsNode(old(nodes), old(hooks), hookHeld, nodeHeld, close.h1, close.h2, nodes, hooks, n);
      }
    }

    /** The end of ng_rmnode, after the drain: the type's shutdown method, then the extra reference. */
    method Retire(n: NodeId, sd: Shutdown)
      requires Valid() && n in nodes && n in nodeHeld && nodes[n].hooks == [] && nodes[n].invalid && nodes[n].closing
      requires sd.Releases? ==> nodeHeld[n] >= 2
      modifies `nodes, `nodeHeld
      ensures Valid() && nodeHeld == Remaining(old(nodeHeld) - multiset{n}, n, sd)
      ensures n in nodes ==> nodes[n].hooks == [] && nodes[n].closing == !sd.Survives? && nodes[n].invalid == !sd.Survives?
      ensures forall x :: x != n ==> (x in nodes <==> x in old(nodes)) && (x in nodes ==> nodes[x] == old(nodes)[x])
    {
      hide HooksOk, NodesOk, ListsOk, Wired;
      match sd {
        case Survives =>
          Mark(n, false);
        case Releases =>
          UnrefNode(n);
          RetiredCount(nodes, hooks, nodeHeld, n);
        case Keeps =>
      }
      UnrefNode(n);
    }

    /** The re-linking in ng_bypass: the two peers become peers of each other, both hooks lose theirs. */
    method Splice(h1: HookId, h2: HookId)
      requires Valid() && h1 in hooks && h2 in hooks && h1 != h2 && hooks[h1].peer.Some? && hooks[h2].peer.Some?
      modifies `hooks, `hookHeld
      ensures Valid() && hookHeld == old(hookHeld) + multiset{h1, h2}
      ensures hooks == Spliced(old(hooks), h1, h2)
    {
      hide HooksOk, NodesOk, ListsOk, Spliced, Wired;
      SpliceOk(hooks, hookHeld, h1, h2);
      SpliceLists(nodes, hooks, h1, h2);
      SpliceSteps(hooks, h1, h2, hooks[h1].peer.value, hooks[h2].peer.value);
      ghost var goal := Spliced(hooks, h1, h2);
      var p1 := hooks[h1].peer.value;
      hooks := hooks[p1 := hooks[p1].(peer := hooks[h2].peer)];
      var p2 := hooks[h2].peer.value;
      hooks := hooks[p2 := hooks[p2].(peer := hooks[h1].peer)];
      hooks := hooks[h1 := hooks[h1].(peer := None)];
      hooks := hooks[h2 := hooks[h2].(peer := None)];
      assert hooks == goal;
      hookHeld := hookHeld + multiset{h1, h2};
    }

    /** ng_bypass of two distinct hooks that have peers if they are valid hooks of one node. */
    method Bypass(h1: HookId, h2: HookId) returns (ok: bool)
      requires Valid() && h1 in hooks && h2 in hooks && h1 != h2
      requires hooks[h1].node == hooks[h2].node && hooks[h1].valid && hooks[h2].valid ==>
                 hooks[h1].peer.Some? && hooks[h2].peer.Some?
      modifies `nodes, `hooks, `hookHeld, `nodeHeld
      ensures Valid() && hookHeld == old(hookHeld) && nodeHeld == old(nodeHeld)
      ensures ok <==> old(hooks[h1].node == hooks[h2].node && hooks[h1].valid && hooks[h2].valid)
      ensures !ok ==> hooks == old(hooks) && nodes == old(nodes)
      ensures ok ==> BypassDone(old(nodes), old(hooks), hookHeld, nodeHeld, h1, h2, nodes, hooks)
      ensures Wired(old(nodes), old(hooks)) ==> Wired(nodes, hooks)
    {
      hide HooksOk, NodesOk, ListsOk, Spliced, Unref, Loose, Shrunk, DestroyedHooks, DestroyedNodes, BypassDone, Wired;
      if hooks[h1].node != hooks[h2].node {
        return false;
      }
      if !hooks[h1].valid || !hooks[h2].valid {
        return false;
      }
      BypassFacts(nodes, hooks, hookHeld, nodeHeld, h1, h2);
      Splice(h1, h2);
      UnrefHook(h1);
      UnrefHook(h2);
      DestroyHook(h1, true);
      DestroyHook(h2, true);
      if Wired(old(nodes), old(hooks)) {
        BypassWired(old(nodes), old(hooks), hookHeld, nodeHeld, h1, h2, nodes, hooks);
      }
      ok := true;
    }

    /** ng_make_node_common, seen from the graph: a node without hooks and one reference, the creator's. */
    method NewNode(n: NodeId)
      requires Valid() && n !in nodes
      modifies `nodes, `nodeHeld
      ensures Valid() && nodes == old(nodes)[n := Newborn] && nodeHeld == old(nodeHeld) + multiset{n}
      ensures Wired(old(nodes), old(hooks)) ==> Wired(nodes, hooks)
    {
      hide HooksOk, ListsOk, Wired;
      NodeWired(nodes, hooks, n, Newborn);
      ListsNewNode(nodes, hooks, n);
      assert n !in nodeHeld;
      nodes := nodes[n := Newborn];
      nodeHeld := nodeHeld + multiset{n};
    }

    /** In ng_mkpeer: link two attached hooks together. */
    method LinkBoth(ghost b: Base, c: Link)
      requires Valid() && LinkReady(b, c, nodes, hooks)
      modifies `hooks
      ensures Valid() && Staged(b, c, nodes, hooks, Some(c.n2), false, false)
    {
      hide HooksOk, NodesOk, ListsOk, Attach, Wired;
      LinkBothOk(nodes, hooks, hookHeld, c.h1, c.h2);
      LinkBothStaged(b, c, nodes, hooks);
      hooks := hooks[c.h1 := hooks[c.h1].(peer := Some(c.h2), refs := hooks[c.h1].refs + 1)]
                    [c.h2 := hooks[c.h2].(peer := Some(c.h1), refs := hooks[c.h2].refs + 1)];
    }

    /** The end of ng_mkpeer: the types may veto; either both hooks become usable or the peer is shut down. */
    method Veto(ghost b: Base, c: Link, a: Answers, sd: Shutdown, ghost hh: multiset<HookId>) returns (ok: bool)
      requires Valid() && Staged(b, c, nodes, hooks, Some(c.n2), false, false) && hookHeld == hh + multiset{c.h1, c.h2}
      requires HooksOk(b.hooks, hh) && NodesOk(b.nodes, nodeHeld) && c.n != c.n2 && b.nodes[c.n2] == Newborn
      requires c.n in nodeHeld && nodeHeld[c.n2] == 1 && !nodes[c.n].invalid
      modifies `nodes, `hooks, `hookHeld, `nodeHeld
      ensures Valid() && hookHeld == hh && ok == (!a.connect1 && !a.connect2)
      ensures ok ==> Connected(b, c, nodes, hooks) && nodeHeld == old(nodeHeld)
      ensures !ok ==> hooks == b.hooks && nodeHeld == Remaining(old(nodeHeld), c.n2, sd)
                      && nodes == Closed(b.nodes, c.n2, nodeHeld, !sd.Survives?)
    {
      hide HooksOk, NodesOk, ListsOk, Staged, Aborted, Unref, DestroyedHooks, DestroyedNodes, Connected, Closed, Drained, Wired;
      StagedFacts(b, c, nodes, hooks, Some(c.n2), false, false);
      HeldBoth(hh, c.h1, c.h2);
      ok := !a.connect1 && !a.connect2;
      if ok {
        Enable(b, c);
        ConnectedEnd(b, c, nodes, hooks, hh, nodeHeld);
      } else {
        AbortSecond(b, c, nodes, hooks, hookHeld, nodeHeld, Some(c.n2));
        DestroyHook(c.h2, true);
        AbortedHooksEnd(b, c, nodes, hooks, hh);
        AbortedNodesEnd(b, c, nodes, hooks, nodeHeld);
        AbortedFacts(b, c, nodes, hooks);
        Rmnode(c.n2, Nothing, sd);
      }
      UnrefHook(c.h1);
      UnrefHook(c.h2);
    }

    /** Clearing HK_INVALID on both hooks. */
    method Enable(ghost b: Base, c: Link)
      requires Valid() && Staged(b, c, nodes, hooks, Some(c.n2), false, false)
      modifies `hooks
      ensures Valid() && Staged(b, c, nodes, hooks, Some(c.n2), true, true)
    {
      hide HooksOk, NodesOk, ListsOk, Staged, Wired;
      StagedFacts(b, c, nodes, hooks, Some(c.n2), false, false);
      HookFlag(hooks, hookHeld, c.h1, true);
      ListsSameHook(nodes, hooks, c.h1, hooks[c.h1].(valid := true));
      StagedFlag(b, c, nodes, hooks, Some(c.n2), c.h1);
      hooks := hooks[c.h1 := hooks[c.h1].(valid := true)];
      StagedFacts(b, c, nodes, hooks, Some(c.n2), true, false);
      HookFlag(hooks, hookHeld, c.h2, true);
      ListsSameHook(nodes, hooks, c.h2, hooks[c.h2].(valid := true));
      StagedFlag(b, c, nodes, hooks, Some(c.n2), c.h2);
      hooks := hooks[c.h2 := hooks[c.h2].(valid := true)];
    }

    /** ng_mkpeer. `made` tells whether ng_make_node delivered node n2 (a refusal by the constructor frees it again);
        `sd` is how n2's type answers a shutdown. */
    method Mkpeer(n: NodeId, name1: string, name2: string, made: bool, n2: NodeId, s1: Option<HookId>, s2: Option<HookId>,
                  a: Answers, sd: Shutdown) returns (ok: bool)
      requires Valid() && n in nodes && n in nodeHeld && !nodes[n].invalid && n2 !in nodes
      requires (s1.Some? ==> s1.value !in hooks) && (s2.Some? ==> s2.value !in hooks) && (s1.Some? ==> s1 != s2)
      modifies `nodes, `hooks, `hookHeld, `nodeHeld
      ensures Valid() && hookHeld == old(hookHeld)
      ensures ok <==> && made && s1.Some? && s2.Some? && !a.newhook1 && !a.newhook2 && !a.connect1 && !a.connect2
                      && !InUse(old(nodes), old(hooks), n, name1, a.search1)
                      && (a.search2.Some? ==> a.search2.value.None?)
      ensures ok ==> && nodeHeld == old(nodeHeld) + multiset{n2}
                     && Connected(Base(old(nodes)[n2 := Newborn], old(hooks)),
                                  Link(n, s1.value, Stored(name1), n2, s2.value, Stored(name2)), nodes, hooks)
      ensures ok && |name1| < NG_HOOKSIZ ==> Carries(nodes, hooks, n, s1.value, name1)
      ensures ok && |name2| < NG_HOOKSIZ ==> Carries(nodes, hooks, n2, s2.value, name2)
      ensures ok && |name1| >= NG_HOOKSIZ ==>
                && Carries(nodes, hooks, n, s1.value, name1[..NG_HOOKSIZ - 1])
                && (a.search1.None? ==> !Named(nodes, hooks, n, name1))
      ensures ok && |name2| >= NG_HOOKSIZ ==>
                && Carries(nodes, hooks, n2, s2.value, name2[..NG_HOOKSIZ - 1])
                && (a.search2.None? ==> !Named(nodes, hooks, n2, name2))
      ensures !ok ==> hooks == old(hooks)
      ensures !ok && (!made || sd.Releases?) ==> nodes == old(nodes) && nodeHeld == old(nodeHeld)
      ensures !ok && made && !sd.Releases? ==>
                && nodeHeld == old(nodeHeld) + multiset{n2}
                && nodes == old(nodes)[n2 := Newborn.(invalid := !sd.Survives?, closing := !sd.Survives?)]
      ensures Wired(old(nodes), old(hooks)) ==> Wired(nodes, hooks)
    {
      hide HooksOk, NodesOk, ListsOk, Staged, Named, Connected, Attach, Closed, Drained, Wired;
      NodeWired(nodes, hooks, n2, Newborn.(invalid := !sd.Survives?, closing := !sd.Survives?));
      if !made {
        return false;
      }
      ghost var hh := hookHeld;
      AddDrop(nodeHeld, n2);
      NewcomerFacts(nodes, hooks, nodeHeld, n, n2, name1, sd);
      NewNode(n2);
      ghost var b := Base(nodes, hooks);
      var r := AddHook(n, Some(name1), s1, a.newhook1, a.search1);
      if r.Error? {
        Rmnode(n2, Nothing, sd);
        return false;
      }
      ok := PeerHook(b, n, r.hook, n2, name2, s2, a, sd, hh);
      if ok {
        NoName(b.nodes, b.hooks, n2, name2);
        ghost var c := Link(n, r.hook, Stored(name1), n2, s2.value, Stored(name2));
        NewNames(b, c, nodes, hooks, name1, name2);
        if Wired(b.nodes, b.hooks) { ConnectWired(b, c, nodes, hooks); }
      }
    }

    /** ng_mkpeer after the first hook has been added. */
    method PeerHook(ghost b: Base, n: NodeId, h1: HookId, n2: NodeId, name2: string, s2: Option<HookId>,
                    a: Answers, sd: Shutdown, ghost hh: multiset<HookId>) returns (ok: bool)
      requires Valid() && HooksOk(b.hooks, hh) && NodesOk(b.nodes, nodeHeld) && hookHeld == hh + multiset{h1}
      requires n in b.nodes && n2 in b.nodes && n != n2 && b.nodes[n2] == Newborn && h1 !in b.hooks && !b.nodes[n].invalid
      requires h1 in hooks && hooks == b.hooks[h1 := Hook(hooks[h1].name, Some(n), None, 2, false)] && nodes == Attach(b.nodes, n, h1)
      requires n in nodeHeld && nodeHeld[n2] == 1 && (s2.Some? ==> s2.value !in hooks)
      modifies `nodes, `hooks, `hookHeld, `nodeHeld
      ensures Valid() && hookHeld == hh
      ensures ok <==> s2.Some? && !a.newhook2 && !a.connect1 && !a.connect2
                      && (a.search2.Some? ==> a.search2.value.None?)
      ensures ok ==> nodeHeld == old(nodeHeld)
                     && Connected(b, Link(n, h1, old(hooks[h1].name), n2, s2.value, Stored(name2)), nodes, hooks)
      ensures !ok ==> && hooks == b.hooks && nodeHeld == Remaining(old(nodeHeld), n2, sd)
                      && nodes == Closed(b.nodes, n2, nodeHeld, !sd.Survives?)
    {
      hide HooksOk, NodesOk, ListsOk, Staged, Named, Connected, Closed, Drained, Wired;
      NoName(nodes, hooks, n2, name2);
      var r := AddHook(n2, Some(name2), s2, a.newhook2, a.search2);
      if r.Error? {
        DropFirstHook(b, n, h1, n2, sd, hh);
        return false;
      }
      var c := Link(n, h1, hooks[h1].name, n2, r.hook, Stored(name2));
      HeldTwo(hh, c.h1, c.h2);
      LinkBoth(b, c);
      StagedFacts(b, c, nodes, hooks, Some(n2), false, false);
      ok := Veto(b, c, a, sd, hh);
    }

    /** ng_mkpeer when the second hook is refused: shut the new node down, then take the first hook back. */
    method DropFirstHook(ghost b: Base, n: NodeId, h1: HookId, n2: NodeId, sd: Shutdown, ghost hh: multiset<HookId>)
      requires Valid() && HooksOk(b.hooks, hh) && NodesOk(b.nodes, nodeHeld) && hookHeld == hh + multiset{h1}
      requires n in b.nodes && n2 in b.nodes && n != n2 && b.nodes[n2] == Newborn && h1 !in b.hooks
      requires h1 in hooks && hooks == b.hooks[h1 := Hook(hooks[h1].name, Some(n), None, 2, false)] && nodes == Attach(b.nodes, n, h1)
      requires n in nodeHeld && nodeHeld[n2] == 1
      modifies `nodes, `hooks, `hookHeld, `nodeHeld
      ensures Valid() && hookHeld == hh && hooks == b.hooks && nodeHeld == Remaining(old(nodeHeld), n2, sd)
      ensures nodes == Closed(b.nodes, n2, nodeHeld, !sd.Survives?)
    {
      hide HooksOk, NodesOk, ListsOk, Closed, Drained, Wired;
      Rmnode(n2, Nothing, sd);
      ClosedAttach(b.nodes, n, h1, n2, nodeHeld, !sd.Survives?);
      ClosedOk(b.nodes, n2, old(nodeHeld), sd);
      DropNew(Base(Closed(b.nodes, n2, nodeHeld, !sd.Survives?), b.hooks), n, h1, hh);
    }
  }
}
