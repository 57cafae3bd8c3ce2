/** mi_startup: runs the registered start-up items in order of their keys, while the items themselves register more. */
module Sysinit {
  import opened Common

  type Item = nat                         // address of a struct sysinit
  const SI_SUB_DUMMY := 0
  const SI_SUB_DONE := 1

  /** The fixed part of all items there are: subsystem as declared, order, and the sets that the item's function passes to
      sysinit_add, call by call. */
  datatype World = World(subsystem: map<Item, nat>, order: map<Item, int>, adds: map<Item, seq<seq<Item>>>) {
    ghost predicate Ok() {
      && order.Keys == subsystem.Keys == adds.Keys
      && forall x, k :: x in adds && 0 <= k < |adds[x]| ==> Known(adds[x][k])
    }

    ghost predicate Known(l: seq<Item>) { forall i :: 0 <= i < |l| ==> l[i] in subsystem }

    ghost predicate Runnable(x: Item) {
      x in subsystem && subsystem[x] != SI_SUB_DUMMY && subsystem[x] != SI_SUB_DONE
    }
  }

  predicate Before(sub: map<Item, nat>, order: map<Item, int>, x: Item, y: Item)
    requires x in sub && y in sub && sub.Keys == order.Keys
  {
    sub[x] < sub[y] || (sub[x] == sub[y] && order[x] <= order[y])
  }

  // ---- The specification: a fair schedule ----

  ghost function Flat(sets: seq<seq<Item>>): (m: multiset<Item>) {
    if sets == [] then multiset{} else Flat(sets[..|sets| - 1]) + multiset(sets[|sets| - 1])
  }

  /** Everything registered by the time the items of `ran` have run. */
  ghost function Registered(w: World, first: multiset<Item>, ran: seq<Item>): (m: multiset<Item>)
    requires forall i :: 0 <= i < |ran| ==> ran[i] in w.adds
  {
    if ran == [] then first
    else Registered(w, first, ran[..|ran| - 1]) + Flat(w.adds[ran[|ran| - 1]])
  }

  /** x is a right choice after `ran`: registered, still to be run, and least among those. */
  ghost predicate Least(w: World, first: multiset<Item>, ran: seq<Item>, x: Item) {
    && w.Ok() && (forall i :: 0 <= i < |ran| ==> ran[i] in w.adds)
    && var reg := Registered(w, first, ran);
       && x in reg && w.Runnable(x) && x !in ran
       && forall y :: y in reg && w.Runnable(y) && y !in ran ==>
            w.subsystem[x] < w.subsystem[y] || (w.subsystem[x] == w.subsystem[y] && w.order[x] <= w.order[y])
  }

  ghost predicate Fair(w: World, first: multiset<Item>, ran: seq<Item>) {
    ran != [] ==> Fair(w, first, ran[..|ran| - 1]) && Least(w, first, ran[..|ran| - 1], ran[|ran| - 1])
  }

  lemma LeastKnown(w: World, first: multiset<Item>, ran: seq<Item>, x: Item)
    requires Least(w, first, ran, x)
    ensures x in w.adds && w.Runnable(x) && x !in ran
  {
  }

  lemma {:induction false} FairKnown(w: World, first: multiset<Item>, ran: seq<Item>)
    requires w.Ok() && Fair(w, first, ran)
    ensures NoDup(ran) && forall i :: 0 <= i < |ran| ==> ran[i] in w.adds && w.Runnable(ran[i])
  {
    hide Least;
    if ran != [] {
      var n := |ran| - 1;
      FairKnown(w, first, ran[..n]);
      LeastKnown(w, first, ran[..n], ran[n]);
      assert ran == ran[..n] + [ran[n]];
      assert forall i :: 0 <= i < n ==> ran[i] == ran[..n][i];
    }
  }

  lemma {:induction false} RegisteredGrows(w: World, first: multiset<Item>, ran: seq<Item>, n: nat)
    requires n <= |ran| && forall i :: 0 <= i < |ran| ==> ran[i] in w.adds
    ensures Registered(w, first, ran[..n]) <= Registered(w, first, ran)
    decreases |ran|
  {
    if n < |ran| {
      var m := |ran| - 1;
      RegisteredGrows(w, first, ran[..m], n);
      assert ran[..m][..n] == ran[..n];
    } else {
      assert ran[..n] == ran;
    }
  }

  lemma {:induction false} InFlat(sets: seq<seq<Item>>, x: Item)
    ensures x in Flat(sets) <==> exists k :: 0 <= k < |sets| && x in sets[k]
  {
    if sets != [] {
      var n := |sets| - 1;
      InFlat(sets[..n], x);
      if x in Flat(sets[..n]) {
        var k :| 0 <= k < n && x in sets[..n][k];
        assert x in sets[k];
      }
      if k :| 0 <= k < n && x in sets[k] { assert sets[..n][k] == sets[k]; }
      assert x in multiset(sets[n]) <==> x in sets[n];
    }
  }

  /** What is registered: what was there at first, and every item of every set that an item that has run adds. */
  lemma {:induction false} InRegistered(w: World, first: multiset<Item>, ran: seq<Item>, x: Item)
    requires forall i :: 0 <= i < |ran| ==> ran[i] in w.adds
    ensures x in Registered(w, first, ran)
       <==> x in first || exists i, k :: 0 <= i < |ran| && 0 <= k < |w.adds[ran[i]]| && x in w.adds[ran[i]][k]
  {
    if ran != [] {
      var n := |ran| - 1;
      InRegistered(w, first, ran[..n], x);
      InFlat(w.adds[ran[n]], x);
      assert forall i :: 0 <= i < n ==> ran[..n][i] == ran[i];
      if i, k :| 0 <= i < |ran| && 0 <= k < |w.adds[ran[i]]| && x in w.adds[ran[i]][k] {
        if i < n { assert x in w.adds[ran[..n][i]][k]; }
      }
      if x in Registered(w, first, ran[..n]) && x !in first {
        var i, k :| 0 <= i < n && 0 <= k < |w.adds[ran[..n][i]]| && x in w.adds[ran[..n][i]][k];
        assert x in w.adds[ran[i]][k];
      }
      if x in Flat(w.adds[ran[n]]) {
        var k :| 0 <= k < |w.adds[ran[n]]| && x in w.adds[ran[n]][k];
        assert x in w.adds[ran[n]][k];
      }
    }
  }

  lemma {:induction false} FairRegistered(w: World, first: multiset<Item>, ran: seq<Item>)
    requires w.Ok() && Fair(w, first, ran) && forall i :: 0 <= i < |ran| ==> ran[i] in w.adds
    ensures forall x :: x in ran ==> x in Registered(w, first, ran)
  {
    if ran != [] {
      var n := |ran| - 1;
      FairRegistered(w, first, ran[..n]);
      RegisteredGrows(w, first, ran, n);
      assert ran == ran[..n] + [ran[n]];
    }
  }

  lemma {:induction false} NoDupCount(s: seq<Item>, x: Item)
    requires NoDup(s)
    ensures multiset(s)[x] == if x in s then 1 else 0
  {
    if s != [] {
      var n := |s| - 1;
      assert s == s[..n] + [s[n]];
      NoDupCount(s[..n], x);
    }
  }

  /** A fair schedule with nothing left to run has run every registered item exactly once, dummies excepted, and nothing
      else. */
  lemma ExactlyOnce(w: World, first: multiset<Item>, ran: seq<Item>, x: Item)
    requires w.Ok() && Fair(w, first, ran) && forall i :: 0 <= i < |ran| ==> ran[i] in w.adds
    requires forall y :: y in Registered(w, first, ran) && w.Runnable(y) ==> y in ran
    ensures multiset(ran)[x] == if x in Registered(w, first, ran) && w.Runnable(x) then 1 else 0
  {
    FairKnown(w, first, ran);
    FairRegistered(w, first, ran);
    NoDupCount(ran, x);
  }

  // ---- The exchange sort ----

  ghost predicate Upto(s: seq<Item>, sub: map<Item, nat>, order: map<Item, int>, i: nat, j: nat)
    requires sub.Keys == order.Keys && forall k :: 0 <= k < |s| ==> s[k] in sub
  {
    forall y :: i < y < j && y < |s| ==>
      i < |s| && (sub[s[i]] < sub[s[y]] || (sub[s[i]] == sub[s[y]] && order[s[i]] <= order[s[y]]))
  }

  ghost predicate Sorted(s: seq<Item>, sub: map<Item, nat>, order: map<Item, int>, n: nat)
    requires sub.Keys == order.Keys && forall k :: 0 <= k < |s| ==> s[k] in sub
  {
    forall x: nat :: x < n && x < |s| ==> Upto(s, sub, order, x, |s|)
  }

  function Swap(s: seq<Item>, i: nat, j: nat): (r: seq<Item>)
    requires i < |s| && j < |s|
  {
    s[i := s[j]][j := s[i]]
  }

  /** The sort at the head of each pass. */
  method Sort(a: array<Item>, sub: map<Item, nat>, order: map<Item, int>)
    requires sub.Keys == order.Keys && forall k :: 0 <= k < a.Length ==> a[k] in sub
    modifies a
    ensures multiset(a[..]) == multiset(old(a[..])) && forall k :: 0 <= k < a.Length ==> a[k] in sub
    ensures Sorted(a[..], sub, order, a.Length)
  {
    for i := 0 to a.Length
      invariant multiset(a[..]) == multiset(old(a[..])) && forall k :: 0 <= k < |a[..]| ==> a[..][k] in sub
      invariant Sorted(a[..], sub, order, i)
    {
      for j := i + 1 to a.Length
        invariant multiset(a[..]) == multiset(old(a[..])) && forall k :: 0 <= k < |a[..]| ==> a[..][k] in sub
        invariant Sorted(a[..], sub, order, i) && Upto(a[..], sub, order, i, j)
      {
        if Before(sub, order, a[i], a[j]) {
          continue;
        }
        ghost var s := a[..];
        SwapKeeps(s, sub, order, i, j);
        var save := a[i];
        a[i] := a[j];
        a[j] := save;
        assert a[..] == Swap(s, i, j);
      }
    }
  }

  lemma SwapKeeps(s: seq<Item>, sub: map<Item, nat>, order: map<Item, int>, i: nat, j: nat)
    requires sub.Keys == order.Keys && (forall k :: 0 <= k < |s| ==> s[k] in sub) && i < j < |s|
    requires Sorted(s, sub, order, i) && Upto(s, sub, order, i, j) && !Before(sub, order, s[i], s[j])
    ensures var r := Swap(s, i, j);
            && multiset(r) == multiset(s) && (forall k :: 0 <= k < |r| ==> r[k] in sub)
            && Sorted(r, sub, order, i) && Upto(r, sub, order, i, j + 1)
  {
    var r := Swap(s, i, j);
    forall x: nat | x < i ensures Upto(r, sub, order, x, |r|) {
      assert Upto(s, sub, order, x, |s|);
      assert r[x] == s[x];
      assert Before(sub, order, s[x], s[i]) && Before(sub, order, s[x], s[j]);
    }
  }

  // ---- The start-up itself ----

  /** The subsystem fields once the items of `ran` are checked off. */
  function Current(w: World, ran: seq<Item>): (m: map<Item, nat>)
    ensures m.Keys == w.subsystem.Keys
  {
    map x | x in w.subsystem :: if x in ran then SI_SUB_DONE else w.subsystem[x]
  }

  lemma CheckOff(w: World, ran: seq<Item>, x: Item)
    requires x in w.subsystem
    ensures Current(w, ran)[x := SI_SUB_DONE] == Current(w, ran + [x])
  {
  }

  /** Items that are still to be run, registered or not. */
  ghost function Live(w: World, ran: seq<Item>): (r: set<Item>) {
    set x | x in w.subsystem && w.Runnable(x) && x !in ran
  }

  lemma LiveShrinks(w: World, ran: seq<Item>, x: Item)
    requires w.Runnable(x) && x !in ran
    ensures Live(w, ran + [x]) == Live(w, ran) - {x} && x in Live(w, ran) && |Live(w, ran + [x])| < |Live(w, ran)|
  {
    assert Live(w, ran + [x]) == Live(w, ran) - {x};
  }

  /** Below position k of the table nothing is left to run. */
  ghost predicate Passed(w: World, ran: seq<Item>, t: seq<Item>, k: nat) {
    forall i :: 0 <= i < k && i < |t| ==> !w.Runnable(t[i]) || t[i] in ran
  }

  /** In a table sorted by the keys of an earlier moment, the first item left to run is a right choice. */
  lemma LeastAt(w: World, first: multiset<Item>, ran0: seq<Item>, ran: seq<Item>, t: seq<Item>, k: nat)
    requires w.Ok() && w.Known(t) && (forall i :: 0 <= i < |ran| ==> ran[i] in w.adds) && ran0 <= ran
    requires multiset(t) == Registered(w, first, ran) && Sorted(t, Current(w, ran0), w.order, |t|)
    requires k < |t| && Passed(w, ran, t, k) && w.Runnable(t[k]) && t[k] !in ran
    ensures Least(w, first, ran, t[k])
  {
    var x := t[k];
    assert x in multiset(t);
    hide Registered;
    forall y | y in multiset(t) && w.Runnable(y) && y !in ran ensures Before(w.subsystem, w.order, x, y) {
      var m :| 0 <= m < |t| && t[m] == y;
      assert forall i :: 0 <= i < |ran0| ==> ran0[i] == ran[i];
      if m > k {
        assert Upto(t, Current(w, ran0), w.order, k, |t|);
        assert Before(Current(w, ran0), w.order, t[k], t[m]);
      }
    }
  }

  lemma FairSnoc(w: World, first: multiset<Item>, ran: seq<Item>, x: Item)
    requires w.Ok() && Fair(w, first, ran) && Least(w, first, ran, x)
    ensures Fair(w, first, ran + [x]) && x in w.adds && forall i :: 0 <= i < |ran + [x]| ==> (ran + [x])[i] in w.adds
    ensures Registered(w, first, ran + [x]) == Registered(w, first, ran) + Flat(w.adds[x])
  {
    assert (ran + [x])[..|ran|] == ran;
  }

  class Startup {
    const w: World
    ghost const first: multiset<Item>     // the items of the linked set
    var subsystem: map<Item, nat>         // the subsystem field of every item
    var table: array<Item>                // sysinit
    var added: array?<Item>               // newsysinit
    ghost var ran: seq<Item>

    ghost predicate Valid()
      reads this, table
    {
      && w.Ok() && w.Known(table[..]) && subsystem == Current(w, ran)
      && (forall i :: 0 <= i < |ran| ==> ran[i] in w.adds) && Fair(w, first, ran)
      && multiset(table[..]) == Registered(w, first, ran)
    }

    constructor (w: World, set0: seq<Item>)
      requires w.Ok() && w.Known(set0)
      ensures Valid() && this.w == w && first == multiset(set0) && ran == [] && added == null && fresh(table)
    {
      this.w := w;
      first := multiset(set0);
      subsystem := w.subsystem;
      table := new Item[|set0|](i requires 0 <= i < |set0| => set0[i]);
      added := null;
      ran := [];
      new;
      assert table[..] == set0;
      assert Current(w, []) == w.subsystem;
    }

    /** sysinit_add: the table, or the table already being built, with the new items behind it. */
    method SysinitAdd(items: seq<Item>)
      modifies `added
      ensures added != null && fresh(added)
      ensures added[..] == (if old(added) != null then old(added[..]) else table[..]) + items
    {
      var base := if added != null then added else table;
      var count := |items| + base.Length;
      var newset := new Item[count];
      for i := 0 to base.Length
        invariant newset[..i] == base[..i]
      {
        newset[i] := base[i];
      }
      for i := 0 to |items|
        invariant newset[..base.Length + i] == base[..] + items[..i]
      {
        newset[base.Length + i] := items[i];
      }
      assert items[..|items|] == items && newset[..count] == newset[..];
      added := newset;
    }

    /** Calls the item's function. */
    method CallFunc(x: Item)
      requires w.Ok() && x in w.adds && added == null && w.Known(table[..])
      modifies `added
      ensures w.adds[x] == [] ==> added == null
      ensures w.adds[x] != [] ==> added != null && fresh(added) && w.Known(added[..])
                                  && multiset(added[..]) == multiset(table[..]) + Flat(w.adds[x])
    {
      var sets := w.adds[x];
      hide Flat;
      for k := 0 to |sets|
        invariant k == 0 ==> added == null
        invariant k > 0 ==> added != null && fresh(added) && w.Known(added[..])
                            && multiset(added[..]) == multiset(table[..]) + Flat(sets[..k])
      {
        FlatNext(sets, k);
        assert w.Known(sets[k]);
        SysinitAdd(sets[k]);
      }
      assert sets[..|sets|] == sets;
    }

    /** Runs one item and checks it off; a new table takes the place of the old one if there is one. */
    method RunItem(x: Item) returns (more: bool)
      requires Valid() && added == null && Least(w, first, ran, x)
      modifies this
      ensures Valid() && added == null && ran == old(ran) + [x]
      ensures if more then fresh(table) else table == old(table)
    {
      hide Fair, Registered, Flat, Least, Current;
      FairSnoc(w, first, ran, x);
      CheckOff(w, ran, x);
      CallFunc(x);
      subsystem := subsystem[x := SI_SUB_DONE];
      ran := ran + [x];
      more := added != null;
      if more {
        table := added;
        added := null;
      } else {
        FlatNone();
      }
    }

    /** One pass over the sorted table: until an item registers more, or to the end. */
    method Pass() returns (more: bool)
      requires Valid() && added == null && Sorted(table[..], subsystem, w.order, table.Length)
      modifies this
      ensures Valid() && added == null && |Live(w, ran)| <= |Live(w, old(ran))|
      ensures more ==> |Live(w, ran)| < |Live(w, old(ran))| && fresh(table)
      ensures !more ==> table == old(table) && Passed(w, ran, table[..], table.Length)
    {
      hide Fair, Registered, Least, Live, Sorted, Passed, Current;
      ghost var ran0, t := ran, table[..];
      PassedNone(w, ran, t);
      for k := 0 to table.Length
        invariant Valid() && added == null && ran0 <= ran && table == old(table) && table[..] == t
        invariant Passed(w, ran, t, k) && |Live(w, ran)| <= |Live(w, ran0)|
      {
        var x := table[k];
        assert x == t[k];
        ToRun(w, ran, x);
        PassedNext(w, ran, ran, t, k);
        if subsystem[x] == SI_SUB_DUMMY || subsystem[x] == SI_SUB_DONE {
          continue;
        }
        LeastAt(w, first, ran0, ran, t, k);
        LiveLess(w, ran0, ran, x);
        PassedNext(w, ran, ran + [x], t, k);
        more := RunItem(x);
        if more {
          return;
        }
      }
      more := false;
    }

    /** mi_startup: ends, with a fair schedule that leaves nothing registered unrun. */
    method MiStartup()
      requires Valid() && added == null && ran == []
      modifies this, table
      ensures Valid() && added == null
      ensures forall x :: multiset(ran)[x] == if x in Registered(w, first, ran) && w.Runnable(x) then 1 else 0
    {
      hide Fair, Registered, Live;
      var more := true;
      while more
        invariant Valid() && added == null && (table == old(table) || fresh(table))
        invariant !more ==> Passed(w, ran, table[..], table.Length)
        decreases |Live(w, ran)|, more
      {
        ghost var t := table[..];
        assert forall k :: 0 <= k < table.Length ==> table[k] == table[..][k];
        Sort(table, subsystem, w.order);
        assert forall k :: 0 <= k < table.Length ==> table[..][k] == table[k];
        more := Pass();
      }
      forall y | y in Registered(w, first, ran) && w.Runnable(y) ensures y in ran {
        assert y in multiset(table[..]);
      }
      forall x ensures multiset(ran)[x] == if x in Registered(w, first, ran) && w.Runnable(x) then 1 else 0 {
        ExactlyOnce(w, first, ran, x);
      }
    }
  }

  lemma PassedNone(w: World, ran: seq<Item>, t: seq<Item>)
    ensures Passed(w, ran, t, 0)
  {
  }

  lemma PassedNext(w: World, ran: seq<Item>, ran': seq<Item>, t: seq<Item>, k: nat)
    requires Passed(w, ran, t, k) && ran <= ran' && k < |t|
    ensures !w.Runnable(t[k]) || t[k] in ran' ==> Passed(w, ran', t, k + 1)
  {
    assert forall i :: 0 <= i < |ran| ==> ran[i] == ran'[i];
  }

  /** The two tests of the loop pick out the items left to run. */
  lemma ToRun(w: World, ran: seq<Item>, x: Item)
    requires x in w.subsystem
    ensures w.Runnable(x) && x !in ran
       <==> Current(w, ran)[x] != SI_SUB_DUMMY && Current(w, ran)[x] != SI_SUB_DONE
  {
  }

  lemma FlatNext(sets: seq<seq<Item>>, k: nat)
    requires k < |sets|
    ensures Flat(sets[..k + 1]) == Flat(sets[..k]) + multiset(sets[k])
    ensures Flat(sets[..0]) == multiset{}
  {
    assert sets[..k + 1][..k] == sets[..k];
  }

  lemma FlatNone()
    ensures Flat([]) == multiset{}
  {
  }

  lemma LiveLess(w: World, ran0: seq<Item>, ran: seq<Item>, x: Item)
    requires ran0 <= ran && w.Runnable(x) && x !in ran
    ensures |Live(w, ran + [x])| < |Live(w, ran0)|
  {
    LiveShrinks(w, ran, x);
    assert forall i :: 0 <= i < |ran0| ==> ran0[i] == ran[i];
    SubsetCard(Live(w, ran), Live(w, ran0));
  }
}
