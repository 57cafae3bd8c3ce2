/** Frames received by the processes of one port: each process may hand frames to the others over their dispatch rings,
    and copies ARP and NDP frames to all of them. The processes run at their own pace, so a run is any interleaving of
    their steps. */
module Dispatch {
  import opened Common

  const FF_DISPATCH_ERROR := -1
  const FF_DISPATCH_RESPONSE := -2
  const MAX_PKT_BURST := 32

  datatype Filter = FilterUnknown | FilterArp | FilterKni | FilterNdp
  datatype Action = AllToKni | AllToFf | Default | OtherAction

  /** A frame with its identity; copies of it are the same frame. */
  datatype Frame = Frame(id: nat, filter: Filter)

  /** One port: its queues, the size of a dispatch ring, and what KNI does. `primary` is the queue of the primary process
      when that process serves the port. */
  datatype Config = Config(queues: nat, ringSize: nat, inet6: bool, kni: bool, kniAccept: bool, primary: Option<nat>)

  predicate Fans(c: Config, f: Frame) {
    f.filter == FilterArp || (c.inet6 && f.filter == FilterNdp)
  }

  /** What a process has in its hands: the frame being copied to the queues from j on, or one ready to be delivered. */
  datatype Hand = Idle | Copying(frame: Frame, j: nat) | Delivering(frame: Frame)

  datatype State = State(
    rings: seq<seq<Frame>>,               // dispatch_ring[port][queue]
    bursts: seq<seq<Frame>>,              // frames a process took from its ring and has not yet looked at
    hands: seq<Hand>,
    stacks: seq<seq<Frame>>,              // frames given to ff_veth_input, by queue
    kni: seq<Frame>,                      // frames given to ff_kni_enqueue
    sent: seq<Frame>,                     // frames the dispatcher answered
    freed: seq<Frame>,
    received: seq<Frame>)

  function Boot(c: Config): (s: State) {
    State(Empty(c), Empty(c), seq(c.queues, _ => Idle), Empty(c), [], [], [], [])
  }

  function Empty(c: Config): (r: seq<seq<Frame>>)
    ensures |r| == c.queues && forall i :: 0 <= i < |r| ==> r[i] == []
  {
    seq(c.queues, _ => [])
  }

  predicate Shape(c: Config, s: State) {
    |s.rings| == |s.bursts| == |s.hands| == |s.stacks| == c.queues
  }

  /** Steps of the process that serves queue q. `Rx` is one frame from the card and the dispatcher's answer to it, if there
      is a dispatcher; `Take` is the burst dequeue from the ring, `Next` looks at the next frame of the burst, `Copy` is
      one turn of the copying loop, and `Finish` is the copy to KNI and the delivery. */
  datatype Step =
    | Rx(q: nat, frame: Frame, answer: Option<int>, action: Action)
    | Take(q: nat)
    | Next(q: nat, action: Action)
    | Copy(q: nat, room: bool)
    | Finish(q: nat, room: bool)

  function Push(t: seq<seq<Frame>>, i: nat, f: Frame): (r: seq<seq<Frame>>)
    requires i < |t|
  {
    t[i := t[i] + [f]]
  }

  /** rte_ring_enqueue, which frees the frame when the ring is full. */
  function Enqueue(c: Config, s: State, j: nat, f: Frame): (r: State)
    requires Shape(c, s) && j < c.queues
  {
    if |s.rings[j]| < c.ringSize then s.(rings := Push(s.rings, j, f)) else s.(freed := s.freed + [f])
  }

  /** Whether a frame that is not copied around goes to KNI. */
  predicate GoesToKni(c: Config, f: Frame, action: Action) {
    c.kni && (match action
              case AllToKni => true
              case AllToFf => false
              case Default => (f.filter == FilterKni && c.kniAccept) || (f.filter == FilterUnknown && !c.kniAccept)
              case OtherAction => false)
  }

  /** The frame stays with process q: classify it. */
  function Keep(c: Config, s: State, q: nat, f: Frame, fromRing: bool, action: Action): (r: State)
    requires Shape(c, s) && q < c.queues
  {
    if Fans(c, f) then s.(hands := s.hands[q := if fromRing then Delivering(f) else Copying(f, 0)])
    else if GoesToKni(c, f, action) then s.(kni := s.kni + [f])
    else s.(stacks := Push(s.stacks, q, f))
  }

  ghost predicate StepOk(c: Config, s: State, e: Step) {
    && Shape(c, s) && e.q < c.queues
    && (match e
        case Rx(q, f, answer, _) =>
          && s.hands[q].Idle? && s.bursts[q] == [] && f !in s.received
          && (answer.Some? ==> answer.value >= FF_DISPATCH_RESPONSE)
        case Take(q) => s.hands[q].Idle? && s.bursts[q] == []
        case Next(q, _) => s.hands[q].Idle? && s.bursts[q] != []
        case Copy(q, _) => s.hands[q].Copying?
        case Finish(q, _) => s.hands[q].Delivering?)
  }

  function BurstSize(n: nat): (k: nat)
    ensures k <= n && k <= MAX_PKT_BURST
  {
    if n < MAX_PKT_BURST then n else MAX_PKT_BURST
  }

  function Apply(c: Config, s: State, e: Step): (r: State)
    requires StepOk(c, s, e)
  {
    match e
    case Rx(q, f, answer, action) => Receive(c, s.(received := s.received + [f]), q, f, answer, action)
    case Take(q) =>
      var n := BurstSize(|s.rings[q]|);
      s.(rings := s.rings[q := s.rings[q][n..]], bursts := s.bursts[q := s.rings[q][..n]])
    case Next(q, action) => Keep(c, s.(bursts := s.bursts[q := s.bursts[q][1..]]), q, s.bursts[q][0], true, action)
    case Copy(q, room) =>
      var Copying(f, j) := s.hands[q];
      if j >= c.queues then s.(hands := s.hands[q := Delivering(f)])
      else
        var t := s.(hands := s.hands[q := Copying(f, j + 1)]);
        if j == q || !room then t else Enqueue(c, t, j, f)
    case Finish(q, room) =>
      var f := s.hands[q].frame;
      var t := s.(hands := s.hands[q := Idle], stacks := Push(s.stacks, q, f));
      if c.kni && c.primary == Some(q) && room then t.(kni := t.kni + [f]) else t
  }

  /** The head of process_packets for a frame from the card. */
  function Receive(c: Config, s: State, q: nat, f: Frame, answer: Option<int>, action: Action): (r: State)
    requires Shape(c, s) && q < c.queues && (answer.Some? ==> answer.value >= FF_DISPATCH_RESPONSE)
  {
    if answer.None? || answer.value == q then Keep(c, s, q, f, false, action)
    else if answer.value == FF_DISPATCH_RESPONSE then s.(sent := s.sent + [f])
    else if answer.value == FF_DISPATCH_ERROR || answer.value >= c.queues then s.(freed := s.freed + [f])
    else Enqueue(c, s, answer.value, f)
  }

  ghost predicate RunOk(c: Config, s: State, es: seq<Step>)
    decreases |es|
  {
    es == [] || (StepOk(c, s, es[0]) && RunOk(c, Apply(c, s, es[0]), es[1..]))
  }

  ghost function Run(c: Config, s: State, es: seq<Step>): (r: State)
    requires RunOk(c, s, es)
    decreases |es|
  {
    if es == [] then s else Run(c, Apply(c, s, es[0]), es[1..])
  }

  // ---- Where a frame is ----

  function Holds(h: Hand, f: Frame): (n: nat) { if !h.Idle? && h.frame == f then 1 else 0 }

  /** How often queue j's process has had, or is bound to get, frame f: in its ring, its burst, its hands, its stack. */
  ghost function Load(s: State, j: nat, f: Frame): (n: nat)
    requires j < |s.rings| && |s.rings| == |s.bursts| == |s.hands| == |s.stacks|
  {
    multiset(s.rings[j])[f] + multiset(s.bursts[j])[f] + Holds(s.hands[j], f) + multiset(s.stacks[j])[f]
  }

  /** r is s with frame f once more at queue j. */
  ghost predicate Gains(c: Config, s: State, r: State, j: nat, f: Frame) {
    && Shape(c, s) && Shape(c, r)
    && forall k: nat, g :: k < c.queues ==> Load(r, k, g) == Load(s, k, g) + if k == j && g == f then 1 else 0
  }

  ghost predicate Level(c: Config, s: State, r: State) {
    && Shape(c, s) && Shape(c, r)
    && forall k: nat, g :: k < c.queues ==> Load(r, k, g) == Load(s, k, g)
  }

  lemma PushRing(c: Config, s: State, j: nat, f: Frame)
    requires Shape(c, s) && j < c.queues
    ensures Gains(c, s, s.(rings := Push(s.rings, j, f)), j, f)
  {
  }

  lemma PushStack(c: Config, s: State, j: nat, f: Frame)
    requires Shape(c, s) && j < c.queues
    ensures Gains(c, s, s.(stacks := Push(s.stacks, j, f)), j, f)
  {
  }

  lemma TakeUp(c: Config, s: State, j: nat, h: Hand)
    requires Shape(c, s) && j < c.queues && s.hands[j].Idle? && !h.Idle?
    ensures Gains(c, s, s.(hands := s.hands[j := h]), j, h.frame)
  {
  }

  lemma SwapHand(c: Config, s: State, j: nat, h: Hand)
    requires Shape(c, s) && j < c.queues && !s.hands[j].Idle? && !h.Idle? && s.hands[j].frame == h.frame
    ensures Level(c, s, s.(hands := s.hands[j := h]))
  {
  }

  lemma TakeLevel(c: Config, s: State, q: nat, n: nat)
    requires Shape(c, s) && q < c.queues && n <= |s.rings[q]| && s.bursts[q] == []
    ensures Level(c, s, s.(rings := s.rings[q := s.rings[q][n..]], bursts := s.bursts[q := s.rings[q][..n]]))
  {
    assert s.rings[q] == s.rings[q][..n] + s.rings[q][n..];
  }

  lemma NextLoses(c: Config, s: State, q: nat)
    requires Shape(c, s) && q < c.queues && s.bursts[q] != []
    ensures Gains(c, s.(bursts := s.bursts[q := s.bursts[q][1..]]), s, q, s.bursts[q][0])
  {
    assert s.bursts[q] == [s.bursts[q][0]] + s.bursts[q][1..];
  }

  predicate SameCopying(x: Hand, y: Hand) { x.Copying? && y.Copying? && x.frame == y.frame }

  /** Everything the copying steps rely on: a frame is with each queue at most once, with none before it is received, and
      with none of the queues that its only copying process has still to serve. */
  ghost predicate Inv(c: Config, s: State) {
    && Shape(c, s)
    && (forall k: nat, g :: k < c.queues ==> Load(s, k, g) <= 1)
    && (forall k: nat, g :: k < c.queues && g !in s.received ==> Load(s, k, g) == 0)
    && (forall q: nat :: q < c.queues && s.hands[q].Copying? ==> Ahead(c, s, q))
    && (forall q: nat, p: nat :: q < c.queues && p < c.queues && SameCopying(s.hands[q], s.hands[p]) ==> p == q)
  }

  ghost predicate Ahead(c: Config, s: State, q: nat)
    requires Shape(c, s) && q < c.queues && s.hands[q].Copying?
  {
    && s.hands[q].frame in s.received
    && forall k: nat :: s.hands[q].j <= k < c.queues && k != q ==> Load(s, k, s.hands[q].frame) == 0
  }

  lemma BootInv(c: Config)
    ensures Inv(c, Boot(c))
  {
  }

  lemma EnqueueEffect(c: Config, s: State, j: nat, f: Frame)
    requires Shape(c, s) && j < c.queues
    ensures var r := Enqueue(c, s, j, f);
            && r.hands == s.hands && r.received == s.received && r.stacks == s.stacks && r.kni == s.kni
            && r.sent == s.sent
            && (Gains(c, s, r, j, f) || Level(c, s, r))
            && (|s.rings[j]| < c.ringSize ==> Gains(c, s, r, j, f))
  {
    hide Gains, Level, Load;
    PushRing(c, s, j, f);
    SameLoad(c, s, s.(freed := s.freed + [f]));
  }

  /** Load looks at rings, bursts, hands and stacks only. */
  lemma SameLoad(c: Config, s: State, r: State)
    requires Shape(c, s) && r.rings == s.rings && r.bursts == s.bursts && r.hands == s.hands && r.stacks == s.stacks
    ensures Level(c, s, r)
  {
  }

  lemma KeepEffect(c: Config, s: State, q: nat, f: Frame, fromRing: bool, action: Action)
    requires Shape(c, s) && q < c.queues && s.hands[q].Idle?
    ensures var r := Keep(c, s, q, f, fromRing, action);
            && r.received == s.received && r.rings == s.rings && r.bursts == s.bursts
            && r.hands == (if !Fans(c, f) then s.hands
                           else s.hands[q := if fromRing then Delivering(f) else Copying(f, 0)])
            && (if !Fans(c, f) && GoesToKni(c, f, action) then Level(c, s, r) else Gains(c, s, r, q, f))
  {
    hide Gains, Level, Load;
    TakeUp(c, s, q, if fromRing then Delivering(f) else Copying(f, 0));
    PushStack(c, s, q, f);
    SameLoad(c, s, s.(kni := s.kni + [f]));
  }

  lemma FinishLevel(c: Config, s: State, q: nat)
    requires Shape(c, s) && q < c.queues && s.hands[q].Delivering?
    ensures Level(c, s, s.(hands := s.hands[q := Idle], stacks := Push(s.stacks, q, s.hands[q].frame)))
  {
  }

  // ---- Every step keeps the invariant ----

  lemma RxInv(c: Config, s: State, e: Step)
    requires Inv(c, s) && StepOk(c, s, e) && e.Rx?
    ensures Inv(c, Apply(c, s, e))
  {
    hide Load, Inv;
    var f, q, t := e.frame, e.q, s.(received := s.received + [e.frame]);
    var r := Apply(c, s, e);
    SameLoad(c, s, t);
    if e.answer.None? || e.answer.value == q {
      KeepEffect(c, t, q, f, false, e.action);
    } else if 0 <= e.answer.value < c.queues {
      EnqueueEffect(c, t, e.answer.value, f);
    } else {
      SameLoad(c, t, r);
    }
    hide Keep, Enqueue;
    NewcomerInv(c, s, r, q, f);
  }

  /** One frame more: it is with at most one queue, and in at most one pair of hands. */
  lemma NewcomerInv(c: Config, s: State, r: State, q: nat, f: Frame)
    requires Inv(c, s) && Shape(c, r) && q < c.queues && f !in s.received && r.received == s.received + [f]
    requires forall k: nat, g :: k < c.queues && g != f ==> Load(r, k, g) == Load(s, k, g)
    requires forall k: nat :: k < c.queues ==> Load(r, k, f) <= Load(s, k, f) + 1
    requires r.hands == s.hands || (r.hands == s.hands[q := Copying(f, 0)] && forall k: nat :: k < c.queues && k != q ==> Load(r, k, f) == Load(s, k, f))
    ensures Inv(c, r)
  {
    hide Load;
    assert forall k: nat :: k < c.queues ==> Load(s, k, f) == 0;
    assert forall p: nat :: p < c.queues && s.hands[p].Copying? ==> Ahead(c, s, p);
    forall p: nat | p < c.queues && r.hands[p].Copying? ensures Ahead(c, r, p) {
      if r.hands[p] == s.hands[p] { assert Ahead(c, s, p); }
    }
  }

  lemma TakeInv(c: Config, s: State, e: Step)
    requires Inv(c, s) && StepOk(c, s, e) && e.Take?
    ensures Inv(c, Apply(c, s, e))
  {
    hide Load;
    var r := Apply(c, s, e);
    TakeLevel(c, s, e.q, BurstSize(|s.rings[e.q]|));
    assert forall p: nat :: p < c.queues && s.hands[p].Copying? ==> Ahead(c, s, p);
  }

  lemma NextInv(c: Config, s: State, e: Step)
    requires Inv(c, s) && StepOk(c, s, e) && e.Next?
    ensures Inv(c, Apply(c, s, e))
  {
    hide Load;
    var q, f := e.q, s.bursts[e.q][0];
    var t := s.(bursts := s.bursts[q := s.bursts[q][1..]]);
    var r := Apply(c, s, e);
    NextLoses(c, s, q);
    KeepEffect(c, t, q, f, true, e.action);
    hide Keep;
    assert forall k: nat, g :: k < c.queues ==> Load(r, k, g) <= Load(s, k, g);
    assert forall p: nat :: p < c.queues && s.hands[p].Copying? ==> Ahead(c, s, p);
  }

  lemma CopyInv(c: Config, s: State, e: Step)
    requires Inv(c, s) && StepOk(c, s, e) && e.Copy?
    ensures Inv(c, Apply(c, s, e))
  {
    hide Load;
    var q, f, j := e.q, s.hands[e.q].frame, s.hands[e.q].j;
    var r := Apply(c, s, e);
    assert Ahead(c, s, q);
    if j >= c.queues {
      SwapHand(c, s, q, Delivering(f));
    } else {
      var t := s.(hands := s.hands[q := Copying(f, j + 1)]);
      SwapHand(c, s, q, Copying(f, j + 1));
      EnqueueEffect(c, t, j, f);
    }
    hide Enqueue;
    assert forall k: nat, g :: k < c.queues && (g != f || k != j || j == q) ==> Load(r, k, g) == Load(s, k, g);
    assert forall p: nat :: p < c.queues && s.hands[p].Copying? && p != q ==> s.hands[p].frame != f;
    assert forall p: nat :: p < c.queues && s.hands[p].Copying? ==> Ahead(c, s, p);
  }

  lemma FinishInv(c: Config, s: State, e: Step)
    requires Inv(c, s) && StepOk(c, s, e) && e.Finish?
    ensures Inv(c, Apply(c, s, e))
  {
    hide Load;
    var q, r := e.q, Apply(c, s, e);
    var t := s.(hands := s.hands[q := Idle], stacks := Push(s.stacks, q, s.hands[q].frame));
    FinishLevel(c, s, q);
    SameLoad(c, t, r);
    assert forall p: nat :: p < c.queues && s.hands[p].Copying? ==> Ahead(c, s, p);
  }

  lemma StepInv(c: Config, s: State, e: Step)
    requires Inv(c, s) && StepOk(c, s, e)
    ensures Inv(c, Apply(c, s, e))
  {
    hide Inv, Apply, StepOk;
    match e {
      case Rx(_, _, _, _) => RxInv(c, s, e);
      case Take(_) => TakeInv(c, s, e);
      case Next(_, _) => NextInv(c, s, e);
      case Copy(_, _) => CopyInv(c, s, e);
      case Finish(_, _) => FinishInv(c, s, e);
    }
  }

  lemma {:induction false} RunInv(c: Config, s: State, es: seq<Step>)
    requires Inv(c, s) && RunOk(c, s, es)
    ensures Inv(c, Run(c, s, es))
    decreases |es|
  {
    hide Inv, Apply, StepOk;
    if es != [] {
      StepInv(c, s, es[0]);
      RunInv(c, Apply(c, s, es[0]), es[1..]);
    }
  }

  /** In every run, whatever the dispatcher answers and whatever is lost, a received frame is delivered to each queue's
      stack at most once. */
  lemma AtMostOnce(c: Config, es: seq<Step>, j: nat, f: Frame)
    requires RunOk(c, Boot(c), es) && j < c.queues
    ensures var s := Run(c, Boot(c), es); Shape(c, s) && multiset(s.stacks[j])[f] <= 1
  {
    BootInv(c);
    RunInv(c, Boot(c), es);
    assert Load(Run(c, Boot(c), es), j, f) <= 1;
  }

  // ---- Nothing lost: exactly once ----

  /** No dispatcher, no failed copy, no full ring. */
  ghost predicate Lossless(c: Config, s: State, e: Step)
    requires StepOk(c, s, e)
  {
    match e
    case Rx(_, _, answer, _) => answer.None?
    case Take(_) => true
    case Next(_, _) => true
    case Copy(q, room) =>
      room && (s.hands[q].j < c.queues && s.hands[q].j != q ==> |s.rings[s.hands[q].j]| < c.ringSize)
    case Finish(_, room) => room
  }

  ghost predicate LosslessRun(c: Config, s: State, es: seq<Step>)
    decreases |es|
  {
    es == [] || (StepOk(c, s, es[0]) && Lossless(c, s, es[0]) && LosslessRun(c, Apply(c, s, es[0]), es[1..]))
  }

  /** The process in whose hands f is still has to copy it to queue k. */
  predicate Owes(h: Hand, q: nat, k: nat, f: Frame) {
    h.Copying? && h.frame == f && h.j <= k && k != q
  }

  ghost predicate Owed(c: Config, s: State, k: nat, f: Frame)
    requires Shape(c, s)
  {
    exists q: nat :: q < c.queues && Owes(s.hands[q], q, k, f)
  }

  /** Each received ARP or NDP frame is with every queue, or on its way there. */
  ghost predicate Exact(c: Config, s: State) {
    && Inv(c, s)
    && forall k: nat, f :: k < c.queues && f in s.received && Fans(c, f) ==> Load(s, k, f) == 1 || Owed(c, s, k, f)
  }

  lemma OwedStays(c: Config, s: State, r: State, q: nat)
    requires Shape(c, s) && Shape(c, r) && q < c.queues && !s.hands[q].Copying?
    requires forall p: nat :: p < c.queues && p != q ==> r.hands[p] == s.hands[p]
    ensures forall k: nat, f :: Owed(c, s, k, f) ==> Owed(c, r, k, f)
  {
    forall k: nat, f | Owed(c, s, k, f) ensures Owed(c, r, k, f) {
      var p: nat :| p < c.queues && Owes(s.hands[p], p, k, f);
      assert Owes(r.hands[p], p, k, f);
    }
  }

  lemma RxExact(c: Config, s: State, e: Step)
    requires Exact(c, s) && StepOk(c, s, e) && Lossless(c, s, e) && e.Rx?
    ensures Exact(c, Apply(c, s, e))
  {
    hide Load;
    var f, q, t := e.frame, e.q, s.(received := s.received + [e.frame]);
    var r := Apply(c, s, e);
    StepInv(c, s, e);
    SameLoad(c, s, t);
    KeepEffect(c, t, q, f, false, e.action);
    hide Keep, Inv;
    OwedStays(c, s, r, q);
    forall k: nat, g | k < c.queues && g in r.received && Fans(c, g) ensures Load(r, k, g) == 1 || Owed(c, r, k, g) {
      if g == f {
        if k == q {
          assert Load(s, k, f) == 0 by { Fresh(c, s, k, f); }
        } else {
          assert Owes(r.hands[q], q, k, f);
        }
      }
    }
  }

  lemma Fresh(c: Config, s: State, k: nat, f: Frame)
    requires Inv(c, s) && k < c.queues && f !in s.received
    ensures Load(s, k, f) == 0
  {
  }

  lemma QuietExact(c: Config, s: State, r: State, q: nat)
    requires Exact(c, s) && Inv(c, r) && q < c.queues && !s.hands[q].Copying? && r.received == s.received
    requires forall p: nat :: p < c.queues && p != q ==> r.hands[p] == s.hands[p]
    requires forall k: nat, f :: k < c.queues && Fans(c, f) ==> Load(r, k, f) == Load(s, k, f)
    ensures Exact(c, r)
  {
    hide Load, Inv;
    assert Shape(c, s) && Shape(c, r) by { InvShape(c, s); InvShape(c, r); }
    OwedStays(c, s, r, q);
  }

  lemma InvShape(c: Config, s: State)
    requires Inv(c, s)
    ensures Shape(c, s)
  {
  }

  lemma NextExact(c: Config, s: State, e: Step)
    requires Exact(c, s) && StepOk(c, s, e) && e.Next?
    ensures Exact(c, Apply(c, s, e))
  {
    hide Load, Exact;
    var q, f := e.q, s.bursts[e.q][0];
    var t := s.(bursts := s.bursts[q := s.bursts[q][1..]]);
    assert Inv(c, s) by { ExactInv(c, s); }
    StepInv(c, s, e);
    NextLoses(c, s, q);
    KeepEffect(c, t, q, f, true, e.action);
    hide Keep, Inv;
    QuietExact(c, s, Apply(c, s, e), q);
  }

  lemma ExactInv(c: Config, s: State)
    requires Exact(c, s)
    ensures Inv(c, s)
  {
  }

  lemma TakeFinishExact(c: Config, s: State, e: Step)
    requires Exact(c, s) && StepOk(c, s, e) && (e.Take? || e.Finish?)
    ensures Exact(c, Apply(c, s, e))
  {
    hide Load, Exact;
    var q, r := e.q, Apply(c, s, e);
    assert Inv(c, s) by { ExactInv(c, s); }
    StepInv(c, s, e);
    if e.Take? {
      TakeLevel(c, s, q, BurstSize(|s.rings[q]|));
    } else {
      FinishLevel(c, s, q);
      SameLoad(c, s.(hands := s.hands[q := Idle], stacks := Push(s.stacks, q, s.hands[q].frame)), r);
    }
    hide Inv;
    QuietExact(c, s, r, q);
  }

  lemma CopyExact(c: Config, s: State, e: Step)
    requires Exact(c, s) && StepOk(c, s, e) && Lossless(c, s, e) && e.Copy?
    ensures Exact(c, Apply(c, s, e))
  {
    hide Load, Inv;
    var q, f, j := e.q, s.hands[e.q].frame, s.hands[e.q].j;
    var r := Apply(c, s, e);
    StepInv(c, s, e);
    if j >= c.queues {
      SwapHand(c, s, q, Delivering(f));
    } else {
      var t := s.(hands := s.hands[q := Copying(f, j + 1)]);
      SwapHand(c, s, q, Copying(f, j + 1));
      EnqueueEffect(c, t, j, f);
      if j != q { StillAhead(c, s, q); }
    }
    hide Enqueue;
    assert r.received == s.received && forall p: nat :: p < c.queues && p != q ==> r.hands[p] == s.hands[p];
    assert forall k: nat, g :: k < c.queues ==> Load(r, k, g) >= Load(s, k, g);
    forall k: nat, g | k < c.queues && g in r.received && Fans(c, g) ensures Load(r, k, g) == 1 || Owed(c, r, k, g) {
      InvOnce(c, r, k, g);
      if Load(s, k, g) != 1 {
        var p: nat :| p < c.queues && Owes(s.hands[p], p, k, g);
        if p != q || k > j { assert Owes(r.hands[p], p, k, g); }
      }
    }
  }

  lemma InvOnce(c: Config, s: State, k: nat, f: Frame)
    requires Inv(c, s) && k < c.queues
    ensures Load(s, k, f) <= 1
  {
  }

  lemma StillAhead(c: Config, s: State, q: nat)
    requires Inv(c, s) && q < c.queues && s.hands[q].Copying? && s.hands[q].j < c.queues && s.hands[q].j != q
    ensures Load(s, s.hands[q].j, s.hands[q].frame) == 0
  {
    assert Ahead(c, s, q);
  }

  lemma {:induction false} RunExact(c: Config, s: State, es: seq<Step>)
    requires Exact(c, s) && LosslessRun(c, s, es)
    ensures RunOk(c, s, es) && Exact(c, Run(c, s, es))
    decreases |es|
  {
    hide Exact, Apply, StepOk, Lossless;
    if es != [] {
      var e := es[0];
      match e {
        case Rx(_, _, _, _) => RxExact(c, s, e);
        case Take(_) => TakeFinishExact(c, s, e);
        case Next(_, _) => NextExact(c, s, e);
        case Copy(_, _) => CopyExact(c, s, e);
        case Finish(_, _) => TakeFinishExact(c, s, e);
      }
      RunExact(c, Apply(c, s, e), es[1..]);
    }
  }

  /** Only ARP and NDP frames are copied. */
  ghost predicate HandsFan(c: Config, s: State) {
    Shape(c, s) && forall q: nat :: q < c.queues && !s.hands[q].Idle? ==> Fans(c, s.hands[q].frame)
  }

  lemma HandsFanStep(c: Config, s: State, e: Step)
    requires HandsFan(c, s) && StepOk(c, s, e)
    ensures HandsFan(c, Apply(c, s, e))
  {
    var r := Apply(c, s, e);
    assert forall p: nat :: p < c.queues && p != e.q ==> r.hands[p] == s.hands[p];
  }

  /** The primary process gives KNI each ARP or NDP frame together with its own stack. */
  ghost predicate KniMatches(c: Config, s: State) {
    && HandsFan(c, s)
    && (c.kni && c.primary.Some? && c.primary.value < c.queues ==>
          forall f :: Fans(c, f) ==> multiset(s.kni)[f] == multiset(s.stacks[c.primary.value])[f])
  }

  /** Frame f has come to KNI, and to the stack of queue p, no more often than before. */
  ghost predicate Silent(c: Config, s: State, r: State, p: nat, f: Frame) {
    && Shape(c, s) && Shape(c, r) && p < c.queues
    && multiset(r.kni)[f] == multiset(s.kni)[f] && multiset(r.stacks[p])[f] == multiset(s.stacks[p])[f]
  }

  lemma KeepSilent(c: Config, s: State, q: nat, g: Frame, fromRing: bool, action: Action, p: nat, f: Frame)
    requires Shape(c, s) && q < c.queues && p < c.queues && Fans(c, f)
    ensures Silent(c, s, Keep(c, s, q, g, fromRing, action), p, f)
  {
  }

  lemma StepSilent(c: Config, s: State, e: Step, p: nat, f: Frame)
    requires StepOk(c, s, e) && p < c.queues && Fans(c, f) && !e.Finish?
    ensures Silent(c, s, Apply(c, s, e), p, f)
  {
    match e {
      case Rx(q, g, _, action) => KeepSilent(c, s.(received := s.received + [g]), q, g, false, action, p, f);
      case Next(q, action) =>
        KeepSilent(c, s.(bursts := s.bursts[q := s.bursts[q][1..]]), q, s.bursts[q][0], true, action, p, f);
      case _ =>
    }
  }

  lemma KniStep(c: Config, s: State, e: Step)
    requires KniMatches(c, s) && StepOk(c, s, e) && (e.Finish? ==> e.room)
    ensures KniMatches(c, Apply(c, s, e))
  {
    var r := Apply(c, s, e);
    HandsFanStep(c, s, e);
    if c.kni && c.primary.Some? && c.primary.value < c.queues {
      var p := c.primary.value;
      forall f | Fans(c, f) ensures multiset(r.kni)[f] == multiset(r.stacks[p])[f] {
        if e.Finish? { FinishKni(c, s, e, p, f); } else { StepSilent(c, s, e, p, f); }
      }
    }
  }

  lemma FinishKni(c: Config, s: State, e: Step, p: nat, f: Frame)
    requires StepOk(c, s, e) && e.Finish? && e.room && c.kni && c.primary == Some(p) && p < c.queues
    requires multiset(s.kni)[f] == multiset(s.stacks[p])[f]
    ensures multiset(Apply(c, s, e).kni)[f] == multiset(Apply(c, s, e).stacks[p])[f]
  {
  }

  lemma {:induction false} KniRun(c: Config, s: State, es: seq<Step>)
    requires KniMatches(c, s) && LosslessRun(c, s, es)
    ensures RunOk(c, s, es) && KniMatches(c, Run(c, s, es))
    decreases |es|
  {
    hide KniMatches, Apply, StepOk;
    if es != [] {
      KniStep(c, s, es[0]);
      KniRun(c, Apply(c, s, es[0]), es[1..]);
    }
  }

  /** Nothing is on its way. */
  predicate Quiet(c: Config, s: State)
    requires Shape(c, s)
  {
    forall q :: 0 <= q < c.queues ==> s.rings[q] == [] && s.bursts[q] == [] && s.hands[q].Idle?
  }

  /** With no dispatcher and nothing lost, once nothing is on its way every received ARP or NDP frame has been delivered
      to every queue's stack exactly once, and to KNI exactly once when KNI is on and the primary process serves the
      port. */
  lemma ExactlyOnce(c: Config, es: seq<Step>, f: Frame)
    requires LosslessRun(c, Boot(c), es) && RunOk(c, Boot(c), es) && Shape(c, Run(c, Boot(c), es))
    requires Quiet(c, Run(c, Boot(c), es)) && f in Run(c, Boot(c), es).received
    requires f.filter == FilterArp || (f.filter == FilterNdp && c.inet6)
    ensures var s := Run(c, Boot(c), es);
            && (forall k: nat :: k < c.queues ==> multiset(s.stacks[k])[f] == 1)
            && (c.kni && c.primary.Some? && c.primary.value < c.queues ==> multiset(s.kni)[f] == 1)
  {
    BootInv(c);
    RunExact(c, Boot(c), es);
    KniRun(c, Boot(c), es);
    var s := Run(c, Boot(c), es);
    forall k: nat | k < c.queues ensures multiset(s.stacks[k])[f] == 1 {
      assert !Owed(c, s, k, f);
      assert Load(s, k, f) == 1;
    }
  }

  // ---- Everything on its way arrives ----

  function HandWork(c: Config, h: Hand): (w: nat) {
    match h
    case Idle => 0
    case Delivering(_) => 1
    case Copying(_, j) => 2 + 4 * if j < c.queues then c.queues - j else 0
  }

  function QueueWork(c: Config, s: State, q: nat): (w: nat)
    requires Shape(c, s) && q < c.queues
  {
    3 * |s.rings[q]| + 2 * |s.bursts[q]| + HandWork(c, s.hands[q])
  }

  /** A bound on the steps still to be made for the frames on their way to the first n queues. */
  function Work(c: Config, s: State, n: nat): (w: nat)
    requires Shape(c, s) && n <= c.queues
  {
    if n == 0 then 0 else Work(c, s, n - 1) + QueueWork(c, s, n - 1)
  }

  /** A step that receives nothing and does something. */
  predicate Busy(c: Config, s: State, e: Step)
    requires Shape(c, s) && e.q < c.queues
  {
    !e.Rx? && (e.Take? ==> s.rings[e.q] != [])
  }

  lemma {:induction false} WorkElsewhere(c: Config, s: State, r: State, q: nat, n: nat)
    requires Shape(c, s) && Shape(c, r) && q < c.queues && n <= c.queues
    requires forall k: nat :: k < c.queues && k != q ==> QueueWork(c, r, k) == QueueWork(c, s, k)
    ensures Work(c, r, n) - Work(c, s, n) == if q < n then QueueWork(c, r, q) - QueueWork(c, s, q) else 0
  {
    if n != 0 { WorkElsewhere(c, s, r, q, n - 1); }
  }

  /** The process that makes the step has less to do, and all others have the same. */
  lemma StepWork(c: Config, s: State, e: Step)
    requires StepOk(c, s, e) && Busy(c, s, e)
    ensures Shape(c, Apply(c, s, e)) && Work(c, Apply(c, s, e), c.queues) < Work(c, s, c.queues)
  {
    var q, r := e.q, Apply(c, s, e);
    hide Work;
    if e.Copy? {
      CopyWork(c, s, e);
    } else {
      assert forall k: nat :: k < c.queues && k != q ==> QueueWork(c, r, k) == QueueWork(c, s, k);
      assert QueueWork(c, r, q) < QueueWork(c, s, q);
      WorkElsewhere(c, s, r, q, c.queues);
    }
  }

  /** A copy puts three steps' work on another ring and takes four from the copying process. */
  lemma CopyWork(c: Config, s: State, e: Step)
    requires StepOk(c, s, e) && e.Copy?
    ensures Shape(c, Apply(c, s, e)) && Work(c, Apply(c, s, e), c.queues) < Work(c, s, c.queues)
  {
    hide Work;
    var q, f, j, r := e.q, s.hands[e.q].frame, s.hands[e.q].j, Apply(c, s, e);
    var t := s.(hands := s.hands[q := if j >= c.queues then Delivering(f) else Copying(f, j + 1)]);
    WorkElsewhere(c, s, t, q, c.queues);
    if j < c.queues { WorkElsewhere(c, t, r, j, c.queues); }
  }

  ghost predicate BusyRun(c: Config, s: State, es: seq<Step>)
    decreases |es|
  {
    es == [] || (StepOk(c, s, es[0]) && Busy(c, s, es[0]) && BusyRun(c, Apply(c, s, es[0]), es[1..]))
  }

  /** Without new receipts the processes run out of work: no such run is longer than the work there is, */
  lemma {:induction false} BusyRunEnds(c: Config, s: State, es: seq<Step>)
    requires Shape(c, s) && BusyRun(c, s, es)
    ensures RunOk(c, s, es) && Shape(c, Run(c, s, es)) && |es| + Work(c, Run(c, s, es), c.queues) <= Work(c, s, c.queues)
    decreases |es|
  {
    hide Apply, StepOk, Busy, Work;
    if es != [] {
      StepWork(c, s, es[0]);
      BusyRunEnds(c, Apply(c, s, es[0]), es[1..]);
    }
  }

  /** and while a frame is on its way there is a step to make. */
  lemma NotQuietIsBusy(c: Config, s: State) returns (e: Step)
    requires Shape(c, s) && !Quiet(c, s)
    ensures StepOk(c, s, e) && Busy(c, s, e)
  {
    var q: nat :| q < c.queues && !(s.rings[q] == [] && s.bursts[q] == [] && s.hands[q].Idle?);
    e := match s.hands[q]
         case Copying(_, _) => Copy(q, true)
         case Delivering(_) => Finish(q, true)
         case Idle => if s.bursts[q] != [] then Next(q, Default) else Take(q);
  }

  /** So from every state the processes reach one in which nothing is on its way, by themselves. */
  lemma {:induction false} ReachesQuiet(c: Config, s: State) returns (es: seq<Step>)
    requires Shape(c, s)
    ensures BusyRun(c, s, es) && RunOk(c, s, es) && Shape(c, Run(c, s, es)) && Quiet(c, Run(c, s, es))
    decreases Work(c, s, c.queues)
  {
    hide Apply, StepOk, Busy, Work;
    if Quiet(c, s) {
      es := [];
    } else {
      var e := NotQuietIsBusy(c, s);
      StepWork(c, s, e);
      var rest := ReachesQuiet(c, Apply(c, s, e));
      es := [e] + rest;
      assert es[1..] == rest;
    }
  }

  // ---- No second dispatch ----

  /** A frame from a ring is never put on a ring again: rings grow only in the hands of the process that had the frame
      from the card. */
  lemma {:induction false} CopiedWhereReceived(c: Config, s: State, es: seq<Step>, q: nat)
    requires RunOk(c, s, es) && Shape(c, s) && Shape(c, Run(c, s, es)) && q < c.queues && s.hands[q].Idle?
    requires Run(c, s, es).hands[q].Copying?
    ensures exists i :: 0 <= i < |es| && es[i].Rx? && es[i].q == q && es[i].frame == Run(c, s, es).hands[q].frame
  {
    CopyingFrom(c, s, es, q);
  }

  lemma {:induction false} CopyingFrom(c: Config, s: State, es: seq<Step>, q: nat)
    requires RunOk(c, s, es) && Shape(c, s) && Shape(c, Run(c, s, es)) && q < c.queues
    requires Run(c, s, es).hands[q].Copying?
    ensures (s.hands[q].Copying? && s.hands[q].frame == Run(c, s, es).hands[q].frame)
         || exists i :: 0 <= i < |es| && es[i].Rx? && es[i].q == q && es[i].frame == Run(c, s, es).hands[q].frame
    decreases |es|
  {
    if es != [] {
      var r, rest := Apply(c, s, es[0]), es[1..];
      hide Run;
      assert Run(c, s, es) == Run(c, r, rest) by { RunHead(c, s, es); }
      CopyingFrom(c, r, rest, q);
      if i :| 0 <= i < |rest| && rest[i].Rx? && rest[i].q == q && rest[i].frame == Run(c, r, rest).hands[q].frame {
        assert es[i + 1] == rest[i];
      }
    }
  }

  lemma RunHead(c: Config, s: State, es: seq<Step>)
    requires RunOk(c, s, es) && es != []
    ensures Run(c, s, es) == Run(c, Apply(c, s, es[0]), es[1..])
  {
  }

  lemma RingsGrow(c: Config, s: State, e: Step, k: nat)
    requires StepOk(c, s, e) && k < c.queues
    ensures Shape(c, Apply(c, s, e))
    ensures e.Take? || e.Next? || e.Finish? ==> exists n: nat :: n <= |s.rings[k]| && Apply(c, s, e).rings[k] == s.rings[k][n..]
  {
    assert s.rings[k][0..] == s.rings[k];
  }

  // ---- Conservation of the other frames ----

  ghost function Total(s: State, f: Frame, n: nat): (t: nat)
    requires n <= |s.rings| && |s.rings| == |s.bursts| == |s.hands| == |s.stacks|
  {
    if n == 0 then 0 else Total(s, f, n - 1) + Load(s, n - 1, f)
  }

  /** In how many places frame f is. */
  ghost function Places(c: Config, s: State, f: Frame): (t: nat)
    requires Shape(c, s)
  {
    Total(s, f, c.queues) + multiset(s.kni)[f] + multiset(s.sent)[f] + multiset(s.freed)[f]
  }

  lemma {:induction false} TotalGains(c: Config, s: State, r: State, j: nat, g: Frame, f: Frame, n: nat)
    requires Gains(c, s, r, j, g) && n <= c.queues
    ensures Total(r, f, n) == Total(s, f, n) + if j < n && g == f then 1 else 0
  {
    if n != 0 { TotalGains(c, s, r, j, g, f, n - 1); }
  }

  lemma {:induction false} TotalLevel(c: Config, s: State, r: State, f: Frame, n: nat)
    requires Level(c, s, r) && n <= c.queues
    ensures Total(r, f, n) == Total(s, f, n)
  {
    if n != 0 { TotalLevel(c, s, r, f, n - 1); }
  }

  lemma KeepPlaces(c: Config, s: State, q: nat, g: Frame, fromRing: bool, action: Action, f: Frame)
    requires Shape(c, s) && q < c.queues && s.hands[q].Idle?
    ensures Shape(c, Keep(c, s, q, g, fromRing, action))
    ensures Places(c, Keep(c, s, q, g, fromRing, action), f) == Places(c, s, f) + if g == f then 1 else 0
  {
    hide Load, Total, Gains, Level;
    KeepEffect(c, s, q, g, fromRing, action);
    var r := Keep(c, s, q, g, fromRing, action);
    if !Fans(c, g) && GoesToKni(c, g, action) {
      TotalLevel(c, s, r, f, c.queues);
    } else {
      TotalGains(c, s, r, q, g, f, c.queues);
    }
  }

  lemma EnqueuePlaces(c: Config, s: State, j: nat, g: Frame, f: Frame)
    requires Shape(c, s) && j < c.queues
    ensures Places(c, Enqueue(c, s, j, g), f) == Places(c, s, f) + if g == f then 1 else 0
  {
    hide Load, Total, Gains, Level;
    var r := Enqueue(c, s, j, g);
    if |s.rings[j]| < c.ringSize {
      PushRing(c, s, j, g);
      TotalGains(c, s, r, j, g, f, c.queues);
    } else {
      SameLoad(c, s, r);
      TotalLevel(c, s, r, f, c.queues);
    }
  }

  lemma LevelPlaces(c: Config, s: State, r: State, f: Frame)
    requires Level(c, s, r) && r.kni == s.kni && r.sent == s.sent && r.freed == s.freed
    ensures Places(c, r, f) == Places(c, s, f)
  {
    hide Load, Total, Level;
    assert Shape(c, s) && Shape(c, r) by { LevelShape(c, s, r); }
    TotalLevel(c, s, r, f, c.queues);
  }

  lemma LevelShape(c: Config, s: State, r: State)
    requires Level(c, s, r)
    ensures Shape(c, s) && Shape(c, r)
  {
  }

  /** A frame the dispatcher answers or drops. */
  lemma EndPlaces(c: Config, s: State, g: Frame, sent: bool, f: Frame)
    requires Shape(c, s)
    ensures var r := if sent then s.(sent := s.sent + [g]) else s.(freed := s.freed + [g]);
            Shape(c, r) && Places(c, r, f) == Places(c, s, f) + if g == f then 1 else 0
  {
    hide Load, Total;
    var r := if sent then s.(sent := s.sent + [g]) else s.(freed := s.freed + [g]);
    SameLoad(c, s, r);
    TotalLevel(c, s, r, f, c.queues);
  }

  lemma RxPlaces(c: Config, s: State, e: Step, f: Frame)
    requires Shape(c, s) && StepOk(c, s, e) && e.Rx?
    ensures Shape(c, Apply(c, s, e))
    ensures Places(c, Apply(c, s, e), f) == Places(c, s, f) + if e.frame == f then 1 else 0
  {
    hide Load, Places, Keep, Enqueue;
    var q, t := e.q, s.(received := s.received + [e.frame]);
    SameLoad(c, s, t);
    LevelPlaces(c, s, t, f);
    if e.answer.None? || e.answer.value == q {
      KeepPlaces(c, t, q, e.frame, false, e.action, f);
    } else if 0 <= e.answer.value < c.queues {
      EnqueueEffect(c, t, e.answer.value, e.frame);
      EnqueuePlaces(c, t, e.answer.value, e.frame, f);
    } else {
      EndPlaces(c, t, e.frame, e.answer.value == FF_DISPATCH_RESPONSE, f);
    }
  }

  lemma RingPlaces(c: Config, s: State, e: Step, f: Frame)
    requires Shape(c, s) && StepOk(c, s, e) && (e.Take? || e.Next?)
    ensures Shape(c, Apply(c, s, e)) && Places(c, Apply(c, s, e), f) == Places(c, s, f)
  {
    hide Load, Total;
    var q := e.q;
    if e.Take? {
      TakeLevel(c, s, q, BurstSize(|s.rings[q]|));
      TotalLevel(c, s, Apply(c, s, e), f, c.queues);
    } else {
      var t := s.(bursts := s.bursts[q := s.bursts[q][1..]]);
      NextLoses(c, s, q);
      TotalGains(c, t, s, q, s.bursts[q][0], f, c.queues);
      KeepPlaces(c, t, q, s.bursts[q][0], true, e.action, f);
    }
  }

  lemma HandPlaces(c: Config, s: State, e: Step, f: Frame)
    requires HandsFan(c, s) && StepOk(c, s, e) && (e.Copy? || e.Finish?) && !Fans(c, f)
    ensures Shape(c, Apply(c, s, e)) && Places(c, Apply(c, s, e), f) == Places(c, s, f)
  {
    hide Load, Total;
    var q, r := e.q, Apply(c, s, e);
    assert s.hands[q].frame != f;
    if e.Copy? {
      var g, j := s.hands[q].frame, s.hands[q].j;
      var h := if j >= c.queues then Delivering(g) else Copying(g, j + 1);
      var t := s.(hands := s.hands[q := h]);
      SwapHand(c, s, q, h);
      TotalLevel(c, s, t, f, c.queues);
      if j < c.queues { EnqueuePlaces(c, t, j, g, f); }
    } else {
      FinishLevel(c, s, q);
      var t := s.(hands := s.hands[q := Idle], stacks := Push(s.stacks, q, s.hands[q].frame));
      TotalLevel(c, s, t, f, c.queues);
      SameLoad(c, t, r);
      TotalLevel(c, t, r, f, c.queues);
    }
  }

  ghost predicate Conserved(c: Config, s: State) {
    && HandsFan(c, s)
    && forall f :: !Fans(c, f) ==> Places(c, s, f) == multiset(s.received)[f] <= 1
  }

  lemma StepConserves(c: Config, s: State, e: Step)
    requires Conserved(c, s) && StepOk(c, s, e)
    ensures Conserved(c, Apply(c, s, e))
  {
    hide Places;
    var r := Apply(c, s, e);
    HandsFanStep(c, s, e);
    forall f | !Fans(c, f) ensures Places(c, r, f) == multiset(r.received)[f] <= 1 {
      if e.Rx? { RxPlaces(c, s, e, f); }
      if e.Take? || e.Next? { RingPlaces(c, s, e, f); }
      if e.Copy? || e.Finish? { HandPlaces(c, s, e, f); }
    }
  }

  lemma {:induction false} RunConserves(c: Config, s: State, es: seq<Step>)
    requires Conserved(c, s) && RunOk(c, s, es)
    ensures Conserved(c, Run(c, s, es))
    decreases |es|
  {
    hide Conserved, Apply, StepOk;
    if es != [] {
      StepConserves(c, s, es[0]);
      RunConserves(c, Apply(c, s, es[0]), es[1..]);
    }
  }

  lemma {:induction false} BootTotal(c: Config, f: Frame, n: nat)
    requires n <= c.queues
    ensures Total(Boot(c), f, n) == 0
  {
    if n != 0 { BootTotal(c, f, n - 1); }
  }

  /** In every run each received frame that is not ARP or NDP is in exactly one place: a ring, a burst, a stack, KNI, the
      answered or the freed frames. It is neither lost nor doubled. */
  lemma InOnePlace(c: Config, es: seq<Step>, f: Frame)
    requires RunOk(c, Boot(c), es) && f.filter != FilterArp && (f.filter == FilterNdp ==> !c.inet6)
    ensures Shape(c, Run(c, Boot(c), es))
    ensures Places(c, Run(c, Boot(c), es), f) == if f in Run(c, Boot(c), es).received then 1 else 0
  {
    forall g ensures Total(Boot(c), g, c.queues) == 0 { BootTotal(c, g, c.queues); }
    RunConserves(c, Boot(c), es);
    var s := Run(c, Boot(c), es);
    hide Places, Run;
    assert Places(c, s, f) == multiset(s.received)[f] <= 1;
  }

  // ---- A frame goes where its dispatcher says ----

  /** The frame a step is about. */
  function Handled(c: Config, s: State, e: Step): (f: Option<Frame>)
    requires StepOk(c, s, e)
  {
    match e
    case Rx(_, f, _, _) => Some(f)
    case Take(_) => None
    case Next(q, _) => Some(s.bursts[q][0])
    case Copy(q, _) => Some(s.hands[q].frame)
    case Finish(q, _) => Some(s.hands[q].frame)
  }

  /** Frame f is where it was. */
  ghost predicate SameFor(c: Config, s: State, r: State, f: Frame) {
    && Shape(c, s) && Shape(c, r)
    && (forall k: nat :: k < c.queues ==> Load(r, k, f) == Load(s, k, f))
    && (forall k: nat :: k < c.queues && Holds(r.hands[k], f) == 1 ==> r.hands[k] == s.hands[k])
    && multiset(r.kni)[f] == multiset(s.kni)[f] && multiset(r.sent)[f] == multiset(s.sent)[f]
    && multiset(r.freed)[f] == multiset(s.freed)[f] && (f in s.received ==> f in r.received)
  }

  lemma KeepOther(c: Config, s: State, q: nat, g: Frame, fromRing: bool, action: Action, f: Frame)
    requires Shape(c, s) && q < c.queues && s.hands[q].Idle? && g != f
    ensures SameFor(c, s, Keep(c, s, q, g, fromRing, action), f)
  {
    hide Load;
    KeepEffect(c, s, q, g, fromRing, action);
  }

  lemma EnqueueOther(c: Config, s: State, j: nat, g: Frame, f: Frame)
    requires Shape(c, s) && j < c.queues && g != f
    ensures SameFor(c, s, Enqueue(c, s, j, g), f)
  {
    hide Load;
    EnqueueEffect(c, s, j, g);
  }

  lemma SameForSame(c: Config, s: State, t: State, r: State, f: Frame)
    requires SameFor(c, s, t, f) && SameFor(c, t, r, f)
    ensures SameFor(c, s, r, f)
  {
    hide Load;
  }

  /** A step about another frame, or about none. */
  lemma RxOther(c: Config, s: State, e: Step, f: Frame)
    requires StepOk(c, s, e) && e.Rx? && e.frame != f
    ensures SameFor(c, s, Apply(c, s, e), f)
  {
    hide Load, Keep, Enqueue;
    var t := s.(received := s.received + [e.frame]);
    SameLoad(c, s, t);
    assert SameFor(c, s, t, f);
    if e.answer.None? || e.answer.value == e.q {
      KeepOther(c, t, e.q, e.frame, false, e.action, f);
    } else if 0 <= e.answer.value < c.queues {
      EnqueueOther(c, t, e.answer.value, e.frame, f);
    } else {
      SameLoad(c, t, Apply(c, s, e));
    }
  }

  lemma RingOther(c: Config, s: State, e: Step, f: Frame)
    requires StepOk(c, s, e) && (e.Take? || (e.Next? && s.bursts[e.q][0] != f))
    ensures SameFor(c, s, Apply(c, s, e), f)
  {
    hide Load, Keep;
    var q := e.q;
    if e.Take? {
      TakeLevel(c, s, q, BurstSize(|s.rings[q]|));
    } else {
      var t := s.(bursts := s.bursts[q := s.bursts[q][1..]]);
      NextLoses(c, s, q);
      KeepOther(c, t, q, s.bursts[q][0], true, e.action, f);
    }
  }

  lemma CopyOther(c: Config, s: State, e: Step, f: Frame)
    requires StepOk(c, s, e) && e.Copy? && s.hands[e.q].frame != f
    ensures SameFor(c, s, Apply(c, s, e), f)
  {
    hide Load, Enqueue;
    var q, g, j := e.q, s.hands[e.q].frame, s.hands[e.q].j;
    var h := if j >= c.queues then Delivering(g) else Copying(g, j + 1);
    var t := s.(hands := s.hands[q := h]);
    SwapHand(c, s, q, h);
    assert SameFor(c, s, t, f);
    if j < c.queues && j != q && e.room { EnqueueOther(c, t, j, g, f); }
  }

  lemma FinishOther(c: Config, s: State, e: Step, f: Frame)
    requires StepOk(c, s, e) && e.Finish? && s.hands[e.q].frame != f
    ensures SameFor(c, s, Apply(c, s, e), f)
  {
    hide Load;
    var q, r := e.q, Apply(c, s, e);
    var t := s.(hands := s.hands[q := Idle], stacks := Push(s.stacks, q, s.hands[q].frame));
    FinishLevel(c, s, q);
    SameLoad(c, t, r);
  }

  lemma StepOther(c: Config, s: State, e: Step, f: Frame)
    requires StepOk(c, s, e) && Handled(c, s, e) != Some(f)
    ensures SameFor(c, s, Apply(c, s, e), f)
  {
    hide Apply, SameFor;
    match e {
      case Rx(_, _, _, _) => RxOther(c, s, e, f);
      case Take(_) => RingOther(c, s, e, f);
      case Next(_, _) => RingOther(c, s, e, f);
      case Copy(_, _) => CopyOther(c, s, e, f);
      case Finish(_, _) => FinishOther(c, s, e, f);
    }
  }

  /** Frame f, received before, is with queue j, or has been freed, or has gone to KNI; it is with no other queue and is
      not being copied. An ARP or NDP frame goes to KNI as a copy. */
  ghost predicate Confined(c: Config, s: State, f: Frame, j: nat) {
    && Shape(c, s) && j < c.queues && f in s.received && multiset(s.sent)[f] == 0
    && (forall k: nat :: k < c.queues && k != j ==> Load(s, k, f) == 0)
    && Load(s, j, f) + multiset(s.freed)[f] + (if Fans(c, f) then 0 else multiset(s.kni)[f]) == 1
    && (Holds(s.hands[j], f) == 1 ==> s.hands[j].Delivering? && Fans(c, f))
  }

  lemma NextConfined(c: Config, s: State, e: Step, j: nat)
    requires StepOk(c, s, e) && e.Next? && Confined(c, s, s.bursts[e.q][0], j)
    ensures Confined(c, Apply(c, s, e), s.bursts[e.q][0], j)
    ensures Apply(c, s, e).freed == s.freed
  {
    var q, f := e.q, s.bursts[e.q][0];
    assert f in multiset(s.bursts[q]);
    assert Load(s, q, f) > 0;
    hide Load;
    var t := s.(bursts := s.bursts[q := s.bursts[q][1..]]);
    NextLoses(c, s, q);
    KeepEffect(c, t, q, f, true, e.action);
  }

  lemma FinishConfined(c: Config, s: State, e: Step, j: nat)
    requires StepOk(c, s, e) && e.Finish? && Confined(c, s, s.hands[e.q].frame, j)
    ensures Confined(c, Apply(c, s, e), s.hands[e.q].frame, j)
    ensures Apply(c, s, e).freed == s.freed
  {
    var q, r := e.q, Apply(c, s, e);
    assert Load(s, q, s.hands[q].frame) > 0;
    hide Load;
    var t := s.(hands := s.hands[q := Idle], stacks := Push(s.stacks, q, s.hands[q].frame));
    FinishLevel(c, s, q);
    SameLoad(c, t, r);
  }

  lemma SameConfined(c: Config, s: State, r: State, f: Frame, j: nat)
    requires Confined(c, s, f, j) && SameFor(c, s, r, f)
    ensures Confined(c, r, f, j) && multiset(r.freed)[f] == multiset(s.freed)[f]
  {
    hide Load;
  }

  lemma StepConfined(c: Config, s: State, e: Step, f: Frame, j: nat)
    requires Confined(c, s, f, j) && StepOk(c, s, e)
    ensures Confined(c, Apply(c, s, e), f, j)
    ensures multiset(Apply(c, s, e).freed)[f] == multiset(s.freed)[f]
  {
    if Handled(c, s, e) != Some(f) {
      hide Confined, SameFor, Apply;
      StepOther(c, s, e, f);
      SameConfined(c, s, Apply(c, s, e), f, j);
    } else {
      assert !e.Copy? by { if e.Copy? { HeldHere(c, s, e.q, f, j); } }
      hide Confined, Apply;
      if e.Next? { NextConfined(c, s, e, j); } else { FinishConfined(c, s, e, j); }
    }
  }

  lemma HeldHere(c: Config, s: State, q: nat, f: Frame, j: nat)
    requires Confined(c, s, f, j) && q < c.queues && !s.hands[q].Idle? && s.hands[q].frame == f
    ensures s.hands[q].Delivering?
  {
    assert Load(s, q, f) > 0;
  }

  lemma {:induction false} RunConfined(c: Config, s: State, es: seq<Step>, f: Frame, j: nat)
    requires Confined(c, s, f, j) && RunOk(c, s, es)
    ensures Confined(c, Run(c, s, es), f, j)
    ensures multiset(Run(c, s, es).freed)[f] == multiset(s.freed)[f]
    decreases |es|
  {
    hide Confined, Apply, StepOk;
    if es != [] {
      StepConfined(c, s, es[0], f, j);
      RunConfined(c, Apply(c, s, es[0]), es[1..], f, j);
    }
  }

  /** KNI, the answered and the freed frames were all received. */
  ghost predicate Known(s: State) {
    forall f :: f in s.kni || f in s.sent || f in s.freed ==> f in s.received
  }

  lemma StepKnown(c: Config, s: State, e: Step)
    requires Inv(c, s) && Known(s) && StepOk(c, s, e)
    ensures Known(Apply(c, s, e))
  {
    var r := Apply(c, s, e);
    assert forall g :: Handled(c, s, e) == Some(g) ==> g in r.received by {
      if !e.Rx? && !e.Take? {
        var f := Handled(c, s, e).value;
        assert e.Next? ==> f in multiset(s.bursts[e.q]);
        assert Load(s, e.q, f) > 0;
      }
    }
    hide Inv;
    assert forall g :: g in s.received ==> g in r.received;
    assert forall g :: g in r.kni || g in r.sent || g in r.freed ==>
      g in s.kni || g in s.sent || g in s.freed || Handled(c, s, e) == Some(g);
  }

  lemma {:induction false} RunKnown(c: Config, s: State, es: seq<Step>)
    requires Inv(c, s) && Known(s) && RunOk(c, s, es)
    ensures Known(Run(c, s, es))
    decreases |es|
  {
    hide Inv, Known, Apply, StepOk;
    if es != [] {
      StepInv(c, s, es[0]);
      StepKnown(c, s, es[0]);
      RunKnown(c, Apply(c, s, es[0]), es[1..]);
    }
  }

  /** A run cut around step i. */
  lemma {:induction false} RunCut(c: Config, s: State, es: seq<Step>, i: nat)
    requires RunOk(c, s, es) && i < |es|
    ensures RunOk(c, s, es[..i]) && StepOk(c, Run(c, s, es[..i]), es[i])
    ensures var r := Apply(c, Run(c, s, es[..i]), es[i]);
            RunOk(c, r, es[i + 1..]) && Run(c, s, es) == Run(c, r, es[i + 1..])
    decreases i
  {
    hide Apply, StepOk;
    if i > 0 {
      RunCut(c, Apply(c, s, es[0]), es[1..], i - 1);
      assert es[1..][..i - 1] == es[..i][1..] && es[1..][i..] == es[i + 1..];
    }
  }

  lemma RxConfined(c: Config, s: State, e: Step, j: nat)
    requires Inv(c, s) && Known(s) && StepOk(c, s, e) && e.Rx? && j < c.queues
    requires e.answer == Some(j) || (e.answer.None? && j == e.q)
    requires j != e.q || !Fans(c, e.frame)
    ensures Confined(c, Apply(c, s, e), e.frame, j)
    ensures j == e.q || |s.rings[j]| < c.ringSize ==> multiset(Apply(c, s, e).freed)[e.frame] == 0
  {
    hide Load, Inv, Known, Confined;
    var f, t := e.frame, s.(received := s.received + [e.frame]);
    Unseen(c, s, f);
    SameLoad(c, s, t);
    if j == e.q { KeepConfined(c, t, j, f, e.action); } else { EnqueueConfined(c, t, j, f); }
  }

  lemma Unseen(c: Config, s: State, f: Frame)
    requires Inv(c, s) && Known(s) && f !in s.received
    ensures Shape(c, s) && (forall k: nat :: k < c.queues ==> Load(s, k, f) == 0 && Holds(s.hands[k], f) == 0)
    ensures f !in s.kni && f !in s.sent && f !in s.freed
  {
  }

  lemma KeepConfined(c: Config, s: State, q: nat, f: Frame, action: Action)
    requires Shape(c, s) && q < c.queues && s.hands[q].Idle? && f in s.received && !Fans(c, f)
    requires f !in s.kni && f !in s.sent && f !in s.freed && forall k: nat :: k < c.queues ==> Load(s, k, f) == 0
    ensures Confined(c, Keep(c, s, q, f, false, action), f, q) && Keep(c, s, q, f, false, action).freed == s.freed
  {
    hide Load;
    KeepEffect(c, s, q, f, false, action);
  }

  lemma EnqueueConfined(c: Config, s: State, j: nat, f: Frame)
    requires Shape(c, s) && j < c.queues && f in s.received && forall k: nat :: k < c.queues ==> Holds(s.hands[k], f) == 0
    requires f !in s.kni && f !in s.sent && f !in s.freed && forall k: nat :: k < c.queues ==> Load(s, k, f) == 0
    ensures Confined(c, Enqueue(c, s, j, f), f, j)
    ensures |s.rings[j]| < c.ringSize ==> Enqueue(c, s, j, f).freed == s.freed
  {
    hide Load;
    if |s.rings[j]| < c.ringSize { PushRing(c, s, j, f); } else { SameLoad(c, s, Enqueue(c, s, j, f)); }
  }

  /** In every run: a frame that stays with queue j, because the dispatcher says so or there is none, or that the
      dispatcher of queue q sends to queue j, is never with another queue. It is with queue j exactly once unless it was
      freed because j's ring was full, or it is a frame that KNI takes instead. Once nothing is on its way it is in j's
      stack. A frame of ARP or NDP that stays where it was received is the exception: it is copied to all. */
  lemma GoesWhereSent(c: Config, es: seq<Step>, i: nat, j: nat)
    requires RunOk(c, Boot(c), es) && i < |es| && es[i].Rx? && j < c.queues
    requires es[i].answer == Some(j) || (es[i].answer.None? && j == es[i].q)
    requires var f := es[i].frame; j == es[i].q ==> f.filter != FilterArp && (f.filter == FilterNdp ==> !c.inet6)
    ensures var s, f := Run(c, Boot(c), es), es[i].frame;
            var copied := f.filter == FilterArp || (f.filter == FilterNdp && c.inet6);
            && Shape(c, s) && f !in s.sent
            && (forall k: nat :: k < c.queues && k != j ==>
                  f !in s.rings[k] && f !in s.bursts[k] && f !in s.stacks[k] && Holds(s.hands[k], f) == 0)
            && Load(s, j, f) + multiset(s.freed)[f] + (if copied then 0 else multiset(s.kni)[f]) == 1
            && (j == es[i].q || RoomAt(c, es, i, j) ==> f !in s.freed)
            && (Quiet(c, s) && (j == es[i].q || RoomAt(c, es, i, j)) ==>
                  multiset(s.stacks[j])[f] + (if copied then 0 else multiset(s.kni)[f]) == 1)
  {
    var e, f := es[i], es[i].frame;
    RunCut(c, Boot(c), es, i);
    var m := Run(c, Boot(c), es[..i]);
    hide Run, RunOk, Apply;
    BootInv(c);
    RunInv(c, Boot(c), es[..i]);
    RunKnown(c, Boot(c), es[..i]);
    RxConfined(c, m, e, j);
    RunConfined(c, Apply(c, m, e), es[i + 1..], f, j);
    ConfinedMeans(c, Run(c, Boot(c), es), f, j);
  }

  /** Queue j's ring had room when step i of the run was made. */
  ghost predicate RoomAt(c: Config, es: seq<Step>, i: nat, j: nat) {
    && i <= |es| && RunOk(c, Boot(c), es[..i])
    && var m := Run(c, Boot(c), es[..i]);
       Shape(c, m) && j < c.queues && |m.rings[j]| < c.ringSize
  }

  lemma ConfinedMeans(c: Config, s: State, f: Frame, j: nat)
    requires Confined(c, s, f, j)
    ensures forall k: nat :: k < c.queues && k != j ==>
              f !in s.rings[k] && f !in s.bursts[k] && f !in s.stacks[k] && Holds(s.hands[k], f) == 0
    ensures Quiet(c, s) ==> Load(s, j, f) == multiset(s.stacks[j])[f]
    ensures f !in s.sent
  {
    forall k: nat | k < c.queues && k != j
      ensures f !in s.rings[k] && f !in s.bursts[k] && f !in s.stacks[k] && Holds(s.hands[k], f) == 0
    {
      assert Load(s, k, f) == 0;
      assert f !in multiset(s.rings[k]) && f !in multiset(s.bursts[k]) && f !in multiset(s.stacks[k]);
    }
  }

  /** A frame that is with no queue stays where it is. */
  lemma {:induction false} RunGone(c: Config, s: State, es: seq<Step>, f: Frame)
    requires RunOk(c, s, es) && Shape(c, s) && f in s.received && forall k: nat :: k < c.queues ==> Load(s, k, f) == 0
    ensures SameFor(c, s, Run(c, s, es), f)
    decreases |es|
  {
    if es != [] {
      var e, r := es[0], Apply(c, s, es[0]);
      assert Handled(c, s, e) != Some(f) by {
        if e.Next? { assert Load(s, e.q, f) == 0; assert f !in multiset(s.bursts[e.q]); }
        if e.Copy? || e.Finish? { assert Load(s, e.q, f) == 0; }
      }
      hide Load, Apply, StepOk;
      StepOther(c, s, e, f);
      RunGone(c, r, es[1..], f);
      SameForSame(c, s, r, Run(c, r, es[1..]), f);
    }
  }

  lemma RxEnds(c: Config, s: State, e: Step)
    requires Inv(c, s) && Known(s) && StepOk(c, s, e) && e.Rx? && e.answer.Some?
    requires e.answer.value < 0 || e.answer.value >= c.queues
    ensures var r, f := Apply(c, s, e), e.frame;
            && Shape(c, r) && f in r.received && (forall k: nat :: k < c.queues ==> Load(r, k, f) == 0)
            && multiset(r.kni)[f] == 0
            && multiset(r.sent)[f] == (if e.answer.value == -2 then 1 else 0)
            && multiset(r.freed)[f] == (if e.answer.value == -2 then 0 else 1)
  {
    hide Load, Inv, Known;
    Unseen(c, s, e.frame);
    SameLoad(c, s, Apply(c, s, e));
  }

  /** In every run: a frame to which the dispatcher answers -2 is sent back, once, and one to which it answers -1 or a
      number that is no queue is freed, once. Neither gets to a queue or to KNI. */
  lemma AnsweredOrFreed(c: Config, es: seq<Step>, i: nat)
    requires RunOk(c, Boot(c), es) && i < |es| && es[i].Rx? && es[i].answer.Some?
    requires es[i].answer.value < 0 || es[i].answer.value >= c.queues
    ensures var s, f := Run(c, Boot(c), es), es[i].frame;
            && Shape(c, s) && (forall k: nat :: k < c.queues ==> Load(s, k, f) == 0) && f !in s.kni
            && multiset(s.sent)[f] == (if es[i].answer.value == -2 then 1 else 0)
            && multiset(s.freed)[f] == (if es[i].answer.value == -2 then 0 else 1)
  {
    var e, f := es[i], es[i].frame;
    RunCut(c, Boot(c), es, i);
    var m := Run(c, Boot(c), es[..i]);
    hide Run, RunOk, Apply;
    BootInv(c);
    RunInv(c, Boot(c), es[..i]);
    RunKnown(c, Boot(c), es[..i]);
    RxEnds(c, m, e);
    hide Load, Inv, StepOk;
    RunGone(c, Apply(c, m, e), es[i + 1..], f);
    assert multiset(Run(c, Boot(c), es).kni)[f] == 0;
  }

  // ---- Which frames KNI takes ----

  /** The KNI control setting was `a` throughout the run. */
  predicate Setting(es: seq<Step>, a: Action) {
    forall i :: 0 <= i < |es| ==> (es[i].Rx? || es[i].Next? ==> es[i].action == a)
  }

  /** Under one setting, the frames that are not copied have gone where the setting sends them. */
  ghost predicate Settled(c: Config, s: State, a: Action) {
    && HandsFan(c, s)
    && (forall f :: f in s.kni && !Fans(c, f) ==> GoesToKni(c, f, a))
    && (forall f, k: nat :: k < c.queues && f in s.stacks[k] && !Fans(c, f) ==> !GoesToKni(c, f, a))
  }

  lemma StepSettles(c: Config, s: State, e: Step, a: Action)
    requires Settled(c, s, a) && StepOk(c, s, e) && (e.Rx? || e.Next? ==> e.action == a)
    ensures Settled(c, Apply(c, s, e), a)
  {
    hide GoesToKni;
    HandsFanStep(c, s, e);
  }

  lemma {:induction false} RunSettles(c: Config, s: State, es: seq<Step>, a: Action)
    requires Settled(c, s, a) && RunOk(c, s, es) && Setting(es, a)
    ensures Settled(c, Run(c, s, es), a)
    decreases |es|
  {
    hide Settled, Apply, StepOk;
    if es != [] {
      assert Setting(es[1..], a) by {
        forall i | 0 <= i < |es[1..]| ensures es[1..][i].Rx? || es[1..][i].Next? ==> es[1..][i].action == a {
          assert es[1..][i] == es[i + 1];
        }
      }
      StepSettles(c, s, es[0], a);
      RunSettles(c, Apply(c, s, es[0]), es[1..], a);
    }
  }

  /** In every run under one setting, of the frames that are neither ARP nor NDP: with KNI off, or everything set to go to
      the stack, KNI gets none; with everything set to go to KNI the stacks get none; by default KNI gets the frames of
      its own ports when it accepts those, and the others when it rejects them, and the stacks get the rest. */
  lemma KniGets(c: Config, es: seq<Step>, a: Action, f: Frame)
    requires RunOk(c, Boot(c), es) && Setting(es, a) && f.filter != FilterArp && (f.filter == FilterNdp ==> !c.inet6)
    ensures var s := Run(c, Boot(c), es);
            && Shape(c, s)
            && (!c.kni || a == AllToFf || a == OtherAction ==> f !in s.kni)
            && (c.kni && a == AllToKni ==> NoStack(c, s, f))
            && (c.kni && a == Default ==>
                  match f.filter
                  case FilterKni => if c.kniAccept then NoStack(c, s, f) else f !in s.kni
                  case FilterUnknown => if c.kniAccept then f !in s.kni else NoStack(c, s, f)
                  case _ => f !in s.kni)
  {
    RunSettles(c, Boot(c), es, a);
    var s := Run(c, Boot(c), es);
    assert GoesToKni(c, f, a) ==> NoStack(c, s, f);
  }

  predicate NoStack(c: Config, s: State, f: Frame)
    requires Shape(c, s)
  {
    forall k: nat :: k < c.queues ==> f !in s.stacks[k]
  }

  // ---- Rings keep the order ----

  /** The frame a step puts on queue j's ring, */
  function Put(c: Config, s: State, e: Step, j: nat): (l: seq<Frame>)
    requires StepOk(c, s, e) && j < c.queues
  {
    if (e.Rx? || e.Copy?) && |Apply(c, s, e).rings[j]| > |s.rings[j]| then [Handled(c, s, e).value] else []
  }

  /** and the frame from its ring that process j looks at. */
  function Look(c: Config, s: State, e: Step, j: nat): (l: seq<Frame>)
    requires StepOk(c, s, e) && j < c.queues
  {
    if e.Next? && e.q == j then [s.bursts[j][0]] else []
  }

  ghost function PutOn(c: Config, s: State, es: seq<Step>, j: nat): (l: seq<Frame>)
    requires RunOk(c, s, es) && j < c.queues
    decreases |es|
  {
    if es == [] then [] else Put(c, s, es[0], j) + PutOn(c, Apply(c, s, es[0]), es[1..], j)
  }

  ghost function Looked(c: Config, s: State, es: seq<Step>, j: nat): (l: seq<Frame>)
    requires RunOk(c, s, es) && j < c.queues
    decreases |es|
  {
    if es == [] then [] else Look(c, s, es[0], j) + Looked(c, Apply(c, s, es[0]), es[1..], j)
  }

  lemma StepOrder(c: Config, s: State, e: Step, j: nat)
    requires StepOk(c, s, e) && j < c.queues
    ensures var r := Apply(c, s, e);
            Shape(c, r) && s.bursts[j] + s.rings[j] + Put(c, s, e, j) == Look(c, s, e, j) + (r.bursts[j] + r.rings[j])
  {
    var r, q := Apply(c, s, e), e.q;
    if e.Take? {
      assert s.rings[q] == s.rings[q][..BurstSize(|s.rings[q]|)] + s.rings[q][BurstSize(|s.rings[q]|)..];
    } else if e.Next? {
      assert s.bursts[q] == [s.bursts[q][0]] + s.bursts[q][1..];
      assert r.rings == s.rings && r.bursts == s.bursts[q := s.bursts[q][1..]];
    } else {
      assert r.bursts == s.bursts;
      assert r.rings[j] == s.rings[j] || r.rings[j] == s.rings[j] + [Handled(c, s, e).value];
    }
  }

  /** In every run each process looks at the frames of its ring in the order in which they were put there, leaving none
      out: what it has looked at, what it has taken and what is still there make up what was there and what came. */
  lemma {:induction false} RingOrder(c: Config, s: State, es: seq<Step>, j: nat)
    requires Shape(c, s) && RunOk(c, s, es) && j < c.queues
    ensures var r := Run(c, s, es);
            && Shape(c, r)
            && s.bursts[j] + s.rings[j] + PutOn(c, s, es, j) == Looked(c, s, es, j) + (r.bursts[j] + r.rings[j])
    decreases |es|
  {
    if es != [] {
      var e, r := es[0], Apply(c, s, es[0]);
      StepOrder(c, s, e, j);
      hide Apply, StepOk, Put, Look;
      RingOrder(c, r, es[1..], j);
      var t := Run(c, r, es[1..]);
      Concat(s.bursts[j] + s.rings[j], Put(c, s, e, j), Look(c, s, e, j), r.bursts[j] + r.rings[j],
             PutOn(c, r, es[1..], j), Looked(c, r, es[1..], j), t.bursts[j] + t.rings[j]);
    }
  }

  lemma Concat<T>(a: seq<T>, put: seq<T>, look: seq<T>, b: seq<T>, puts: seq<T>, looks: seq<T>, d: seq<T>)
    requires a + put == look + b && b + puts == looks + d
    ensures a + (put + puts) == (look + looks) + d
  {
    assert a + (put + puts) == (a + put) + puts;
    assert (look + b) + puts == look + (b + puts);
    assert (look + looks) + d == look + (looks + d);
  }

  // ---- The code of one process ----

  lemma {:induction false} RunSnoc(c: Config, s: State, es: seq<Step>, e: Step)
    requires RunOk(c, s, es) && StepOk(c, Run(c, s, es), e)
    ensures RunOk(c, s, es + [e]) && Run(c, s, es + [e]) == Apply(c, Run(c, s, es), e)
    decreases |es|
  {
    hide Apply, StepOk;
    var all := es + [e];
    if es == [] {
      assert all == [e] && all[1..] == [];
      assert Run(c, Apply(c, s, e), []) == Apply(c, s, e);
    } else {
      assert all[0] == es[0] && all[1..] == es[1..] + [e];
      RunSnoc(c, Apply(c, s, es[0]), es[1..], e);
    }
  }

  /** What the outside world decides about one frame: the dispatcher's answer, whether each copy finds a buffer, and the
      KNI control setting. */
  datatype Choice = Choice(answer: Option<int>, rooms: seq<bool>, kniRoom: bool, action: Action)

  predicate ChoiceOk(c: Config, d: Choice) {
    |d.rooms| == c.queues && (d.answer.Some? ==> d.answer.value >= FF_DISPATCH_RESPONSE)
  }

  /** The steps the outside world's choices lead to: copying to the queues below n, */
  function Copies(q: nat, d: Choice, n: nat): (es: seq<Step>)
    requires n <= |d.rooms|
  {
    if n == 0 then [] else Copies(q, d, n - 1) + [Copy(q, d.rooms[n - 1])]
  }

  /** the whole way of a kept frame, */
  function KeptSteps(c: Config, q: nat, f: Frame, d: Choice, fromRing: bool): (es: seq<Step>)
    requires ChoiceOk(c, d)
  {
    if !Fans(c, f) then []
    else (if fromRing then [] else Copies(q, d, c.queues) + [Copy(q, true)]) + [Finish(q, d.kniRoom)]
  }

  /** and a frame from the card or from the ring. */
  function FrameSteps(c: Config, q: nat, f: Frame, d: Choice, fromRing: bool): (es: seq<Step>)
    requires ChoiceOk(c, d)
  {
    if fromRing then [Next(q, d.action)] + KeptSteps(c, q, f, d, true)
    else [Rx(q, f, d.answer, d.action)]
         + if d.answer.Some? && d.answer.value != q then [] else KeptSteps(c, q, f, d, false)
  }

  function BurstSteps(c: Config, q: nat, bufs: seq<Frame>, ds: seq<Choice>, fromRing: bool): (es: seq<Step>)
    requires |bufs| <= |ds| && forall i :: 0 <= i < |ds| ==> ChoiceOk(c, ds[i])
  {
    if bufs == [] then []
    else
      var n := |bufs| - 1;
      BurstSteps(c, q, bufs[..n], ds, fromRing) + FrameSteps(c, q, bufs[n], ds[n], fromRing)
  }

  /** Every copy finds a buffer. */
  predicate Ample(d: Choice) { d.kniRoom && forall i :: 0 <= i < |d.rooms| ==> d.rooms[i] }

  /** The step is one of process q, and it lacks a buffer only if the choices say so. */
  predicate Follows(q: nat, ample: bool, e: Step) {
    e.q == q && (ample && (e.Copy? || e.Finish?) ==> e.room)
  }

  lemma {:induction false} CopiesFollow(q: nat, d: Choice, n: nat)
    requires n <= |d.rooms|
    ensures |Copies(q, d, n)| == n
    ensures forall k :: 0 <= k < n ==> Copies(q, d, n)[k].Copy? && Follows(q, Ample(d), Copies(q, d, n)[k])
  {
    if n != 0 { CopiesFollow(q, d, n - 1); }
  }

  /** What the steps for one frame are: it is received with the dispatcher's own answer, or looked at; then it is copied,
      if it is, to each queue in turn. */
  lemma FrameFollows(c: Config, q: nat, f: Frame, d: Choice, fromRing: bool)
    requires ChoiceOk(c, d)
    ensures var es := FrameSteps(c, q, f, d, fromRing);
            && es != [] && es[0] == (if fromRing then Next(q, d.action) else Rx(q, f, d.answer, d.action))
            && (forall k :: 0 <= k < |es| ==> Follows(q, Ample(d), es[k]))
            && (forall k :: 0 < k < |es| ==> es[k].Copy? || es[k].Finish?)
  {
    CopiesFollow(q, d, c.queues);
    hide Copies;
  }

  /** A burst receives each of its frames, with the answer the dispatcher gives for it, and if no choice lacks a buffer,
      no step does. */
  lemma {:induction false} BurstFollows(c: Config, q: nat, bufs: seq<Frame>, ds: seq<Choice>, fromRing: bool)
    requires |bufs| <= |ds| && forall i :: 0 <= i < |ds| ==> ChoiceOk(c, ds[i])
    ensures var es := BurstSteps(c, q, bufs, ds, fromRing);
            && (forall k :: 0 <= k < |es| ==> Follows(q, forall i :: 0 <= i < |ds| ==> Ample(ds[i]), es[k]))
            && (forall i :: 0 <= i < |bufs| ==>
                  (if fromRing then Next(q, ds[i].action) else Rx(q, bufs[i], ds[i].answer, ds[i].action)) in es)
  {
    if bufs != [] {
      var n := |bufs| - 1;
      BurstFollows(c, q, bufs[..n], ds, fromRing);
      FrameFollows(c, q, bufs[n], ds[n], fromRing);
      hide FrameSteps;
      var one := FrameSteps(c, q, bufs[n], ds[n], fromRing);
      assert one[0] in one;
    }
  }

  lemma NextSteps(c: Config, q: nat, bufs: seq<Frame>, ds: seq<Choice>, fromRing: bool, i: nat, before: seq<Step>)
    requires i < |bufs| <= |ds| && forall k :: 0 <= k < |ds| ==> ChoiceOk(c, ds[k])
    ensures before + BurstSteps(c, q, bufs[..i], ds, fromRing) + FrameSteps(c, q, bufs[i], ds[i], fromRing)
         == before + BurstSteps(c, q, bufs[..i + 1], ds, fromRing)
  {
    hide FrameSteps;
    assert bufs[..i + 1][..i] == bufs[..i];
  }

  class Port {
    const c: Config
    var rings: seq<seq<Frame>>
    var stacks: seq<seq<Frame>>
    var kni: seq<Frame>
    var sent: seq<Frame>
    var freed: seq<Frame>
    ghost var bursts: seq<seq<Frame>>     // what the processes still have to do
    ghost var hands: seq<Hand>
    ghost var received: seq<Frame>

    ghost function View(): (s: State)
      reads this
    {
      State(rings, bursts, hands, stacks, kni, sent, freed, received)
    }

    /** Process q is between two calls. */
    ghost predicate Ready(q: nat)
      reads this
    {
      Shape(c, View()) && q < c.queues && hands[q].Idle?
    }

    constructor (c: Config)
      ensures this.c == c && View() == Boot(c)
    {
      this.c := c;
      rings, stacks, kni, sent, freed := Empty(c), Empty(c), [], [], [];
      bursts, hands, received := Empty(c), seq(c.queues, _ => Idle), [];
    }

    method RingEnqueue(j: nat, f: Frame)
      requires Shape(c, View()) && j < c.queues
      modifies `rings, `freed
      ensures View() == Enqueue(c, old(View()), j, f)
    {
      if |rings[j]| < c.ringSize {
        rings := rings[j := rings[j] + [f]];
      } else {
        freed := freed + [f];
      }
    }

    method VethInput(q: nat, f: Frame)
      requires Shape(c, View()) && q < c.queues
      modifies `stacks
      ensures stacks == Push(old(stacks), q, f)
    {
      stacks := stacks[q := stacks[q] + [f]];
    }

    /** The copying loop of process_packets, up to the copy for KNI. */
    method CopyAround(q: nat, f: Frame, d: Choice, ghost s0: State, ghost before: seq<Step>) returns (ghost es: seq<Step>)
      requires Shape(c, View()) && q < c.queues && hands[q] == Copying(f, 0) && ChoiceOk(c, d)
      requires RunOk(c, s0, before) && View() == Run(c, s0, before)
      modifies `rings, `freed, `hands
      ensures RunOk(c, s0, es) && View() == Run(c, s0, es) && Shape(c, View())
      ensures hands == old(hands)[q := Delivering(f)]
      ensures es == before + (Copies(q, d, c.queues) + [Copy(q, true)])
    {
      hide Run, RunOk;
      es := before;
      for j := 0 to c.queues
        invariant Shape(c, View()) && hands == old(hands)[q := Copying(f, j)] && es == before + Copies(q, d, j)
        invariant RunOk(c, s0, es) && View() == Run(c, s0, es)
      {
        ghost var s, e := View(), Copy(q, d.rooms[j]);
        RunSnoc(c, s0, es, e);
        hands := hands[q := Copying(f, j + 1)];
        if j != q {
          if d.rooms[j] {
            RingEnqueue(j, f);
          }
        }
        assert View() == Apply(c, s, e);
        es := es + [e];
      }
      ghost var s, e := View(), Copy(q, true);
      RunSnoc(c, s0, es, e);
      hands := hands[q := Delivering(f)];
      assert View() == Apply(c, s, e);
      es := es + [e];
    }

    /** The frame stays with this process: copy it around if it is ARP or NDP, then give it to KNI or to the stack. */
    method Process(q: nat, f: Frame, d: Choice, fromRing: bool, ghost s0: State, ghost before: seq<Step>, ghost e: Step)
      returns (ghost es: seq<Step>)
      requires Ready(q) && ChoiceOk(c, d)
      requires RunOk(c, s0, before) && StepOk(c, Run(c, s0, before), e)
      requires Apply(c, Run(c, s0, before), e) == Keep(c, View(), q, f, fromRing, d.action)
      modifies `rings, `freed, `hands, `stacks, `kni
      ensures RunOk(c, s0, es) && View() == Run(c, s0, es) && Ready(q)
      ensures fromRing ==> rings == old(rings)
      ensures es == before + ([e] + KeptSteps(c, q, f, d, fromRing))
    {
      hide Run, RunOk, StepOk;
      RunSnoc(c, s0, before, e);
      es := before + [e];
      ghost var kept := Keep(c, View(), q, f, fromRing, d.action);
      if Fans(c, f) {
        hands := hands[q := if fromRing then Delivering(f) else Copying(f, 0)];
        assert View() == kept;
        hide Apply;
        if !fromRing {
          es := CopyAround(q, f, d, s0, es);
        }
        es := FinishFrame(q, f, d.kniRoom, s0, es);
      } else if c.kni && d.action == AllToKni {
        kni := kni + [f];
        assert View() == kept;
      } else if c.kni && d.action == Default
             && ((f.filter == FilterKni && c.kniAccept) || (f.filter == FilterUnknown && !c.kniAccept)) {
        kni := kni + [f];
        assert View() == kept;
      } else {
        VethInput(q, f);
        assert View() == kept;
      }
    }

    /** The copy for KNI, which only the primary process makes, and the delivery. */
    method FinishFrame(q: nat, f: Frame, room: bool, ghost s0: State, ghost before: seq<Step>) returns (ghost es: seq<Step>)
      requires Shape(c, View()) && q < c.queues && hands[q] == Delivering(f)
      requires RunOk(c, s0, before) && View() == Run(c, s0, before)
      modifies `hands, `stacks, `kni
      ensures RunOk(c, s0, es) && View() == Run(c, s0, es) && Ready(q) && es == before + [Finish(q, room)]
    {
      hide Run, RunOk;
      ghost var s, e := View(), Finish(q, room);
      RunSnoc(c, s0, before, e);
      es := before + [e];
      if c.kni && c.primary == Some(q) {
        if room {
          kni := kni + [f];
        }
      }
      VethInput(q, f);
      hands := hands[q := Idle];
      assert View() == Apply(c, s, e);
    }

    /** One frame from the card: the dispatcher is asked first. */
    method ReceiveFrame(q: nat, f: Frame, d: Choice, ghost s0: State, ghost before: seq<Step>)
      returns (ghost es: seq<Step>)
      requires Ready(q) && bursts[q] == [] && ChoiceOk(c, d) && f !in received
      requires RunOk(c, s0, before) && View() == Run(c, s0, before)
      modifies this
      ensures RunOk(c, s0, es) && View() == Run(c, s0, es) && Ready(q) && bursts == old(bursts)
      ensures received == old(received) + [f] && es == before + FrameSteps(c, q, f, d, false)
    {
      hide Run, RunOk, Keep;
      ghost var s, e := View(), Rx(q, f, d.answer, d.action);
      received := received + [f];
      if d.answer.Some? && d.answer.value != q {
        RunSnoc(c, s0, before, e);
        es := before + [e];
        var ret := d.answer.value;
        if ret == FF_DISPATCH_RESPONSE {
          sent := sent + [f];
        } else if ret == FF_DISPATCH_ERROR || ret >= c.queues {
          freed := freed + [f];
        } else {
          RingEnqueue(ret, f);
        }
        assert View() == Apply(c, s, e);
      } else {
        es := Process(q, f, d, false, s0, before, e);
      }
    }

    /** process_packets for a burst from the card: a run of this process's steps. */
    method ProcessPackets(q: nat, bufs: seq<Frame>, choices: seq<Choice>) returns (ghost es: seq<Step>)
      requires Ready(q) && bursts[q] == [] && |choices| == |bufs| && NoDup(bufs)
      requires forall i :: 0 <= i < |bufs| ==> bufs[i] !in received && ChoiceOk(c, choices[i])
      modifies this
      ensures RunOk(c, old(View()), es) && View() == Run(c, old(View()), es) && Ready(q) && bursts == old(bursts)
      ensures received == old(received) + bufs && es == BurstSteps(c, q, bufs, choices, false)
    {
      es := [];
      hide Run, RunOk, StepOk, Apply, Keep, FrameSteps;
      StartRun(c, View());
      for i := 0 to |bufs|
        invariant Ready(q) && bursts == old(bursts) && received == old(received) + bufs[..i]
        invariant es == [] + BurstSteps(c, q, bufs[..i], choices, false)
        invariant RunOk(c, old(View()), es) && View() == Run(c, old(View()), es)
      {
        assert bufs[i] !in bufs[..i];
        NextSteps(c, q, bufs, choices, false, i, []);
        es := ReceiveFrame(q, bufs[i], choices[i], old(View()), es);
        assert bufs[..i + 1] == bufs[..i] + [bufs[i]];
      }
      assert bufs[..|bufs|] == bufs;
    }

    /** process_dispatch_ring: a run of this process's steps in which no ring grows. */
    method ProcessDispatchRing(q: nat, choices: seq<Choice>) returns (ghost es: seq<Step>)
      requires Ready(q) && bursts[q] == [] && |choices| == MAX_PKT_BURST
      requires forall i :: 0 <= i < |choices| ==> ChoiceOk(c, choices[i])
      modifies this
      ensures RunOk(c, old(View()), es) && View() == Run(c, old(View()), es) && Ready(q) && bursts == old(bursts)
      ensures rings == old(rings)[q := old(rings)[q][BurstSize(|old(rings)[q]|)..]]
      ensures |rings[q]| == if |old(rings)[q]| <= 32 then 0 else |old(rings)[q]| - 32
      ensures received == old(received)
      ensures es == [Take(q)] + BurstSteps(c, q, old(rings)[q][..BurstSize(|old(rings)[q]|)], choices, true)
    {
      ghost var s, e := View(), Take(q);
      StartRun(c, View());
      RunSnoc(c, s, [], e);
      hide Run, RunOk;
      es := [] + [e];
      var n := BurstSize(|rings[q]|);
      var burst := rings[q][..n];
      rings, bursts := rings[q := rings[q][n..]], bursts[q := burst];
      assert View() == Apply(c, s, e);
      ghost var mid := rings;
      hide Apply, FrameSteps;
      for i := 0 to n
        invariant Ready(q) && bursts == old(bursts)[q := burst[i..]] && received == old(received) && rings == mid
        invariant es == [e] + BurstSteps(c, q, burst[..i], choices, true)
        invariant RunOk(c, old(View()), es) && View() == Run(c, old(View()), es)
      {
        NextSteps(c, q, burst, choices, true, i, [e]);
        es := NextFrame(q, burst[i], choices[i], old(View()), es);
      }
      assert burst[..n] == burst;
    }

    method NextFrame(q: nat, f: Frame, d: Choice, ghost s0: State, ghost before: seq<Step>) returns (ghost es: seq<Step>)
      requires Ready(q) && bursts[q] != [] && bursts[q][0] == f && ChoiceOk(c, d)
      requires RunOk(c, s0, before) && View() == Run(c, s0, before)
      modifies this
      ensures RunOk(c, s0, es) && View() == Run(c, s0, es) && Ready(q) && bursts == old(bursts)[q := old(bursts)[q][1..]]
      ensures received == old(received) && rings == old(rings) && es == before + FrameSteps(c, q, f, d, true)
    {
      hide Run, RunOk, Keep;
      ghost var e := Next(q, d.action);
      bursts := bursts[q := bursts[q][1..]];
      es := Process(q, f, d, true, s0, before, e);
    }
  }

  lemma StartRun(c: Config, s: State)
    ensures RunOk(c, s, []) && Run(c, s, []) == s
  {
  }
}
