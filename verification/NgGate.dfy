/** The per-node multiple-reader/single-writer gate of netgraph with its input queue, queue mutex and worklist,
    as an interleaving of atomic steps. An agent is one activation of ng_snd_item, ngthread or
    ng_flush_input_queue; any number of them run at once and each step below is one atomic access. */
module NgGate {
  import opened Common

  datatype Rw = Reader | Writer

  datatype Item = Item(id: nat, rw: Rw)

  type Agent = nat

  /** The q_flags word, taken apart: WRITER_ACTIVE, OP_PENDING, and the reader count above them. */
  datatype Flags = Flags(writer: bool, pending: bool, readers: nat)

  /** Where an activation stands, and what it holds in its local variables. */
  datatype Pc =
    // ng_acquire_read, ng_acquire_write
    | AcqRead(item: Item)
    | AcqReadCas(item: Item, t: Flags)
    | AcqWrite(item: Item)
    // ng_queue_rw
    | QLock(item: Item)
    | QSet(item: Item)
    | QInsert(item: Item)
    // NEXT_QUEUED_ITEM_CAN_PROCEED and ng_worklist_add, with the mutex held
    | Check
    | WlFlag
    | WlInsert
    | Unlock
    // ng_apply_item, in a sender and in a queue thread
    | Apply(item: Item)
    | TApply(item: Item)
    // the re-check at the end of ng_snd_item
    | PostRead
    | PostLock
    | PostActive
    | Done
    // ngthread and ng_dequeue
    | TIdle
    | TLock
    | TActive
    | TRead
    | TReadCas(t: Flags)
    | TWriteCas
    | TRemove(rw: Rw)
    | TClear(item: Item)
    | TUnlock(item: Item)
    | TGiveUp
    | TQuit
    // ng_flush_input_queue
    | FLock
    | FHead
    | FClear
    | FUnlock

  /** The node's shared fields. `onList` counts how often the node is on the worklist; `arrived` and `left` record
      the items put on and taken off the input queue, in order, `applied` those that have been applied to the node
      and `flushed` those thrown away. */
  datatype Node = Node(
    flags: Flags, queue: seq<Item>, mutex: Option<Agent>, workq: bool, onList: nat,
    arrived: seq<Item>, left: seq<Item>, applied: seq<Item>, flushed: seq<Item>)

  datatype State = State(node: Node, agents: map<Agent, Pc>)

  /** The node after a step, and where the stepping agent goes. */
  datatype Out = Out(node: Node, pc: Pc)

  const Idle := Flags(false, false, 0)

  predicate CanProceed(f: Flags, head: Item) {
    !f.writer && (head.rw.Reader? || f.readers == 0)
  }

  /** Taking the queue mutex; the step waits while another agent has it. */
  function Lock(n: Node, a: Agent, from: Pc, to: Pc): (o: Out) {
    if n.mutex.Some? then Out(n, from) else Out(n.(mutex := Some(a)), to)
  }

  function Release(n: Node, to: Pc): (o: Out) {
    Out(n.(mutex := None), to)
  }

  /** ng_leave_read, ng_leave_write. */
  function Leave(f: Flags, rw: Rw): (f': Flags) {
    if rw.Writer? then f.(writer := false) else if f.readers > 0 then f.(readers := f.readers - 1) else f
  }

  function SenderStep(n: Node, a: Agent, pc: Pc): (o: Out) {
    match pc
    case AcqRead(i) =>
      if n.flags.writer || n.flags.pending then Out(n, QLock(i)) else Out(n, AcqReadCas(i, n.flags))
    case AcqReadCas(i, t) =>
      if n.flags == t then Out(n.(flags := n.flags.(readers := n.flags.readers + 1)), Apply(i))
      else Out(n, AcqRead(i))
    case AcqWrite(i) =>
      if n.flags == Idle then Out(n.(flags := n.flags.(writer := true)), Apply(i)) else Out(n, QLock(i))
    case QLock(i) => Lock(n, a, pc, QSet(i))
    case QSet(i) => Out(n.(flags := n.flags.(pending := true)), QInsert(i))
    case QInsert(i) => Out(n.(queue := n.queue + [i], arrived := n.arrived + [i]), Check)
    case Apply(i) => Out(n.(flags := Leave(n.flags, i.rw), applied := n.applied + [i]), PostRead)
    case _ => Out(n, pc)
  }

  function CheckStep(n: Node, a: Agent, pc: Pc): (o: Out) {
    match pc
    case Check =>
      if n.queue == [] then Out(n, pc)
      else if CanProceed(n.flags, n.queue[0]) then Out(n, WlFlag) else Out(n, Unlock)
    case WlFlag => if n.workq then Out(n, Unlock) else Out(n.(workq := true), WlInsert)
    case WlInsert => Out(n.(onList := n.onList + 1), Unlock)
    case Unlock => Release(n, Done)
    case PostRead => if n.flags.pending then Out(n, PostLock) else Out(n, Done)
    case PostLock => Lock(n, a, pc, PostActive)
    case PostActive => if n.flags.pending then Out(n, Check) else Out(n, Unlock)
    case _ => Out(n, pc)
  }

  function DequeueStep(n: Node, pc: Pc): (o: Out) {
    match pc
    case TActive =>
      if !n.flags.pending then Out(n, TGiveUp)
      else if n.queue == [] then Out(n, pc)
      else if n.queue[0].rw.Reader? then Out(n, TRead) else Out(n, TWriteCas)
    case TRead => if n.flags.writer then Out(n, TGiveUp) else Out(n, TReadCas(n.flags))
    case TReadCas(t) =>
      if n.flags == t then Out(n.(flags := n.flags.(readers := n.flags.readers + 1)), TRemove(Reader))
      else Out(n, TRead)
    case TWriteCas =>
      if n.flags == Flags(false, true, 0) then Out(n.(flags := n.flags.(writer := true)), TRemove(Writer))
      else Out(n, TGiveUp)
    case TRemove(_) =>
      if n.queue == [] then Out(n, pc)
      else Out(n.(queue := n.queue[1..], left := n.left + [n.queue[0]]), TClear(n.queue[0]))
    case TClear(i) =>
      if n.queue == [] then Out(n.(flags := n.flags.(pending := false)), TUnlock(i)) else Out(n, TUnlock(i))
    case _ => Out(n, pc)
  }

  function ThreadStep(n: Node, a: Agent, pc: Pc): (o: Out) {
    match pc
    case TIdle => if n.onList > 0 then Out(n.(onList := n.onList - 1), TLock) else Out(n, pc)
    case TLock => Lock(n, a, pc, TActive)
    case TUnlock(i) => Release(n, TApply(i))
    case TApply(i) => Out(n.(flags := Leave(n.flags, i.rw), applied := n.applied + [i]), TLock)
    case TGiveUp => Out(n.(workq := false), TQuit)
    case TQuit => Release(n, TIdle)
    case _ => Out(n, pc)
  }

  function FlushStep(n: Node, a: Agent, pc: Pc): (o: Out) {
    match pc
    case FLock => Lock(n, a, pc, FHead)
    case FHead =>
      if n.queue == [] then Out(n, Unlock)
      else Out(n.(queue := n.queue[1..], left := n.left + [n.queue[0]], flushed := n.flushed + [n.queue[0]]), FClear)
    case FClear =>
      if n.queue == [] then Out(n.(flags := n.flags.(pending := false)), FUnlock) else Out(n, FUnlock)
    case FUnlock => Release(n, FLock)
    case _ => Out(n, pc)
  }

  datatype Kind = InSender | InCheck | InDequeue | InThread | InFlush

  function KindOf(pc: Pc): Kind {
    match pc
    case AcqRead(_) | AcqReadCas(_, _) | AcqWrite(_) | QLock(_) | QSet(_) | QInsert(_) | Apply(_) => InSender
    case Check | WlFlag | WlInsert | Unlock | PostRead | PostLock | PostActive | Done => InCheck
    case TActive | TRead | TReadCas(_) | TWriteCas | TRemove(_) | TClear(_) => InDequeue
    case TIdle | TLock | TUnlock(_) | TApply(_) | TGiveUp | TQuit => InThread
    case FLock | FHead | FClear | FUnlock => InFlush
  }

  /** One atomic step of agent `a` at `pc`; a blocked step leaves the node alone. So does a step that would read
      the head of an empty queue, which LocalOk shows never to be taken. */
  function StepAt(n: Node, a: Agent, pc: Pc): (o: Out) {
    match KindOf(pc)
    case InSender => SenderStep(n, a, pc)
    case InCheck => CheckStep(n, a, pc)
    case InDequeue => DequeueStep(n, pc)
    case InThread => ThreadStep(n, a, pc)
    case InFlush => FlushStep(n, a, pc)
  }

  function Step(s: State, a: Agent): (s': State)
    requires a in s.agents
  {
    var o := StepAt(s.node, a, s.agents[a]);
    State(o.node, s.agents[a := o.pc])
  }

  /** Where an activation can begin. */
  predicate Start(pc: Pc) {
    match pc
    case AcqRead(i) => i.rw.Reader?
    case AcqWrite(i) => i.rw.Writer?
    case QLock(_) | TIdle | FLock => true
    case _ => false
  }

  /** A scheduler choice: a new activation appears, or an existing one takes a step. */
  datatype Action = Spawn(a: Agent, pc: Pc) | Go(a: Agent)

  predicate Enabled(s: State, act: Action) {
    match act
    case Spawn(a, pc) => a !in s.agents && Start(pc)
    case Go(a) => a in s.agents
  }

  function Do(s: State, act: Action): (s': State)
    requires Enabled(s, act)
  {
    match act
    case Spawn(a, pc) => s.(agents := s.agents[a := pc])
    case Go(a) => Step(s, a)
  }

  const Init := State(Node(Idle, [], None, false, 0, [], [], [], []), map[])

  /** The states a run of scheduler choices passes through. */
  ghost predicate Run(states: seq<State>, acts: seq<Action>) {
    && |states| == |acts| + 1 && states[0] == Init
    && forall k :: 0 <= k < |acts| ==> Enabled(states[k], acts[k]) && states[k + 1] == Do(states[k], acts[k])
  }

  // ---- What every reachable state satisfies ----

  predicate HoldsMutex(pc: Pc) {
    match pc
    case QSet(_) | QInsert(_) | Check | WlFlag | WlInsert | Unlock | PostActive => true
    case TActive | TRead | TReadCas(_) | TWriteCas | TRemove(_) | TClear(_) | TUnlock(_) | TGiveUp | TQuit => true
    case FHead | FClear | FUnlock => true
    case _ => false
  }

  function HoldsGate(pc: Pc): Option<Rw> {
    match pc
    case Apply(i) => Some(i.rw)
    case TApply(i) => Some(i.rw)
    case TRemove(rw) => Some(rw)
    case TClear(i) => Some(i.rw)
    case TUnlock(i) => Some(i.rw)
    case _ => None
  }

  predicate IsReader(pc: Pc) { HoldsGate(pc) == Some(Reader) }

  predicate IsWriter(pc: Pc) { HoldsGate(pc) == Some(Writer) }

  /** The agent carries the node's place on the worklist: it is about to insert it, or it took it off. */
  predicate Carries(pc: Pc) {
    match pc
    case WlInsert | TLock | TActive | TRead | TReadCas(_) | TWriteCas | TRemove(_) => true
    case TClear(_) | TUnlock(_) | TApply(_) | TGiveUp => true
    case _ => false
  }

  /** The agent will still look at the queue: it is inside ng_queue_rw before its test, between leaving the gate
      and its re-check, in the dequeue loop of a queue thread that has not given up, or flushing. */
  predicate Committed(pc: Pc) {
    match pc
    case Check | WlFlag | PostRead | PostLock | PostActive | FLock | FHead | FClear | FUnlock => true
    case _ => Carries(pc) && pc != TGiveUp
  }

  ghost function Who(agents: map<Agent, Pc>, p: Pc -> bool): (r: set<Agent>) {
    set a | a in agents && p(agents[a])
  }

  ghost predicate MutexInv(s: State) {
    && (s.node.mutex.Some? ==> s.node.mutex.value in s.agents)
    && forall a :: a in s.agents ==> (HoldsMutex(s.agents[a]) <==> s.node.mutex == Some(a))
  }

  /** The flag word encodes exactly the agents inside the gate; a writer is alone. */
  ghost predicate GateInv(s: State) {
    && s.node.flags.readers == |Who(s.agents, IsReader)|
    && |Who(s.agents, IsWriter)| == (if s.node.flags.writer then 1 else 0)
    && (s.node.flags.writer ==> s.node.flags.readers == 0)
  }

  ghost predicate QueueInv(s: State) {
    && (s.node.queue != [] ==> s.node.flags.pending)
    && (s.node.queue == [] && s.node.flags.pending ==>
          s.node.mutex.Some? && s.node.mutex.value in s.agents && Between(s.agents[s.node.mutex.value]))
    && s.node.arrived == s.node.left + s.node.queue
  }

  /** The mutex holder is between changing OP_PENDING and changing the queue. */
  predicate Between(pc: Pc) {
    pc.QInsert? || pc.TClear? || pc.FClear?
  }

  predicate LocalOk(pending: bool, queue: seq<Item>, pc: Pc) {
    match pc
    case AcqRead(i) => i.rw.Reader?
    case AcqReadCas(i, t) => i.rw.Reader? && !t.writer && !t.pending
    case AcqWrite(i) => i.rw.Writer?
    case QInsert(_) => pending
    case Check | WlFlag | WlInsert => queue != []
    case TRead => queue != [] && queue[0].rw.Reader?
    case TReadCas(t) => queue != [] && queue[0].rw.Reader? && !t.writer
    case TWriteCas => queue != [] && queue[0].rw.Writer?
    case TRemove(rw) => queue != [] && queue[0].rw == rw
    case _ => true
  }

  ghost predicate LocalInv(s: State) {
    forall a :: a in s.agents ==> LocalOk(s.node.flags.pending, s.node.queue, s.agents[a])
  }

  /** NGQ2_WORKQ is set exactly when the node is on the worklist once or one agent carries it. */
  ghost predicate WorkInv(s: State) {
    |Who(s.agents, Carries)| + s.node.onList == if s.node.workq then 1 else 0
  }

  /** No lost wakeup. */
  ghost predicate WakeInv(s: State) {
    s.node.queue != [] && CanProceed(s.node.flags, s.node.queue[0]) ==>
      s.node.onList > 0 || exists a :: a in s.agents && Committed(s.agents[a])
  }

  ghost predicate Inv(s: State) {
    MutexInv(s) && GateInv(s) && QueueInv(s) && LocalInv(s) && WorkInv(s) && WakeInv(s)
  }

  lemma WhoUpdate(agents: map<Agent, Pc>, p: Pc -> bool, a: Agent, pc: Pc)
    ensures |Who(agents[a := pc], p)| ==
            |Who(agents, p)| - (if a in agents && p(agents[a]) then 1 else 0) + (if p(pc) then 1 else 0)
    ensures a in agents && p(agents[a]) ==> |Who(agents, p)| > 0
  {
    var x, y := Who(agents, p), Who(agents[a := pc], p);
    if p(pc) {
      assert y == x + {a};
    } else {
      assert y == x - {a};
    }
    if a in agents && p(agents[a]) { assert a in x; }
  }

  lemma Counts(s: State, a: Agent, pc: Pc)
    requires a in s.agents
    ensures |Who(s.agents[a := pc], IsReader)| ==
            |Who(s.agents, IsReader)| - (if IsReader(s.agents[a]) then 1 else 0) + (if IsReader(pc) then 1 else 0)
    ensures |Who(s.agents[a := pc], IsWriter)| ==
            |Who(s.agents, IsWriter)| - (if IsWriter(s.agents[a]) then 1 else 0) + (if IsWriter(pc) then 1 else 0)
    ensures |Who(s.agents[a := pc], Carries)| ==
            |Who(s.agents, Carries)| - (if Carries(s.agents[a]) then 1 else 0) + (if Carries(pc) then 1 else 0)
    ensures IsReader(s.agents[a]) ==> |Who(s.agents, IsReader)| > 0
    ensures IsWriter(s.agents[a]) ==> |Who(s.agents, IsWriter)| > 0
    ensures Carries(s.agents[a]) ==> |Who(s.agents, Carries)| > 0
  {
    WhoUpdate(s.agents, IsReader, a, pc);
    WhoUpdate(s.agents, IsWriter, a, pc);
    WhoUpdate(s.agents, Carries, a, pc);
  }

  // ---- One step, seen from the agent that takes it ----

  /** What the stepping agent knows of its own state. */
  predicate Knows(n: Node, a: Agent, pc: Pc) {
    && (HoldsMutex(pc) <==> n.mutex == Some(a))
    && LocalOk(n.flags.pending, n.queue, pc)
    && (IsReader(pc) ==> n.flags.readers > 0 && !n.flags.writer)
    && (IsWriter(pc) ==> n.flags.writer && n.flags.readers == 0)
    && (Carries(pc) ==> n.workq)
    && (HoldsMutex(pc) && !Between(pc) && n.flags.pending ==> n.queue != [])
    && (n.queue != [] ==> n.flags.pending)
  }

  predicate MutexMoves(n: Node, a: Agent, o: Out) {
    && (HoldsMutex(o.pc) <==> o.node.mutex == Some(a))
    && (o.node.mutex != n.mutex ==>
          (n.mutex == None && o.node.mutex == Some(a)) || (n.mutex == Some(a) && o.node.mutex == None))
  }

  /** The flag word follows this agent in and out of the gate, and a writer enters an empty gate only. */
  predicate GateMoves(n: Node, pc: Pc, o: Out) {
    && o.node.flags.readers - n.flags.readers == AsNumber(IsReader(o.pc)) - AsNumber(IsReader(pc))
    && AsNumber(o.node.flags.writer) - AsNumber(n.flags.writer) == AsNumber(IsWriter(o.pc)) - AsNumber(IsWriter(pc))
    && ((n.flags.writer ==> n.flags.readers == 0) ==> (o.node.flags.writer ==> o.node.flags.readers == 0))
  }

  predicate WorkMoves(n: Node, pc: Pc, o: Out) {
    AsNumber(Carries(o.pc)) - AsNumber(Carries(pc)) + o.node.onList - n.onList == AsNumber(o.node.workq) - AsNumber(n.workq)
  }

  /** The queue and OP_PENDING change only under the mutex, and the queue is first in, first out. */
  predicate QueueMoves(n: Node, pc: Pc, o: Out) {
    && (o.node.queue != n.queue || o.node.flags.pending != n.flags.pending ==> HoldsMutex(pc))
    && LocalOk(o.node.flags.pending, o.node.queue, o.pc)
    && (o.node.queue != [] ==> o.node.flags.pending)
    && (o.node.queue == [] && o.node.flags.pending && HoldsMutex(pc) ==> HoldsMutex(o.pc) && Between(o.pc))
    && (n.arrived == n.left + n.queue ==> o.node.arrived == o.node.left + o.node.queue)
  }

  /** If the head can proceed afterwards, this agent looks again, or it could proceed before and someone else
      was looking, or the node was found to be on its way to a queue thread. */
  predicate WakeMoves(n: Node, pc: Pc, o: Out) {
    o.node.queue != [] && CanProceed(o.node.flags, o.node.queue[0]) ==>
      || Committed(o.pc) || o.node.onList > 0
      || (n.queue != [] && CanProceed(n.flags, n.queue[0]) && !Committed(pc) && o.node.onList == n.onList)
      || (pc == WlFlag && n.workq && o.node.onList == n.onList)
  }

  predicate Effect(n: Node, a: Agent, pc: Pc, o: Out) {
    MutexMoves(n, a, o) && GateMoves(n, pc, o) && WorkMoves(n, pc, o) && QueueMoves(n, pc, o) && WakeMoves(n, pc, o)
  }

  lemma SenderEffect(n: Node, a: Agent, pc: Pc)
    requires Knows(n, a, pc) && KindOf(pc).InSender?
    ensures Effect(n, a, pc, SenderStep(n, a, pc))
  {
    if pc.QInsert? {
      assert n.left + (n.queue + [pc.item]) == (n.left + n.queue) + [pc.item];
    }
  }

  lemma CheckEffect(n: Node, a: Agent, pc: Pc)
    requires Knows(n, a, pc) && KindOf(pc).InCheck?
    ensures Effect(n, a, pc, CheckStep(n, a, pc))
  {
  }

  lemma DequeueEffect(n: Node, a: Agent, pc: Pc)
    requires Knows(n, a, pc) && KindOf(pc).InDequeue?
    ensures Effect(n, a, pc, DequeueStep(n, pc))
  {
    if pc.TRemove? {
      assert (n.left + [n.queue[0]]) + n.queue[1..] == n.left + n.queue;
    }
  }

  lemma ThreadEffect(n: Node, a: Agent, pc: Pc)
    requires Knows(n, a, pc) && KindOf(pc).InThread?
    ensures Effect(n, a, pc, ThreadStep(n, a, pc))
  {
  }

  lemma FlushEffect(n: Node, a: Agent, pc: Pc)
    requires Knows(n, a, pc) && KindOf(pc).InFlush?
    ensures Effect(n, a, pc, FlushStep(n, a, pc))
  {
    hide Knows, KindOf, FlushStep, MutexMoves, GateMoves, WorkMoves, QueueMoves, WakeMoves;
    FlushGate(n, a, pc);
    FlushQueue(n, a, pc);
  }

  lemma FlushGate(n: Node, a: Agent, pc: Pc)
    requires Knows(n, a, pc) && KindOf(pc).InFlush?
    ensures var o := FlushStep(n, a, pc); MutexMoves(n, a, o) && GateMoves(n, pc, o) && WorkMoves(n, pc, o)
  {
  }

  lemma FlushQueue(n: Node, a: Agent, pc: Pc)
    requires Knows(n, a, pc) && KindOf(pc).InFlush?
    ensures var o := FlushStep(n, a, pc); QueueMoves(n, pc, o) && WakeMoves(n, pc, o)
  {
    if pc.FHead? && n.queue != [] {
      assert (n.left + [n.queue[0]]) + n.queue[1..] == n.left + n.queue;
    }
  }

  /** Every step of an agent that knows its own state has these effects and no others. */
  lemma StepEffect(n: Node, a: Agent, pc: Pc)
    requires Knows(n, a, pc)
    ensures Effect(n, a, pc, StepAt(n, a, pc))
  {
    hide Knows, Effect, SenderStep, CheckStep, DequeueStep, ThreadStep, FlushStep;
    match KindOf(pc)
    case InSender => SenderEffect(n, a, pc);
    case InCheck => CheckEffect(n, a, pc);
    case InDequeue => DequeueEffect(n, a, pc);
    case InThread => ThreadEffect(n, a, pc);
    case InFlush => FlushEffect(n, a, pc);
  }

  // ---- One step, seen from everyone ----

  lemma InvKnows(s: State, a: Agent)
    requires Inv(s) && a in s.agents
    ensures Knows(s.node, a, s.agents[a])
  {
    Counts(s, a, s.agents[a]);
  }

  lemma MutexStays(s: State, a: Agent, o: Out)
    requires a in s.agents && MutexInv(s) && MutexMoves(s.node, a, o)
    ensures MutexInv(State(o.node, s.agents[a := o.pc]))
  {
  }

  lemma GateStays(s: State, a: Agent, o: Out)
    requires a in s.agents && GateInv(s) && GateMoves(s.node, s.agents[a], o)
    ensures GateInv(State(o.node, s.agents[a := o.pc]))
  {
    Counts(s, a, o.pc);
  }

  lemma WorkStays(s: State, a: Agent, o: Out)
    requires a in s.agents && WorkInv(s) && WorkMoves(s.node, s.agents[a], o)
    ensures WorkInv(State(o.node, s.agents[a := o.pc]))
  {
    Counts(s, a, o.pc);
  }

  lemma QueueStays(s: State, a: Agent, o: Out)
    requires a in s.agents && MutexInv(s) && QueueInv(s)
    requires MutexMoves(s.node, a, o) && QueueMoves(s.node, s.agents[a], o)
    ensures QueueInv(State(o.node, s.agents[a := o.pc]))
  {
  }

  /** What an agent without the mutex remembers does not depend on the queue. */
  lemma LocalFrame(pc: Pc, pending: bool, queue: seq<Item>, pending': bool, queue': seq<Item>)
    requires LocalOk(pending, queue, pc) && !HoldsMutex(pc)
    ensures LocalOk(pending', queue', pc)
  {
  }

  lemma LocalStays(s: State, a: Agent, o: Out)
    requires a in s.agents && MutexInv(s) && LocalInv(s) && QueueMoves(s.node, s.agents[a], o)
    ensures LocalInv(State(o.node, s.agents[a := o.pc]))
  {
    hide LocalOk;
    forall b | b in s.agents && b != a ensures LocalOk(o.node.flags.pending, o.node.queue, s.agents[b]) {
      if !HoldsMutex(s.agents[b]) {
        LocalFrame(s.agents[b], s.node.flags.pending, s.node.queue, o.node.flags.pending, o.node.queue);
      }
    }
  }

  /** While an agent holds the mutex no queue thread can be giving the node up. */
  lemma CarriedIsCommitted(s: State, a: Agent)
    requires MutexInv(s) && WorkInv(s) && a in s.agents && s.agents[a] == WlFlag && s.node.workq
    ensures s.node.onList > 0 || exists b :: b in s.agents && b != a && Committed(s.agents[b])
  {
    if s.node.onList == 0 {
      var b :| b in Who(s.agents, Carries);
      assert b in s.agents && Committed(s.agents[b]);
    }
  }

  lemma WakeStays(s: State, a: Agent, o: Out)
    requires a in s.agents && MutexInv(s) && WorkInv(s) && WakeInv(s) && WakeMoves(s.node, s.agents[a], o)
    ensures WakeInv(State(o.node, s.agents[a := o.pc]))
  {
    var s' := State(o.node, s.agents[a := o.pc]);
    if Committed(o.pc) {
      assert s'.agents[a] == o.pc;
    } else if o.node.queue != [] && CanProceed(o.node.flags, o.node.queue[0]) && o.node.onList == 0 {
      if s.agents[a] == WlFlag && s.node.workq {
        CarriedIsCommitted(s, a);
        var b :| b in s.agents && b != a && Committed(s.agents[b]);
        assert s'.agents[b] == s.agents[b];
      } else {
        var b :| b in s.agents && Committed(s.agents[b]);
        assert s'.agents[b] == s.agents[b];
      }
    }
  }

  lemma StepInv(s: State, a: Agent)
    requires Inv(s) && a in s.agents
    ensures Inv(Step(s, a))
  {
    hide Knows, MutexMoves, GateMoves, WorkMoves, QueueMoves, WakeMoves, StepAt;
    hide MutexInv, GateInv, QueueInv, LocalInv, WorkInv, WakeInv;
    InvKnows(s, a);
    StepEffect(s.node, a, s.agents[a]);
    var o := StepAt(s.node, a, s.agents[a]);
    MutexStays(s, a, o);
    GateStays(s, a, o);
    WorkStays(s, a, o);
    QueueStays(s, a, o);
    LocalStays(s, a, o);
    WakeStays(s, a, o);
  }

  lemma SpawnInv(s: State, a: Agent, pc: Pc)
    requires Inv(s) && a !in s.agents && Start(pc)
    ensures Inv(s.(agents := s.agents[a := pc]))
  {
    WhoUpdate(s.agents, IsReader, a, pc);
    WhoUpdate(s.agents, IsWriter, a, pc);
    WhoUpdate(s.agents, Carries, a, pc);
    var s' := s.(agents := s.agents[a := pc]);
    assert WakeInv(s') by {
      if s.node.queue != [] && CanProceed(s.node.flags, s.node.queue[0]) && s.node.onList == 0 {
        var b :| b in s.agents && Committed(s.agents[b]);
        assert s'.agents[b] == s.agents[b];
      }
    }
  }

  /** Every state of every run satisfies the invariant. */
  lemma {:induction false} RunInv(states: seq<State>, acts: seq<Action>, k: nat)
    requires Run(states, acts) && k < |states|
    ensures Inv(states[k])
  {
    if k == 0 {
      assert Who(Init.agents, IsReader) == {} && Who(Init.agents, IsWriter) == {} && Who(Init.agents, Carries) == {};
    } else {
      RunInv(states, acts, k - 1);
      match acts[k - 1]
      case Spawn(a, pc) => SpawnInv(states[k - 1], a, pc);
      case Go(a) => StepInv(states[k - 1], a);
    }
  }

  // ---- The results ----

  const WRITER_ACTIVE := 1
  const OP_PENDING := 2
  const READER_INCREMENT := 4

  /** The q_flags word itself. */
  function Word(f: Flags): (w: nat) {
    (if f.writer then WRITER_ACTIVE else 0) + (if f.pending then OP_PENDING else 0) + READER_INCREMENT * f.readers
  }

  /** Testing bits of the word is testing its parts. */
  lemma WordTests(f: Flags)
    ensures Word(f) / READER_INCREMENT == f.readers
    ensures Word(f) % 4 == (if f.writer then 1 else 0) + (if f.pending then 2 else 0)
    ensures Word(f) % 2 == 1 <==> f.writer
    ensures Word(f) == OP_PENDING <==> f == Flags(false, true, 0)
    ensures Word(f) == 0 <==> f == Idle
  {
  }

  /** Comparing and adjusting the word is comparing and adjusting its parts. */
  lemma WordOps(f: Flags, g: Flags)
    ensures Word(f) == Word(g) <==> f == g
    ensures Word(f.(readers := f.readers + 1)) == Word(f) + READER_INCREMENT
    ensures f.readers > 0 ==> Word(Leave(f, Reader)) == Word(f) - READER_INCREMENT
    ensures f.writer ==> Word(Leave(f, Writer)) == Word(f) - WRITER_ACTIVE
  {
    WordTests(f);
    WordTests(g);
  }

  lemma OnlyOne<T>(s: set<T>, a: T, b: T)
    requires |s| <= 1 && a in s && b in s
    ensures a == b
  {
    if a != b {
      assert {a, b} <= s;
      SubsetCard({a, b}, s);
    }
  }

  /** Gate safety in every reachable interleaving: q_flags is exactly the sum of the agents inside the gate and
      OP_PENDING, a writer is alone, a non-empty queue has OP_PENDING set, and the word stays in 32 bits
      while fewer than 2^30 - 1 activations exist. */
  lemma GateSafety(states: seq<State>, acts: seq<Action>, k: nat)
    requires Run(states, acts) && k < |states|
    ensures var s := states[k];
            && Word(s.node.flags) == WRITER_ACTIVE * |Who(s.agents, IsWriter)|
                                     + READER_INCREMENT * |Who(s.agents, IsReader)|
                                     + (if s.node.flags.pending then OP_PENDING else 0)
            && (s.node.queue != [] ==> s.node.flags.pending)
            && (|s.agents| < 0x3fff_ffff ==> Word(s.node.flags) < TWO32)
    ensures forall a, b :: (a in states[k].agents && b in states[k].agents && IsWriter(states[k].agents[a])
                            && HoldsGate(states[k].agents[b]).Some?) ==> a == b
  {
    RunInv(states, acts, k);
    var s := states[k];
    assert |Who(s.agents, IsReader)| <= |s.agents| by {
      SubsetCard(Who(s.agents, IsReader), s.agents.Keys);
    }
    forall a, b | a in s.agents && b in s.agents && IsWriter(s.agents[a]) && HoldsGate(s.agents[b]).Some?
      ensures a == b
    {
      var ws, rs := Who(s.agents, IsWriter), Who(s.agents, IsReader);
      assert a in ws && ws != {};
      assert b in ws by {
        var rw := HoldsGate(s.agents[b]).value;
        assert rw.Reader? || rw.Writer?;
        assert b in rs || b in ws;
        assert rs == {};
      }
      OnlyOne(ws, a, b);
    }
  }

  /** No lost wakeup in every reachable interleaving: if the queue's head could proceed, the node is on the worklist,
      or an agent is committed to looking at the queue again. The node is on the worklist at most once, and then
      no queue thread holds it; otherwise at most one agent carries it. */
  lemma NoLostWakeup(states: seq<State>, acts: seq<Action>, k: nat)
    requires Run(states, acts) && k < |states|
    ensures var s := states[k];
            && (s.node.queue != [] && !s.node.flags.writer && (s.node.queue[0].rw.Writer? ==> s.node.flags.readers == 0) ==>
                  s.node.onList == 1 || exists a :: a in s.agents && Committed(s.agents[a]))
            && (s.node.onList == 1 ==> forall a :: a in s.agents ==> !Carries(s.agents[a]))
            && s.node.onList <= 1
    ensures forall a, b :: (a in states[k].agents && b in states[k].agents
                            && Carries(states[k].agents[a]) && Carries(states[k].agents[b])) ==> a == b
  {
    RunInv(states, acts, k);
    var s := states[k];
    var cs := Who(s.agents, Carries);
    forall a, b | a in s.agents && b in s.agents && Carries(s.agents[a]) && Carries(s.agents[b])
      ensures a == b
    {
      OnlyOne(cs, a, b);
    }
    forall a | a in s.agents && s.node.onList == 1 ensures !Carries(s.agents[a]) {
      assert cs == {} && a !in cs;
    }
  }

  lemma StepLogs(n: Node, a: Agent, pc: Pc)
    ensures n.arrived <= StepAt(n, a, pc).node.arrived
    ensures n.left <= StepAt(n, a, pc).node.left
  {
  }

  /** Items leave the input queue in the order they entered it: at any two moments of a run the record of
      departures only grows, and it is always a prefix of the record of arrivals. */
  lemma {:induction false} FirstInFirstOut(states: seq<State>, acts: seq<Action>, j: nat, k: nat)
    requires Run(states, acts) && j <= k < |states|
    ensures states[j].node.left <= states[k].node.left <= states[k].node.arrived
    ensures states[j].node.arrived <= states[k].node.arrived
    ensures states[k].node.arrived == states[k].node.left + states[k].node.queue
  {
    hide StepAt;
    RunInv(states, acts, k);
    if j < k {
      FirstInFirstOut(states, acts, j, k - 1);
      if acts[k - 1].Go? {
        var a := acts[k - 1].a;
        StepLogs(states[k - 1].node, a, states[k - 1].agents[a]);
      }
    }
  }

  /** An activation that enters the gate without queueing does so only when every item queued before it has
      left the queue. */
  lemma NoOvertaking(states: seq<State>, acts: seq<Action>, k: nat, a: Agent)
    requires Run(states, acts) && k < |acts| && acts[k] == Go(a)
    requires states[k].agents[a].AcqReadCas? || states[k].agents[a].AcqWrite?
    requires states[k + 1].agents[a].Apply?
    ensures states[k].node.queue == [] && states[k].node.left == states[k].node.arrived
  {
    RunInv(states, acts, k);
    InvKnows(states[k], a);
  }

  // ---- What becomes of the items ----

  /** The item an activation has in its hands. */
  function ItemOf(pc: Pc): (i: Option<Item>) {
    match pc
    case AcqRead(i) => Some(i)
    case AcqReadCas(i, _) => Some(i)
    case AcqWrite(i) => Some(i)
    case QLock(i) => Some(i)
    case QSet(i) => Some(i)
    case QInsert(i) => Some(i)
    case Apply(i) => Some(i)
    case TApply(i) => Some(i)
    case TClear(i) => Some(i)
    case TUnlock(i) => Some(i)
    case _ => None
  }

  function Has(i: Item): (p: Pc -> bool) { pc => ItemOf(pc) == Some(i) }

  /** How often item i has been brought by a new activation. */
  function Brought(acts: seq<Action>, i: Item): (n: nat) {
    if acts == [] then 0
    else
      var act := acts[|acts| - 1];
      Brought(acts[..|acts| - 1], i) + if act.Spawn? && ItemOf(act.pc) == Some(i) then 1 else 0
  }

  /** How often item i is on the queue, has been applied or has been flushed. */
  ghost function Records(n: Node, i: Item): (k: nat) {
    multiset(n.queue)[i] + multiset(n.applied)[i] + multiset(n.flushed)[i]
  }

  ghost predicate ItemMoves(n: Node, pc: Pc, o: Out, i: Item) {
    Records(o.node, i) + AsNumber(ItemOf(o.pc) == Some(i)) == Records(n, i) + AsNumber(ItemOf(pc) == Some(i))
  }

  lemma SenderItems(n: Node, a: Agent, pc: Pc, i: Item)
    requires KindOf(pc).InSender?
    ensures ItemMoves(n, pc, SenderStep(n, a, pc), i)
  {
  }

  lemma CheckItems(n: Node, a: Agent, pc: Pc, i: Item)
    requires KindOf(pc).InCheck?
    ensures ItemMoves(n, pc, CheckStep(n, a, pc), i)
  {
  }

  lemma DequeueItems(n: Node, pc: Pc, i: Item)
    requires KindOf(pc).InDequeue?
    ensures ItemMoves(n, pc, DequeueStep(n, pc), i)
  {
    if pc.TRemove? && n.queue != [] {
      HeadOut(n.queue, i);
    } else {
      hide Records;
      SameRecords(n, DequeueStep(n, pc).node, i);
    }
  }

  lemma SameRecords(n: Node, m: Node, i: Item)
    requires m.queue == n.queue && m.applied == n.applied && m.flushed == n.flushed
    ensures Records(m, i) == Records(n, i)
  {
  }

  lemma ThreadItems(n: Node, a: Agent, pc: Pc, i: Item)
    requires KindOf(pc).InThread?
    ensures ItemMoves(n, pc, ThreadStep(n, a, pc), i)
  {
  }

  lemma FlushItems(n: Node, a: Agent, pc: Pc, i: Item)
    requires KindOf(pc).InFlush?
    ensures ItemMoves(n, pc, FlushStep(n, a, pc), i)
  {
    if n.queue != [] { HeadOut(n.queue, i); }
  }

  lemma HeadOut(queue: seq<Item>, i: Item)
    requires queue != []
    ensures multiset(queue)[i] == AsNumber(queue[0] == i) + multiset(queue[1..])[i]
  {
    assert queue == [queue[0]] + queue[1..];
  }

  /** A step moves the item in the agent's hands at most; it changes, loses and doubles none. */
  lemma StepItems(n: Node, a: Agent, pc: Pc, i: Item)
    ensures ItemMoves(n, pc, StepAt(n, a, pc), i)
  {
    hide ItemMoves, SenderStep, CheckStep, DequeueStep, ThreadStep, FlushStep;
    match KindOf(pc)
    case InSender => SenderItems(n, a, pc, i);
    case InCheck => CheckItems(n, a, pc, i);
    case InDequeue => DequeueItems(n, pc, i);
    case InThread => ThreadItems(n, a, pc, i);
    case InFlush => FlushItems(n, a, pc, i);
  }

  /** In every run every item is accounted for, as the reader or writer it came as: it is in the hands of as many
      activations, on the queue, applied or flushed as often as activations have brought it. */
  lemma {:induction false} ItemsConserved(states: seq<State>, acts: seq<Action>, k: nat, i: Item)
    requires Run(states, acts) && k < |states|
    ensures Brought(acts[..k], i)
         == |Who(states[k].agents, Has(i))| + multiset(states[k].node.queue)[i]
            + multiset(states[k].node.applied)[i] + multiset(states[k].node.flushed)[i]
  {
    hide StepAt, Has, ItemOf;
    if k == 0 {
      assert Who(Init.agents, Has(i)) == {};
    } else {
      ItemsConserved(states, acts, k - 1, i);
      var s, act := states[k - 1], acts[k - 1];
      assert acts[..k][..k - 1] == acts[..k - 1];
      match act
      case Spawn(a, pc) =>
        WhoUpdate(s.agents, Has(i), a, pc);
        HasMeans(pc, i);
      case Go(a) =>
        var pc := StepAt(s.node, a, s.agents[a]).pc;
        StepItems(s.node, a, s.agents[a], i);
        WhoUpdate(s.agents, Has(i), a, pc);
        HasMeans(pc, i);
        HasMeans(s.agents[a], i);
    }
  }

  lemma HasMeans(pc: Pc, i: Item)
    ensures Has(i)(pc) <==> ItemOf(pc) == Some(i)
  {
  }

  lemma {:induction false} BroughtBy(acts: seq<Action>, i: Item) returns (m: nat)
    requires Brought(acts, i) > 0
    ensures m < |acts| && acts[m].Spawn? && ItemOf(acts[m].pc) == Some(i)
  {
    var n := |acts| - 1;
    if acts[n].Spawn? && ItemOf(acts[n].pc) == Some(i) { m := n; } else { m := BroughtBy(acts[..n], i); }
  }

  /** The activation is applying item x to the node. */
  predicate Applies(pc: Pc, x: nat) {
    (pc.Apply? || pc.TApply?) && pc.item.id == x
  }

  /** Item x came as rw only. */
  predicate OnlyAs(acts: seq<Action>, x: nat, rw: Rw) {
    forall j :: 0 <= j < |acts| && acts[j].Spawn? ==> ItemOf(acts[j].pc) != Some(Item(x, if rw == Reader then Writer else Reader))
  }

  /** What an agent has in its hands was brought by an activation. */
  lemma HeldWasBrought(states: seq<State>, acts: seq<Action>, k: nat, a: Agent, i: Item) returns (m: nat)
    requires Run(states, acts) && k < |states| && a in states[k].agents && ItemOf(states[k].agents[a]) == Some(i)
    ensures |states| == |acts| + 1 && m < k && acts[m].Spawn? && ItemOf(acts[m].pc) == Some(i)
  {
    RunLength(states, acts);
    hide Run, Brought, ItemOf;
    ItemsConserved(states, acts, k, i);
    InHand(states[k].agents, a, i);
    m := BroughtBy(acts[..k], i);
    assert acts[..k][m] == acts[m];
  }

  /** What is being applied is applied as the reader or writer it came as. */
  lemma AppliedAsBrought(states: seq<State>, acts: seq<Action>, k: nat, a: Agent, x: nat, rw: Rw)
    requires Run(states, acts) && k < |states| && a in states[k].agents && Applies(states[k].agents[a], x)
    requires OnlyAs(acts[..k], x, rw)
    ensures HoldsGate(states[k].agents[a]) == Some(rw) && states[k].agents[a].item == Item(x, rw)
  {
    RunLength(states, acts);
    hide Run, Who;
    var i := states[k].agents[a].item;
    var m := HeldWasBrought(states, acts, k, a, i);
    hide ItemOf;
    assert acts[..k][m] == acts[m];
    assert i == Item(x, rw) || i == Item(x, if rw == Reader then Writer else Reader);
  }

  /** Gate safety from the item's own side, in every reachable interleaving: while an item is applied that came as a
      writer, nobody else is inside the gate, and while one is applied that came as a reader, no writer is. */
  lemma AppliedAlone(states: seq<State>, acts: seq<Action>, k: nat, a: Agent, x: nat, rw: Rw)
    requires Run(states, acts) && k < |states| && a in states[k].agents && Applies(states[k].agents[a], x)
    requires OnlyAs(acts[..k], x, rw)
    ensures rw == Writer ==> forall b :: b in states[k].agents && b != a ==> HoldsGate(states[k].agents[b]).None?
    ensures rw == Reader ==> forall b :: b in states[k].agents ==> HoldsGate(states[k].agents[b]) != Some(Writer)
  {
    RunLength(states, acts);
    hide Run, HoldsGate, Applies, OnlyAs;
    AppliedAsBrought(states, acts, k, a, x, rw);
    GateSafety(states, acts, k);
    var agents := states[k].agents;
    forall b | b in agents && HoldsGate(agents[b]) == Some(Writer) ensures a == b {
    }
  }

  lemma RunLength(states: seq<State>, acts: seq<Action>)
    requires Run(states, acts)
    ensures |states| == |acts| + 1
  {
  }

  lemma InHand(agents: map<Agent, Pc>, a: Agent, i: Item)
    requires a in agents && ItemOf(agents[a]) == Some(i)
    ensures |Who(agents, Has(i))| > 0
  {
    assert a in Who(agents, Has(i));
  }

  // ---- What being committed means ----

  /** Queue head and flags as the wake-up needs them: the head can proceed and the agent can have the mutex. */
  predicate Ripe(n: Node, a: Agent) {
    n.queue != [] && CanProceed(n.flags, n.queue[0]) && (n.mutex.None? || n.mutex == Some(a))
  }

  /** Or the agent is already inside the gate for the head, and has only to take it off. */
  predicate Ripening(n: Node, a: Agent, pc: Pc) {
    Ripe(n, a) || (pc.TRemove? && n.queue != [])
  }

  /** The head has been seen to: the node is on the worklist or on its way there in other hands, or the head has left. */
  predicate SeenTo(n: Node, pc: Pc, o: Out) {
    o.node.onList > 0 || (pc == WlFlag && n.workq) || |o.node.left| > |n.left|
  }

  /** How many more steps of its own a committed agent needs. */
  function Rank(f: Flags, pc: Pc): (r: nat)
    ensures r <= 9
  {
    match pc
    case WlInsert => 1 case WlFlag => 2 case Check => 3 case PostActive => 4 case PostLock => 5 case PostRead => 6
    case FHead => 1 case FLock => 2 case FUnlock => 3 case FClear => 4
    case TRemove(_) => 1 case TWriteCas => 2 case TReadCas(t) => if t == f then 2 else 4
    case TRead => 3 case TActive => 5 case TLock => 6 case TApply(_) => 7 case TUnlock(_) => 8 case TClear(_) => 9
    case _ => 0
  }

  /** The step sees to the head or brings the agent nearer to doing so. */
  predicate Nears(n: Node, a: Agent, pc: Pc, o: Out) {
    || SeenTo(n, pc, o)
    || (&& Knows(o.node, a, o.pc) && Committed(o.pc) && Ripening(o.node, a, o.pc)
        && Rank(o.node.flags, o.pc) < Rank(n.flags, pc))
  }

  lemma CheckingNears(n: Node, a: Agent, pc: Pc)
    requires Knows(n, a, pc) && Committed(pc) && Ripening(n, a, pc) && KindOf(pc).InCheck?
    ensures Nears(n, a, pc, CheckStep(n, a, pc))
  {
  }

  lemma DequeueingNears(n: Node, a: Agent, pc: Pc)
    requires Knows(n, a, pc) && Committed(pc) && Ripening(n, a, pc) && KindOf(pc).InDequeue?
    ensures Nears(n, a, pc, DequeueStep(n, pc))
  {
  }

  lemma ThreadingNears(n: Node, a: Agent, pc: Pc)
    requires Knows(n, a, pc) && Committed(pc) && Ripening(n, a, pc) && KindOf(pc).InThread?
    ensures Nears(n, a, pc, ThreadStep(n, a, pc))
  {
  }

  lemma FlushingNears(n: Node, a: Agent, pc: Pc)
    requires Knows(n, a, pc) && Committed(pc) && Ripening(n, a, pc) && KindOf(pc).InFlush?
    ensures Nears(n, a, pc, FlushStep(n, a, pc))
  {
  }

  /** Every step of a committed agent, left to itself, does. */
  lemma CommittedStep(n: Node, a: Agent, pc: Pc)
    requires Knows(n, a, pc) && Committed(pc) && Ripening(n, a, pc)
    ensures Nears(n, a, pc, StepAt(n, a, pc))
  {
    hide Knows, Ripening, Nears, SenderStep, CheckStep, DequeueStep, ThreadStep, FlushStep;
    match KindOf(pc)
    case InSender =>
    case InCheck => CheckingNears(n, a, pc);
    case InDequeue => DequeueingNears(n, a, pc);
    case InThread => ThreadingNears(n, a, pc);
    case InFlush => FlushingNears(n, a, pc);
  }

  /** m steps of agent a with nobody else moving. */
  function Solo(n: Node, a: Agent, pc: Pc, m: nat): (o: Out)
    decreases m
  {
    if m == 0 then Out(n, pc)
    else var o := StepAt(n, a, pc); Solo(o.node, a, o.pc, m - 1)
  }

  /** In every reachable state whose queue's head can proceed, an agent that is committed, and is left to itself with the
      mutex free or its own, sees to the head within 9 steps. */
  lemma CommittedDelivers(states: seq<State>, acts: seq<Action>, k: nat, a: Agent) returns (m: nat, o: Out)
    requires Run(states, acts) && k < |states| && a in states[k].agents && Committed(states[k].agents[a])
    requires Ripe(states[k].node, a)
    ensures m < 9 && o == Solo(states[k].node, a, states[k].agents[a], m)
    ensures SeenTo(o.node, o.pc, StepAt(o.node, a, o.pc))
  {
    RunInv(states, acts, k);
    InvKnows(states[k], a);
    m, o := Delivers(states[k].node, a, states[k].agents[a]);
  }

  lemma {:induction false} Delivers(n: Node, a: Agent, pc: Pc) returns (m: nat, o: Out)
    requires Knows(n, a, pc) && Committed(pc) && Ripening(n, a, pc)
    ensures m < Rank(n.flags, pc) && o == Solo(n, a, pc, m) && SeenTo(o.node, o.pc, StepAt(o.node, a, o.pc))
    decreases Rank(n.flags, pc)
  {
    hide Knows, Committed, Ripening, StepAt, SeenTo;
    CommittedStep(n, a, pc);
    CommittedRank(n.flags, pc);
    hide Rank;
    var next := StepAt(n, a, pc);
    if SeenTo(n, pc, next) {
      m, o := 0, Out(n, pc);
    } else {
      m, o := Delivers(next.node, a, next.pc);
      m := m + 1;
    }
  }

  lemma CommittedRank(f: Flags, pc: Pc)
    requires Committed(pc)
    ensures Rank(f, pc) > 0
  {
  }
}
