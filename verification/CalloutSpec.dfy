/** What the callout facility promises: a plain map from callouts to expiry ticks.
    Ticks are unbounded here; there is no wheel, no cursor and no wrap-around. */
module CalloutSpec {
  import opened Common

  type Id = nat      // address of a struct callout
  type Func = nat    // address of a handler; NULL is 0
  type Arg = nat
  type Work = (Func, Arg)   // a handler and the argument it is called with

  const NULL: Func := 0

  /** The calls a client or a handler can make. */
  datatype Cmd =
    | Reset(c: Id, toTicks: int, func: Func, arg: Arg, direct: bool)
    | Stop(c: Id)
    | Timeout(func: Func, arg: Arg, toTicks: int)
    | Untimeout(func: Func, arg: Arg, handle: Option<Id>)

  /** `due` is the whole schedule; `free` is the list of preallocated callouts; `what` remembers the
      handler and argument last stored in each callout, which is what untimeout compares. */
  datatype Sched = Sched(now: int, due: map<Id, int>, free: seq<Id>, what: map<Id, Work>, panicked: bool)

  function Delay(toTicks: int): (d: int)
    ensures d >= 1
  {
    if toTicks <= 0 then 1 else toTicks
  }

  /** Callers pass an `int` delay, own the callouts they reset or stop, and hold handles only to
      preallocated callouts (possibly stale ones). */
  predicate WellFormed(ids: set<Id>, local: set<Id>, cmd: Cmd) {
    match cmd
    case Reset(c, n, _, _, _) => c in ids && c !in local && -TWO31 <= n < TWO31
    case Stop(c) => c in ids && c !in local
    case Timeout(_, _, n) => -TWO31 <= n < TWO31
    case Untimeout(_, _, h) => h.Some? ==> h.value in local
  }

  function Schedule(s: Sched, c: Id, toTicks: int, func: Func, arg: Arg): Sched {
    s.(due := s.due[c := s.now + Delay(toTicks)], what := s.what[c := (func, arg)])
  }

  /** A preallocated callout goes back to the head of the free list and forgets its handler. */
  function Release(s: Sched, local: set<Id>, c: Id): Sched {
    if c in local && c in s.what then
      s.(free := [c] + s.free, what := s.what[c := (NULL, s.what[c].1)])
    else s
  }

  function Cancel(s: Sched, local: set<Id>, c: Id): Sched {
    if c in s.due then Release(s.(due := s.due - {c}), local, c) else s
  }

  function Exec(s: Sched, local: set<Id>, cmd: Cmd): Sched {
    if s.panicked then s else
    match cmd
    case Reset(c, n, f, a, _) => Schedule(s, c, n, f, a)
    case Stop(c) => Cancel(s, local, c)
    case Timeout(f, a, n) =>
      if s.free == [] then s.(panicked := true)
      else Schedule(s.(free := s.free[1..]), s.free[0], n, f, a)
    case Untimeout(f, a, h) =>
      if h.Some? && h.value in s.what && s.what[h.value] == (f, a) then Cancel(s, local, h.value) else s
  }

  function ExecAll(s: Sched, local: set<Id>, script: seq<Cmd>): Sched {
    if script == [] then s
    else Exec(ExecAll(s, local, script[..|script| - 1]), local, script[|script| - 1])
  }

  /** One handler invocation: which callout, the handler and argument, and the calls the handler made. */
  datatype Firing = Firing(c: Id, work: Work, script: seq<Cmd>)

  function Fire(s: Sched, local: set<Id>, f: Firing): Sched {
    var s' := ExecAll(s.(due := s.due - {f.c}), local, f.script);
    if s'.panicked then s' else Release(s', local, f.c)
  }

  function FireAll(s: Sched, local: set<Id>, fs: seq<Firing>): Sched {
    if fs == [] then s else Fire(FireAll(s, local, fs[..|fs| - 1]), local, fs[|fs| - 1])
  }

  /** A callout may run in a tick only when it expired in the tick just ended, and it runs what it holds. */
  predicate MayFire(s: Sched, ids: set<Id>, local: set<Id>, f: Firing) {
    && !s.panicked
    && f.c in s.due && s.due[f.c] == s.now - 1
    && f.c in s.what && s.what[f.c] == f.work
    && forall cmd :: cmd in f.script ==> WellFormed(ids, local, cmd)
  }

  predicate MayFireAll(s: Sched, ids: set<Id>, local: set<Id>, fs: seq<Firing>) {
    fs != [] ==>
      && MayFireAll(s, ids, local, fs[..|fs| - 1])
      && MayFire(FireAll(s, local, fs[..|fs| - 1]), ids, local, fs[|fs| - 1])
  }

  predicate NoneDue(s: Sched) {
    forall c :: c in s.due ==> s.due[c] != s.now - 1
  }

  /** A client call, or one clock tick with the handlers it ran, in order. */
  datatype Event = Call(cmd: Cmd) | Tick(fired: seq<Firing>)

  function Step(s: Sched, local: set<Id>, e: Event): Sched {
    match e
    case Call(cmd) => Exec(s, local, cmd)
    case Tick(fs) => if s.panicked then s else FireAll(s.(now := s.now + 1), local, fs)
  }

  /** A tick runs callouts that are due until none is left. The order is free. */
  predicate StepOk(s: Sched, ids: set<Id>, local: set<Id>, e: Event) {
    match e
    case Call(cmd) => WellFormed(ids, local, cmd)
    case Tick(fs) =>
      if s.panicked then fs == []
      else
        && MayFireAll(s.(now := s.now + 1), ids, local, fs)
        && var s' := FireAll(s.(now := s.now + 1), local, fs);
           s'.panicked || NoneDue(s')
  }

  function Run(s: Sched, local: set<Id>, evs: seq<Event>): Sched {
    if evs == [] then s else Step(Run(s, local, evs[..|evs| - 1]), local, evs[|evs| - 1])
  }

  predicate RunOk(s: Sched, ids: set<Id>, local: set<Id>, evs: seq<Event>) {
    evs != [] ==>
      && RunOk(s, ids, local, evs[..|evs| - 1])
      && StepOk(Run(s, local, evs[..|evs| - 1]), ids, local, evs[|evs| - 1])
  }

  // ---- Consequences of the schedule alone ----

  /** The call moves or cancels c while c holds w. An untimeout that names other work leaves c alone. */
  predicate Touches(cmd: Cmd, c: Id, w: Work) {
    match cmd
    case Reset(x, _, _, _, _) => x == c
    case Stop(x) => x == c
    case Timeout(_, _, _) => false
    case Untimeout(f, a, h) => h == Some(c) && (f, a) == w
  }

  /** No client call, and no handler other than c's own, resets or stops c. */
  predicate Untouched(e: Event, c: Id, w: Work) {
    match e
    case Call(cmd) => !Touches(cmd, c, w)
    case Tick(fs) => forall i :: 0 <= i < |fs| && fs[i].c != c ==> ScriptAvoids(fs[i].script, c, w)
  }

  predicate ScriptAvoids(script: seq<Cmd>, c: Id, w: Work) {
    forall i :: 0 <= i < |script| ==> !Touches(script[i], c, w)
  }

  function Count(fs: seq<Firing>, c: Id): (n: nat) {
    if fs == [] then 0 else Count(fs[..|fs| - 1], c) + if fs[|fs| - 1].c == c then 1 else 0
  }

  function Firings(evs: seq<Event>, c: Id): (n: nat) {
    if evs == [] then 0
    else Firings(evs[..|evs| - 1], c) + if evs[|evs| - 1].Tick? then Count(evs[|evs| - 1].fired, c) else 0
  }

  function Ticks(evs: seq<Event>): (n: nat) {
    if evs == [] then 0 else Ticks(evs[..|evs| - 1]) + if evs[|evs| - 1].Tick? then 1 else 0
  }

  /** The free list and the schedule partition the preallocated callouts, except for one that is running. */
  ghost predicate Balanced(s: Sched, local: set<Id>, running: Option<Id>) {
    && NoDup(s.free)
    && (forall c :: c in s.free ==> c in local && c !in s.due && running != Some(c))
    && (running.Some? && running.value in local ==> running.value !in s.due)
    && (forall c :: c in local ==> c in s.what && (c in s.free || c in s.due || running == Some(c)))
  }

  // Scripts keep what is not due not due.
  lemma {:induction false} ScriptKeepsNotDue(s: Sched, local: set<Id>, script: seq<Cmd>, c: Id)
    requires c in s.due ==> s.due[c] != s.now - 1
    ensures var s' := ExecAll(s, local, script);
            s'.now == s.now && (c in s'.due ==> s'.due[c] != s'.now - 1)
  {
    if script != [] {
      ScriptKeepsNotDue(s, local, script[..|script| - 1], c);
    }
  }

  lemma FiredIsNotDue(s: Sched, local: set<Id>, f: Firing)
    ensures var s' := Fire(s, local, f);
            s'.now == s.now && (f.c in s'.due ==> s'.due[f.c] != s'.now - 1)
  {
    ScriptKeepsNotDue(s.(due := s.due - {f.c}), local, f.script, f.c);
  }

  lemma {:induction false} FireAllKeeps(s: Sched, local: set<Id>, fs: seq<Firing>, c: Id)
    ensures FireAll(s, local, fs).now == s.now
    ensures (c in s.due ==> s.due[c] != s.now - 1) || Count(fs, c) > 0 ==>
              var s' := FireAll(s, local, fs); c in s'.due ==> s'.due[c] != s'.now - 1
  {
    if fs != [] {
      var p, f := fs[..|fs| - 1], fs[|fs| - 1];
      FireAllKeeps(s, local, p, c);
      FiredIsNotDue(FireAll(s, local, p), local, f);
      var m := FireAll(s, local, p);
      if c in m.due && m.due[c] == m.now - 1 {
      } else {
        ScriptKeepsNotDue(m.(due := m.due - {f.c}), local, f.script, c);
      }
    }
  }

  function DueAt(due: map<Id, int>, t: int): (r: set<Id>) {
    set c | c in due && due[c] == t
  }

  /** A handler can only shrink the set of callouts due in the current tick. */
  lemma FireShrinks(s: Sched, ids: set<Id>, local: set<Id>, f: Firing)
    requires MayFire(s, ids, local, f)
    ensures Fire(s, local, f).now == s.now
    ensures DueAt(Fire(s, local, f).due, s.now - 1) < DueAt(s.due, s.now - 1)
  {
    FiredIsNotDue(s, local, f);
    var s1 := s.(due := s.due - {f.c});
    forall c | c in DueAt(Fire(s, local, f).due, s.now - 1)
      ensures c in s.due && s.due[c] == s.now - 1
    {
      if c in s.due && s.due[c] == s.now - 1 {
      } else {
        ScriptKeepsNotDue(s1, local, f.script, c);
      }
    }
    assert f.c in DueAt(s.due, s.now - 1);
  }

  /** Whatever the handlers do, no callout runs twice in one tick. */
  lemma {:induction false} AtMostOncePerTick(s: Sched, ids: set<Id>, local: set<Id>, fs: seq<Firing>, c: Id)
    requires MayFireAll(s, ids, local, fs)
    ensures Count(fs, c) <= 1
    ensures Count(fs, c) == 1 ==> c in s.due && s.due[c] == s.now - 1
  {
    if fs != [] {
      var p := fs[..|fs| - 1];
      AtMostOncePerTick(s, ids, local, p, c);
      FireAllKeeps(s, local, p, c);
    }
  }

  /** c is on the schedule for tick d, to run w. */
  predicate Waiting(s: Sched, c: Id, d: int, w: Work) {
    c in s.due && s.due[c] == d && c !in s.free && c in s.what && s.what[c] == w
  }

  lemma {:induction false} ScriptKeepsWaiting(s: Sched, local: set<Id>, script: seq<Cmd>, c: Id, d: int, w: Work)
    requires Waiting(s, c, d, w) && ScriptAvoids(script, c, w)
    ensures Waiting(ExecAll(s, local, script), c, d, w)
    ensures ExecAll(s, local, script).now == s.now
  {
    if script != [] {
      var p := script[..|script| - 1];
      assert ScriptAvoids(p, c, w) by {
        forall i | 0 <= i < |p| ensures !Touches(p[i], c, w) { assert p[i] == script[i]; }
      }
      ScriptKeepsWaiting(s, local, p, c, d, w);
      ExecKeepsWaiting(ExecAll(s, local, p), local, script[|script| - 1], c, d, w);
    }
  }

  lemma ExecKeepsWaiting(s: Sched, local: set<Id>, cmd: Cmd, c: Id, d: int, w: Work)
    requires Waiting(s, c, d, w) && !Touches(cmd, c, w)
    ensures Waiting(Exec(s, local, cmd), c, d, w)
    ensures Exec(s, local, cmd).now == s.now
  {
    if cmd.Timeout? && !s.panicked && s.free != [] {
      assert s.free[0] in s.free;
    }
  }

  /** Every run of c in the tick runs w. */
  predicate RanAs(fs: seq<Firing>, c: Id, w: Work) {
    forall i :: 0 <= i < |fs| && fs[i].c == c ==> fs[i].work == w
  }

  lemma {:induction false} FiringsKeepWaiting(s: Sched, ids: set<Id>, local: set<Id>, fs: seq<Firing>, c: Id, d: int, w: Work)
    requires Waiting(s, c, d, w) && Untouched(Tick(fs), c, w) && MayFireAll(s, ids, local, fs)
    ensures Count(fs, c) == 0 ==> Waiting(FireAll(s, local, fs), c, d, w)
    ensures RanAs(fs, c, w)
  {
    if fs != [] {
      var p, f := fs[..|fs| - 1], fs[|fs| - 1];
      assert Untouched(Tick(p), c, w) by {
        forall i | 0 <= i < |p| && p[i].c != c ensures ScriptAvoids(p[i].script, c, w) { assert p[i] == fs[i]; }
      }
      FiringsKeepWaiting(s, ids, local, p, c, d, w);
      AtMostOncePerTick(s, ids, local, fs, c);
      assert forall i :: 0 <= i < |p| ==> fs[i] == p[i];
      var m := FireAll(s, local, p);
      if f.c != c && Count(p, c) == 0 {
        ScriptKeepsWaiting(m.(due := m.due - {f.c}), local, f.script, c, d, w);
      }
    }
  }

  /** The tick that follows d runs a waiting callout exactly once; an earlier tick leaves it waiting. */
  lemma TickRunsWhatIsDue(s: Sched, ids: set<Id>, local: set<Id>, fs: seq<Firing>, c: Id, d: int, w: Work)
    requires Waiting(s, c, d, w) && s.now <= d && !s.panicked
    requires StepOk(s, ids, local, Tick(fs)) && Untouched(Tick(fs), c, w)
    requires !Step(s, local, Tick(fs)).panicked
    ensures Step(s, local, Tick(fs)).now == s.now + 1
    ensures s.now < d ==> Count(fs, c) == 0 && Waiting(Step(s, local, Tick(fs)), c, d, w)
    ensures s.now == d ==> Count(fs, c) == 1 && RanAs(fs, c, w)
  {
    var s1 := s.(now := s.now + 1);
    AtMostOncePerTick(s1, ids, local, fs, c);
    FireAllKeeps(s1, local, fs, c);
    FiringsKeepWaiting(s1, ids, local, fs, c, d, w);
  }

  /** Over every run: a waiting callout that nobody else resets or stops does not run before tick d + 1
      and runs exactly once in it. */
  lemma {:induction false} RunsOnceOnTime(s: Sched, ids: set<Id>, local: set<Id>, evs: seq<Event>, c: Id, d: int, w: Work)
    requires RunOk(s, ids, local, evs) && !Run(s, local, evs).panicked
    requires Waiting(s, c, d, w) && s.now <= d
    requires forall i :: 0 <= i < |evs| ==> Untouched(evs[i], c, w)
    requires Ticks(evs) <= d - s.now || (Ticks(evs) == d - s.now + 1 && evs[|evs| - 1].Tick?)
    ensures !s.panicked && Run(s, local, evs).now == s.now + Ticks(evs)
    ensures Ticks(evs) <= d - s.now ==> Firings(evs, c) == 0 && Waiting(Run(s, local, evs), c, d, w)
    ensures Ticks(evs) == d - s.now + 1 ==>
              Firings(evs, c) == 1 && Count(evs[|evs| - 1].fired, c) == 1 && RanAs(evs[|evs| - 1].fired, c, w)
  {
    if evs != [] {
      var p, e := evs[..|evs| - 1], evs[|evs| - 1];
      var m := Run(s, local, p);
      forall i | 0 <= i < |p| ensures Untouched(p[i], c, w) { assert p[i] == evs[i]; }
      if m.panicked { StillPanicked(m, ids, local, e); assert false; }
      RunsOnceOnTime(s, ids, local, p, c, d, w);
      match e
      case Call(cmd) => ExecKeepsWaiting(m, local, cmd, c, d, w);
      case Tick(fs) => TickRunsWhatIsDue(m, ids, local, fs, c, d, w);
    }
  }

  lemma StillPanicked(s: Sched, ids: set<Id>, local: set<Id>, e: Event)
    requires s.panicked && StepOk(s, ids, local, e)
    ensures Step(s, local, e).panicked
  {
  }

  /** The call asks for w to run from c after n ticks: callout_reset on c itself, or timeout when c is the
      preallocated callout it hands out. */
  predicate Sets(s: Sched, cmd: Cmd, c: Id, n: int, w: Work) {
    match cmd
    case Reset(x, m, f, a, _) => x == c && m == n && (f, a) == w
    case Timeout(f, a, m) => s.free != [] && s.free[0] == c && m == n && (f, a) == w
    case Stop(_) => false
    case Untimeout(_, _, _) => false
  }

  lemma SetsWaiting(s: Sched, ids: set<Id>, local: set<Id>, cmd: Cmd, c: Id, n: int, w: Work)
    requires Sets(s, cmd, c, n, w) && WellFormed(ids, local, cmd) && !s.panicked && Balanced(s, local, None)
    ensures Waiting(Exec(s, local, cmd), c, s.now + (if n <= 0 then 1 else n), w)
    ensures Exec(s, local, cmd).now == s.now && !Exec(s, local, cmd).panicked
  {
    if cmd.Timeout? {
      assert forall i :: 0 <= i < |s.free[1..]| ==> s.free[1..][i] == s.free[i + 1];
    }
  }

  /** callout_reset or timeout with n ticks, at tick t: if nothing but c's own handler touches c afterwards,
      c's handler runs exactly once in the following max(n, 1) + 1 ticks, and it runs in the last of them,
      the tick that moves the clock to t + max(n, 1) + 1, with the handler and argument asked for. */
  lemma SetRunsOnce(s: Sched, ids: set<Id>, local: set<Id>, cmd: Cmd, evs: seq<Event>, c: Id, n: int, w: Work)
    requires Sets(s, cmd, c, n, w) && WellFormed(ids, local, cmd) && !s.panicked && Balanced(s, local, None)
    requires RunOk(Exec(s, local, cmd), ids, local, evs)
    requires !Run(Exec(s, local, cmd), local, evs).panicked
    requires forall i :: 0 <= i < |evs| ==> Untouched(evs[i], c, w)
    requires Ticks(evs) == (if n <= 0 then 1 else n) + 1 && evs[|evs| - 1].Tick?
    ensures Firings(evs, c) == 1 && Count(evs[|evs| - 1].fired, c) == 1 && RanAs(evs[|evs| - 1].fired, c, w)
    ensures Firings(evs[..|evs| - 1], c) == 0
    ensures Run(Exec(s, local, cmd), local, evs).now == s.now + (if n <= 0 then 1 else n) + 1
  {
    hide Balanced, Sets, Exec, WellFormed;
    SetsWaiting(s, ids, local, cmd, c, n, w);
    RunsOnceOnTime(Exec(s, local, cmd), ids, local, evs, c, s.now + (if n <= 0 then 1 else n), w);
  }

  // ---- Conservation of preallocated callouts ----

  lemma ReleaseBalanced(s: Sched, local: set<Id>, c: Id)
    requires Balanced(s, local, Some(c))
    ensures Balanced(Release(s, local, c), local, None)
  {
    if c in local {
      var t := Release(s, local, c);
      assert t.free[0] == c;
      forall x | x in local ensures x in t.free || x in t.due {
        if x != c && x in s.free { assert t.free[IndexOf(s.free, x) + 1] == x; }
      }
    }
  }

  lemma CancelBalanced(s: Sched, local: set<Id>, c: Id, running: Option<Id>)
    requires Balanced(s, local, running) && c in s.due
    ensures Balanced(Cancel(s, local, c), local, running)
  {
    var t := Cancel(s, local, c);
    if c in local {
      assert t.free[0] == c;
      forall x | x in local ensures x in t.free || x in t.due || running == Some(x) {
        if x != c && x in s.free { assert t.free[IndexOf(s.free, x) + 1] == x; }
      }
    }
  }

  lemma ExecBalanced(s: Sched, ids: set<Id>, local: set<Id>, cmd: Cmd, running: Option<Id>)
    requires Balanced(s, local, running) && WellFormed(ids, local, cmd)
    ensures Balanced(Exec(s, local, cmd), local, running)
  {
    if s.panicked { return; }
    match cmd
    case Reset(_, _, _, _, _) =>
    case Stop(c) => if c in s.due { CancelBalanced(s, local, c, running); }
    case Untimeout(_, _, h) => if h.Some? && h.value in s.due { CancelBalanced(s, local, h.value, running); }
    case Timeout(_, _, _) =>
      if s.free != [] {
        var t := Exec(s, local, cmd);
        assert s.free[0] in s.free;
        assert forall x :: x in t.free ==> x in s.free;
        forall x | x in local ensures x in t.free || x in t.due || running == Some(x) {
          if x in s.free && x != s.free[0] { assert t.free[IndexOf(s.free, x) - 1] == x; }
        }
      }
  }

  lemma {:induction false} ScriptBalanced(s: Sched, ids: set<Id>, local: set<Id>, script: seq<Cmd>, running: Option<Id>)
    requires Balanced(s, local, running)
    requires forall cmd :: cmd in script ==> WellFormed(ids, local, cmd)
    ensures Balanced(ExecAll(s, local, script), local, running)
  {
    if script != [] {
      ScriptBalanced(s, ids, local, script[..|script| - 1], running);
      ExecBalanced(ExecAll(s, local, script[..|script| - 1]), ids, local, script[|script| - 1], running);
    }
  }

  lemma StartBalanced(s: Sched, local: set<Id>, c: Id)
    requires Balanced(s, local, None) && c in s.due
    ensures Balanced(s.(due := s.due - {c}), local, Some(c))
  {
  }

  /** A handler may untimeout itself or use stale handles: the callout it ran from is freed once. */
  lemma FireBalanced(s: Sched, ids: set<Id>, local: set<Id>, f: Firing)
    requires Balanced(s, local, None) && MayFire(s, ids, local, f) && !Fire(s, local, f).panicked
    ensures Balanced(Fire(s, local, f), local, None)
  {
    var s1 := s.(due := s.due - {f.c});
    StartBalanced(s, local, f.c);
    ScriptBalanced(s1, ids, local, f.script, Some(f.c));
    ReleaseBalanced(ExecAll(s1, local, f.script), local, f.c);
  }

  lemma {:induction false} FireAllBalanced(s: Sched, ids: set<Id>, local: set<Id>, fs: seq<Firing>)
    requires Balanced(s, local, None) && MayFireAll(s, ids, local, fs) && !FireAll(s, local, fs).panicked
    ensures Balanced(FireAll(s, local, fs), local, None)
  {
    if fs != [] {
      FireAllBalanced(s, ids, local, fs[..|fs| - 1]);
      FireBalanced(FireAll(s, local, fs[..|fs| - 1]), ids, local, fs[|fs| - 1]);
    }
  }

  /** Over every run that does not exhaust the table, each preallocated callout is free or pending,
      never both, and the free list never holds one twice. */
  lemma {:induction false} RunBalanced(s: Sched, ids: set<Id>, local: set<Id>, evs: seq<Event>)
    requires Balanced(s, local, None) && RunOk(s, ids, local, evs) && !Run(s, local, evs).panicked
    ensures Balanced(Run(s, local, evs), local, None)
  {
    if evs != [] {
      var p, e := evs[..|evs| - 1], evs[|evs| - 1];
      var m := Run(s, local, p);
      if m.panicked { StillPanicked(m, ids, local, e); assert false; }
      RunBalanced(s, ids, local, p);
      match e
      case Call(cmd) => ExecBalanced(m, ids, local, cmd, None);
      case Tick(fs) => FireAllBalanced(m.(now := m.now + 1), ids, local, fs);
    }
  }

  lemma ExecPanicked(s: Sched, local: set<Id>, cmd: Cmd)
    ensures s.panicked ==> Exec(s, local, cmd) == s
  {
  }

  // ---- Growing a history ----

  lemma FireAppend(s: Sched, ids: set<Id>, local: set<Id>, fs: seq<Firing>, f: Firing)
    requires MayFireAll(s, ids, local, fs) && MayFire(FireAll(s, local, fs), ids, local, f)
    ensures MayFireAll(s, ids, local, fs + [f])
    ensures FireAll(s, local, fs + [f]) == Fire(FireAll(s, local, fs), local, f)
  {
    assert (fs + [f])[..|fs|] == fs;
  }

  lemma FireNone(s: Sched, ids: set<Id>, local: set<Id>)
    ensures MayFireAll(s, ids, local, []) && FireAll(s, local, []) == s
  {
  }

  lemma RunAppend(s: Sched, ids: set<Id>, local: set<Id>, evs: seq<Event>, e: Event)
    requires RunOk(s, ids, local, evs) && StepOk(Run(s, local, evs), ids, local, e)
    ensures RunOk(s, ids, local, evs + [e])
    ensures Run(s, local, evs + [e]) == Step(Run(s, local, evs), local, e)
  {
    assert (evs + [e])[..|evs|] == evs;
  }

  lemma RunNone(s: Sched, ids: set<Id>, local: set<Id>)
    ensures RunOk(s, ids, local, []) && Run(s, local, []) == s
  {
  }

  lemma {:induction false} RunSplit(s: Sched, ids: set<Id>, local: set<Id>, a: seq<Event>, b: seq<Event>)
    requires RunOk(s, ids, local, a + b)
    ensures RunOk(s, ids, local, a) && RunOk(Run(s, local, a), ids, local, b)
    ensures Run(s, local, a + b) == Run(Run(s, local, a), local, b)
  {
    if b == [] {
      assert a + b == a;
    } else {
      assert (a + b)[..|a + b| - 1] == a + b[..|b| - 1];
      RunSplit(s, ids, local, a, b[..|b| - 1]);
    }
  }

  lemma {:induction false} PanicIsFinal(s: Sched, ids: set<Id>, local: set<Id>, evs: seq<Event>)
    requires RunOk(s, ids, local, evs) && s.panicked
    ensures Run(s, local, evs).panicked
  {
    if evs != [] {
      PanicIsFinal(s, ids, local, evs[..|evs| - 1]);
    }
  }

  /** The same over a whole history: if event k sets c to run w after n ticks, no one but c's own handler
      touches c up to event j, and event j is the (max(n, 1) + 1)-st tick after k, then c runs in tick j,
      once, as w, and in no tick between. */
  lemma HistoryRunsOnce(s: Sched, ids: set<Id>, local: set<Id>, evs: seq<Event>, k: nat, j: nat, c: Id, n: int, w: Work)
    requires RunOk(s, ids, local, evs) && !Run(s, local, evs).panicked && Balanced(s, local, None)
    requires k < j < |evs| && evs[k].Call? && Sets(Run(s, local, evs[..k]), evs[k].cmd, c, n, w) && evs[j].Tick?
    requires forall i :: k < i <= j ==> Untouched(evs[i], c, w)
    requires Ticks(evs[k + 1..j + 1]) == (if n <= 0 then 1 else n) + 1
    ensures Firings(evs[k + 1..j], c) == 0 && Count(evs[j].fired, c) == 1 && RanAs(evs[j].fired, c, w)
    ensures Run(s, local, evs[..j + 1]).now == Run(s, local, evs[..k]).now + (if n <= 0 then 1 else n) + 1
  {
    hide Run, RunOk, Ticks, Firings, Count, Untouched, Balanced, StepOk, RanAs, Sets;
    var p := evs[..j + 1];
    CutAt(s, ids, local, evs, j + 1);
    NoPanicBefore(Run(s, local, p), ids, local, evs[j + 1..]);
    CutAt(s, ids, local, p, k);
    Slices(evs, k, j);
    RunBalanced(s, ids, local, evs[..k]) by { NoPanicBefore(Run(s, local, evs[..k]), ids, local, p[k..]); }
    AfterSet(Run(s, local, evs[..k]), ids, local, p[k..], c, n, w);
  }

  lemma Slices(evs: seq<Event>, k: nat, j: nat)
    requires k < j < |evs|
    ensures var p, b := evs[..j + 1], evs[k + 1..j + 1];
            && p[..k] == evs[..k] && p[k..][0] == evs[k] && p[k..][1..] == b
            && (forall i :: 0 <= i < |b| ==> b[i] == evs[k + 1 + i])
            && b[..|b| - 1] == evs[k + 1..j] && b[|b| - 1] == evs[j] && p[k..][|p[k..]| - 1] == evs[j]
  {
  }

  lemma CutAt(s: Sched, ids: set<Id>, local: set<Id>, evs: seq<Event>, k: nat)
    requires RunOk(s, ids, local, evs) && k <= |evs|
    ensures RunOk(s, ids, local, evs[..k]) && RunOk(Run(s, local, evs[..k]), ids, local, evs[k..])
    ensures Run(s, local, evs) == Run(Run(s, local, evs[..k]), local, evs[k..])
  {
    assert evs == evs[..k] + evs[k..];
    RunSplit(s, ids, local, evs[..k], evs[k..]);
  }

  lemma AfterSet(s: Sched, ids: set<Id>, local: set<Id>, evs: seq<Event>, c: Id, n: int, w: Work)
    requires Balanced(s, local, None) && RunOk(s, ids, local, evs) && !Run(s, local, evs).panicked
    requires |evs| > 1 && evs[0].Call? && Sets(s, evs[0].cmd, c, n, w) && evs[|evs| - 1].Tick?
    requires forall i :: 0 <= i < |evs[1..]| ==> Untouched(evs[1..][i], c, w)
    requires Ticks(evs[1..]) == (if n <= 0 then 1 else n) + 1
    ensures var b := evs[1..];
            Firings(b[..|b| - 1], c) == 0 && Count(b[|b| - 1].fired, c) == 1 && RanAs(b[|b| - 1].fired, c, w)
    ensures Run(s, local, evs).now == s.now + (if n <= 0 then 1 else n) + 1
  {
    hide Run, RunOk, Ticks, Firings, Count, Untouched, Balanced, RanAs, Sets;
    NoPanicBefore(s, ids, local, evs);
    CutAt(s, ids, local, evs, 1);
    assert evs[..1] == [evs[0]];
    RunOne(s, ids, local, evs[0]);
    SetRunsOnce(s, ids, local, evs[0].cmd, evs[1..], c, n, w);
  }

  lemma RunOne(s: Sched, ids: set<Id>, local: set<Id>, e: Event)
    requires RunOk(s, ids, local, [e])
    ensures Run(s, local, [e]) == Step(s, local, e) && StepOk(s, ids, local, e)
  {
    assert [e][..0] == [];
  }

  lemma NoPanicBefore(s: Sched, ids: set<Id>, local: set<Id>, evs: seq<Event>)
    requires RunOk(s, ids, local, evs) && !Run(s, local, evs).panicked
    ensures !s.panicked
  {
    if s.panicked { PanicIsFinal(s, ids, local, evs); }
  }

  // ---- What stopping achieves ----

  /** The call takes c off the schedule: callout_stop, or untimeout with the work c holds. */
  predicate Ends(s: Sched, cmd: Cmd, c: Id) {
    match cmd
    case Stop(x) => x == c
    case Untimeout(f, a, h) => h == Some(c) && c in s.what && s.what[c] == (f, a)
    case Reset(_, _, _, _, _) => false
    case Timeout(_, _, _) => false
  }

  /** The call can put c on the schedule. Any timeout may hand out a preallocated callout. */
  predicate Starts(cmd: Cmd, local: set<Id>, c: Id) {
    (cmd.Reset? && cmd.c == c) || (cmd.Timeout? && c in local)
  }

  predicate ScriptStarts(script: seq<Cmd>, local: set<Id>, c: Id) {
    exists i :: 0 <= i < |script| && Starts(script[i], local, c)
  }

  predicate Restarts(e: Event, local: set<Id>, c: Id) {
    match e
    case Call(cmd) => Starts(cmd, local, c)
    case Tick(fs) => exists i :: 0 <= i < |fs| && ScriptStarts(fs[i].script, local, c)
  }

  /** c cannot run until someone sets it again. */
  predicate Off(s: Sched, local: set<Id>, c: Id) {
    s.panicked || (c !in s.due && (c !in local ==> c !in s.free))
  }

  lemma ExecKeepsOff(s: Sched, local: set<Id>, cmd: Cmd, c: Id)
    requires Off(s, local, c) && !Starts(cmd, local, c)
    ensures Off(Exec(s, local, cmd), local, c)
  {
    if cmd.Timeout? && !s.panicked && s.free != [] {
      assert s.free[0] in s.free;
    }
  }

  lemma {:induction false} ScriptKeepsOff(s: Sched, local: set<Id>, script: seq<Cmd>, c: Id)
    requires Off(s, local, c) && !ScriptStarts(script, local, c)
    ensures Off(ExecAll(s, local, script), local, c)
  {
    if script != [] {
      var p := script[..|script| - 1];
      assert !ScriptStarts(p, local, c) by {
        forall i | 0 <= i < |p| ensures !Starts(p[i], local, c) { assert p[i] == script[i]; }
      }
      ScriptKeepsOff(s, local, p, c);
      ExecKeepsOff(ExecAll(s, local, p), local, script[|script| - 1], c);
    }
  }

  lemma {:induction false} FiringsKeepOff(s: Sched, ids: set<Id>, local: set<Id>, fs: seq<Firing>, c: Id)
    requires Off(s, local, c) && MayFireAll(s, ids, local, fs) && !Restarts(Tick(fs), local, c)
    ensures Count(fs, c) == 0 && Off(FireAll(s, local, fs), local, c)
  {
    if fs != [] {
      var p, f := fs[..|fs| - 1], fs[|fs| - 1];
      assert !Restarts(Tick(p), local, c) by {
        forall i | 0 <= i < |p| ensures !ScriptStarts(p[i].script, local, c) { assert p[i] == fs[i]; }
      }
      FiringsKeepOff(s, ids, local, p, c);
      var m := FireAll(s, local, p);
      ScriptKeepsOff(m.(due := m.due - {f.c}), local, f.script, c);
    }
  }

  /** Over every run: a callout that is off stays off, and never runs, while nobody sets it. */
  lemma {:induction false} OffNeverRuns(s: Sched, ids: set<Id>, local: set<Id>, evs: seq<Event>, c: Id)
    requires Off(s, local, c) && RunOk(s, ids, local, evs)
    requires forall i :: 0 <= i < |evs| ==> !Restarts(evs[i], local, c)
    ensures Firings(evs, c) == 0 && Off(Run(s, local, evs), local, c)
  {
    if evs != [] {
      var p, e := evs[..|evs| - 1], evs[|evs| - 1];
      forall i | 0 <= i < |p| ensures !Restarts(p[i], local, c) { assert p[i] == evs[i]; }
      OffNeverRuns(s, ids, local, p, c);
      var m := Run(s, local, p);
      match e
      case Call(cmd) => ExecKeepsOff(m, local, cmd, c);
      case Tick(fs) => FiringsKeepOff(m.(now := m.now + 1), ids, local, fs, c);
    }
  }

  lemma EndsIsOff(s: Sched, ids: set<Id>, local: set<Id>, cmd: Cmd, c: Id, running: Option<Id>)
    requires Ends(s, cmd, c) && WellFormed(ids, local, cmd) && (s.panicked || Balanced(s, local, running))
    ensures Off(Exec(s, local, cmd), local, c)
  {
  }

  /** Over every history: if event k stops c, or untimeouts the work it holds, then c does not run in any
      later event up to j, as long as no call and no handler up to j sets it again. */
  lemma HistoryStops(s: Sched, ids: set<Id>, local: set<Id>, evs: seq<Event>, k: nat, j: nat, c: Id)
    requires RunOk(s, ids, local, evs) && Balanced(s, local, None)
    requires k <= j < |evs| && evs[k].Call? && Ends(Run(s, local, evs[..k]), evs[k].cmd, c)
    requires forall i :: k < i <= j ==> !Restarts(evs[i], local, c)
    ensures Firings(evs[k + 1..j + 1], c) == 0
  {
    hide Run, RunOk, Firings, Balanced, Restarts, Ends, Off, Exec, WellFormed;
    var m := Run(s, local, evs[..k]);
    UpTo(s, ids, local, evs, k, j);
    if !m.panicked { RunBalanced(s, ids, local, evs[..k]); }
    EndsIsOff(m, ids, local, evs[k].cmd, c, None);
    var b := evs[k + 1..j + 1];
    forall i | 0 <= i < |b| ensures !Restarts(b[i], local, c) { assert b[i] == evs[k + 1 + i]; }
    OffNeverRuns(Step(m, local, evs[k]), ids, local, b, c);
  }

  // A history cut around event k: what comes before is a run, k is a step of it, and so is the rest up to j.
  lemma UpTo(s: Sched, ids: set<Id>, local: set<Id>, evs: seq<Event>, k: nat, j: nat)
    requires RunOk(s, ids, local, evs) && k <= j < |evs|
    ensures RunOk(s, ids, local, evs[..k]) && StepOk(Run(s, local, evs[..k]), ids, local, evs[k])
    ensures RunOk(Step(Run(s, local, evs[..k]), local, evs[k]), ids, local, evs[k + 1..j + 1])
    ensures Run(s, local, evs[..k + 1]) == Step(Run(s, local, evs[..k]), local, evs[k])
  {
    hide Run, RunOk, StepOk;
    CutAt(s, ids, local, evs, j + 1);
    var p := evs[..j + 1];
    CutAt(s, ids, local, p, k);
    CutAt(Run(s, local, p[..k]), ids, local, p[k..], 1);
    assert p[..k] == evs[..k] && p[k..][..1] == [evs[k]] && p[k..][1..] == evs[k + 1..j + 1];
    RunOne(Run(s, local, evs[..k]), ids, local, evs[k]);
    assert evs[..k + 1] == evs[..k] + [evs[k]];
    CutAt(s, ids, local, evs, k + 1);
    RunSplit(s, ids, local, evs[..k], [evs[k]]);
  }

  /** The schedule seen by call i of the script of the tick's firing m. */
  function Inside(s: Sched, local: set<Id>, fs: seq<Firing>, m: nat, i: nat): Sched
    requires m < |fs| && i <= |fs[m].script|
  {
    var t := FireAll(s, local, fs[..m]);
    ExecAll(t.(due := t.due - {fs[m].c}), local, fs[m].script[..i])
  }

  lemma {:induction false} ScriptSplit(s: Sched, local: set<Id>, a: seq<Cmd>, b: seq<Cmd>)
    ensures ExecAll(s, local, a + b) == ExecAll(ExecAll(s, local, a), local, b)
  {
    if b == [] {
      assert a + b == a;
    } else {
      assert (a + b)[..|a + b| - 1] == a + b[..|b| - 1];
      ScriptSplit(s, local, a, b[..|b| - 1]);
    }
  }

  lemma {:induction false} FireSplit(s: Sched, ids: set<Id>, local: set<Id>, a: seq<Firing>, b: seq<Firing>)
    requires MayFireAll(s, ids, local, a + b)
    ensures MayFireAll(s, ids, local, a) && MayFireAll(FireAll(s, local, a), ids, local, b)
    ensures FireAll(s, local, a + b) == FireAll(FireAll(s, local, a), local, b)
  {
    if b == [] {
      assert a + b == a;
    } else {
      assert (a + b)[..|a + b| - 1] == a + b[..|b| - 1];
      FireSplit(s, ids, local, a, b[..|b| - 1]);
    }
  }

  // The tick cut around firing m.
  lemma FireCut(s: Sched, ids: set<Id>, local: set<Id>, fs: seq<Firing>, m: nat)
    requires MayFireAll(s, ids, local, fs) && m < |fs|
    ensures MayFireAll(s, ids, local, fs[..m]) && MayFire(FireAll(s, local, fs[..m]), ids, local, fs[m])
    ensures var t := Fire(FireAll(s, local, fs[..m]), local, fs[m]);
            MayFireAll(t, ids, local, fs[m + 1..]) && FireAll(s, local, fs) == FireAll(t, local, fs[m + 1..])
  {
    assert fs == fs[..m + 1] + fs[m + 1..];
    hide Fire, MayFire;
    FireSplit(s, ids, local, fs[..m + 1], fs[m + 1..]);
    var one := fs[..m + 1];
    assert one[..|one| - 1] == fs[..m] && one[|one| - 1] == fs[m];
    assert FireAll(s, local, one) == Fire(FireAll(s, local, fs[..m]), local, fs[m]);
  }

  lemma InsideBalanced(s: Sched, ids: set<Id>, local: set<Id>, fs: seq<Firing>, m: nat, i: nat)
    requires MayFireAll(s, ids, local, fs) && m < |fs| && i < |fs[m].script| && Balanced(s, local, None)
    ensures Balanced(Inside(s, local, fs, m, i), local, Some(fs[m].c)) && WellFormed(ids, local, fs[m].script[i])
  {
    hide Balanced;
    FireCut(s, ids, local, fs, m);
    FireAllBalanced(s, ids, local, fs[..m]);
    var t := FireAll(s, local, fs[..m]);
    StartBalanced(t, local, fs[m].c);
    ScriptBalanced(t.(due := t.due - {fs[m].c}), ids, local, fs[m].script[..i], Some(fs[m].c));
  }

  /** A firing whose script ends c at call i, and does not set it afterwards, leaves c off. */
  lemma ScriptEnds(s: Sched, ids: set<Id>, local: set<Id>, fs: seq<Firing>, m: nat, i: nat, c: Id)
    requires MayFireAll(s, ids, local, fs) && m < |fs| && i < |fs[m].script| && Balanced(s, local, None)
    requires Ends(Inside(s, local, fs, m, i), fs[m].script[i], c)
    requires !ScriptStarts(fs[m].script[i + 1..], local, c)
    ensures Off(Fire(FireAll(s, local, fs[..m]), local, fs[m]), local, c)
  {
    hide Balanced, Ends, ScriptStarts, WellFormed, MayFireAll, Exec, FireAll;
    var script := fs[m].script;
    var t := FireAll(s, local, fs[..m]);
    var t1 := t.(due := t.due - {fs[m].c});
    InsideBalanced(s, ids, local, fs, m, i);
    EndsIsOff(Inside(s, local, fs, m, i), ids, local, script[i], c, Some(fs[m].c));
    assert script[..i + 1][..i] == script[..i];
    assert script == script[..i + 1] + script[i + 1..];
    ScriptSplit(t1, local, script[..i + 1], script[i + 1..]);
    ScriptKeepsOff(ExecAll(t1, local, script[..i + 1]), local, script[i + 1..], c);
  }

  /** The same for a stop made by a handler: if call i of firing m of tick k ends c, then c does not run in
      the rest of that tick, nor in any later event up to j, as long as nobody sets it again. */
  lemma HandlerStops(s: Sched, ids: set<Id>, local: set<Id>, evs: seq<Event>, k: nat, j: nat, m: nat, i: nat, c: Id)
    requires RunOk(s, ids, local, evs) && Balanced(s, local, None)
    requires k <= j < |evs| && evs[k].Tick? && m < |evs[k].fired| && i < |evs[k].fired[m].script|
    requires var t := Run(s, local, evs[..k]);
             Ends(Inside(t.(now := t.now + 1), local, evs[k].fired, m, i), evs[k].fired[m].script[i], c)
    requires !ScriptStarts(evs[k].fired[m].script[i + 1..], local, c)
    requires !Restarts(Tick(evs[k].fired[m + 1..]), local, c)
    requires forall x :: k < x <= j ==> !Restarts(evs[x], local, c)
    ensures Count(evs[k].fired[m + 1..], c) == 0 && Firings(evs[k + 1..j + 1], c) == 0
  {
    hide Run, RunOk, Firings, Count, Balanced, Restarts, Ends, Off, ScriptStarts, MayFireAll, FireAll, Inside, NoneDue;
    var t, fs := Run(s, local, evs[..k]), evs[k].fired;
    UpTo(s, ids, local, evs, k, j);
    var t1 := t.(now := t.now + 1);
    RunBalanced(s, ids, local, evs[..k]);
    NowBalanced(t, local, None);
    FireCut(t1, ids, local, fs, m);
    ScriptEnds(t1, ids, local, fs, m, i, c);
    FiringsKeepOff(Fire(FireAll(t1, local, fs[..m]), local, fs[m]), ids, local, fs[m + 1..], c);
    var b := evs[k + 1..j + 1];
    forall x | 0 <= x < |b| ensures !Restarts(b[x], local, c) { assert b[x] == evs[k + 1 + x]; }
    OffNeverRuns(Step(t, local, evs[k]), ids, local, b, c);
  }

  lemma NowBalanced(s: Sched, local: set<Id>, running: Option<Id>)
    requires Balanced(s, local, running)
    ensures Balanced(s.(now := s.now + 1), local, running)
  {
  }

  /** timeout(f, a, n) at event k, then untimeout(f, a) on the handle at event m, before it ran: the handler
      does not run at all, up to any event j before which no one calls timeout again. */
  lemma UntimeoutInTime(s: Sched, ids: set<Id>, local: set<Id>, evs: seq<Event>, k: nat, m: nat, j: nat, c: Id, n: int, w: Work)
    requires RunOk(s, ids, local, evs) && !Run(s, local, evs).panicked && Balanced(s, local, None)
    requires k < m <= j < |evs| && evs[k].Call? && Sets(Run(s, local, evs[..k]), evs[k].cmd, c, n, w)
    requires evs[m] == Call(Untimeout(w.0, w.1, Some(c)))
    requires forall i :: k < i < m ==> Untouched(evs[i], c, w)
    requires Ticks(evs[k + 1..m]) <= if n <= 0 then 1 else n
    requires forall i :: m < i <= j ==> !Restarts(evs[i], local, c)
    ensures Firings(evs[k + 1..m], c) == 0 && Firings(evs[m + 1..j + 1], c) == 0
  {
    hide Run, RunOk, Ticks, Firings, Untouched, Balanced, Sets, Restarts, StepOk, WellFormed, Exec, Off;
    CutAt(s, ids, local, evs, m);
    NoPanicBefore(Run(s, local, evs[..m]), ids, local, evs[m..]);
    StillWaiting(s, ids, local, evs[..m], k, c, n, w) by {
      assert evs[..m][..k] == evs[..k] && evs[..m][k + 1..] == evs[k + 1..m];
    }
    assert evs[..m][k + 1..] == evs[k + 1..m];
    HistoryStops(s, ids, local, evs, m, j, c);
  }

  // Until its tick comes, a callout set at event k is still waiting, and has not run.
  lemma StillWaiting(s: Sched, ids: set<Id>, local: set<Id>, evs: seq<Event>, k: nat, c: Id, n: int, w: Work)
    requires RunOk(s, ids, local, evs) && !Run(s, local, evs).panicked && Balanced(s, local, None)
    requires k < |evs| && evs[k].Call? && Sets(Run(s, local, evs[..k]), evs[k].cmd, c, n, w)
    requires forall i :: k < i < |evs| ==> Untouched(evs[i], c, w)
    requires Ticks(evs[k + 1..]) <= if n <= 0 then 1 else n
    ensures Firings(evs[k + 1..], c) == 0
    ensures Waiting(Run(s, local, evs), c, Run(s, local, evs[..k]).now + (if n <= 0 then 1 else n), w)
  {
    hide Run, RunOk, Ticks, Firings, Untouched, Balanced, Sets, WellFormed, Exec, Waiting;
    var t := Run(s, local, evs[..k]);
    UpTo(s, ids, local, evs, k, |evs| - 1);
    CutAt(s, ids, local, evs, k);
    NoPanicBefore(t, ids, local, evs[k..]);
    RunBalanced(s, ids, local, evs[..k]);
    SetsWaiting(t, ids, local, evs[k].cmd, c, n, w);
    CutAt(s, ids, local, evs, k + 1);
    assert evs[k + 1..|evs|] == evs[k + 1..];
    var b := evs[k + 1..];
    forall i | 0 <= i < |b| ensures Untouched(b[i], c, w) { assert b[i] == evs[k + 1 + i]; }
    RunsOnceOnTime(Step(t, local, evs[k]), ids, local, b, c, t.now + (if n <= 0 then 1 else n), w);
  }
}
