/** Interval timers: itimerfix and itimerdecr. */
module Itimer {
  import opened Bits
  import opened Common

  const MICRO := 1_000_000

  datatype Timeval = Timeval(sec: int, usec: int) {
    predicate Normal() { 0 <= usec < MICRO }
    predicate IsSet() { sec != 0 || usec != 0 }
    function Micros(): (m: int) { sec * MICRO + usec }
  }

  /** r is None exactly for a malformed value; a time shorter than a tick but not zero becomes a tick, any other stays. */
  predicate Fixed(tv: Timeval, tick: nat, r: Option<Timeval>) {
    && (r.None? <==> tv.sec < 0 || !tv.Normal())
    && (r.Some? ==> r.value.Normal() && r.value.sec >= 0
                    && r.value.Micros() == if 0 < tv.Micros() < tick then tick else tv.Micros())
  }

  /** itimerfix: refuses exactly the malformed values; a shorter time than the clock's resolution becomes one tick. */
  method Fix(tv: Timeval, tick: nat) returns (r: Option<Timeval>)
    requires 0 < tick < MICRO
    ensures Fixed(tv, tick, r)
  {
    if tv.sec < 0 || tv.usec < 0 || tv.usec >= MICRO {
      return None;
    }
    var v := tv;
    if v.sec == 0 && v.usec != 0 && v.usec < tick {
      v := v.(usec := tick);
    }
    r := Some(v);
  }

  /** One call in microseconds: what is left, or what is left of the next interval. A value below zero only sinks. */
  function Next(value: int, interval: int, usec: int): (v: int) {
    if Runs(value, usec) then value - usec
    else if interval == 0 then 0
    else interval - (usec - value)
  }

  /** The call does not find the timer expired. */
  predicate Runs(value: int, usec: int) { value > usec || value < 0 }

  class Itimerval {
    var value: Timeval
    var interval: Timeval

    constructor (value: Timeval, interval: Timeval)
      ensures this.value == value && this.interval == interval
    {
      this.value, this.interval := value, interval;
    }

    /** itimerdecr. The value it leaves is normalised; a value that was not negative becomes so exactly when a non-zero
        interval is shorter than what is carried over. */
    method Decr(usec0: int) returns (running: bool)
      requires value.Normal() && interval.Normal() && interval.sec >= 0 && 0 < usec0 < MICRO
      modifies `value
      ensures value.Normal() && value.Micros() == Next(old(value).Micros(), interval.Micros(), usec0)
      ensures running <==> Runs(old(value).Micros(), usec0)
      ensures old(value).sec >= 0 ==> (value.sec < 0 <==> 0 < interval.Micros() < usec0 - old(value).Micros())
    {
      var usec := usec0;
      if value.usec < usec {
        if value.sec == 0 {
          usec := usec - value.usec;
          Expire(usec);
          return false;
        }
        value := Timeval(value.sec - 1, value.usec + MICRO);
      }
      value := value.(usec := value.usec - usec);
      if value.IsSet() {
        return true;
      }
      Expire(0);
      running := false;
    }

    /** The tail of itimerdecr: reload, less what was carried over. */
    method Expire(usec: int)
      requires value.sec == 0 && interval.Normal() && interval.sec >= 0 && 0 <= usec < MICRO
      modifies `value
      ensures value.Normal() && value.Micros() == if interval.Micros() == 0 then 0 else interval.Micros() - usec
      ensures value.sec < 0 <==> 0 < interval.Micros() < usec
    {
      if interval.IsSet() {
        value := interval;
        value := value.(usec := value.usec - usec);
        if value.usec < 0 {
          value := Timeval(value.sec - 1, value.usec + MICRO);
        }
      } else {
        value := value.(usec := 0);
      }
    }
  }

  // ---- Runs ----

  function Sum(us: seq<int>): (t: int) {
    if us == [] then 0 else Sum(us[..|us| - 1]) + us[|us| - 1]
  }

  /** The value and the number of expiries after the calls with decrements `us`. */
  function Run(value: int, interval: int, us: seq<int>): (r: (int, nat)) {
    if us == [] then (value, 0)
    else
      var (v, e) := Run(value, interval, us[..|us| - 1]);
      var u := us[|us| - 1];
      (Next(v, interval, u), if Runs(v, u) then e else e + 1)
  }

  /** The number of expiry times value, value + interval, value + 2 * interval, ... that are not after t. */
  function Due(value: int, interval: int, t: int): (e: int)
    requires interval > 0
  {
    if t < value then 0 else (t - value) / interval + 1
  }

  /** Over any run the value is the initial value, less the time elapsed, plus an interval for each expiry, and never
      more than the interval once the timer has expired. */
  lemma {:induction false} Account(value: int, interval: int, us: seq<int>)
    requires interval > 0 && forall i :: 0 <= i < |us| ==> 0 < us[i]
    ensures var (v, e) := Run(value, interval, us);
            v == value - Sum(us) + e * interval && v <= if e == 0 then value else interval
  {
    if us != [] {
      var n := |us| - 1;
      Account(value, interval, us[..n]);
      var (v0, e0) := Run(value, interval, us[..n]);
      assert (e0 + 1) * interval == e0 * interval + interval;
    }
  }

  /** A timer without an interval counts down to zero, reaches it in the call that uses up its value, and stays there:
      every call from then on finds it expired. */
  lemma {:induction false} OneShot(value: int, us: seq<int>)
    requires value >= 0 && forall i :: 0 <= i < |us| ==> 0 < us[i]
    ensures Run(value, 0, us).0 == if Sum(us) < value then value - Sum(us) else 0
    ensures Run(value, 0, us).1 == 0 <==> us == [] || Sum(us) < value
  {
    if us != [] {
      var n := |us| - 1;
      OneShot(value, us[..n]);
      SumPositive(us[..n]);
    }
  }

  lemma {:induction false} SumPositive(us: seq<int>)
    requires forall i :: 0 <= i < |us| ==> 0 < us[i]
    ensures Sum(us) >= 0
  {
    if us != [] { SumPositive(us[..|us| - 1]); }
  }

  /** The expiries seen are those due exactly while the value is positive. */
  lemma PositiveIsOnTime(value: int, interval: int, us: seq<int>)
    requires interval > 0 && forall i :: 0 <= i < |us| ==> 0 < us[i]
    ensures var (v, e) := Run(value, interval, us);
            e == Due(value, interval, Sum(us)) <==> v > 0
  {
    Account(value, interval, us);
    var (v, e) := Run(value, interval, us);
    var t := Sum(us);
    if v > 0 {
      if e > 0 {
        assert t - value == (e - 1) * interval + (interval - v);
        DivUnique(t - value, e - 1, interval - v, interval);
      }
    } else {
      AtLeast(t - value, e, interval);
    }
  }

  lemma AtLeast(x: int, e: nat, n: nat)
    requires n > 0 && x >= e * n
    ensures x >= 0 && x / n >= e
  {
    MulPos(e, n);
    var q := x / n;
    assert x == q * n + x % n;
    if q < e { MulMono(e - q, n); }
  }

  lemma MulPos(e: nat, n: nat)
    ensures e * n >= 0
  {
  }

  /** Fewer than e + 1 expiries are due exactly before the (e + 1)-st due time. */
  lemma DueBefore(value: int, interval: int, t: int, e: nat)
    requires interval > 0
    ensures Due(value, interval, t) <= e <==> t < value + e * interval
  {
    MulPos(e, interval);
    if t >= value {
      var x := t - value;
      if x >= e * interval { AtLeast(x, e, interval); } else { Below(x, e, interval); }
    }
  }

  lemma Below(x: int, e: nat, n: nat)
    requires n > 0 && 0 <= x < e * n
    ensures x / n < e
  {
    var q, r := x / n, x % n;
    Divide(x, n);
    MulNeg(e - q, n);
    assert (e - q) * n == e * n - q * n;
  }

  lemma MulNeg(a: int, n: nat)
    ensures a <= 0 ==> a * n <= 0
  {
  }

  /** The expiries seen after the first k calls are those due. */
  ghost predicate OnTime(value: int, interval: int, us: seq<int>, k: nat)
    requires k <= |us| && interval > 0
  {
    Run(value, interval, us[..k]).1 == Due(value, interval, Sum(us[..k]))
  }

  /** Call k passes at most one due time. */
  ghost predicate OneDue(value: int, interval: int, us: seq<int>, k: nat)
    requires k < |us| && interval > 0
  {
    Due(value, interval, Sum(us[..k + 1])) <= Due(value, interval, Sum(us[..k])) + 1
  }

  lemma {:induction false} Prefix(value: int, interval: int, us: seq<int>, k: nat)
    requires k < |us|
    ensures Sum(us[..k + 1]) == Sum(us[..k]) + us[k]
    ensures var (v, e), (v', e') := Run(value, interval, us[..k]), Run(value, interval, us[..k + 1]);
            v' == Next(v, interval, us[k]) && e' == if Runs(v, us[k]) then e else e + 1
  {
    var p := us[..k + 1];
    assert p[..|p| - 1] == us[..k] && p[|p| - 1] == us[k];
  }

  /** A call that passes at most one due time keeps the timer on time. */
  lemma OnTimeStep(value: int, interval: int, us: seq<int>, k: nat)
    requires interval > 0 && k < |us| && (forall i :: 0 <= i < |us| ==> 0 < us[i])
    requires OnTime(value, interval, us, k) && OneDue(value, interval, us, k)
    ensures OnTime(value, interval, us, k + 1)
  {
    hide Run, Sum, Due;
    var (v, e) := Run(value, interval, us[..k]);
    var t := Sum(us[..k]);
    assert forall i :: 0 <= i < k ==> us[..k][i] == us[i];
    assert forall i :: 0 <= i < k + 1 ==> us[..k + 1][i] == us[i];
    Account(value, interval, us[..k]);
    PositiveIsOnTime(value, interval, us[..k]);
    Prefix(value, interval, us, k);
    PositiveIsOnTime(value, interval, us[..k + 1]);
    DueBefore(value, interval, t + us[k], e + 1);
    Next1(e, interval);
  }

  lemma Next1(e: nat, n: int)
    ensures (e + 1) * n == e * n + n
  {
  }

  /** Interval timers do not drift, exactly as long as no call passes two due times: after every call of a run the expiries
      seen are those due, if and only if the time elapsed never gets past two due times in one call. */
  lemma OnTimeIff(value: int, interval: int, us: seq<int>)
    requires value > 0 && interval > 0 && forall i :: 0 <= i < |us| ==> 0 < us[i]
    ensures (forall k: nat :: k <= |us| ==> OnTime(value, interval, us, k))
       <==> (forall k: nat :: k < |us| ==> OneDue(value, interval, us, k))
  {
    if forall k: nat :: k <= |us| ==> OnTime(value, interval, us, k) {
      forall k: nat | k < |us| ensures OneDue(value, interval, us, k) {
        assert OnTime(value, interval, us, k) && OnTime(value, interval, us, k + 1);
        Prefix(value, interval, us, k);
      }
    }
    if forall k: nat :: k < |us| ==> OneDue(value, interval, us, k) {
      forall k: nat | k <= |us| ensures OnTime(value, interval, us, k) { OnTimeUpTo(value, interval, us, k); }
    }
  }

  lemma {:induction false} OnTimeUpTo(value: int, interval: int, us: seq<int>, k: nat)
    requires value > 0 && interval > 0 && k <= |us| && forall i :: 0 <= i < |us| ==> 0 < us[i]
    requires forall i: nat :: i < |us| ==> OneDue(value, interval, us, i)
    ensures OnTime(value, interval, us, k)
  {
    if k == 0 {
      assert us[..0] == [];
    } else {
      OnTimeUpTo(value, interval, us, k - 1);
      OnTimeStep(value, interval, us, k - 1);
    }
  }

  /** In particular, while no step is longer than the interval, the k-th expiry is in the call in which the time elapsed
      reaches value + (k - 1) * interval. */
  lemma {:induction false} NoDrift(value: int, interval: int, us: seq<int>)
    requires value > 0 && forall i :: 0 <= i < |us| ==> 0 < us[i] <= interval
    requires interval > 0
    ensures var (v, e) := Run(value, interval, us); v > 0 && e == Due(value, interval, Sum(us))
  {
    if us != [] { NoDrift(value, interval, us[..|us| - 1]); }
    PositiveIsOnTime(value, interval, us);
  }

  /** Timers set up through itimerfix and decremented by at most a tick at a time never drift. */
  lemma FixedNeverDrifts(asked: Timeval, interval: Timeval, value: int, tick: nat, us: seq<int>)
    requires 0 < tick < MICRO && value > 0 && Fixed(asked, tick, Some(interval)) && interval.IsSet()
    requires forall i :: 0 <= i < |us| ==> 0 < us[i] <= tick
    ensures interval.Micros() > 0
    ensures var (v, e) := Run(value, interval.Micros(), us); v > 0 && e == Due(value, interval.Micros(), Sum(us))
  {
    NoDrift(value, interval.Micros(), us);
  }

  /** Once the value is below zero no call sees an expiry again. */
  lemma {:induction false} NeverAgain(value: int, interval: int, us: seq<int>)
    requires value < 0 && forall i :: 0 <= i < |us| ==> 0 < us[i]
    ensures Run(value, interval, us) == (value - Sum(us), 0) && value - Sum(us) < 0
  {
    if us != [] { NeverAgain(value, interval, us[..|us| - 1]); }
  }

  /** A timer of one tick, decremented by three ticks at once, ends below zero with two expiries missed. */
  lemma LongStep(tick: int)
    requires 0 < tick && 3 * tick < MICRO
    ensures Run(tick, tick, [3 * tick]) == (-tick, 1) && Due(tick, tick, Sum([3 * tick])) == 3
  {
    var us := [3 * tick];
    assert us[..0] == [] && Sum(us) == 3 * tick;
    DivUnique(2 * tick, 2, 0, tick);
  }
}
