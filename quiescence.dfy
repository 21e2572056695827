/**
 * The debounce monitor of quiescenceMonitor.ts.  Values accumulate in `acm`; `hot` records
 * whether one of them passed the hotness check; every activity replaces the pending timer
 * by one due `timeout` milliseconds later, and when that timer fires the accumulated values
 * are handed to the callback if the window was hot, and dropped otherwise.
 *
 * The timer is the `deadline` (None when no timer is pending); the event loop is modelled
 * by `Run`, which lets a due timer fire before the next event is handled.
 */
module Quiescence {
  import opened Options

  datatype Monitor<T> = Monitor(acm: seq<T>, hot: bool, deadline: Option<int>)

  /** A fresh monitor: nothing accumulated, not hot, no timer. */
  function Idle<T>(): Monitor<T> { Monitor([], false, None) }

  /** Node's setTimeout runs a delay below 1 or above 2147483647 ms after 1 ms. */
  function Delay(timeout: int): (d: int)
    ensures d >= 1
    ensures 1 <= timeout <= 0x7FFF_FFFF ==> d == timeout
    ensures !(1 <= timeout <= 0x7FFF_FFFF) ==> d == 1
  {
    if timeout < 1 || timeout > 0x7FFF_FFFF then 1 else timeout
  }

  predicate AnyHot<T>(check: T -> bool, vals: seq<T>)
  {
    exists i :: 0 <= i < |vals| && check(vals[i])
  }

  /**
   * The monitor's invariant: `hot` says exactly whether some accumulated value passed the
   * check, and a timer is pending exactly when values are accumulated.
   */
  predicate Consistent<T>(m: Monitor<T>, check: T -> bool)
  {
    (m.hot <==> AnyHot(check, m.acm)) && (m.deadline.None? <==> m.acm == [])
  }

  /** activity(val) at time `now`: append, consult the check only while not hot, re-arm the timer. */
  function ActivityStep<T>(m: Monitor<T>, val: T, now: int, timeout: int, check: T -> bool): Monitor<T>
  {
    Monitor(m.acm + [val], if m.hot then true else check(val), Some(now + Delay(timeout)))
  }

  predicate Due<T>(m: Monitor<T>, now: int)
  {
    m.deadline.Some? && m.deadline.value <= now
  }

  /** The state after the timer is given the chance to fire at `now`, and what the callback received. */
  datatype Expiry<T> = Expiry(next: Monitor<T>, fired: bool, flushed: Option<seq<T>>)

  function ExpireStep<T>(m: Monitor<T>, now: int): Expiry<T>
  {
    if Due(m, now) then Expiry(Idle(), true, if m.hot then Some(m.acm) else None)
    else Expiry(m, false, None)
  }

  lemma ActivityKeepsConsistent<T>(m: Monitor<T>, val: T, now: int, timeout: int, check: T -> bool)
    requires Consistent(m, check)
    ensures Consistent(ActivityStep(m, val, now, timeout, check), check)
  {
    var acm := m.acm + [val];
    if check(val) {
      assert acm[|acm| - 1] == val;
    }
    if m.hot {
      var i :| 0 <= i < |m.acm| && check(m.acm[i]);
      assert acm[i] == m.acm[i];
    }
    if AnyHot(check, acm) {
      var i :| 0 <= i < |acm| && check(acm[i]);
      if i < |m.acm| {
        assert acm[i] == m.acm[i];
      }
    }
  }

  /**
   * Hotness is sticky: once hot, further activity keeps the window hot whatever the
   * values are, and the check is not what decides it.
   */
  lemma HotIsSticky<T>(m: Monitor<T>, val: T, now: int, timeout: int, check: T -> bool, other: T -> bool)
    requires m.hot
    ensures ActivityStep(m, val, now, timeout, check) == ActivityStep(m, val, now, timeout, other)
    ensures ActivityStep(m, val, now, timeout, check).hot
  {
  }

  /**
   * When the timer fires the callback receives the accumulated values exactly when one of
   * them was hot; either way the monitor is left empty, cold and without a timer.
   */
  lemma ExpiryFlushesHotWindows<T>(m: Monitor<T>, now: int, check: T -> bool)
    requires Consistent(m, check) && Due(m, now)
    ensures ExpireStep(m, now).fired && ExpireStep(m, now).next == Idle()
    ensures ExpireStep(m, now).flushed == if AnyHot(check, m.acm) then Some(m.acm) else None
    ensures Consistent(ExpireStep(m, now).next, check)
  {
  }

  datatype Event<T> = Act(val: T, at: int) | Tick(at: int)

  /** The state at the end of a run of events and the value lists the callback received, in order. */
  datatype Outcome<T> = Outcome(final: Monitor<T>, flushes: seq<seq<T>>)

  /** The event loop: before each event a due timer fires, then the event is handled. */
  function Run<T>(m: Monitor<T>, events: seq<Event<T>>, timeout: int, check: T -> bool): Outcome<T>
    decreases |events|
  {
    if events == [] then Outcome(m, [])
    else
      var e := events[0];
      var x := ExpireStep(m, e.at);
      var m' := if e.Act? then ActivityStep(x.next, e.val, e.at, timeout, check) else x.next;
      var rest := Run(m', events[1..], timeout, check);
      Outcome(rest.final, (if x.flushed.Some? then [x.flushed.value] else []) + rest.flushes)
  }

  /** The activities of a burst: value k arrives at time times[k]. */
  function Acts<T>(vals: seq<T>, times: seq<int>): (es: seq<Event<T>>)
    requires |vals| == |times|
    ensures |es| == |vals|
  {
    if vals == [] then [] else [Act(vals[0], times[0])] + Acts(vals[1..], times[1..])
  }

  /** An activity that arrives before the pending timer is due just replaces that timer. */
  lemma RunActNotDue<T>(m: Monitor<T>, v: T, t: int, rest: seq<Event<T>>, timeout: int, check: T -> bool)
    requires !Due(m, t)
    ensures Run(m, [Act(v, t)] + rest, timeout, check) == Run(ActivityStep(m, v, t, timeout, check), rest, timeout, check)
  {
    var es := [Act(v, t)] + rest;
    assert es[0] == Act(v, t) && es[1..] == rest;
    var r := Run(ActivityStep(m, v, t, timeout, check), rest, timeout, check);
    assert Run(m, es, timeout, check) == Outcome(r.final, [] + r.flushes);
    assert [] + r.flushes == r.flushes;
  }

  lemma AnyHotCons<T>(check: T -> bool, vals: seq<T>)
    requires vals != []
    ensures AnyHot(check, vals) <==> check(vals[0]) || AnyHot(check, vals[1..])
  {
    if AnyHot(check, vals[1..]) {
      var i :| 0 <= i < |vals[1..]| && check(vals[1..][i]);
      assert check(vals[i + 1]);
    }
    if AnyHot(check, vals) && !check(vals[0]) {
      var i :| 0 <= i < |vals| && check(vals[i]);
      assert vals[1..][i - 1] == vals[i];
    }
  }

  /**
   * A burst in which every value arrives before the timer armed by the previous one (or
   * the pending one) is due produces no callback: all values end up accumulated in order,
   * the window is hot iff it was or some value is, and one timer is pending.
   */
  lemma {:induction false} BurstAccumulates<T>(m: Monitor<T>, vals: seq<T>, times: seq<int>, timeout: int,
                                                check: T -> bool)
    requires |vals| == |times| > 0
    requires !Due(m, times[0])
    requires forall k :: 0 < k < |times| ==> times[k] < times[k - 1] + Delay(timeout)
    ensures Run(m, Acts(vals, times), timeout, check) ==
            Outcome(Monitor(m.acm + vals, m.hot || AnyHot(check, vals), Some(times[|times| - 1] + Delay(timeout))), [])
    decreases |vals|
  {
    var m' := ActivityStep(m, vals[0], times[0], timeout, check);
    var rest := Acts(vals[1..], times[1..]);
    assert Acts(vals, times) == [Act(vals[0], times[0])] + rest;
    RunActNotDue(m, vals[0], times[0], rest, timeout, check);
    AnyHotCons(check, vals);
    if |vals| == 1 {
      assert rest == [] && vals[1..] == [];
      assert m.acm + vals == m.acm + [vals[0]];
    } else {
      BurstAccumulates(m', vals[1..], times[1..], timeout, check);
      assert m.acm + [vals[0]] + vals[1..] == m.acm + vals;
    }
  }

  /**
   * Two activities closer together than the timeout give one callback with both values;
   * two activities separated by at least the timeout give two separate windows.
   */
  lemma CloseActivitiesMerge<T>(a: T, b: T, t1: int, t2: int, t3: int, timeout: int, check: T -> bool)
    requires t1 <= t2 < t1 + Delay(timeout) && t3 >= t2 + Delay(timeout)
    requires check(a) || check(b)
    ensures Run(Idle(), [Act(a, t1), Act(b, t2), Tick(t3)], timeout, check).flushes == [[a, b]]
  {
    var es: seq<Event<T>> := [Act(a, t1), Act(b, t2), Tick(t3)];
    var m1 := ActivityStep(Idle(), a, t1, timeout, check);
    var m2 := ActivityStep(m1, b, t2, timeout, check);
    assert es[1..] == [Act(b, t2), Tick(t3)] && es[1..][1..] == [Tick(t3)] && es[1..][1..][1..] == [];
    assert m2.acm == [a, b] && m2.hot;
    assert es[2..][1..] == [];
    assert Run(m2, [Tick(t3)], timeout, check) == Outcome(Idle(), [[a, b]]);
    assert Run(m1, es[1..], timeout, check).flushes == [[a, b]];
  }

  lemma SeparatedActivitiesSplit<T>(a: T, b: T, t1: int, t2: int, t3: int, timeout: int, check: T -> bool)
    requires t2 >= t1 + Delay(timeout) && t3 >= t2 + Delay(timeout)
    requires check(a) && check(b)
    ensures Run(Idle(), [Act(a, t1), Act(b, t2), Tick(t3)], timeout, check).flushes == [[a], [b]]
  {
    var es: seq<Event<T>> := [Act(a, t1), Act(b, t2), Tick(t3)];
    var m1 := ActivityStep(Idle(), a, t1, timeout, check);
    var m2 := ActivityStep(Idle(), b, t2, timeout, check);
    assert es[1..] == [Act(b, t2), Tick(t3)] && es[1..][1..] == [Tick(t3)] && es[1..][1..][1..] == [];
    assert m1.acm == [a] && m2.acm == [b];
    assert es[2..][1..] == [];
    assert Run(m2, [Tick(t3)], timeout, check) == Outcome(Idle(), [[b]]);
    assert ExpireStep(m1, t2) == Expiry(Idle(), true, Some([a]));
    assert Run(m1, es[1..], timeout, check).flushes == [[a], [b]];
  }

  class QuiescenceMonitor<T> {
    const timeout: int
    const hotnessCheck: T -> bool
    var acm: seq<T>
    var hot: bool
    var deadline: Option<int>

    function State(): Monitor<T>
      reads this
    {
      Monitor(acm, hot, deadline)
    }

    ghost predicate Valid()
      reads this
    {
      Consistent(State(), hotnessCheck)
    }

    constructor (timeout: int, hotnessCheck: T -> bool)
      ensures Valid() && State() == Idle()
      ensures this.timeout == timeout && this.hotnessCheck == hotnessCheck
    {
      this.timeout := timeout;
      this.hotnessCheck := hotnessCheck;
      acm := [];
      hot := false;
      deadline := None;
    }

    /** Cancels the pending timer, appends `val`, updates hotness and arms a new timer. */
    method Activity(val: T, now: int)
      requires Valid()
      modifies this
      ensures Valid()
      ensures State() == ActivityStep(old(State()), val, now, timeout, hotnessCheck)
    {
      ActivityKeepsConsistent(State(), val, now, timeout, hotnessCheck);
      deadline := None;
      acm := acm + [val];
      if !hot {
        hot := hotnessCheck(val);
      }
      deadline := Some(now + Delay(timeout));
    }

    /** The timer callback at time `now`; `flushed` is what the callback receives, if it is called. */
    method Expire(now: int) returns (fired: bool, flushed: Option<seq<T>>)
      requires Valid()
      modifies this
      ensures Valid()
      ensures ExpireStep(old(State()), now) == Expiry(State(), fired, flushed)
    {
      fired, flushed := false, None;
      if deadline.Some? && deadline.value <= now {
        fired := true;
        if hot {
          flushed := Some(acm);
        }
        acm := [];
        hot := false;
        deadline := None;
      }
    }
  }
}
