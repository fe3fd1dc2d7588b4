/** The per-client rate limit: a window of one second that restarts at the first order after it ends. */
module RateLimit {
  import opened Bits

  const WINDOW := 1_000_000_000

  datatype Gate = Gate(inWindow: nat, start: nat)

  /** The gate after its window, if over, has been restarted. */
  function Rolled(g: Gate, now: nat): Gate {
    if (now - g.start) % TWO_64 >= WINDOW then Gate(0, now) else g
  }

  predicate Admits(g: Gate, now: nat, max: nat) {
    Rolled(g, now).inWindow < max
  }

  function Admit(g: Gate, now: nat, max: nat): Gate {
    var r := Rolled(g, now);
    if r.inWindow < max then Gate(r.inWindow + 1, r.start) else r
  }

  /** How many of `times` lie in the half-open interval. */
  function Count(times: seq<nat>, lo: int, hi: int): nat {
    if times == [] then 0
    else Count(times[..|times| - 1], lo, hi) + if lo <= times[|times| - 1] < hi then 1 else 0
  }

  lemma {:induction false} CountSnoc(times: seq<nat>, t: nat, lo: int, hi: int)
    ensures Count(times + [t], lo, hi) == Count(times, lo, hi) + if lo <= t < hi then 1 else 0
  {
  }

  lemma {:induction false} CountSplits(times: seq<nat>, lo: int, mid: int, hi: int)
    requires lo <= mid <= hi
    ensures Count(times, lo, hi) == Count(times, lo, mid) + Count(times, mid, hi)
  {
    if times != [] {
      CountSplits(times[..|times| - 1], lo, mid, hi);
    }
  }

  lemma {:induction false} CountWidens(times: seq<nat>, lo: int, hi: int, lo': int, hi': int)
    requires lo' <= lo && hi <= hi'
    ensures Count(times, lo, hi) <= Count(times, lo', hi')
  {
    if times != [] {
      CountWidens(times[..|times| - 1], lo, hi, lo', hi');
    }
  }

  lemma {:induction false} CountNone(times: seq<nat>, lo: int, hi: int)
    requires forall i :: 0 <= i < |times| ==> !(lo <= times[i] < hi)
    ensures Count(times, lo, hi) == 0
  {
    if times != [] {
      CountNone(times[..|times| - 1], lo, hi);
    }
  }

  /** The gate counts the orders admitted since its window started; the second before held at most one window's worth. */
  ghost predicate GateOk(g: Gate, times: seq<nat>, max: nat) {
    && (forall i :: 0 <= i < |times| ==> times[i] < g.start + WINDOW)
    && Count(times, g.start, g.start + WINDOW) == g.inWindow <= max
    && Count(times, g.start - WINDOW, g.start) <= max
  }

  lemma {:induction false} RollKeeps(g: Gate, times: seq<nat>, now: nat, max: nat)
    requires GateOk(g, times, max) && g.start <= now < TWO_64
    ensures GateOk(Rolled(g, now), times, max)
    ensures Rolled(g, now).start <= now < Rolled(g, now).start + WINDOW
  {
    if now - g.start >= WINDOW {
      CountNone(times, now, now + WINDOW);
      CountNone(times, g.start + WINDOW, now);
      CountWidens(times, now - WINDOW, now, g.start, now);
      CountSplits(times, g.start, g.start + WINDOW, now);
    }
  }

  /** How many of `times` lie in the second from `t` on. */
  function InSecond(times: seq<nat>, t: int): nat {
    Count(times, t, t + WINDOW)
  }

  /** Every interval of one second holds at most twice the maximum. */
  ghost predicate Bounded(times: seq<nat>, max: nat) {
    forall t: int :: InSecond(times, t) <= 2 * max
  }

  lemma {:induction false} AdmitCounts(r: Gate, times: seq<nat>, now: nat, max: nat)
    requires GateOk(r, times, max) && r.inWindow < max && r.start <= now < r.start + WINDOW
    ensures GateOk(Gate(r.inWindow + 1, r.start), times + [now], max)
  {
  }

  lemma {:induction false} AdmitBounded(r: Gate, times: seq<nat>, now: nat, max: nat)
    requires GateOk(r, times, max) && r.inWindow < max && r.start <= now < r.start + WINDOW && Bounded(times, max)
    ensures Bounded(times + [now], max)
  {
    forall t: int ensures InSecond(times + [now], t) <= 2 * max {
      CountSnoc(times, now, t, t + WINDOW);
      assert InSecond(times, t) <= 2 * max;
      if t <= now < t + WINDOW {
        WindowPair(r, times, max, t);
      }
    }
  }

  lemma {:induction false} AdmitKeeps(g: Gate, times: seq<nat>, now: nat, max: nat)
    requires GateOk(g, times, max) && Bounded(times, max) && g.start <= now < TWO_64
    ensures var times' := if Admits(g, now, max) then times + [now] else times;
            GateOk(Admit(g, now, max), times', max) && Bounded(times', max) && Admit(g, now, max).start <= now
  {
    RollKeeps(g, times, now, max);
    var r := Rolled(g, now);
    if Admits(g, now, max) {
      AdmitCounts(r, times, now, max);
      AdmitBounded(r, times, now, max);
    }
  }

  /** An interval that reaches into the running window meets it and the second before it, nothing else. */
  lemma {:induction false} WindowPair(g: Gate, times: seq<nat>, max: nat, t: int)
    requires GateOk(g, times, max) && g.inWindow < max && g.start - WINDOW <= t
    ensures Count(times, t, t + WINDOW) < 2 * max
  {
    var end := if t < g.start then g.start + WINDOW else t + WINDOW;
    CountWidens(times, t, t + WINDOW, g.start - WINDOW, end);
    CountSplits(times, g.start - WINDOW, g.start, end);
    CountSplits(times, g.start, g.start + WINDOW, end);
    CountNone(times, g.start + WINDOW, end);
  }

  /** The limit acts as a sliding one exactly when the orders still within a second of `now` from before the
      window leave room. */
  lemma {:induction false} SlidingExactly(g: Gate, times: seq<nat>, now: nat, max: nat)
    requires GateOk(g, times, max) && g.inWindow < max && g.start <= now < g.start + WINDOW
    requires forall i :: 0 <= i < |times| ==> times[i] <= now
    ensures InSecond(times + [now], now - WINDOW + 1) <= max <==> Count(times, now - WINDOW + 1, g.start) + g.inWindow < max
  {
    CountSnoc(times, now, now - WINDOW + 1, now + 1);
    CountSplits(times, now - WINDOW + 1, g.start, now + 1);
    CountSplits(times, g.start, now + 1, g.start + WINDOW);
    CountNone(times, now + 1, g.start + WINDOW);
  }

  // ---------- One client's calls

  /** The clock never runs backwards, and has not reached 2^64. */
  ghost predicate Clock(times: seq<nat>, since: nat) {
    && (forall i :: 0 <= i < |times| ==> since <= times[i] < TWO_64)
    && (forall i, j :: 0 <= i < j < |times| ==> times[i] <= times[j])
  }

  function After(since: nat, calls: seq<nat>, max: nat): Gate {
    if calls == [] then Gate(0, since)
    else Admit(After(since, calls[..|calls| - 1], max), calls[|calls| - 1], max)
  }

  function Admitted(since: nat, calls: seq<nat>, max: nat): seq<nat> {
    if calls == [] then []
    else
      var n := |calls| - 1;
      var before := Admitted(since, calls[..n], max);
      if Admits(After(since, calls[..n], max), calls[n], max) then before + [calls[n]] else before
  }

  lemma {:induction false} CallsKeep(since: nat, calls: seq<nat>, max: nat)
    requires Clock(calls, since)
    ensures GateOk(After(since, calls, max), Admitted(since, calls, max), max)
    ensures Bounded(Admitted(since, calls, max), max)
    ensures After(since, calls, max).start <= if calls == [] then since else calls[|calls| - 1]
  {
    if calls == [] {
      assert forall t: int :: InSecond([], t) == 0;
    } else {
      var n := |calls| - 1;
      CallsKeep(since, calls[..n], max);
      AdmitKeeps(After(since, calls[..n], max), Admitted(since, calls[..n], max), calls[n], max);
    }
  }

  /** Every half-open interval of one second holds at most twice the configured number of admitted orders. */
  lemma {:induction false} AtMostTwice(since: nat, calls: seq<nat>, max: nat, t: int)
    requires Clock(calls, since)
    ensures Count(Admitted(since, calls, max), t, t + WINDOW) <= 2 * max
  {
    CallsKeep(since, calls, max);
    assert InSecond(Admitted(since, calls, max), t) <= 2 * max;
  }

  // ---------- The bound is reached

  function Same(t: nat, n: nat): (r: seq<nat>)
    ensures |r| == n && forall i :: 0 <= i < n ==> r[i] == t
  {
    seq(n, i => t)
  }

  lemma {:induction false} CountAll(times: seq<nat>, lo: int, hi: int)
    requires forall i :: 0 <= i < |times| ==> lo <= times[i] < hi
    ensures Count(times, lo, hi) == |times|
  {
    if times != [] {
      CountAll(times[..|times| - 1], lo, hi);
    }
  }

  /** With room in the window a call is admitted, and the window goes on. */
  lemma {:induction false} AdmitOnce(g: Gate, now: nat, max: nat)
    requires var r := Rolled(g, now); r.inWindow < max && r.start <= now < r.start + WINDOW
    ensures var r := Rolled(g, now);
            Admits(g, now, max) && Admit(g, now, max) == Gate(r.inWindow + 1, r.start) == Rolled(Admit(g, now, max), now)
  {
  }

  lemma {:induction false} CallSnoc(since: nat, calls: seq<nat>, now: nat, max: nat)
    ensures After(since, calls + [now], max) == Admit(After(since, calls, max), now, max)
    ensures Admitted(since, calls + [now], max) ==
              Admitted(since, calls, max) + if Admits(After(since, calls, max), now, max) then [now] else []
  {
    assert (calls + [now])[..|calls|] == calls;
  }

  /** A burst of `n` calls at one moment of the running window is admitted whole while there is room. */
  lemma {:induction false} BurstAdmitted(since: nat, calls: seq<nat>, t: nat, n: nat, max: nat, r: Gate)
    requires r == Rolled(After(since, calls, max), t) && r.inWindow + n <= max && r.start <= t < r.start + WINDOW
    ensures Rolled(After(since, calls + Same(t, n), max), t) == Gate(r.inWindow + n, r.start)
    ensures Admitted(since, calls + Same(t, n), max) == Admitted(since, calls, max) + Same(t, n)
    decreases n
  {
    if n == 0 {
      NoMore(calls, t);
      NoMore(Admitted(since, calls, max), t);
    } else {
      var before := calls + Same(t, n - 1);
      BurstAdmitted(since, calls, t, n - 1, max, r);
      AdmitOnce(After(since, before, max), t, max);
      CallSnoc(since, before, t, max);
      OneMore(calls, t, n);
      OneMore(Admitted(since, calls, max), t, n);
    }
  }

  lemma {:induction false} NoMore(xs: seq<nat>, t: nat)
    ensures xs + Same(t, 0) == xs
  {
  }

  lemma {:induction false} OneMore(xs: seq<nat>, t: nat, n: nat)
    requires n > 0
    ensures xs + Same(t, n) == xs + Same(t, n - 1) + [t]
  {
  }

  lemma {:induction false} InWindow(g: Gate, t: nat)
    requires g.start <= t < g.start + WINDOW
    ensures Rolled(g, t) == g
  {
  }

  lemma {:induction false} FirstBurst(since: nat, t: nat, max: nat)
    requires since <= t < since + WINDOW
    ensures Rolled(After(since, Same(t, max), max), t) == Gate(max, since)
    ensures Admitted(since, Same(t, max), max) == Same(t, max)
  {
    InWindow(Gate(0, since), t);
    BurstAdmitted(since, [], t, max, max, Gate(0, since));
    assert [] + Same(t, max) == Same(t, max);
  }

  /** A gate still in a window at its last moment starts afresh a moment later. */
  lemma {:induction false} NextWindow(g: Gate, since: nat, t: nat)
    requires Rolled(g, t).start == since && t == since + WINDOW - 1
    ensures Rolled(g, t + 1) == Gate(0, t + 1)
  {
  }

  lemma {:induction false} SecondBurst(since: nat, t: nat, max: nat)
    requires t == since + WINDOW - 1
    ensures Admitted(since, Same(t, max) + Same(t + 1, max), max) == Same(t, max) + Same(t + 1, max)
  {
    FirstBurst(since, t, max);
    NextWindow(After(since, Same(t, max), max), since, t);
    BurstAdmitted(since, Same(t, max), t + 1, max, max, Gate(0, t + 1));
  }

  lemma {:induction false} CountBursts(t: nat, max: nat)
    ensures Count(Same(t, max) + Same(t + 1, max), t, t + WINDOW) == 2 * max
  {
    CountAll(Same(t, max), t, t + WINDOW);
    CountAll(Same(t + 1, max), t, t + WINDOW);
    CountConcat(Same(t, max), Same(t + 1, max), t, t + WINDOW);
  }

  lemma {:induction false} ClockBursts(since: nat, t: nat, max: nat)
    requires since <= t < TWO_64 - 1
    ensures Clock(Same(t, max) + Same(t + 1, max), since)
  {
  }

  /** Twice the maximum does occur within a second: a full burst just before the window ends, another just after. */
  lemma {:induction false} TwiceIsReached(max: nat) returns (calls: seq<nat>)
    ensures Clock(calls, 0) && InSecond(Admitted(0, calls, max), WINDOW - 1) == 2 * max
  {
    calls := Same(WINDOW - 1, max) + Same(WINDOW, max);
    ClockBursts(0, WINDOW - 1, max);
    SecondBurst(0, WINDOW - 1, max);
    CountBursts(WINDOW - 1, max);
  }

  /** So as a limit on every second of every run it is kept only by a maximum of 0. */
  lemma {:induction false} SlidingOnlyAtZero(max: nat)
    ensures (forall since: nat, calls: seq<nat>, t: int | Clock(calls, since) :: InSecond(Admitted(since, calls, max), t) <= max) <==>
              max == 0
  {
    if max == 0 {
      forall since: nat, calls: seq<nat>, t: int | Clock(calls, since) ensures InSecond(Admitted(since, calls, max), t) <= max {
        AtMostTwice(since, calls, max, t);
      }
    } else {
      var calls := TwiceIsReached(max);
    }
  }

  lemma {:induction false} CountConcat(a: seq<nat>, b: seq<nat>, lo: int, hi: int)
    ensures Count(a + b, lo, hi) == Count(a, lo, hi) + Count(b, lo, hi)
  {
    if b == [] {
      assert a + b == a;
    } else {
      var n := |b| - 1;
      CountConcat(a, b[..n], lo, hi);
      assert (a + b)[..|a + b| - 1] == a + b[..n];
    }
  }
}
