/**
 The retry loop `Retry.__call__`. Sleeps are ideal: the next call starts exactly when the sleep is
 over. The environment is the list of what successive calls do; a list that ends before the loop
 does leaves it running.
 */
module Retry {
  import opened Options

  /** A failure may bring its own time to sleep. */
  datatype Outcome = Success | Failure(ownSleep: Option<real>)

  /** One call: how long it takes, how it ends, and the jitter drawn after it, in hundredths. */
  datatype Call = Call(duration: real, outcome: Outcome, jitter: nat) {
    predicate Valid() {
      duration >= 0.0 && (outcome.Failure? && outcome.ownSleep.Some? ==> outcome.ownSleep.value >= 0.0)
    }
  }

  datatype Ending = Returned | TooManyAttempts | DeadlineExceeded | StillRunning

  /** When the calls started, and how the loop ended. */
  datatype Trace = Trace(starts: seq<real>, ending: Ending)

  datatype Settings = Settings(maxTries: Option<int>, delay: real, backoff: nat, maxDelay: real, deadline: Option<real>) {
    predicate Valid() { delay >= 0.0 && maxDelay >= 0.0 }
  }

  function Min(a: real, b: real): real { if a <= b then a else b }

  function Times(x: real, b: nat): real { x * b as real }

  function NextDelay(s: Settings, delay: real): real {
    Min(Times(delay, s.backoff), s.maxDelay)
  }

  /** The current delay after k retries. */
  function DelayAfter(s: Settings, k: nat): real {
    if k == 0 then s.delay else NextDelay(s, DelayAfter(s, k - 1))
  }

  function Sleep(call: Call, delay: real): real
    requires call.outcome.Failure?
  {
    match call.outcome.ownSleep
    case Some(t) => t
    case None => delay + call.jitter as real / 100.0
  }

  function StopTime(s: Settings, start: real): Option<real> {
    match s.deadline case Some(d) => Some(start + d) case None => None
  }

  /** What follows a call: the loop ends, or the next call starts at `wake`. */
  datatype Next = Stop(ending: Ending) | Again(wake: real)

  function NextAfter(s: Settings, call: Call, tried: nat, stop: Option<real>, now: real): Next {
    if call.outcome.Success? then Stop(Returned)
    else if s.maxTries == Some(tried) then Stop(TooManyAttempts)
    else
      var wake := now + call.duration + Sleep(call, DelayAfter(s, tried));
      if stop.Some? && wake >= stop.value then Stop(DeadlineExceeded) else Again(wake)
  }

  /** The loop from a call that starts at `now` after `tried` retries. */
  function Run(s: Settings, calls: seq<Call>, tried: nat, stop: Option<real>, now: real): (t: Trace)
    ensures |t.starts| <= |calls|
    ensures calls != [] ==> t.starts != [] && t.starts[0] == now
    decreases |calls|
  {
    if calls == [] then Trace([], StillRunning)
    else match NextAfter(s, calls[0], tried, stop, now)
      case Stop(ending) => Trace([now], ending)
      case Again(wake) => Onto([now], Run(s, calls[1..], tried + 1, stop, wake))
  }

  function Onto(starts: seq<real>, t: Trace): Trace {
    Trace(starts + t.starts, t.ending)
  }

  lemma OntoOnto(a: seq<real>, b: seq<real>, t: Trace)
    ensures Onto(a, Onto(b, t)) == Onto(a + b, t)
  {
    assert a + (b + t.starts) == (a + b) + t.starts;
  }

  /** One turn of the loop, the calls before i having started at `starts`. */
  lemma Turn(s: Settings, calls: seq<Call>, i: nat, stop: Option<real>, now: real, starts: seq<real>)
    requires i < |calls|
    ensures
      Onto(starts, Run(s, calls[i..], i, stop, now)) ==
      match NextAfter(s, calls[i], i, stop, now)
      case Stop(ending) => Trace(starts + [now], ending)
      case Again(wake) => Onto(starts + [now], Run(s, calls[i + 1..], i + 1, stop, wake))
  {
    assert calls[i..][0] == calls[i] && calls[i..][1..] == calls[i + 1..];
    match NextAfter(s, calls[i], i, stop, now)
    case Stop(ending) =>
    case Again(wake) => OntoOnto(starts, [now], Run(s, calls[i + 1..], i + 1, stop, wake));
  }

  function Retries(t: Trace): int {
    if t.ending == StillRunning then |t.starts| else |t.starts| - 1
  }

  class Retrier {
    const settings: Settings
    var attempts: nat
    var curDelay: real
    var curStoptime: Option<real>

    constructor (settings: Settings)
      ensures this.settings == settings && attempts == 0 && curDelay == settings.delay && curStoptime == None
    {
      this.settings := settings;
      attempts, curDelay, curStoptime := 0, settings.delay, None;
    }

    method Reset()
      modifies this
      ensures attempts == 0 && curDelay == settings.delay && curStoptime == None
    {
      attempts, curDelay, curStoptime := 0, settings.delay, None;
    }

    method UpdateDelay()
      modifies `curDelay
      ensures curDelay == NextDelay(settings, old(curDelay))
    {
      curDelay := Min(Times(curDelay, settings.backoff), settings.maxDelay);
    }

    /** What the loop does about one call that started at `now`. */
    method Handle(call: Call, now: real) returns (next: Next)
      requires curDelay == DelayAfter(settings, attempts)
      modifies `attempts, `curDelay
      ensures next == NextAfter(settings, call, old(attempts), curStoptime, now)
      ensures next.Again? ==> attempts == old(attempts) + 1 && curDelay == DelayAfter(settings, attempts)
      ensures next.Stop? ==> attempts == old(attempts) + (if next.ending == DeadlineExceeded then 1 else 0)
      ensures next.Stop? ==> curDelay == old(curDelay)
    {
      match call.outcome
      case Success =>
        return Stop(Returned);
      case Failure(ownSleep) =>
        if settings.maxTries == Some(attempts) {
          return Stop(TooManyAttempts);
        }
        attempts := attempts + 1;
        var sleeptime := if ownSleep.Some? then ownSleep.value else curDelay + call.jitter as real / 100.0;
        var wake := now + call.duration + sleeptime;
        if curStoptime.Some? && wake >= curStoptime.value {
          return Stop(DeadlineExceeded);
        }
        UpdateDelay();
        return Again(wake);
    }

    /** `__call__`. */
    method Invoke(calls: seq<Call>, start: real) returns (trace: Trace)
      modifies this
      ensures trace == Run(settings, calls, 0, StopTime(settings, start), start)
      ensures curDelay == DelayAfter(settings, Retries(trace))
      ensures attempts == Retries(trace) + if trace.ending == DeadlineExceeded then 1 else 0
      ensures curStoptime == if calls == [] then None else StopTime(settings, start)
    {
      Reset();
      var now, starts := start, [];
      ghost var stop := StopTime(settings, start);
      for i := 0 to |calls|
        invariant attempts == i == |starts| && curDelay == DelayAfter(settings, i)
        invariant curStoptime == if i == 0 then None else stop
        invariant i == 0 ==> now == start
        invariant Run(settings, calls, 0, stop, start) == Onto(starts, Run(settings, calls[i..], i, stop, now))
      {
        if settings.deadline.Some? && curStoptime == None {
          curStoptime := Some(now + settings.deadline.value);
        }
        Turn(settings, calls, i, stop, now, starts);
        starts := starts + [now];
        var next := Handle(calls[i], now);
        match next
        case Stop(ending) => return Trace(starts, ending);
        case Again(wake) => now := wake;
      }
      return Trace(starts, StillRunning);
    }
  }

  // ---------------------------------------------------------------- laws

  /** When the sleep after a failed call that started at `now`, the k-th, would be over. */
  function WakeAfter(s: Settings, call: Call, k: nat, now: real): real
    requires call.outcome.Failure?
  {
    now + call.duration + match call.outcome.ownSleep
                          case Some(t) => t
                          case None => DelayAfter(s, k) + call.jitter as real / 100.0
  }

  /** A failed k-th call is followed by another one: tries are left and the wake time is in time. */
  predicate Retried(s: Settings, call: Call, k: nat, stop: Option<real>, now: real) {
    call.outcome.Failure? && s.maxTries != Some(k) && (stop.Some? ==> WakeAfter(s, call, k, now) < stop.value)
  }

  /** What a trace must look like, call by call: each call but the last one is retried and the next
      one starts when its sleep is over; the last one decides how the loop ends. */
  ghost predicate Explains(s: Settings, calls: seq<Call>, tried: nat, stop: Option<real>, now: real, t: Trace) {
    && |t.starts| <= |calls|
    && (calls != [] ==> t.starts != [] && t.starts[0] == now)
    && (forall i :: 0 <= i < |t.starts| - 1 ==>
          Retried(s, calls[i], tried + i, stop, t.starts[i]) && t.starts[i + 1] == WakeAfter(s, calls[i], tried + i, t.starts[i]))
    && (t.starts != [] ==>
          var last := |t.starts| - 1;
          var call, k, at := calls[last], tried + last, t.starts[last];
          match t.ending
          case Returned => call.outcome.Success?
          case TooManyAttempts => call.outcome.Failure? && s.maxTries == Some(k)
          case DeadlineExceeded =>
            call.outcome.Failure? && s.maxTries != Some(k) && stop.Some? && stop.value <= WakeAfter(s, call, k, at)
          case StillRunning => |t.starts| == |calls| && Retried(s, call, k, stop, at))
    && (t.starts == [] ==> t.ending == StillRunning)
  }

  /** The loop makes exactly these calls at these times and ends exactly so. */
  lemma {:induction false} RunExplains(s: Settings, calls: seq<Call>, tried: nat, stop: Option<real>, now: real)
    ensures Explains(s, calls, tried, stop, now, Run(s, calls, tried, stop, now))
    decreases |calls|
  {
    if calls != [] {
      var next := NextAfter(s, calls[0], tried, stop, now);
      if next.Again? {
        RunExplains(s, calls[1..], tried + 1, stop, next.wake);
        Prepended(s, calls, tried, stop, now, Run(s, calls[1..], tried + 1, stop, next.wake));
      }
    }
  }

  lemma Prepended(s: Settings, calls: seq<Call>, tried: nat, stop: Option<real>, now: real, rest: Trace)
    requires calls != [] && Retried(s, calls[0], tried, stop, now)
    requires Explains(s, calls[1..], tried + 1, stop, WakeAfter(s, calls[0], tried, now), rest)
    ensures Explains(s, calls, tried, stop, now, Onto([now], rest))
  {
    var t := Onto([now], rest);
    forall i | 0 <= i < |t.starts| - 1
      ensures Retried(s, calls[i], tried + i, stop, t.starts[i]) && t.starts[i + 1] == WakeAfter(s, calls[i], tried + i, t.starts[i])
    {
      if i > 0 {
        assert t.starts[i] == rest.starts[i - 1] && calls[i] == calls[1..][i - 1];
      }
    }
    if rest.starts != [] {
      var last := |rest.starts| - 1;
      assert t.starts[last + 1] == rest.starts[last] && calls[last + 1] == calls[1..][last];
    }
  }

  ghost predicate RetriedBefore(t: Trace, stop: real) {
    forall i :: 0 < i < |t.starts| ==> t.starts[i] < stop
  }

  /** Every call but the first starts strictly before the deadline. */
  lemma {:induction false} RetriesStartInTime(s: Settings, calls: seq<Call>, tried: nat, stop: real, now: real)
    ensures RetriedBefore(Run(s, calls, tried, Some(stop), now), stop)
    decreases |calls|
  {
    if |Run(s, calls, tried, Some(stop), now).starts| > 1 {
      var wake := now + calls[0].duration + Sleep(calls[0], DelayAfter(s, tried));
      RetriesStartInTime(s, calls[1..], tried + 1, stop, wake);
    }
  }

  /** With m tries allowed there are at most m + 1 calls, and giving up takes all of them. */
  lemma {:induction false} CallsAreBounded(s: Settings, calls: seq<Call>, tried: nat, stop: Option<real>, now: real)
    requires s.maxTries.Some? && tried <= s.maxTries.value
    ensures
      var t := Run(s, calls, tried, stop, now);
      && tried + |t.starts| <= s.maxTries.value + 1
      && (t.ending == TooManyAttempts ==> tried + |t.starts| == s.maxTries.value + 1)
    decreases |calls|
  {
    var t := Run(s, calls, tried, stop, now);
    if |t.starts| > 1 {
      var wake := now + calls[0].duration + Sleep(calls[0], DelayAfter(s, tried));
      CallsAreBounded(s, calls[1..], tried + 1, stop, wake);
    }
  }

  lemma {:induction false} DelayStaysAbove(s: Settings, k: nat, least: real)
    requires 0.0 <= least <= s.delay && least <= s.maxDelay && s.backoff >= 1
    ensures DelayAfter(s, k) >= least
    decreases k
  {
    if k > 0 {
      DelayStaysAbove(s, k - 1, least);
      TimesGrows(DelayAfter(s, k - 1), s.backoff);
    }
  }

  /** Each retry takes at least the least delay off the time to the deadline. */
  lemma {:induction false} TimeRunsOut(s: Settings, calls: seq<Call>, tried: nat, stop: real, now: real, least: real)
    requires 0.0 <= least <= s.delay && least <= s.maxDelay && s.backoff >= 1
    requires forall c <- calls :: c.Valid() && (c.outcome.Failure? ==> c.outcome.ownSleep == None)
    requires calls != []
    ensures
      Run(s, calls, tried, Some(stop), now).ending == StillRunning ==> now + |calls| as real * least < stop
    decreases |calls|
  {
    var t := Run(s, calls, tried, Some(stop), now);
    if t.ending == StillRunning {
      var call := calls[0];
      assert call in calls;
      DelayStaysAbove(s, tried, least);
      var wake := now + call.duration + Sleep(call, DelayAfter(s, tried));
      assert wake >= now + least;
      if |calls| > 1 {
        TimeRunsOut(s, calls[1..], tried + 1, stop, wake, least);
      }
      assert |calls| as real * least == (|calls| - 1) as real * least + least;
    }
  }

  /** Even with unlimited tries the loop ends: within deadline / least delay calls, rounded up. */
  lemma DeadlineEndsTheLoop(s: Settings, calls: seq<Call>, start: real, least: real)
    requires s.deadline.Some? && s.backoff >= 1 && least == Min(s.delay, s.maxDelay) > 0.0
    requires forall c <- calls :: c.Valid() && (c.outcome.Failure? ==> c.outcome.ownSleep == None)
    requires calls != [] && |calls| as real * least >= s.deadline.value
    ensures Run(s, calls, 0, StopTime(s, start), start).ending != StillRunning
  {
    var stop := start + s.deadline.value;
    assert StopTime(s, start) == Some(stop);
    TimeRunsOut(s, calls, 0, stop, start, least);
  }

  /** Without deadline and limit a call that never succeeds is repeated for ever. */
  lemma {:induction false} NothingElseEndsIt(s: Settings, calls: seq<Call>, tried: nat, now: real)
    requires s.maxTries == None || s.maxTries.value < 0
    requires forall c <- calls :: c.outcome.Failure?
    ensures Run(s, calls, tried, None, now).ending == StillRunning
    ensures |Run(s, calls, tried, None, now).starts| == |calls|
    decreases |calls|
  {
    if calls != [] {
      assert calls[0] in calls;
      NothingElseEndsIt(s, calls[1..], tried + 1, now + calls[0].duration + Sleep(calls[0], DelayAfter(s, tried)));
    }
  }

  // ---------------------------------------------------------------- backing off

  function Power(b: nat, k: nat): nat {
    if k == 0 then 1 else b * Power(b, k - 1)
  }

  function Uncapped(s: Settings, k: nat): real {
    s.delay * Power(s.backoff, k) as real
  }

  function Geometric(s: Settings, k: nat): real {
    Min(Uncapped(s, k), s.maxDelay)
  }

  lemma UncappedStep(s: Settings, k: nat)
    ensures Uncapped(s, k + 1) == Times(Uncapped(s, k), s.backoff)
  {
    Regroup(s.delay, s.backoff, Power(s.backoff, k));
  }

  lemma Regroup(d: real, b: nat, p: nat)
    ensures d * (b * p) as real == Times(d * p as real, b)
  {
    assert (b * p) as real == b as real * p as real;
  }

  /** Capping before the multiplication or after it makes no difference. */
  lemma CapHolds(x: real, cap: real, backoff: nat)
    requires cap >= 0.0
    ensures Min(Times(Min(x, cap), backoff), cap) == Min(Times(x, backoff), cap)
  {
    if x > cap && backoff > 0 {
      TimesGrows(cap, backoff);
      assert Times(x, backoff) - Times(cap, backoff) == (x - cap) * backoff as real >= 0.0;
    }
  }

  lemma TimesGrows(x: real, b: nat)
    requires x >= 0.0 && b > 0
    ensures Times(x, b) >= x
  {
    assert Times(x, b) - x == x * (b - 1) as real;
    assert x * (b - 1) as real >= 0.0;
  }

  lemma {:induction false} DelayIsGeometric(s: Settings, k: nat)
    requires s.Valid() && s.delay <= s.maxDelay
    ensures DelayAfter(s, k) == Geometric(s, k)
    decreases k
  {
    if k > 0 {
      DelayIsGeometric(s, k - 1);
      UncappedStep(s, k - 1);
      CapHolds(Uncapped(s, k - 1), s.maxDelay, s.backoff);
    }
  }

  /** A first delay above the cap is used once; from then on the delay is the cap. */
  lemma {:induction false} DelayAboveCap(s: Settings, k: nat)
    requires s.Valid() && s.maxDelay < s.delay && s.backoff >= 1 && k >= 1
    ensures DelayAfter(s, k) == s.maxDelay
    decreases k
  {
    if k == 1 {
      TimesGrows(s.delay, s.backoff);
    } else {
      DelayAboveCap(s, k - 1);
      TimesGrows(s.maxDelay, s.backoff);
    }
  }

  /** The delay backs off geometrically up to the cap exactly when it does not start above the
      cap: the cap is not applied to the first delay. */
  lemma DelayIsGeometricIff(s: Settings)
    requires s.Valid()
    ensures (forall k :: DelayAfter(s, k) == Geometric(s, k)) <==> s.delay <= s.maxDelay
  {
    if s.delay <= s.maxDelay {
      forall k: nat ensures DelayAfter(s, k) == Geometric(s, k) {
        DelayIsGeometric(s, k);
      }
    } else {
      assert DelayAfter(s, 0) != Geometric(s, 0);
    }
  }
}
