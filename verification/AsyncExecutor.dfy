/**
 `AsyncExecutor` as interleaved threads. A job is one call of `schedule` followed, when it
 succeeds, by one call of `run`; jobs overlap freely, and the HA loop takes the thread lock for
 each of its cycles. One step is one access to a shared field or one lock operation.
 */
module AsyncExecutor {
  import opened Options

  type Job = nat

  /** Position inside `schedule` (first line) and `run` (the others). */
  datatype Pc =
    | Idle | Checking | Lowering | Raising | Releasing(scheduled: bool)
    | Ready | Inside | Clearing | Executing | Leaving
    | Resetting | Signalling | Cleaning | Unlocking

  datatype Owner = Free | Loop | By(job: Job)

  datatype CriticalTask = CriticalTask(isCancelled: bool, result: Option<int>)

  const RESET := CriticalTask(false, None)

  /** `scheduled` names the job whose action is scheduled. `victim` and `author` are history only:
      the job for which the critical task was last cancelled, or completed. */
  datatype State = State(
    scheduled: Option<Job>,
    isCancelled: bool,
    finishEvent: bool,
    critical: CriticalTask,
    threadLock: Owner,
    actionLock: Option<Job>,
    pcs: map<Job, Pc>,
    victim: Option<Job>,
    author: Option<Job>)

  function At(s: State, j: Job): Pc {
    if j in s.pcs then s.pcs[j] else Idle
  }

  function Goto(s: State, j: Job, pc: Pc): State {
    s.(pcs := s.pcs[j := pc])
  }

  /** `Advance` runs the next statement of a job; the other steps are choices of the environment. */
  datatype Step =
    | Advance(job: Job)
    | Complete(job: Job, result: int)
    | LoopEnter
    | LoopCancelsCritical
    | LoopExit

  predicate Enabled(s: State, step: Step) {
    match step
    case Advance(j) =>
      (match At(s, j)
       case Idle => s.actionLock == None
       case Ready => s.threadLock == Free
       case Leaving => s.threadLock == Free
       case Resetting => s.actionLock == None
       case _ => true)
    case Complete(j, _) => At(s, j) == Executing
    case LoopEnter => s.threadLock == Free
    case LoopCancelsCritical => s.threadLock == Loop && s.scheduled.Some?
    case LoopExit => s.threadLock == Loop
  }

  function Apply(s: State, step: Step): State
    requires Enabled(s, step)
  {
    match step
    case Advance(j) =>
      (match At(s, j)
       case Idle => Goto(s, j, Checking).(actionLock := Some(j))
       case Checking => if s.scheduled.Some? then Goto(s, j, Releasing(false)) else Goto(s, j, Lowering).(scheduled := Some(j))
       case Lowering => Goto(s, j, Raising).(isCancelled := false)
       case Raising => Goto(s, j, Releasing(true)).(finishEvent := true)
       case Releasing(scheduled) => Goto(s, j, if scheduled then Ready else Idle).(actionLock := None)
       case Ready => Goto(s, j, Inside).(threadLock := By(j))
       case Inside => if s.isCancelled then Goto(s, j, Leaving).(threadLock := Free) else Goto(s, j, Clearing)
       case Clearing => Goto(s, j, Executing).(finishEvent := false, threadLock := Free)
       case Executing => Goto(s, j, Leaving)
       case Leaving => Goto(s, j, Resetting).(threadLock := By(j))
       case Resetting => Goto(s, j, Signalling).(scheduled := None)
       case Signalling => Goto(s, j, Cleaning).(finishEvent := true)
       case Cleaning => Goto(s, j, Unlocking).(critical := RESET)
       case Unlocking => Goto(s, j, Idle).(threadLock := Free))
    case Complete(j, result) =>
      if s.critical.isCancelled then s else s.(critical := s.critical.(result := Some(result)), author := Some(j))
    case LoopEnter => s.(threadLock := Loop)
    case LoopCancelsCritical =>
      if s.critical.result.Some? then s else s.(critical := s.critical.(isCancelled := true), victim := s.scheduled)
    case LoopExit => s.(threadLock := Free)
  }

  ghost predicate Init(s: State) {
    && s.scheduled == None && !s.isCancelled && s.critical == RESET
    && s.threadLock == Free && s.actionLock == None
    && forall j: Job :: At(s, j) == Idle
  }

  ghost predicate Runs(s: State, steps: seq<Step>, t: State)
    decreases |steps|
  {
    if steps == [] then s == t else Enabled(s, steps[0]) && Runs(Apply(s, steps[0]), steps[1..], t)
  }

  ghost predicate Reachable(t: State) {
    exists s, steps :: Init(s) && Runs(s, steps, t)
  }

  // ---------------------------------------------------------------- invariant

  /** From a successful `schedule` until `reset_scheduled_action`. */
  predicate Active(pc: Pc) {
    match pc
    case Lowering => true
    case Raising => true
    case Releasing(scheduled) => scheduled
    case Ready => true
    case Inside => true
    case Clearing => true
    case Executing => true
    case Leaving => true
    case Resetting => true
    case _ => false
  }

  predicate Scheduling(pc: Pc) {
    pc.Checking? || pc.Lowering? || pc.Raising? || pc.Releasing?
  }

  predicate InThreadLock(pc: Pc) {
    pc.Inside? || pc.Clearing? || pc.Resetting? || pc.Signalling? || pc.Cleaning? || pc.Unlocking?
  }

  /** The stretch in which a completed critical task belongs to the job. */
  predicate Owning(pc: Pc) {
    pc.Executing? || pc.Leaving? || pc.Resetting? || pc.Signalling? || pc.Cleaning?
  }

  ghost predicate JobOk(s: State, j: Job) {
    && (Active(At(s, j)) <==> s.scheduled == Some(j))
    && (Scheduling(At(s, j)) <==> s.actionLock == Some(j))
    && (InThreadLock(At(s, j)) <==> s.threadLock == By(j))
    && (At(s, j).Executing? ==> !s.finishEvent)
    && (At(s, j).Executing? || At(s, j).Leaving? ==> !s.threadLock.By?)
  }

  ghost predicate Inv(s: State) {
    && (forall j: Job :: JobOk(s, j))
    && !s.isCancelled
    && (s.critical.result.Some? ==> s.author.Some? && Owning(At(s, s.author.value)))
    && (s.critical.isCancelled ==>
          s.victim.Some? && (s.scheduled == s.victim || At(s, s.victim.value).Signalling? || At(s, s.victim.value).Cleaning?))
  }

  /** What a statement of job j leaves true of job j itself, in `schedule` and in `run`. */
  lemma SchedulingKeepsItself(s: State, j: Job)
    requires Enabled(s, Advance(j)) && JobOk(s, j) && !s.isCancelled && (At(s, j).Idle? || Scheduling(At(s, j)))
    requires s.scheduled.Some? ==> JobOk(s, s.scheduled.value)
    ensures JobOk(Apply(s, Advance(j)), j)
  {
  }

  lemma RunningKeepsItself(s: State, j: Job)
    requires Enabled(s, Advance(j)) && JobOk(s, j) && !s.isCancelled && !At(s, j).Idle? && !Scheduling(At(s, j))
    requires s.scheduled.Some? ==> JobOk(s, s.scheduled.value)
    ensures JobOk(Apply(s, Advance(j)), j)
  {
  }

  /** What it leaves true of another job k. */
  lemma AdvanceKeepsOthers(s: State, j: Job, k: Job)
    requires Enabled(s, Advance(j)) && JobOk(s, j) && JobOk(s, k) && !s.isCancelled && k != j
    requires s.scheduled.Some? ==> JobOk(s, s.scheduled.value)
    ensures JobOk(Apply(s, Advance(j)), k)
  {
    assert At(Apply(s, Advance(j)), k) == At(s, k);
  }

  lemma AdvanceKeepsCritical(s: State, j: Job)
    requires Inv(s) && Enabled(s, Advance(j))
    ensures
      var t := Apply(s, Advance(j));
      && !t.isCancelled
      && (t.critical.result.Some? ==> t.author.Some? && Owning(At(t, t.author.value)))
      && (t.critical.isCancelled ==>
            t.victim.Some? && (t.scheduled == t.victim || At(t, t.victim.value).Signalling? || At(t, t.victim.value).Cleaning?))
  {
    assert JobOk(s, j);
    if s.author.Some? { assert JobOk(s, s.author.value); }
    if s.victim.Some? { assert JobOk(s, s.victim.value); }
  }

  lemma StepKeeps(s: State, step: Step)
    requires Inv(s) && Enabled(s, step)
    ensures Inv(Apply(s, step))
  {
    var t := Apply(s, step);
    if step.Advance? {
      assert JobOk(s, step.job);
      if s.scheduled.Some? { assert JobOk(s, s.scheduled.value); }
      forall k: Job ensures JobOk(t, k) {
        assert JobOk(s, k);
        if k == step.job {
          if At(s, k).Idle? || Scheduling(At(s, k)) {
            SchedulingKeepsItself(s, k);
          } else {
            RunningKeepsItself(s, k);
          }
        } else {
          AdvanceKeepsOthers(s, step.job, k);
        }
      }
      AdvanceKeepsCritical(s, step.job);
    } else {
      forall k: Job ensures JobOk(t, k) {
        assert JobOk(s, k);
      }
    }
  }

  lemma {:induction false} RunKeeps(s: State, steps: seq<Step>, t: State)
    requires Inv(s) && Runs(s, steps, t)
    ensures Inv(t)
    decreases |steps|
  {
    if steps != [] {
      StepKeeps(s, steps[0]);
      RunKeeps(Apply(s, steps[0]), steps[1..], t);
    }
  }

  lemma ReachableInv(t: State)
    requires Reachable(t)
    ensures Inv(t)
  {
    var s, steps :| Init(s) && Runs(s, steps, t);
    RunKeeps(s, steps, t);
  }

  // ---------------------------------------------------------------- results

  /** At most one task function executes, whatever the interleaving. */
  lemma AtMostOneExecutes(t: State, i: Job, j: Job)
    requires Reachable(t) && At(t, i).Executing? && At(t, j).Executing?
    ensures i == j
  {
    ReachableInv(t);
    assert JobOk(t, i) && JobOk(t, j);
  }

  /** When a run is about to enter, nothing of an earlier job is left in the critical task: there is
      no result, and it is cancelled only if the HA loop cancelled it for this very job. */
  lemma EntersWithFreshCriticalTask(t: State, j: Job)
    requires Reachable(t) && At(t, j).Ready? && Enabled(t, Advance(j))
    ensures t.critical.result == None
    ensures t.critical.isCancelled ==> t.victim == Some(j)
  {
    ReachableInv(t);
    assert JobOk(t, j);
    if t.author.Some? { assert JobOk(t, t.author.value); }
    if t.victim.Some? { assert JobOk(t, t.victim.value); }
  }

  /** Hence it is exactly in its reset state in runs where the loop does not cancel it. */
  lemma {:induction false} WithoutCancelEntersReset(s: State, steps: seq<Step>, t: State, j: Job)
    requires Init(s) && Runs(s, steps, t) && LoopCancelsCritical !in steps
    requires At(t, j).Ready? && Enabled(t, Advance(j))
    ensures t.critical == RESET
  {
    NeverCancelled(s, steps, t);
    assert Reachable(t);
    EntersWithFreshCriticalTask(t, j);
  }

  lemma {:induction false} NeverCancelled(s: State, steps: seq<Step>, t: State)
    requires Runs(s, steps, t) && LoopCancelsCritical !in steps && !s.critical.isCancelled
    ensures !t.critical.isCancelled
    decreases |steps|
  {
    if steps != [] {
      assert steps[0] in steps;
      NeverCancelled(Apply(s, steps[0]), steps[1..], t);
    }
  }

  /** While a task function executes, the finish event is down, so a canceller waits for it. */
  lemma ExecutingHoldsFinishEventDown(t: State, j: Job)
    requires Reachable(t) && At(t, j).Executing?
    ensures !t.finishEvent
  {
    ReachableInv(t);
    assert JobOk(t, j);
  }

  // ---------------------------------------------------------------- progress

  /** The next n statements of job j, nothing coming in between. */
  ghost predicate Proceeds(s: State, j: Job, n: nat, t: State)
    decreases n
  {
    if n == 0 then s == t else Enabled(s, Advance(j)) && Proceeds(Apply(s, Advance(j)), j, n - 1, t)
  }

  lemma {:induction false} ProceedsOn(s: State, j: Job, m: nat, t: State, n: nat, u: State)
    requires Proceeds(s, j, m, t) && Proceeds(t, j, n, u)
    ensures Proceeds(s, j, m + n, u)
    decreases m
  {
    if m > 0 {
      ProceedsOn(Apply(s, Advance(j)), j, m - 1, t, n, u);
    }
  }

  /** `schedule` succeeds exactly when no action is scheduled: then the job may run, not cancelled and
      with the finish event up; otherwise it gives up and has changed nothing. */
  lemma ScheduleIff(s: State, j: Job)
    requires At(s, j) == Checking && s.actionLock == Some(j)
    ensures s.scheduled == None ==>
      exists t :: Proceeds(s, j, 4, t) && At(t, j) == Ready && t.scheduled == Some(j) && !t.isCancelled && t.finishEvent
               && t.actionLock == None && t.threadLock == s.threadLock && t.critical == s.critical
    ensures s.scheduled != None ==>
      exists t :: Proceeds(s, j, 2, t) && At(t, j) == Idle && t == s.(actionLock := None, pcs := t.pcs)
  {
    var t1 := Apply(s, Advance(j));
    var t2 := Apply(t1, Advance(j));
    if s.scheduled == None {
      var t3 := Apply(t2, Advance(j));
      var t4 := Apply(t3, Advance(j));
      assert Proceeds(t3, j, 1, t4) && Proceeds(t2, j, 2, t4) && Proceeds(t1, j, 3, t4);
      assert Proceeds(s, j, 4, t4);
    } else {
      assert Proceeds(t1, j, 1, t2) && Proceeds(s, j, 2, t2);
    }
  }

  /** A job that is ready, with the thread lock free, gets to execute, the event down. */
  lemma ReadyExecutes(s: State, j: Job) returns (t: State)
    requires At(s, j) == Ready && s.threadLock == Free && !s.isCancelled
    ensures Proceeds(s, j, 3, t) && At(t, j) == Executing && !t.finishEvent
    ensures t.scheduled == s.scheduled && t.critical == s.critical && t.threadLock == Free && t.actionLock == s.actionLock
  {
    var t1 := Apply(s, Advance(j));
    var t2 := Apply(t1, Advance(j));
    t := Apply(t2, Advance(j));
    assert Proceeds(t2, j, 1, t) && Proceeds(t1, j, 2, t);
  }

  /** When its function is done it leaves everything as a free executor has it. */
  lemma ExecutingCleansUp(s: State, j: Job) returns (t: State)
    requires At(s, j) == Executing && s.threadLock == Free && s.actionLock == None
    ensures Proceeds(s, j, 6, t) && At(t, j) == Idle && t.finishEvent
    ensures t.scheduled == None && t.critical == RESET && t.threadLock == Free && t.actionLock == None
  {
    var t1 := Apply(s, Advance(j));
    var t2 := Apply(t1, Advance(j));
    var t3 := Apply(t2, Advance(j));
    var t4 := Apply(t3, Advance(j));
    var t5 := Apply(t4, Advance(j));
    t := Apply(t5, Advance(j));
    assert Proceeds(t5, j, 1, t) && Proceeds(t4, j, 2, t) && Proceeds(t3, j, 3, t);
    assert Proceeds(t2, j, 4, t) && Proceeds(t1, j, 5, t);
  }

  // ---------------------------------------------------------------- a scheduled task can always run

  lemma {:induction false} RunsOn(s: State, first: seq<Step>, t: State, second: seq<Step>, u: State)
    requires Runs(s, first, t) && Runs(t, second, u)
    ensures Runs(s, first + second, u)
    decreases |first|
  {
    if first == [] {
      assert [] + second == second;
    } else {
      RunsOn(Apply(s, first[0]), first[1..], t, second, u);
      assert (first + second)[1..] == first[1..] + second;
    }
  }

  lemma {:induction false} ProceedsRuns(s: State, j: Job, n: nat, t: State) returns (steps: seq<Step>)
    requires Proceeds(s, j, n, t)
    ensures Runs(s, steps, t)
    decreases n
  {
    if n == 0 {
      steps := [];
    } else {
      var rest := ProceedsRuns(Apply(s, Advance(j)), j, n - 1, t);
      steps := [Advance(j)] + rest;
      assert steps[1..] == rest;
    }
  }

  lemma RunsInv(s: State, steps: seq<Step>, t: State)
    requires Inv(s) && Runs(s, steps, t)
    ensures Inv(t)
  {
    RunKeeps(s, steps, t);
  }

  /** Whoever holds the thread lock while another job is scheduled comes to let it go. */
  lemma ThreadLockComesFree(s: State, j: Job) returns (steps: seq<Step>, t: State)
    requires Inv(s) && s.scheduled == Some(j) && !InThreadLock(At(s, j))
    ensures Runs(s, steps, t) && t.threadLock == Free && At(t, j) == At(s, j) && t.scheduled == Some(j)
  {
    match s.threadLock
    case Free => steps, t := [], s;
    case Loop =>
      steps, t := [LoopExit], Apply(s, LoopExit);
      assert [LoopExit][1..] == [];
    case By(k) =>
      assert JobOk(s, k) && JobOk(s, j) && k != j;
      steps, t := Unlocks(s, j, k);
  }

  lemma Unlocks(s: State, j: Job, k: Job) returns (steps: seq<Step>, t: State)
    requires k != j && (At(s, k).Signalling? || At(s, k).Cleaning? || At(s, k).Unlocking?)
    ensures Runs(s, steps, t) && t.threadLock == Free && At(t, j) == At(s, j) && t.scheduled == s.scheduled
    decreases if At(s, k).Signalling? then 2 else if At(s, k).Cleaning? then 1 else 0
  {
    var next := Apply(s, Advance(k));
    if At(s, k).Unlocking? {
      steps, t := [Advance(k)], next;
      assert [Advance(k)][1..] == [];
    } else {
      var rest;
      rest, t := Unlocks(next, j, k);
      steps := [Advance(k)] + rest;
      assert steps[1..] == rest;
    }
  }

  /** In every reachable state a job that was scheduled and has not executed yet can still come to
      execute: it is neither lost nor blocked for ever. */
  lemma ScheduledCanRun(s: State, j: Job) returns (steps: seq<Step>, t: State)
    requires Reachable(s) && s.scheduled == Some(j)
    requires At(s, j).Lowering? || At(s, j).Raising? || At(s, j).Releasing? || At(s, j).Ready?
    ensures Runs(s, steps, t) && At(t, j) == Executing
  {
    ReachableInv(s);
    assert JobOk(s, j);
    var ready, u := ComesReady(s, j);
    RunsInv(s, ready, u);
    var unlock, v := ThreadLockComesFree(u, j);
    RunsInv(u, unlock, v);
    t := ReadyExecutes(v, j);
    var last := ProceedsRuns(v, j, 3, t);
    RunsOn(u, unlock, v, last, t);
    RunsOn(s, ready, u, unlock + last, t);
    steps := ready + (unlock + last);
  }

  lemma ComesReady(s: State, j: Job) returns (steps: seq<Step>, t: State)
    requires s.scheduled == Some(j) && (At(s, j).Lowering? || At(s, j).Raising? || At(s, j) == Releasing(true) || At(s, j).Ready?)
    ensures Runs(s, steps, t) && At(t, j) == Ready && t.scheduled == Some(j)
    decreases if At(s, j).Lowering? then 3 else if At(s, j).Raising? then 2 else if At(s, j).Releasing? then 1 else 0
  {
    if At(s, j).Ready? {
      steps, t := [], s;
    } else {
      var rest;
      rest, t := ComesReady(Apply(s, Advance(j)), j);
      steps := [Advance(j)] + rest;
      assert steps[1..] == rest;
    }
  }

  // ---------------------------------------------------------------- the critical task

  /** A completion counts exactly when the task has not been cancelled, and a cancellation exactly
      when it has no result yet; */
  lemma CompletionIff(s: State, j: Job, result: int)
    requires At(s, j) == Executing
    ensures Apply(s, Complete(j, result)).critical.result == Some(result) || s.critical.isCancelled
    ensures s.critical.isCancelled ==> Apply(s, Complete(j, result)) == s
    ensures Enabled(s, LoopCancelsCritical) ==>
              (Apply(s, LoopCancelsCritical).critical.isCancelled <==> s.critical.result == None || s.critical.isCancelled)
  {
  }

  /** so the task is never both. */
  lemma {:induction false} NeverCompletedAndCancelled(s: State, steps: seq<Step>, t: State)
    requires Runs(s, steps, t) && !(s.critical.isCancelled && s.critical.result.Some?)
    ensures !(t.critical.isCancelled && t.critical.result.Some?)
    decreases |steps|
  {
    if steps != [] {
      NeverCompletedAndCancelled(Apply(s, steps[0]), steps[1..], t);
    }
  }
}
