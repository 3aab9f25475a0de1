/** Whole runs of the hand-off: what they keep, and exactly when they keep it. */
module SyncTheorems {
  import opened Options
  import opened SyncProtocol
  import opened SyncInvariant

  const TRUSTED := Trust(true, true)

  lemma InitEstablishes(s: State)
    requires Init(s)
    ensures Inv(s, At(s, s.sync.leader).wal, true)
  {
  }

  lemma StepKeeps(s: State, step: Step, floor: Wal, settled: bool)
    requires Pre(s, step, floor, settled)
    ensures Post(s, step, floor, settled)
  {
    if Drops(step) {
      KeepsDrops(s, step, floor, settled);
    } else if Loads(step) {
      KeepsLoads(s, step, floor, settled);
    } else if Announces(step) {
      KeepsAnnounces(s, step, floor, settled);
    } else {
      match step
      case Write(_) => KeepsWrite(s, step, floor, settled);
      case Stream(_, _, _) => KeepsStream(s, step, floor, settled);
      case Ack(_, _, _) => KeepsAck(s, step, floor, settled);
      case TakesNames(_) => KeepsTakesNames(s, step, floor, settled);
      case Rejoin(_) => KeepsRejoin(s, step, floor, settled);
      case Expire => KeepsExpire(s, step, floor, settled);
      case Begin(_) => KeepsBegin(s, step, floor, settled);
      case Observe(_) => KeepsObserve(s, step, floor, settled);
      case CurrentState(_, _, _, _, _) => KeepsCurrentState(s, step, floor, settled);
      case Repair(_) => KeepsRepair(s, step, floor, settled);
      case Shrink(_) => KeepsShrink(s, step, floor, settled);
      case SetNames(_, _) => KeepsSetNames(s, step, floor, settled);
      case Recheck(_, _, _, _, _) => KeepsRecheck(s, step, floor, settled);
      case Grow(_) => KeepsGrow(s, step, floor, settled);
      case Acquire(_) => KeepsAcquire(s, step, floor, settled);
      case Claim(_) => KeepsClaim(s, step, floor, settled);
      case ClearNames(_, _) => KeepsClearNames(s, step, floor, settled);
      case Promote(_) => KeepsPromote(s, step, floor, settled);
    }
  }

  lemma {:induction false} RunKeeps(s: State, steps: seq<Step>, t: State, floor: Wal, settled: bool)
    requires Inv(s, floor, settled) && Runs(TRUSTED, s, steps, t)
    ensures exists floor', settled' :: Inv(t, floor', settled')
    decreases |steps|
  {
    if steps != [] {
      StepKeeps(s, steps[0], floor, settled);
      RunKeeps(Apply(s, steps[0]), steps[1..], t, NextFloor(s, steps[0], floor), NextSettled(s, steps[0], settled));
    }
  }

  lemma ReachableInv(t: State) returns (floor: Wal, settled: bool)
    requires Reachable(TRUSTED, t)
    ensures Inv(t, floor, settled)
  {
    var s, steps :| Init(s) && Runs(TRUSTED, s, steps, t);
    InitEstablishes(s);
    RunKeeps(s, steps, t, At(s, s.sync.leader).wal, true);
    floor, settled :| Inv(t, floor, settled);
  }

  /** No acknowledged commit is lost: whoever has claimed /sync or is being promoted, and indeed
      every node that /sync lets through the gate, holds all that any primary ever acknowledged. */
  lemma NoAcknowledgedCommitLost(t: State)
    requires Reachable(TRUSTED, t)
    ensures forall n: Node :: At(t, n).phase.Claimed? || At(t, n).phase.Promoting? ==> HoldsAcked(t, n)
    ensures forall n: Node :: Matches(t.sync, n) ==> HoldsAcked(t, n)
  {
    var floor, settled := ReachableInv(t);
    forall n: Node | Matches(t.sync, n) || At(t, n).phase.Claimed? || At(t, n).phase.Promoting? ensures HoldsAcked(t, n) {
      assert NodeOk(t, settled, n);
    }
  }

  /** In every reachable state, hence between any two accesses of any node: the standbys published
      in /sync under a running primary are among the names that primary waits for, both those in
      force and those assigned last. */
  lemma PublishedAreWaitedFor(t: State)
    requires Reachable(TRUSTED, t) && At(t, t.sync.leader).role == Primary
    ensures t.sync.members <= At(t, t.sync.leader).names.listed
    ensures t.sync.members <= At(t, t.sync.leader).wanted.listed
  {
    var _, _ := ReachableInv(t);
  }

  /** Once another node has claimed /sync and been promoted, a primary that has not noticed yet
      gets nothing acknowledged any more, whatever its standbys do. */
  lemma SupersededPrimaryIsMute(t: State, x: Node, upTo: nat, helper: Node)
    requires Reachable(TRUSTED, t)
    requires x != t.sync.leader && At(t, t.sync.leader).role == Primary
    ensures !Guard(t, Ack(x, upTo, helper))
  {
    var floor, settled := ReachableInv(t);
    if Guard(t, Ack(x, upTo, helper)) {
      StaleAck(t, Ack(x, upTo, helper), floor, settled);
    }
  }

  /** The last access of a cycle by the leader in /sync: nothing to change, or the final write. */
  predicate EndsCycle(s: State, step: Step) {
    || (step.Shrink? && Guard(s, step) && At(s, step.x).phase.picked == At(s, step.x).phase.sync.members)
    || (step.Grow? && Guard(s, step))
  }

  /** When a finished cycle leaves /sync and the names equal: if it found nothing to change, exactly
      when the names already were those it picked; if it changed the names, exactly when all it
      picked are in /sync or could be put there. */
  lemma CycleEndsEqualIff(t: State, step: Step)
    requires Reachable(TRUSTED, t) && EndsCycle(t, step) && step.x == t.sync.leader
    ensures
      var p, after := At(t, step.x).phase, Apply(t, step);
      after.sync.members == At(after, step.x).wanted.listed <==>
      if step.Shrink? then At(t, step.x).names.listed == p.picked
      else p.picked == if p.allow == {} then t.sync.members else p.allow
  {
    var floor, settled := ReachableInv(t);
    assert NodeOk(t, settled, step.x);
  }

  /** Who may enter the race for a free key: an idle standby that /sync names, as its leader or as one
      of its members. */
  lemma GateIff(s: State, x: Node)
    requires s.leaderKey == None && At(s, x).role == Standby && At(s, x).phase == Idle
    ensures Guard(s, Gate(x)) <==> x == s.sync.leader || x in s.sync.members
  {
  }

  /** The timeline of a WAL is one more than the number of switches in it. */
  lemma {:induction false} TimelineCounts(wal: Wal)
    ensures TimelineOf(wal) == 1 + |set i | 0 <= i < |wal| && wal[i].Timeline?|
    decreases |wal|
  {
    if wal != [] {
      var last := |wal| - 1;
      TimelineCounts(wal[..last]);
      var before := set i | 0 <= i < last && wal[i].Timeline?;
      assert before == set i | 0 <= i < last && wal[..last][i].Timeline?;
      assert (set i | 0 <= i < |wal| && wal[i].Timeline?) == before + if wal[last].Timeline? then {last} else {};
    }
  }

  /** Once the new primary y has written the history, a primary with fewer timeline switches cannot
      take a free leader key back, while y itself still can. */
  lemma HistoryKeepsOldPrimaryOut(s: State, x: Node, y: Node)
    requires Guard(s, UpdateHistory(y)) && TimelineOf(At(s, x).wal) < TimelineOf(At(s, y).wal)
    ensures
      var t := Apply(Apply(s, UpdateHistory(y)), Expire);
      !Guard(t, Reclaim(x)) && (At(s, y).phase == Idle ==> Guard(t, Reclaim(y)))
  {
  }

  // ---------------------------------------------------------------- building runs

  lemma {:induction false} RunsSnoc(trust: Trust, s: State, steps: seq<Step>, t: State, step: Step)
    requires Runs(trust, s, steps, t) && Guard(t, step) && Trusted(trust, t, step)
    ensures Runs(trust, s, steps + [step], Apply(t, step))
    decreases |steps|
  {
    if steps == [] {
      assert [step][1..] == [];
      assert Runs(trust, Apply(t, step), [], Apply(t, step));
      assert steps + [step] == [step];
    } else {
      RunsSnoc(trust, Apply(s, steps[0]), steps[1..], t, step);
      assert (steps + [step])[1..] == steps[1..] + [step];
    }
  }

  lemma Go(trust: Trust, t: State, step: Step, t': State)
    requires Reachable(trust, t) && Guard(t, step) && Trusted(trust, t, step)
    requires Apply(t, step) == t'
    ensures Reachable(trust, t')
  {
    var s, steps :| Init(s) && Runs(trust, s, steps, t);
    RunsSnoc(trust, s, steps, t, step);
    assert Init(s) && Runs(trust, s, steps + [step], t');
  }
}
