/** The invariant of the hand-off and its preservation by every step. */
module SyncInvariant {
  import opened Options
  import opened SyncProtocol

  /* `floor` is the WAL that must survive: everything acknowledged, and everything up to the last
     promotion. `settled` says that the leader in /sync has been running as primary since it
     claimed the key. */

  /** Listed in the names in force and in those about to be. */
  function WaitsFor(l: Local): set<Node> {
    l.names.listed * l.wanted.listed
  }

  ghost predicate Authority(s: State, floor: Wal, settled: bool) {
    && floor <= At(s, s.sync.leader).wal
    && (forall n <- s.sync.members :: floor <= At(s, n).wal)
    && (forall r <- s.acked :: r in floor)
    && (!settled ==> s.sync.members == {})
    && (At(s, s.sync.leader).role == Primary ==> settled && s.sync.members <= WaitsFor(At(s, s.sync.leader)))
    && (s.leaderKey.Some? && At(s, s.leaderKey.value).role == Primary ==> s.leaderKey.value == s.sync.leader)
  }

  ghost predicate Numbered(s: State) {
    forall n: Node, r :: r in At(s, n).wal ==> r.serial < s.serial
  }

  predicate Chose(p: Phase) {
    p.Repairing? || p.Shrinking? || p.Naming?
  }

  ghost predicate NodeOk(s: State, settled: bool, n: Node) {
    var l := At(s, n);
    var p := l.phase;
    && (l.names.star ==> l.names.listed == {})
    && (l.wanted.star ==> l.wanted.listed == {})
    && l.handler.ready <= l.handler.seen.listed
    && (InFlight(p) ==> l.role == Primary)
    && (Racing(p) || p.Claimed? || p.Promoting? ==> l.role == Standby)
    && (p.Claimed? || p.Promoting? ==> n == s.sync.leader && !settled)
    && (p.Promoting? ==> l.wanted.listed == {})
    && (Racing(p) ==> p.seen <= s.sync.version && (p.seen == s.sync.version ==> Matches(s.sync, n)))
    && (p.Gated? ==> p.grants <= s.grants && (p.grants == s.grants ==> s.leaderKey == None && p.seen == s.sync.version))
    && (p.Holding? || p.Claiming? ==> s.leaderKey == Some(n) ==> p.seen == s.sync.version)
    && (InFlight(p) ==> if n == s.sync.leader then p.sync == s.sync else p.sync.version < s.sync.version)
    && (p.Begun? ==> p.cluster == p.sync)
    && (Chose(p) ==> p.allow <= p.picked)
    && (p.Naming? ==> p.sync.members <= p.allow)
    && (p.Rechecking? || p.Growing? ==> l.wanted.listed == p.picked)
  }

  /** The primary named in /sync: whom its next writes of /sync may name. */
  ghost predicate LeaderOk(s: State, floor: Wal) {
    var l := At(s, s.sync.leader);
    var p := l.phase;
    l.role == Primary ==>
      && (forall n <- l.handler.ready * l.wanted.listed :: floor <= At(s, n).wal)
      && (l.handler.seen == l.wanted && l.handler.flushLsn < |floor| ==> forall n <- l.wanted.listed :: floor <= At(s, n).wal)
      && (l.names != l.wanted && l.wanted.listed != {} ==> l.handler.ready <= l.names.listed && l.handler.seen != l.wanted)
      && (Chose(p) ==> l.handler.seen == l.names == l.wanted)
      && (Chose(p) || p.Growing? ==> forall n <- p.allow :: n in WaitsFor(l) && floor <= At(s, n).wal)
      && (Chose(p) || p.Rechecking? ==> forall n <- p.cluster.members * p.picked :: n in WaitsFor(l) && floor <= At(s, n).wal)
  }

  /** b keeps the superseded primary x from acknowledging anything the new leader does not have. */
  ghost predicate Blocks(s: State, floor: Wal, settled: bool, x: Node, b: Node) {
    var l := At(s, x);
    && b in WaitsFor(l)
    && (l.phase.Begun? || Chose(l.phase) ==> b in l.phase.sync.members)
    && ((!settled && b == s.sync.leader) || Diverged(floor, At(s, b).wal, l.wal))
  }

  ghost predicate Diverged(floor: Wal, ahead: Wal, behind: Wal) {
    exists r :: r in floor && r in ahead && r !in behind
  }

  ghost predicate StaleOk(s: State, floor: Wal, settled: bool, x: Node) {
    At(s, x).role == Primary && x != s.sync.leader ==> exists b :: Blocks(s, floor, settled, x, b)
  }

  ghost predicate Inv(s: State, floor: Wal, settled: bool) {
    && Authority(s, floor, settled)
    && Numbered(s)
    && (forall n: Node :: NodeOk(s, settled, n))
    && LeaderOk(s, floor)
    && (forall x: Node :: StaleOk(s, floor, settled, x))
  }

  ghost function NextFloor(s: State, step: Step, floor: Wal): Wal
    requires Guard(s, step)
  {
    match step
    case Ack(x, upTo, helper) => if |floor| < upTo then At(s, x).wal[..upTo] else floor
    case Promote(x) => At(Apply(s, step), x).wal
    case _ => floor
  }

  ghost function NextSettled(s: State, step: Step, settled: bool): bool
    requires Guard(s, step)
  {
    match step
    case Claim(x) => settled && !Wins(s, At(s, x).phase.version)
    case Promote(x) => true
    case _ => settled
  }

  ghost predicate Pre(s: State, step: Step, floor: Wal, settled: bool) {
    Inv(s, floor, settled) && Guard(s, step) && Trusted(Trust(true, true), s, step)
  }

  ghost predicate Post(s: State, step: Step, floor: Wal, settled: bool)
    requires Guard(s, step)
  {
    Inv(Apply(s, step), NextFloor(s, step, floor), NextSettled(s, step, settled))
  }

  /** x, holding the leader key, wrote /sync in which it already was the leader. */
  ghost predicate Rewritten(s: State, t: State, x: Node) {
    t.sync.version == s.sync.version + 1 && t.sync.leader == s.sync.leader == x && s.leaderKey == Some(x)
  }

  /** The leader key stays, disappears, or is given out to x. */
  ghost predicate KeyMoves(s: State, t: State, x: Node) {
    || (t.leaderKey == s.leaderKey && t.grants == s.grants)
    || (t.leaderKey == None && t.grants == s.grants)
    || (t.leaderKey == Some(x) && t.grants == s.grants + 1)
  }

  /** Enough to look at the node that moved: the others keep their part of the invariant when /sync
      stays, or when the leader in /sync rewrote it. */
  lemma OneNode(s: State, t: State, x: Node, floor: Wal, floor': Wal, settled: bool)
    requires Inv(s, floor, settled)
    requires forall n: Node :: n != x ==> At(t, n) == At(s, n)
    requires t.sync == s.sync || Rewritten(s, t, x)
    requires KeyMoves(s, t, x)
    requires floor <= floor'
    requires forall r :: r in floor && r in At(s, x).wal ==> r in At(t, x).wal
    requires s.serial <= t.serial && forall r <- At(t, x).wal :: r.serial < t.serial
    requires Authority(t, floor', settled) && LeaderOk(t, floor')
    requires NodeOk(t, settled, x) && StaleOk(t, floor', settled, x)
    ensures Inv(t, floor', settled)
  {
    forall n: Node, r | r in At(t, n).wal ensures r.serial < t.serial {
      if n != x { assert r in At(s, n).wal; }
    }
    forall n: Node ensures NodeOk(t, settled, n) {
      assert NodeOk(s, settled, n);
    }
    forall n: Node ensures StaleOk(t, floor', settled, n) {
      if n != x && At(t, n).role == Primary && n != t.sync.leader {
        assert StaleOk(s, floor, settled, n);
        var b :| Blocks(s, floor, settled, n, b);
        assert Blocks(t, floor', settled, n, b);
      }
    }
  }

  /** What another node does leaves the leader's part alone, as long as it keeps the floor. */
  lemma NotTheLeader(s: State, t: State, x: Node, floor: Wal, settled: bool)
    requires Authority(s, floor, settled) && LeaderOk(s, floor)
    requires x != s.sync.leader && t.sync == s.sync && t.acked == s.acked
    requires forall n: Node :: n != x ==> At(t, n) == At(s, n)
    requires floor <= At(s, x).wal ==> floor <= At(t, x).wal
    requires t.leaderKey == s.leaderKey || t.leaderKey == None || (t.leaderKey == Some(x) && At(t, x).role == Standby)
    requires At(t, x).role == Primary ==> At(s, x).role == Primary
    ensures Authority(t, floor, settled) && LeaderOk(t, floor)
  {
  }

  /** The same blocker still stands in x's way. */
  lemma StillBlocked(s: State, t: State, x: Node, floor: Wal, settled: bool)
    requires StaleOk(s, floor, settled, x)
    requires At(t, x).role == Primary ==> At(s, x).role == Primary
    requires t.sync.leader == s.sync.leader
    requires At(t, x).wal == At(s, x).wal
    requires forall n: Node :: n != x ==> At(t, n).wal == At(s, n).wal
    requires WaitsFor(At(s, x)) <= WaitsFor(At(t, x))
    requires At(t, x).phase.Begun? || Chose(At(t, x).phase) ==>
      (At(s, x).phase.Begun? || Chose(At(s, x).phase)) && At(s, x).phase.sync.members <= At(t, x).phase.sync.members
    ensures StaleOk(t, floor, settled, x)
  {
    if At(t, x).role == Primary && x != t.sync.leader {
      var b :| Blocks(s, floor, settled, x, b);
      assert Blocks(t, floor, settled, x, b);
    }
  }

  // ---------------------------------------------------------------- the steps, one lemma each

  /** Giving up whatever one was about, with or without losing the handler's memory. */
  lemma Pauses(s: State, x: Node, l: Local, floor: Wal, settled: bool)
    requires Inv(s, floor, settled)
    requires l == At(s, x).(role := l.role, handler := l.handler, phase := l.phase)
    requires l.role == Standby || l.role == At(s, x).role
    requires l.handler == At(s, x).handler || l.handler == Handler(NO_NAMES, 0, {})
    requires l.phase == Idle || (l.phase == Promoting == At(s, x).phase)
    ensures Inv(Put(s, x, l), floor, settled)
  {
    assert NodeOk(s, settled, x);
    StillBlocked(s, Put(s, x, l), x, floor, settled);
    OneNode(s, Put(s, x, l), x, floor, floor, settled);
  }

  /** A program or its PostgreSQL stops, or a candidate withdraws. */
  predicate Drops(step: Step) { step.Stop? || step.Restart? || step.GiveUp? }

  lemma KeepsDrops(s: State, step: Step, floor: Wal, settled: bool)
    requires Drops(step) && Pre(s, step, floor, settled)
    ensures Post(s, step, floor, settled)
  {
    Pauses(s, step.x, At(Apply(s, step), step.x), floor, settled);
  }

  /** A candidate loads the cluster, before the gate or after it took the key. */
  predicate Loads(step: Step) { step.Gate? || step.Reload? }

  lemma KeepsLoads(s: State, step: Step, floor: Wal, settled: bool)
    requires Loads(step) && Pre(s, step, floor, settled)
    ensures Post(s, step, floor, settled)
  {
    var t := Apply(s, step);
    assert NodeOk(s, settled, step.x);
    StillBlocked(s, t, step.x, floor, settled);
    OneNode(s, t, step.x, floor, floor, settled);
  }

  lemma KeepsAcquire(s: State, step: Step, floor: Wal, settled: bool)
    requires step.Acquire? && Pre(s, step, floor, settled)
    ensures Post(s, step, floor, settled)
  {
    var t := Apply(s, step);
    assert NodeOk(s, settled, step.x);
    StillBlocked(s, t, step.x, floor, settled);
    OneNode(s, t, step.x, floor, floor, settled);
  }

  lemma KeepsObserve(s: State, step: Step, floor: Wal, settled: bool)
    requires step.Observe? && Pre(s, step, floor, settled)
    ensures Post(s, step, floor, settled)
  {
    var t := Apply(s, step);
    assert NodeOk(s, settled, step.x);
    StillBlocked(s, t, step.x, floor, settled);
    OneNode(s, t, step.x, floor, floor, settled);
  }

  lemma KeepsCurrentState(s: State, step: Step, floor: Wal, settled: bool)
    requires step.CurrentState? && Pre(s, step, floor, settled)
    ensures Post(s, step, floor, settled)
  {
    var t := Apply(s, step);
    assert NodeOk(s, settled, step.x);
    StillBlocked(s, t, step.x, floor, settled);
    OneNode(s, t, step.x, floor, floor, settled);
  }

  lemma KeepsRecheck(s: State, step: Step, floor: Wal, settled: bool)
    requires step.Recheck? && Pre(s, step, floor, settled)
    ensures Post(s, step, floor, settled)
  {
    var t := Apply(s, step);
    assert NodeOk(s, settled, step.x);
    StillBlocked(s, t, step.x, floor, settled);
    OneNode(s, t, step.x, floor, floor, settled);
  }

  /** A primary writes the leader key or the history. */
  predicate Announces(step: Step) { step.Reclaim? || step.UpdateHistory? }

  lemma KeepsAnnounces(s: State, step: Step, floor: Wal, settled: bool)
    requires Announces(step) && Pre(s, step, floor, settled)
    ensures Post(s, step, floor, settled)
  {
    var t := Apply(s, step);
    assert NodeOk(s, settled, step.x);
    StillBlocked(s, t, step.x, floor, settled);
    OneNode(s, t, step.x, floor, floor, settled);
  }

  lemma KeepsTakesNames(s: State, step: Step, floor: Wal, settled: bool)
    requires step.TakesNames? && Pre(s, step, floor, settled)
    ensures Post(s, step, floor, settled)
  {
    var t := Apply(s, step);
    assert NodeOk(s, settled, step.x);
    StillBlocked(s, t, step.x, floor, settled);
    OneNode(s, t, step.x, floor, floor, settled);
  }

  lemma KeepsExpire(s: State, step: Step, floor: Wal, settled: bool)
    requires step.Expire? && Pre(s, step, floor, settled)
    ensures Post(s, step, floor, settled)
  {
    var t := Apply(s, step);
    var x := s.sync.leader;
    assert NodeOk(s, settled, x);
    StillBlocked(s, t, x, floor, settled);
    OneNode(s, t, x, floor, floor, settled);
  }

  lemma KeepsBegin(s: State, step: Step, floor: Wal, settled: bool)
    requires step.Begin? && Pre(s, step, floor, settled)
    ensures Post(s, step, floor, settled)
  {
    var t := Apply(s, step);
    assert NodeOk(s, settled, step.x);
    OneNode(s, t, step.x, floor, floor, settled);
  }

  lemma KeepsRepair(s: State, step: Step, floor: Wal, settled: bool)
    requires step.Repair? && Pre(s, step, floor, settled)
    ensures Post(s, step, floor, settled)
  {
    var p := At(s, step.x).phase;
    if RepairWrites(p) && Wins(s, p.sync.version) {
      RepairWins(s, step, floor, settled);
    } else {
      RepairOnlyMoves(s, step, floor, settled);
    }
  }

  /** No write, or a lost one: only the phase changes. */
  lemma RepairOnlyMoves(s: State, step: Step, floor: Wal, settled: bool)
    requires step.Repair? && Pre(s, step, floor, settled)
    requires
      var p := At(s, step.x).phase;
      !RepairWrites(p) || !Wins(s, p.sync.version)
    ensures Post(s, step, floor, settled)
  {
    var t := Apply(s, step);
    var p := At(s, step.x).phase;
    assert NodeOk(s, settled, step.x);
    assert t == Put(s, step.x, At(s, step.x).(phase := At(t, step.x).phase));
    assert At(t, step.x).phase == Idle || At(t, step.x).phase == Shrinking(p.cluster, p.sync, p.picked, p.allow);
    StillBlocked(s, t, step.x, floor, settled);
    OneNode(s, t, step.x, floor, floor, settled);
  }

  lemma RepairWins(s: State, step: Step, floor: Wal, settled: bool)
    requires step.Repair? && Pre(s, step, floor, settled)
    requires RepairWrites(At(s, step.x).phase) && Wins(s, At(s, step.x).phase.sync.version)
    ensures Post(s, step, floor, settled)
  {
    var t := Apply(s, step);
    assert NodeOk(s, settled, step.x);
    assert step.x == s.sync.leader == t.sync.leader;
    assert Authority(t, floor, settled);
    assert LeaderOk(t, floor);
    OneNode(s, t, step.x, floor, floor, settled);
  }

  lemma KeepsShrink(s: State, step: Step, floor: Wal, settled: bool)
    requires step.Shrink? && Pre(s, step, floor, settled)
    ensures Post(s, step, floor, settled)
  {
    var p := At(s, step.x).phase;
    if p.picked != p.sync.members && ShrinkWrites(p) && Wins(s, p.sync.version) {
      ShrinkWins(s, step, floor, settled);
    } else {
      ShrinkOnlyMoves(s, step, floor, settled);
    }
  }

  lemma ShrinkOnlyMoves(s: State, step: Step, floor: Wal, settled: bool)
    requires step.Shrink? && Pre(s, step, floor, settled)
    requires
      var p := At(s, step.x).phase;
      p.picked == p.sync.members || !ShrinkWrites(p) || !Wins(s, p.sync.version)
    ensures Post(s, step, floor, settled)
  {
    var t := Apply(s, step);
    var p := At(s, step.x).phase;
    assert NodeOk(s, settled, step.x);
    assert t == Put(s, step.x, At(s, step.x).(phase := At(t, step.x).phase));
    assert At(t, step.x).phase == Idle || At(t, step.x).phase == Naming(p.cluster, p.sync, p.picked, p.allow);
    StillBlocked(s, t, step.x, floor, settled);
    OneNode(s, t, step.x, floor, floor, settled);
  }

  lemma ShrinkWins(s: State, step: Step, floor: Wal, settled: bool)
    requires step.Shrink? && Pre(s, step, floor, settled)
    requires ShrinkWrites(At(s, step.x).phase) && Wins(s, At(s, step.x).phase.sync.version)
    requires At(s, step.x).phase.picked != At(s, step.x).phase.sync.members
    ensures Post(s, step, floor, settled)
  {
    var t := Apply(s, step);
    assert NodeOk(s, settled, step.x);
    assert step.x == s.sync.leader == t.sync.leader;
    assert Authority(t, floor, settled);
    assert LeaderOk(t, floor);
    OneNode(s, t, step.x, floor, floor, settled);
  }

  lemma KeepsGrow(s: State, step: Step, floor: Wal, settled: bool)
    requires step.Grow? && Pre(s, step, floor, settled)
    ensures Post(s, step, floor, settled)
  {
    var p := At(s, step.x).phase;
    if GrowWrites(p) && Wins(s, p.sync.version) {
      GrowWins(s, step, floor, settled);
    } else {
      var t := Apply(s, step);
      assert NodeOk(s, settled, step.x);
      StillBlocked(s, t, step.x, floor, settled);
      OneNode(s, t, step.x, floor, floor, settled);
    }
  }

  lemma GrowWins(s: State, step: Step, floor: Wal, settled: bool)
    requires step.Grow? && Pre(s, step, floor, settled)
    requires GrowWrites(At(s, step.x).phase) && Wins(s, At(s, step.x).phase.sync.version)
    ensures Post(s, step, floor, settled)
  {
    var t := Apply(s, step);
    assert NodeOk(s, settled, step.x);
    assert step.x == s.sync.leader == t.sync.leader;
    assert Authority(t, floor, settled);
    assert LeaderOk(t, floor);
    OneNode(s, t, step.x, floor, floor, settled);
  }

  lemma KeepsSetNames(s: State, step: Step, floor: Wal, settled: bool)
    requires step.SetNames? && Pre(s, step, floor, settled)
    ensures Post(s, step, floor, settled)
  {
    var t := Apply(s, step);
    assert NodeOk(s, settled, step.x);
    if step.x != s.sync.leader {
      NamesOfSuperseded(s, step, floor, settled);
    }
    OneNode(s, t, step.x, floor, floor, settled);
  }

  /** The new names still list whoever blocks a superseded primary. */
  lemma NamesOfSuperseded(s: State, step: Step, floor: Wal, settled: bool)
    requires step.SetNames? && Pre(s, step, floor, settled) && step.x != s.sync.leader
    ensures StaleOk(Apply(s, step), floor, settled, step.x)
  {
    assert NodeOk(s, settled, step.x) && StaleOk(s, floor, settled, step.x);
    var b :| Blocks(s, floor, settled, step.x, b);
    assert Blocks(Apply(s, step), floor, settled, step.x, b);
  }

  lemma KeepsWrite(s: State, step: Step, floor: Wal, settled: bool)
    requires step.Write? && Pre(s, step, floor, settled)
    ensures Post(s, step, floor, settled)
  {
    var t := Apply(s, step);
    var x := step.x;
    assert NodeOk(s, settled, x);
    if x != s.sync.leader {
      assert StaleOk(s, floor, settled, x);
      var b :| Blocks(s, floor, settled, x, b);
      assert Blocks(t, floor, settled, x, b);
      NotTheLeader(s, t, x, floor, settled);
    }
    OneNode(s, t, x, floor, floor, settled);
  }

  lemma KeepsStream(s: State, step: Step, floor: Wal, settled: bool)
    requires step.Stream? && Pre(s, step, floor, settled)
    ensures Post(s, step, floor, settled)
  {
    var t := Apply(s, step);
    assert NodeOk(s, settled, step.x);
    if step.x != s.sync.leader {
      NotTheLeader(s, t, step.x, floor, settled);
    }
    OneNode(s, t, step.x, floor, floor, settled);
  }

  lemma KeepsRejoin(s: State, step: Step, floor: Wal, settled: bool)
    requires step.Rejoin? && Pre(s, step, floor, settled)
    ensures Post(s, step, floor, settled)
  {
    var t := Apply(s, step);
    assert NodeOk(s, settled, step.x);
    assert s.leaderKey == Some(s.sync.leader);
    NotTheLeader(s, t, step.x, floor, settled);
    OneNode(s, t, step.x, floor, floor, settled);
  }

  /** A superseded primary gets nothing acknowledged beyond what the new leader holds. */
  lemma StaleAck(s: State, step: Step, floor: Wal, settled: bool)
    requires step.Ack? && Pre(s, step, floor, settled) && step.x != s.sync.leader
    ensures !settled && At(s, step.x).wal[..step.upTo] <= At(s, s.sync.leader).wal
    ensures s.sync.leader in WaitsFor(At(s, step.x))
    ensures At(s, step.x).phase.Begun? || Chose(At(s, step.x).phase) ==> s.sync.leader in At(s, step.x).phase.sync.members
  {
    var x := step.x;
    assert NodeOk(s, settled, x) && StaleOk(s, floor, settled, x);
    var b :| Blocks(s, floor, settled, x, b);
    assert Confirms(s, b, x, step.upTo);
  }

  lemma KeepsAck(s: State, step: Step, floor: Wal, settled: bool)
    requires step.Ack? && Pre(s, step, floor, settled)
    ensures Post(s, step, floor, settled)
  {
    var t := Apply(s, step);
    var x := step.x;
    var floor' := NextFloor(s, step, floor);
    assert NodeOk(s, settled, x);
    if x != s.sync.leader {
      StaleAck(s, step, floor, settled);
      assert Blocks(t, floor', settled, x, s.sync.leader);
    }
    OneNode(s, t, x, floor, floor', settled);
  }

  lemma KeepsClaim(s: State, step: Step, floor: Wal, settled: bool)
    requires step.Claim? && Pre(s, step, floor, settled)
    ensures Post(s, step, floor, settled)
  {
    if Wins(s, At(s, step.x).phase.version) {
      ClaimWins(s, step, floor, settled);
    } else {
      var t := Apply(s, step);
      assert NodeOk(s, settled, step.x);
      OneNode(s, t, step.x, floor, floor, settled);
    }
  }

  lemma ClaimWins(s: State, step: Step, floor: Wal, settled: bool)
    requires step.Claim? && Pre(s, step, floor, settled) && Wins(s, At(s, step.x).phase.version)
    ensures Post(s, step, floor, settled)
  {
    var t := Apply(s, step);
    assert NodeOk(s, settled, step.x);
    forall n: Node, r | r in At(t, n).wal ensures r.serial < t.serial {
      assert r in At(s, n).wal;
    }
    forall n: Node ensures NodeOk(t, false, n) {
      assert NodeOk(s, settled, n);
    }
    forall y: Node ensures StaleOk(t, floor, false, y) {
      ClaimBlocks(s, step, floor, settled, y);
    }
  }

  lemma KeepsClearNames(s: State, step: Step, floor: Wal, settled: bool)
    requires step.ClearNames? && Pre(s, step, floor, settled)
    ensures Post(s, step, floor, settled)
  {
    var t := Apply(s, step);
    assert NodeOk(s, settled, step.x);
    OneNode(s, t, step.x, floor, floor, settled);
  }

  /** A winning claim leaves every other primary blocked: the old leader waits for the claimant. */
  lemma ClaimBlocks(s: State, step: Step, floor: Wal, settled: bool, y: Node)
    requires step.Claim? && Pre(s, step, floor, settled) && Wins(s, At(s, step.x).phase.version)
    ensures StaleOk(Apply(s, step), floor, false, y)
  {
    var t := Apply(s, step);
    var x := step.x;
    assert NodeOk(s, settled, x) && NodeOk(s, settled, y);
    if At(t, y).role == Primary && y != x {
      if y == s.sync.leader {
        assert Blocks(t, floor, false, y, x);
      } else {
        assert StaleOk(s, floor, settled, y);
        var b :| Blocks(s, floor, settled, y, b);
        assert Blocks(t, floor, false, y, b);
      }
    }
  }

  lemma KeepsPromote(s: State, step: Step, floor: Wal, settled: bool)
    requires step.Promote? && Pre(s, step, floor, settled)
    ensures Post(s, step, floor, settled)
  {
    var t := Apply(s, step);
    var x := step.x;
    var floor' := At(t, x).wal;
    assert NodeOk(s, settled, x);
    forall n: Node, r | r in At(t, n).wal ensures r.serial < t.serial {
      if n != x || r != Timeline(s.serial) { assert r in At(s, n).wal; }
    }
    forall n: Node ensures NodeOk(t, true, n) {
      assert NodeOk(s, settled, n);
    }
    forall y: Node ensures StaleOk(t, floor', true, y) {
      PromoteBlocks(s, step, floor, settled, y);
    }
  }

  /** The timeline switch is a record that no superseded primary has. */
  lemma PromoteBlocks(s: State, step: Step, floor: Wal, settled: bool, y: Node)
    requires step.Promote? && Pre(s, step, floor, settled)
    ensures StaleOk(Apply(s, step), At(Apply(s, step), step.x).wal, true, y)
  {
    var t := Apply(s, step);
    var x := step.x;
    var switch := Timeline(s.serial);
    assert NodeOk(s, settled, x);
    assert At(t, x).wal == At(s, x).wal + [switch] && switch in At(t, x).wal;
    if At(t, y).role == Primary && y != x {
      assert StaleOk(s, floor, settled, y);
      var b :| Blocks(s, floor, settled, y, b);
      assert switch !in At(s, y).wal;
      assert Blocks(t, At(t, x).wal, true, y, b);
    }
  }
}
