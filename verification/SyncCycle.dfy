/**
 `process_sync_replication` as the program has it, statement by statement, and the proof that it
 walks through the phases of the step system: whatever holds of every reachable state there holds
 when the method is done, whatever others did meanwhile.
 */
module SyncCycle {
  import opened Options
  import opened SyncProtocol
  import opened SyncTheorems

  /** What a query of `pg_stat_replication` shows. */
  datatype Answer = Answer(replicas: set<Node>, caught: set<Node>, chosen: set<Node>, insync: set<Node>)

  /** The rest of the world: what others do before the i-th access, what they do when the names
      assigned last also come into force before it, and how queries are answered. */
  datatype Env = Env(others: (nat, State) -> State, settle: (nat, State) -> State, ask: State -> Answer)

  /** A query finds the names in force; before the second one the method waits for that. */
  function Before(env: Env, i: nat, w: State, p: Phase): State {
    if p.Begun? || p.Rechecking? then env.settle(i, w) else env.others(i, w)
  }

  function WithPhase(w: State, x: Node, p: Phase): State {
    Put(w, x, At(w, x).(phase := p))
  }

  /** Accesses left in the longest continuation. */
  function Remaining(p: Phase): nat {
    match p
    case Begun(_, _) => 6
    case Repairing(_, _, _, _) => 5
    case Shrinking(_, _, _, _) => 4
    case Naming(_, _, _, _) => 3
    case Rechecking(_, _, _, _) => 2
    case Growing(_, _, _, _) => 1
    case _ => 0
  }

  function Asked(w: State, x: Node, cluster: SyncKey, a: Answer): State {
    Put(w, x, At(w, x).(handler := Readied(At(w, x), cluster, a.replicas, a.caught)))
  }

  function AllowedBy(w: State, x: Node, cluster: SyncKey, a: Answer): set<Node> {
    Allowed(At(w, x), Readied(At(w, x), cluster, a.replicas, a.caught), a.chosen, a.insync)
  }

  function Renamed(w: State, x: Node, names: Names): State {
    Put(w, x, At(w, x).(wanted := names))
  }

  /** What x's next access does to the world, and the phase it leads to. */
  function Effect(w: State, x: Node, p: Phase, strict: bool, a: Answer): (State, Phase)
    requires InFlight(p)
  {
    match p
    case Begun(cluster, sync) =>
      (Asked(w, x, cluster, a), Repairing(cluster, sync, a.chosen, AllowedBy(w, x, cluster, a)))
    case Repairing(cluster, sync, picked, allow) =>
      if !RepairWrites(p) then (w, Shrinking(cluster, sync, picked, allow))
      else if Wins(w, sync.version) then
        (w.(sync := NextKey(w, x, allow)), Shrinking(cluster, NextKey(w, x, allow), picked, allow))
      else (w, Idle)
    case Shrinking(cluster, sync, picked, allow) =>
      var key := NextKey(w, x, sync.members * allow);
      if picked == sync.members then (w, Idle)
      else if !ShrinkWrites(p) then (w, Naming(cluster, sync, picked, allow))
      else if Wins(w, sync.version) then (w.(sync := key), Naming(cluster, key, picked, allow))
      else (w, Idle)
    case Naming(cluster, sync, picked, allow) =>
      (Renamed(w, x, Names(picked, strict && picked == {})),
       if Asks(p) then Rechecking(cluster, sync, picked, allow) else Growing(cluster, sync, picked, allow))
    case Rechecking(cluster, sync, picked, _) =>
      (Asked(w, x, cluster, a), Growing(cluster, sync, picked, AllowedBy(w, x, cluster, a)))
    case Growing(_, sync, _, allow) =>
      (if GrowWrites(p) && Wins(w, sync.version) then w.(sync := NextKey(w, x, allow)) else w, Idle)
  }

  /** From phase p to the end of the cycle, others acting before every access. */
  function Continue(env: Env, w: State, i: nat, x: Node, p: Phase, strict: bool): State
    decreases Remaining(p)
  {
    if !InFlight(p) then w
    else
      var seen := Before(env, i, w, p);
      var (after, q) := Effect(seen, x, p, strict, env.ask(seen));
      Continue(env, after, i + 1, x, q, strict)
  }

  /** The part of `Ha` the method works on; `world` is everything outside its local variables. */
  class Ha {
    const name: Node
    const strict: bool
    const env: Env
    var world: State
    var accesses: nat

    method Yield()
      modifies this
      ensures world == env.others(old(accesses), old(world)) && accesses == old(accesses) + 1
    {
      world, accesses := env.others(accesses, world), accesses + 1;
    }

    method Wait()
      modifies this
      ensures world == env.settle(old(accesses), old(world)) && accesses == old(accesses) + 1
    {
      world, accesses := env.settle(accesses, world), accesses + 1;
    }

    /** `write_sync_state`: a compare-and-set on the version. */
    method WriteSyncState(members: set<Node>, version: nat) returns (written: Option<SyncKey>)
      modifies `world
      ensures
        if Wins(old(world), version) then
          && world == old(world).(sync := NextKey(old(world), name, members))
          && written == Some(NextKey(old(world), name, members))
        else world == old(world) && written == None
    {
      if world.sync.version == version {
        world := world.(sync := SyncKey(name, members, version + 1));
        return Some(world.sync);
      }
      return None;
    }

    /** `current_state`; how the candidates are chosen is `SyncCandidates.Choose`. */
    method QueryState(cluster: SyncKey) returns (picked: set<Node>, allowPromote: set<Node>)
      modifies `world
      ensures world == Asked(old(world), name, cluster, env.ask(old(world)))
      ensures picked == env.ask(old(world)).chosen
      ensures allowPromote == AllowedBy(old(world), name, cluster, env.ask(old(world)))
    {
      var answer, l := env.ask(world), At(world, name);
      var h := Noticed(l);
      h := h.(ready := h.ready + answer.replicas * l.names.listed * (cluster.members + answer.caught));
      world := Put(world, name, l.(handler := h));
      return answer.chosen, answer.chosen * answer.insync * l.names.listed * h.ready;
    }

    method SetSynchronousStandbyNames(names: Names)
      modifies `world
      ensures world == Renamed(old(world), name, names)
    {
      world := Put(world, name, At(world, name).(wanted := names));
    }

    /** `process_sync_replication`, synchronous mode being on and activated. */
    method ProcessSyncReplication(cluster: SyncKey)
      modifies this
      ensures world == Continue(env, old(world), old(accesses), name, Begun(cluster, cluster), strict)
    {
      ghost var whole := Continue(env, world, accesses, name, Begun(cluster, cluster), strict);
      var sync := cluster;
      var current := sync.members;
      Wait();
      var picked, allowPromote := QueryState(cluster);
      assert whole == Continue(env, world, accesses, name, Repairing(cluster, sync, picked, allowPromote), strict);

      Yield();
      if picked == current && current != allowPromote {
        var written := WriteSyncState(allowPromote, sync.version);
        if written == None {
          assert whole == Continue(env, world, accesses, name, Idle, strict);
          return;
        }
        sync := written.value;
        current := sync.members;
      }
      assert whole == Continue(env, world, accesses, name, Shrinking(cluster, sync, picked, allowPromote), strict);

      Yield();
      if picked != current {
        var syncCommon := current * allowPromote;
        if syncCommon != current {
          var written := WriteSyncState(syncCommon, sync.version);
          if written == None {
            assert whole == Continue(env, world, accesses, name, Idle, strict);
            return;
          }
          sync := written.value;
        }
        assert whole == Continue(env, world, accesses, name, Naming(cluster, sync, picked, allowPromote), strict);
        AssignNames(cluster, sync, picked, allowPromote, syncCommon);
      } else {
        assert whole == Continue(env, world, accesses, name, Idle, strict);
      }
    }

    /** Its last part: the names change, and only then new standbys are published. */
    method AssignNames(cluster: SyncKey, sync: SyncKey, picked: set<Node>, allow: set<Node>, syncCommon: set<Node>)
      requires syncCommon == sync.members
      modifies this
      ensures world == Continue(env, old(world), old(accesses), name, Naming(cluster, sync, picked, allow), strict)
    {
      ghost var whole := Continue(env, world, accesses, name, Naming(cluster, sync, picked, allow), strict);
      var allowPromote := allow;
      Yield();
      SetSynchronousStandbyNames(Names(picked, strict && picked == {}));
      if picked != {} && allowPromote != picked {
        assert whole == Continue(env, world, accesses, name, Rechecking(cluster, sync, picked, allow), strict);
        Wait();
        var _, again := QueryState(cluster);
        allowPromote := again;
      }
      assert whole == Continue(env, world, accesses, name, Growing(cluster, sync, picked, allowPromote), strict);

      Yield();
      if allowPromote != {} && allowPromote != syncCommon {
        var _ := WriteSyncState(allowPromote, sync.version);
      }
      assert whole == Continue(env, world, accesses, name, Idle, strict);
    }
  }

  // ---------------------------------------------------------------- the step system

  /** The step of the step system that an access is. */
  function StepOf(x: Node, p: Phase, strict: bool, a: Answer): Step
    requires InFlight(p)
  {
    match p
    case Begun(_, _) => CurrentState(x, a.replicas, a.caught, a.chosen, a.insync)
    case Repairing(_, _, _, _) => SyncProtocol.Repair(x)
    case Shrinking(_, _, _, _) => SyncProtocol.Shrink(x)
    case Naming(_, _, _, _) => SyncProtocol.SetNames(x, strict)
    case Rechecking(_, _, _, _) => SyncProtocol.Recheck(x, a.replicas, a.caught, a.chosen, a.insync)
    case Growing(_, _, _, _) => SyncProtocol.Grow(x)
  }

  lemma QueriedAnyPhase(w: State, x: Node, p: Phase, a: Answer)
    requires Queried(w, x, a.replicas, a.caught, a.chosen)
    ensures Queried(WithPhase(w, x, p), x, a.replicas, a.caught, a.chosen)
  {
    var seen := WithPhase(w, x, p);
    forall n <- a.replicas ensures Streams(seen, n, x) {
      assert Streams(w, n, x);
    }
    forall n <- a.caught ensures Noticed(At(seen, x)).flushLsn <= |At(seen, n).wal| {
      assert n in a.replicas && Streams(w, n, x);
    }
  }

  /** An access of the method is a step of the step system. */
  lemma EffectIsStep(w: State, x: Node, p: Phase, strict: bool, a: Answer)
    requires InFlight(p)
    requires p.Begun? || p.Rechecking? ==> Queried(w, x, a.replicas, a.caught, a.chosen)
    ensures
      var seen, step, (after, q) := WithPhase(w, x, p), StepOf(x, p, strict, a), Effect(w, x, p, strict, a);
      Guard(seen, step) && Apply(seen, step) == WithPhase(after, x, q)
  {
    var seen := WithPhase(w, x, p);
    if p.Begun? || p.Rechecking? {
      QueriedAnyPhase(w, x, p, a);
    }
    var (after, q) := Effect(w, x, p, strict, a);
    PutTwice(w, x, At(seen, x), At(after, x).(phase := q));
    PutTwice(w, x, At(after, x), At(after, x).(phase := q));
  }

  /** Others only take steps of their own, cannot see where x stands in its program, and leave its
      memory alone, but PostgreSQL at x may put the assigned names in force meanwhile, and has done
      so by a query; queries answer truthfully. */
  ghost predicate Fair(env: Env, trust: Trust, x: Node) {
    && (forall i, w, p {:trigger WithPhase(env.others(i, w), x, p)} ::
          Reachable(trust, WithPhase(w, x, p)) ==> Reachable(trust, WithPhase(env.others(i, w), x, p)))
    && (forall i, w, p {:trigger WithPhase(env.settle(i, w), x, p)} ::
          Reachable(trust, WithPhase(w, x, p)) ==> Reachable(trust, WithPhase(env.settle(i, w), x, p)))
    && (forall i, w :: SameOrSettled(At(w, x), At(env.others(i, w), x)))
    && (forall i, w :: At(env.settle(i, w), x) == At(w, x).(names := At(w, x).wanted))
    && (forall w :: At(w, x).role == Primary && At(w, x).names == At(w, x).wanted ==>
          Queried(w, x, env.ask(w).replicas, env.ask(w).caught, env.ask(w).chosen))
  }

  predicate SameOrSettled(before: Local, after: Local) {
    after == before || after == before.(names := before.wanted)
  }

  predicate Writes(p: Phase) {
    (p.Repairing? && RepairWrites(p)) || (p.Shrinking? && ShrinkWrites(p)) || (p.Growing? && GrowWrites(p))
  }

  /** In the cycle from phase p on, every write of /sync is made while x holds the leader key, or is
      refused. */
  ghost predicate Leased(env: Env, w: State, i: nat, x: Node, p: Phase, strict: bool)
    decreases Remaining(p)
  {
    InFlight(p) ==>
      var seen := Before(env, i, w, p);
      var (after, q) := Effect(seen, x, p, strict, env.ask(seen));
      && (Writes(p) ==> seen.leaderKey == Some(x) || !Wins(seen, p.sync.version))
      && Leased(env, after, i + 1, x, q, strict)
  }

  lemma EffectAdvances(w: State, x: Node, p: Phase, strict: bool, a: Answer)
    requires InFlight(p)
    ensures
      var (after, q) := Effect(w, x, p, strict, a);
      At(after, x).role == At(w, x).role && (InFlight(q) || q == Idle)
  {
  }

  lemma Arrives(env: Env, trust: Trust, w: State, i: nat, x: Node, p: Phase)
    requires Fair(env, trust, x) && At(w, x).role == Primary && InFlight(p)
    requires Reachable(trust, WithPhase(w, x, p))
    ensures
      var seen := Before(env, i, w, p);
      var a := env.ask(seen);
      && Reachable(trust, WithPhase(seen, x, p)) && At(seen, x).role == Primary
      && (p.Begun? || p.Rechecking? ==> Queried(seen, x, a.replicas, a.caught, a.chosen))
  {
    var seen := Before(env, i, w, p);
    if p.Begun? || p.Rechecking? {
      assert seen == env.settle(i, w);
      assert Reachable(trust, WithPhase(env.settle(i, w), x, p));
    } else {
      assert seen == env.others(i, w);
      assert SameOrSettled(At(w, x), At(env.others(i, w), x));
      assert Reachable(trust, WithPhase(env.others(i, w), x, p));
    }
  }

  lemma AccessIsAStep(env: Env, trust: Trust, seen: State, x: Node, p: Phase, strict: bool, a: Answer)
    requires InFlight(p) && Reachable(trust, WithPhase(seen, x, p))
    requires p.Begun? || p.Rechecking? ==> Queried(seen, x, a.replicas, a.caught, a.chosen)
    requires trust.lease && Writes(p) ==> seen.leaderKey == Some(x) || !Wins(seen, p.sync.version)
    ensures
      var (after, q) := Effect(seen, x, p, strict, a);
      Reachable(trust, WithPhase(after, x, q))
  {
    var (after, q) := Effect(seen, x, p, strict, a);
    EffectIsStep(seen, x, p, strict, a);
    Go(trust, WithPhase(seen, x, p), StepOf(x, p, strict, a), WithPhase(after, x, q));
  }

  lemma OneAccess(env: Env, trust: Trust, w: State, i: nat, x: Node, p: Phase, strict: bool)
    requires Fair(env, trust, x) && At(w, x).role == Primary && InFlight(p)
    requires trust.lease ==> Leased(env, w, i, x, p, strict)
    requires Reachable(trust, WithPhase(w, x, p))
    ensures
      var seen := Before(env, i, w, p);
      var (after, q) := Effect(seen, x, p, strict, env.ask(seen));
      && Reachable(trust, WithPhase(after, x, q)) && At(after, x).role == Primary && (InFlight(q) || q == Idle)
      && (trust.lease ==> Leased(env, after, i + 1, x, q, strict))
  {
    var seen := Before(env, i, w, p);
    Arrives(env, trust, w, i, x, p);
    AccessIsAStep(env, trust, seen, x, p, strict, env.ask(seen));
    EffectAdvances(seen, x, p, strict, env.ask(seen));
  }

  /** From any phase, finishing the method leads from a reachable state to a reachable state. */
  lemma {:induction false} CycleIsARun(env: Env, trust: Trust, w: State, i: nat, x: Node, p: Phase, strict: bool)
    requires Fair(env, trust, x) && At(w, x).role == Primary && (InFlight(p) || p == Idle)
    requires trust.lease ==> Leased(env, w, i, x, p, strict)
    requires Reachable(trust, WithPhase(w, x, p))
    ensures Reachable(trust, WithPhase(Continue(env, w, i, x, p, strict), x, Idle))
    ensures At(Continue(env, w, i, x, p, strict), x).role == Primary
    decreases Remaining(p)
  {
    if InFlight(p) {
      var seen := Before(env, i, w, p);
      var (after, q) := Effect(seen, x, p, strict, env.ask(seen));
      OneAccess(env, trust, w, i, x, p, strict);
      CycleIsARun(env, trust, after, i + 1, x, q, strict);
    }
  }

  /** Whatever others did meanwhile and wherever the method returned: when it is done, the standbys
      in /sync under this primary are among the names it waits for, and every node that /sync would
      let through the gate holds all that was ever acknowledged. */
  lemma CycleKeepsItsPromise(env: Env, w: State, i: nat, x: Node, strict: bool)
    requires Fair(env, TRUSTED, x) && Reachable(TRUSTED, w)
    requires At(w, x).role == Primary && At(w, x).phase == Idle && w.leaderKey == Some(x)
    requires Leased(env, w, i, x, Begun(w.sync, w.sync), strict)
    ensures
      var after := Continue(env, w, i, x, Begun(w.sync, w.sync), strict);
      && (after.sync.leader == x ==> after.sync.members <= At(after, x).names.listed)
      && (forall n: Node :: Matches(after.sync, n) ==> HoldsAcked(after, n))
  {
    var begun := Begun(w.sync, w.sync);
    Go(TRUSTED, w, SyncProtocol.Begin(x), WithPhase(w, x, begun));
    CycleIsARun(env, TRUSTED, w, i, x, begun, strict);
    PromiseKept(Continue(env, w, i, x, begun, strict), x);
  }

  lemma PromiseKept(after: State, x: Node)
    requires Reachable(TRUSTED, WithPhase(after, x, Idle)) && At(after, x).role == Primary
    ensures after.sync.leader == x ==> after.sync.members <= At(after, x).names.listed
    ensures forall n: Node :: Matches(after.sync, n) ==> HoldsAcked(after, n)
  {
    var t := WithPhase(after, x, Idle);
    NoAcknowledgedCommitLost(t);
    if t.sync.leader == x {
      PublishedAreWaitedFor(t);
    }
    forall n: Node | Matches(after.sync, n) ensures HoldsAcked(after, n) {
      assert HoldsAcked(t, n);
    }
  }
}
