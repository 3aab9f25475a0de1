/**
 Failsafe mode: a primary that lost the DCS asks every member for permission to go on, and each
 member that agrees treats it as the leader for one ttl.
 */
module Failsafe {
  import opened Options

  type Slots = map<string, nat>

  datatype Leader = Leader(name: string, slots: Option<Slots>)

  datatype Status = Status(lastLsn: nat, slots: Option<Slots>)

  /** The part of the cluster view that failsafe mode may replace, and the rest. */
  datatype Cluster = Cluster(config: string, leader: Option<Leader>, status: Status, members: seq<string>)

  /** `is_unlocked`: no leader, or one without a name. */
  predicate Unlocked(c: Cluster) {
    c.leader == None || c.leader.value.name == ""
  }

  datatype Ping = Ping(name: string, connUrl: string, apiUrl: string, slots: Option<Slots>)

  /** What a node remembers of the last ping. */
  datatype Memory = Memory(lastUpdate: real, ping: Option<Ping>)

  const FORGOTTEN := Memory(0.0, None)

  /** `Failsafe.leader`. */
  function KnownLeader(m: Memory, ttl: real, now: real): Option<Leader> {
    if now < m.lastUpdate + ttl && m.ping.Some? && m.ping.value.name != ""
    then Some(Leader(m.ping.value.name, m.ping.value.slots)) else None
  }

  /** `Failsafe.update_cluster`: leader and slots are replaced, the last known LSN stays. */
  function Enriched(m: Memory, ttl: real, now: real, c: Cluster): Cluster {
    match KnownLeader(m, ttl, now)
    case Some(leader) => c.(leader := Some(leader), status := Status(c.status.lastLsn, leader.slots))
    case None => c
  }

  /** `Failsafe.set_is_active`. */
  function Activated(m: Memory, value: real): Memory {
    if value == 0.0 then FORGOTTEN else Memory(value, m.ping)
  }

  class FailsafeState {
    var lastUpdate: real
    var ping: Option<Ping>

    function Contents(): Memory
      reads this
    {
      Memory(lastUpdate, ping)
    }

    constructor ()
      ensures Contents() == FORGOTTEN
    {
      lastUpdate, ping := 0.0, None;
    }

    method Update(data: Ping, now: real)
      modifies this
      ensures Contents() == Memory(now, Some(data))
    {
      lastUpdate := now;
      ping := Some(data);
    }

    method SetIsActive(value: real)
      modifies this
      ensures Contents() == Activated(old(Contents()), value)
    {
      lastUpdate := value;
      if value == 0.0 {
        ping := None;
      }
    }
  }

  // ---------------------------------------------------------------- the topology

  /** The /failsafe key: the names that may take part in the leader race, with their API addresses. */
  type Topology = map<string, string>

  /** `is_healthiest_node` in failsafe mode: a node missing from a non-empty topology is out. */
  predicate MayRace(failsafe: Option<Topology>, name: string) {
    failsafe.Some? && failsafe.value != map[] ==> name in failsafe.value
  }

  /** `check_failsafe_topology`: a primary without DCS goes on exactly when it is part of the
      topology and every other node that could enter the leader race has accepted its ping. */
  method CheckFailsafeTopology(me: string, failsafe: Option<Topology>, accepts: string -> bool) returns (ok: bool)
    ensures ok <==>
      && failsafe.Some? && me in failsafe.value
      && forall n: string :: n != me && MayRace(failsafe, n) ==> accepts(n)
  {
    if failsafe == None || me !in failsafe.value {
      return false;
    }
    var members := failsafe.value.Keys - {me};
    ok := true;
    while members != {}
      invariant members <= failsafe.value.Keys - {me}
      invariant ok <==> forall n <- failsafe.value.Keys - {me} - members :: accepts(n)
      decreases members
    {
      var n :| n in members;
      members := members - {n};
      ok := ok && accepts(n);
    }
  }

  /** What a primary finds out after a DCS error: whether failsafe mode is on, the topology it knows,
      and who accepts its ping. */
  datatype Check = Check(failsafeMode: bool, failsafe: Option<Topology>, accepts: string -> bool)

  /** Failsafe mode is on, the primary is part of the topology, and every other node that could enter
      the leader race accepts. */
  ghost predicate Agreed(me: string, c: Check) {
    c.failsafeMode && c.failsafe.Some? && me in c.failsafe.value &&
    forall n: string :: n != me && MayRace(c.failsafe, n) ==> c.accepts(n)
  }

  // ---------------------------------------------------------------- one node

  datatype Role = Replica | RunningPrimary

  /** A run of the HA loop: when its cluster view was loaded, and whether it is past the only point
      where it may call `acquire_lock`. */
  datatype Cycle = Resting | Running(loaded: real, past: bool)

  datatype Node = Node(
    me: string,
    ttl: real,
    role: Role,
    memory: Memory,
    leaseEnd: real,
    cluster: Cluster,
    cycle: Cycle)

  datatype Event =
    | Pinged(now: real, data: Ping)
    | Load(now: real, dcs: Cluster, failsafeMode: bool)
    | Reload(now: real, dcs: Cluster, failsafeMode: bool)
    | Acquire(now: real, won: bool)
    | UpdateLock(now: real, won: bool)
    | StartPromotion(now: real)
    | BecomePrimary(now: real)
    | BecomeReplica(now: real)
    | Demote(now: real)
    | Survive(now: real, check: Check)
    | EndCycle(now: real, dcsFailed: bool)

  predicate HasLock(n: Node) {
    n.cluster.leader.Some? && n.cluster.leader.value.name == n.me
  }

  predicate IsLeader(n: Node, now: real) {
    now < n.leaseEnd
  }

  predicate Enabled(n: Node, e: Event) {
    match e
    case Pinged(_, _) => true
    case Load(_, _, _) => n.cycle.Resting?
    case Reload(_, _, _) => n.cycle.Running?
    case Acquire(_, _) => n.cycle.Running? && !n.cycle.past && Unlocked(n.cluster)
    case UpdateLock(_, _) => n.cycle.Running? && HasLock(n)
    case StartPromotion(_) => n.cycle.Running? && HasLock(n)
    case BecomePrimary(_) => true
    case BecomeReplica(_) => true
    case Demote(_) => n.role == RunningPrimary
    case Survive(_, _) => n.role == RunningPrimary
    case EndCycle(_, _) => n.cycle.Running?
  }

  /** `load_cluster_from_dcs`. */
  function Loaded(n: Node, now: real, dcs: Cluster, failsafeMode: bool): Node {
    var cluster := if Unlocked(dcs) && failsafeMode then Enriched(n.memory, n.ttl, now, dcs) else dcs;
    var n' := n.(cluster := cluster);
    if HasLock(n') then n' else n'.(leaseEnd := 0.0)
  }

  ghost function Step(n: Node, e: Event): Node
    requires Enabled(n, e)
  {
    match e
    case Pinged(now, data) => if n.role == RunningPrimary then n else n.(memory := Memory(now, Some(data)))
    case Load(now, dcs, failsafeMode) => Loaded(n, now, dcs, failsafeMode).(cycle := Running(now, false))
    case Reload(now, dcs, failsafeMode) => Loaded(n, now, dcs, failsafeMode).(cycle := n.cycle.(past := true))
    case Acquire(now, won) => n.(leaseEnd := if won then now + n.ttl else 0.0, cycle := n.cycle.(past := true))
    case UpdateLock(now, won) => n.(leaseEnd := if won then now + n.ttl else 0.0)
    case StartPromotion(now) => n.(memory := Activated(n.memory, 0.0))
    case BecomePrimary(now) => n.(role := RunningPrimary)
    case BecomeReplica(now) => n.(role := Replica)
    case Demote(now) => n.(role := Replica, leaseEnd := 0.0)
    case Survive(now, check) =>
      if Agreed(n.me, check) then n.(leaseEnd := now + n.ttl, memory := Activated(n.memory, now)) else n.(memory := Activated(n.memory, 0.0))
    case EndCycle(now, dcsFailed) =>
      n.(memory := if !dcsFailed && IsLeader(n, now) then Activated(n.memory, 0.0) else n.memory, cycle := Resting)
  }

  /** The fields of `Ha` that take part, and its `Failsafe` object. */
  class Ha {
    const me: string
    const ttl: real
    const failsafe: FailsafeState
    var role: Role
    var leaderExpiry: real
    var cluster: Cluster
    var cycle: Cycle

    constructor (me: string, ttl: real, role: Role, cluster: Cluster)
      ensures State() == Node(me, ttl, role, FORGOTTEN, 0.0, cluster, Resting)
      ensures fresh(failsafe)
    {
      this.me, this.ttl, this.role, this.cluster := me, ttl, role, cluster;
      leaderExpiry, cycle := 0.0, Resting;
      failsafe := new FailsafeState();
    }

    /** `is_leader`. */
    predicate IsLeader(now: real)
      reads this
    {
      now < leaderExpiry
    }

    function State(): Node
      reads this, failsafe
    {
      Node(me, ttl, role, failsafe.Contents(), leaderExpiry, cluster, cycle)
    }

    /** `update_failsafe`: the answer to a ping. */
    method UpdateFailsafe(data: Ping, now: real) returns (refusal: Option<string>)
      modifies failsafe
      ensures State() == Step(old(State()), Pinged(now, data))
      ensures refusal.Some? <==> role == RunningPrimary
      ensures if refusal.Some? then failsafe.Contents() == old(failsafe.Contents())
              else failsafe.lastUpdate == now && failsafe.ping == Some(data)
    {
      if role == RunningPrimary {
        return Some("Running as a leader");
      }
      failsafe.Update(data, now);
      return None;
    }

    /** `load_cluster_from_dcs`, at the start of a cycle or within one. */
    method LoadClusterFromDcs(now: real, dcs: Cluster, failsafeMode: bool)
      modifies this
      ensures State() == Loaded(old(State()), now, dcs, failsafeMode)
    {
      cluster := dcs;
      if Unlocked(cluster) && failsafeMode {
        cluster := Enriched(failsafe.Contents(), ttl, now, dcs);
      }
      if !(cluster.leader.Some? && cluster.leader.value.name == me) {
        leaderExpiry := 0.0;
      }
    }

    method StartCycle(now: real, dcs: Cluster, failsafeMode: bool)
      requires cycle.Resting?
      modifies this
      ensures State() == Step(old(State()), Load(now, dcs, failsafeMode))
    {
      LoadClusterFromDcs(now, dcs, failsafeMode);
      cycle := Running(now, false);
    }

    /** `acquire_lock`; `won` is the answer of the DCS. */
    method AcquireLock(now: real, won: bool)
      requires Enabled(State(), Acquire(now, won))
      modifies this
      ensures State() == Step(old(State()), Acquire(now, won))
      ensures forall t :: 0.0 <= t ==> (IsLeader(t) <==> won && t < now + ttl)
    {
      leaderExpiry := if won then now + ttl else 0.0;
      cycle := cycle.(past := true);
    }

    /** `update_lock`; `won` is the answer of the DCS. */
    method UpdateLock(now: real, won: bool)
      requires Enabled(State(), Event.UpdateLock(now, won))
      modifies this
      ensures State() == Step(old(State()), Event.UpdateLock(now, won))
      ensures forall t :: 0.0 <= t ==> (IsLeader(t) <==> won && t < now + ttl)
    {
      leaderExpiry := if won then now + ttl else 0.0;
    }

    /** The promotion branch of `enforce_primary_role`: earlier pings are forgotten. */
    method StartPromotion(now: real)
      requires Enabled(State(), Event.StartPromotion(now))
      modifies this, failsafe
      ensures State() == Step(old(State()), Event.StartPromotion(now))
      ensures failsafe.Contents() == FORGOTTEN
    {
      failsafe.SetIsActive(0.0);
    }

    /** `_handle_dcs_error` on a running primary: it goes on as leader for one ttl exactly when
        failsafe mode is on, it is part of the topology and every other node of it accepts; then
        its ping counts as activity. Otherwise it is to be demoted, and gains no time. */
    method HandleDcsError(now: real, check: Check) returns (demoting: bool)
      requires role == RunningPrimary && 0.0 < now
      modifies this, failsafe
      ensures State() == Step(old(State()), Survive(now, check))
      ensures !demoting <==>
        && check.failsafeMode && check.failsafe.Some? && me in check.failsafe.value
        && forall n <- check.failsafe.value :: n != me ==> check.accepts(n)
      ensures forall t :: IsLeader(t) <==> if demoting then old(IsLeader(t)) else t < now + ttl
      ensures failsafe.lastUpdate == if demoting then 0.0 else now
    {
      var agreed := false;
      if check.failsafeMode {
        agreed := CheckFailsafeTopology(me, check.failsafe, check.accepts);
      }
      assert check.failsafe.Some? && me in check.failsafe.value ==>
          forall n: string :: MayRace(check.failsafe, n) <==> n in check.failsafe.value;
      if agreed {
        leaderExpiry := now + ttl;
        failsafe.SetIsActive(now);
        return false;
      }
      failsafe.SetIsActive(0.0);
      return true;
    }

    /** The end of `demote`. */
    method Demoted(now: real)
      requires role == RunningPrimary
      modifies this
      ensures State() == Step(old(State()), Demote(now))
      ensures forall t :: 0.0 <= t ==> !IsLeader(t)
    {
      role := Replica;
      leaderExpiry := 0.0;
    }

    /** The end of a cycle, with or without an error of the DCS. */
    method FinishCycle(now: real, dcsFailed: bool)
      requires cycle.Running?
      modifies this, failsafe
      ensures State() == Step(old(State()), EndCycle(now, dcsFailed))
      ensures failsafe.Contents() == if !dcsFailed && old(IsLeader(now)) then FORGOTTEN else old(failsafe.Contents())
    {
      if !dcsFailed && now < leaderExpiry {
        failsafe.SetIsActive(0.0);
      }
      cycle := Resting;
    }
  }

  // ---------------------------------------------------------------- runs

  ghost predicate Ordered(t: real, events: seq<Event>) {
    && (forall i :: 0 <= i < |events| ==> t <= events[i].now)
    && (forall i, j :: 0 <= i <= j < |events| ==> events[i].now <= events[j].now)
  }

  /** Exactly when a freshly started cycle can go on to `acquire_lock`: the DCS shows no leader, or a
      nameless one, and no ping of a named leader is younger than ttl. */
  lemma LoadOpensRaceIff(n: Node, now: real, dcs: Cluster, failsafeMode: bool, won: bool)
    requires n.cycle.Resting?
    ensures Enabled(Step(n, Load(now, dcs, failsafeMode)), Acquire(now, won)) <==>
            && (dcs.leader.Some? ==> dcs.leader.value.name == "")
            && (failsafeMode && n.memory.ping.Some? && n.memory.ping.value.name != "" ==> n.memory.lastUpdate + n.ttl <= now)
  {
  }

  /** What a node sees after loading: the DCS as it is, or with the pinging leader and its slots put
      in; the lease ends unless the view names this node. */
  lemma LoadShows(n: Node, now: real, dcs: Cluster, failsafeMode: bool)
    requires n.cycle.Resting?
    ensures
      var view := Step(n, Load(now, dcs, failsafeMode)).cluster;
      && view.config == dcs.config && view.members == dcs.members && view.status.lastLsn == dcs.status.lastLsn
      && (view == dcs || (view.leader == Some(Leader(n.memory.ping.value.name, n.memory.ping.value.slots))
                          && view.status.slots == n.memory.ping.value.slots))
    ensures
      var after := Step(n, Load(now, dcs, failsafeMode));
      after.leaseEnd == if HasLock(after) then n.leaseEnd else 0.0
  {
  }

  /** The environment of a standby that was pinged: pings come from other nodes, failsafe mode stays
      on, PostgreSQL here stays a replica, and the DCS does not name this node as the leader. */
  predicate Foreign(me: string, e: Event) {
    match e
    case Pinged(_, data) => data.name != "" && data.name != me
    case Load(_, dcs, failsafeMode) => failsafeMode && (dcs.leader.Some? ==> dcs.leader.value.name != me)
    case Reload(_, dcs, failsafeMode) => failsafeMode && (dcs.leader.Some? ==> dcs.leader.value.name != me)
    case BecomePrimary(_) => false
    case _ => true
  }

  /** An event sequence that starts no earlier than t, in that environment. */
  ghost predicate Possible(me: string, t: real, events: seq<Event>) {
    Ordered(t, events) && forall i :: 0 <= i < |events| ==> Foreign(me, events[i])
  }

  /** Following the events, the node reaches `acquire_lock` in a cycle loaded within [lo, hi). */
  ghost predicate Races(n: Node, events: seq<Event>, lo: real, hi: real)
    decreases |events|
  {
    && events != [] && Enabled(n, events[0])
    && ((events[0].Acquire? && lo <= n.cycle.loaded < hi) || Races(Step(n, events[0]), events[1..], lo, hi))
  }

  /** At the ping the node is between cycles, or in a cycle in which it has no lease, does not count
      itself as the leader and is not heading for the leader race. */
  predicate Receptive(n: Node, t: real) {
    !(n.cycle.Running? && (t < n.leaseEnd || HasLock(n) || (Unlocked(n.cluster) && !n.cycle.past)))
  }

  /** What keeps holding after a ping accepted at t: while the window [t, t + ttl) lasts the ping is
      remembered and no lease runs in a cycle; cycles loaded in it never come to the race. */
  predicate Deferring(n: Node, t: real, now: real) {
    && n.me != "" && n.role == Replica
    && (n.memory.ping.Some? ==> n.memory.ping.value.name != n.me)
    && (now < t + n.ttl ==>
          && t <= n.memory.lastUpdate && n.memory.ping.Some? && n.memory.ping.value.name != ""
          && (n.cycle.Running? ==> n.leaseEnd <= t))
    && (n.cycle.Running? ==> n.cycle.loaded <= now)
    && (n.cycle.Running? && n.cycle.loaded < t + n.ttl ==> !HasLock(n) && (n.cycle.past || !Unlocked(n.cluster)))
  }

  lemma DeferringStep(n: Node, t: real, now: real, e: Event)
    requires 0.0 <= t <= now <= e.now && 0.0 < n.ttl
    requires Deferring(n, t, now) && Enabled(n, e) && Foreign(n.me, e)
    ensures Deferring(Step(n, e), t, e.now)
    ensures e.Acquire? ==> t + n.ttl <= n.cycle.loaded
  {
  }

  lemma {:induction false} DeferringNeverRaces(n: Node, t: real, now: real, events: seq<Event>)
    requires 0.0 <= t <= now && 0.0 < n.ttl && Deferring(n, t, now) && Possible(n.me, now, events)
    ensures !Races(n, events, t, t + n.ttl)
    decreases |events|
  {
    if events != [] && Enabled(n, events[0]) {
      DeferringStep(n, t, now, events[0]);
      DeferringNeverRaces(Step(n, events[0]), t, events[0].now, events[1..]);
    }
  }

  /** A node that is told of a running primary. */
  predicate Told(n: Node, t: real, data: Ping) {
    && n.role == Replica && n.me != "" && 0.0 < n.ttl && 0.0 <= t
    && data.name != "" && data.name != n.me
    && (n.cycle.Running? ==> n.cycle.loaded <= t)
  }

  lemma AcceptedPingDefers(n: Node, t: real, data: Ping)
    requires Told(n, t, data) && Receptive(n, t)
    ensures Deferring(Step(n, Pinged(t, data)), t, t)
  {
  }

  const EMPTY_CLUSTER := Cluster("", None, Status(0, None), [])

  /** A cycle that ends with a lease running forgets the ping, and the next one races. */
  lemma LeaseHolderForgetsPing(n: Node, t: real)
    requires n.cycle.Running? && t < n.leaseEnd && 0.0 < n.ttl
    ensures Races(n, [EndCycle(t, false), Load(t, EMPTY_CLUSTER, true), Acquire(t, true)], t, t + n.ttl)
  {
    var n1 := Step(n, EndCycle(t, false));
    var n2 := Step(n1, Load(t, EMPTY_CLUSTER, true));
    var tail := [Acquire(t, true)];
    assert Races(n2, tail, t, t + n.ttl);
    assert [Load(t, EMPTY_CLUSTER, true), Acquire(t, true)][1..] == tail;
    assert Races(n1, [Load(t, EMPTY_CLUSTER, true), Acquire(t, true)], t, t + n.ttl);
    assert [EndCycle(t, false), Load(t, EMPTY_CLUSTER, true), Acquire(t, true)][1..] == [Load(t, EMPTY_CLUSTER, true), Acquire(t, true)];
  }

  lemma UnreceptiveRaces(n: Node, t: real, data: Ping) returns (events: seq<Event>)
    requires Told(n, t, data) && !Receptive(n, t)
    ensures Possible(n.me, t, events) && Races(Step(n, Pinged(t, data)), events, t, t + n.ttl)
  {
    var m := Step(n, Pinged(t, data));
    var tail := [EndCycle(t, false), Load(t, EMPTY_CLUSTER, true), Acquire(t, true)];
    if t < n.leaseEnd {
      LeaseHolderForgetsPing(m, t);
      events := tail;
    } else {
      var first := if HasLock(n) then UpdateLock(t, true) else Acquire(t, true);
      LeaseHolderForgetsPing(Step(m, first), t);
      events := [first] + tail;
      assert events[1..] == tail;
    }
  }

  /** A standby that accepted a ping at t reaches `acquire_lock` in no cycle whose cluster load falls
      in [t, t + ttl), in no possible run, exactly when it was receptive at the ping. */
  lemma PingedStandbyKeepsOutIff(n: Node, t: real, data: Ping)
    requires Told(n, t, data)
    ensures (forall events :: Possible(n.me, t, events) ==> !Races(Step(n, Pinged(t, data)), events, t, t + n.ttl))
            <==> Receptive(n, t)
  {
    var m := Step(n, Pinged(t, data));
    if Receptive(n, t) {
      AcceptedPingDefers(n, t, data);
      forall events | Possible(n.me, t, events) ensures !Races(m, events, t, t + n.ttl) {
        DeferringNeverRaces(m, t, t, events);
      }
    } else {
      var events := UnreceptiveRaces(n, t, data);
    }
  }

  // ---------------------------------------------------------------- the primary's side

  ghost predicate Runs(n: Node, events: seq<Event>, n': Node)
    decreases |events|
  {
    if events == [] then n == n' else Enabled(n, events[0]) && Runs(Step(n, events[0]), events[1..], n')
  }

  /** The DCS keeps failing: nothing is loaded, no lock is won or updated, and no check is made. */
  predicate Waits(e: Event) {
    e.Pinged? || (e.EndCycle? && e.dcsFailed)
  }

  lemma {:induction false} WaitingChangesNothing(n: Node, events: seq<Event>, n': Node)
    requires Runs(n, events, n') && n.role == RunningPrimary && forall e <- events :: Waits(e)
    ensures n'.leaseEnd == n.leaseEnd && n'.memory == n.memory && n'.role == n.role && n'.ttl == n.ttl
    decreases |events|
  {
    if events != [] {
      assert events[0] in events;
      assert forall e <- events[1..] :: e in events;
      WaitingChangesNothing(Step(n, events[0]), events[1..], n');
    }
  }

  /** A primary whose DCS fails, some time after its last check at `checked` and after the lease it
      had then: it is leader exactly when that check found every other node that may race accepting,
      and until the check is one ttl old; then its failsafe state is active, else it is reset. */
  lemma PrimaryGoesOnIff(n: Node, checked: real, check: Check, events: seq<Event>, n': Node, now: real)
    requires n.role == RunningPrimary && 0.0 < checked && 0.0 < n.ttl
    requires Runs(n, [Survive(checked, check)] + events, n') && forall e <- events :: Waits(e)
    requires checked <= now && n.leaseEnd <= now
    ensures IsLeader(n', now) <==> Agreed(n.me, check) && now < checked + n.ttl
    ensures if Agreed(n.me, check) then n'.memory.lastUpdate == checked else n'.memory == FORGOTTEN
  {
    assert ([Survive(checked, check)] + events)[1..] == events;
    WaitingChangesNothing(Step(n, Survive(checked, check)), events, n');
  }

  /** The primary goes on only while every node that could take over still counts it as the leader:
      at any time within one ttl of an agreed check, a standby that may race, accepted the ping at
      `answered` and still remembers it does not open the race on loading. */
  lemma AgreementKeepsOthersOut(n: Node, checked: real, standby: Node, answered: real, data: Ping, now: real, dcs: Cluster, won: bool)
    requires checked <= answered <= now < checked + n.ttl && standby.ttl == n.ttl
    requires standby.role == Replica && standby.cycle.Resting? && data.name == n.me != ""
    ensures !Enabled(Step(Step(standby, Pinged(answered, data)), Load(now, dcs, true)), Acquire(now, won))
  {
  }
}
