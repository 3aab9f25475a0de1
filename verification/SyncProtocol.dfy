/**
 Synchronous-replication hand-off as a step system.

 Every node runs the code of `Ha` one atomic access at a time: a load of the cluster, a
 compare-and-set of /sync, a change of synchronous_standby_names, or a query of the standbys.
 Steps of different nodes, of PostgreSQL itself (writing, streaming, acknowledging, stopping)
 and of the leader key interleave freely.
 */
module SyncProtocol {
  import opened Options

  type Node = nat

  /** WAL records: transactions, and the timeline switch that a promotion writes.
      Serial numbers make every record unique. */
  datatype Record = Commit(serial: nat) | Timeline(serial: nat)

  type Wal = seq<Record>

  /** A value of synchronous_standby_names: a list whose members must all confirm, or '*'. */
  datatype Names = Names(listed: set<Node>, star: bool)

  const NO_NAMES := Names({}, false)

  /** The /sync key. */
  datatype SyncKey = SyncKey(leader: Node, members: set<Node>, version: nat)

  /** The memory of `SyncHandler`: the names it last saw, the flush position it noted when they
      changed, and the standbys already known to be synchronous. */
  datatype Handler = Handler(seen: Names, flushLsn: nat, ready: set<Node>)

  datatype Role = Standby | Primary

  /** Where a node stands inside `process_sync_replication` (first group: `cluster` is the /sync
      value loaded at the start of the cycle, `sync` the one its next write is conditional on) or
      inside the leader race (second group: `seen` is the /sync version read at the gate, `grants`
      the number of times the leader key had been given out by then). */
  datatype Phase =
    | Idle
    | Begun(cluster: SyncKey, sync: SyncKey)
    | Repairing(cluster: SyncKey, sync: SyncKey, picked: set<Node>, allow: set<Node>)
    | Shrinking(cluster: SyncKey, sync: SyncKey, picked: set<Node>, allow: set<Node>)
    | Naming(cluster: SyncKey, sync: SyncKey, picked: set<Node>, allow: set<Node>)
    | Rechecking(cluster: SyncKey, sync: SyncKey, picked: set<Node>, allow: set<Node>)
    | Growing(cluster: SyncKey, sync: SyncKey, picked: set<Node>, allow: set<Node>)
    | Gated(seen: nat, grants: nat)
    | Holding(seen: nat)
    | Claiming(seen: nat, version: nat)
    | Claimed
    | Promoting

  /** `wanted` is synchronous_standby_names as last assigned by the program, `names` the value that
      PostgreSQL has in force; it takes over the assigned value some time later. */
  datatype Local = Local(role: Role, wal: Wal, names: Names, wanted: Names, handler: Handler, phase: Phase)

  /** `acked` collects every record acknowledged to a client by any primary, `grants` counts how
      often the leader key was given out; no guard of the program reads them. */
  datatype State = State(
    sync: SyncKey,
    leaderKey: Option<Node>,
    grants: nat,
    history: nat,
    nodes: map<Node, Local>,
    serial: nat,
    acked: set<Record>)

  const FRESH_NODE := Local(Standby, [], NO_NAMES, NO_NAMES, Handler(NO_NAMES, 0, {}), Idle)

  function At(s: State, n: Node): Local {
    if n in s.nodes then s.nodes[n] else FRESH_NODE
  }

  function Put(s: State, n: Node, l: Local): State {
    s.(nodes := s.nodes[n := l])
  }

  /** The later of two changes to one node stands. */
  lemma PutTwice(s: State, n: Node, l: Local, m: Local)
    ensures Put(Put(s, n, l), n, m) == Put(s, n, m)
  {
    assert s.nodes[n := l][n := m] == s.nodes[n := m];
  }

  /** What the environment is trusted for, besides the guards the program itself checks.
      `lease`: a node writes /sync only while it holds the leader key, and a candidate that takes
      the key is the first to do so since it passed the gate (the program checks neither).
      `fenced`: a running primary that takes a free leader key is still the leader in /sync. */
  datatype Trust = Trust(lease: bool, fenced: bool)

  datatype Step =
    // PostgreSQL
    | Write(x: Node)
    | Stream(x: Node, source: Node, upTo: nat)
    | Ack(x: Node, upTo: nat, helper: Node)
    | Stop(x: Node)
    | Restart(x: Node)
    | TakesNames(x: Node)
    | Rejoin(x: Node)
    // leader key and history
    | Expire
    | Reclaim(x: Node)
    | UpdateHistory(x: Node)
    // process_sync_replication
    | Begin(x: Node)
    | Observe(x: Node)
    | CurrentState(x: Node, replicas: set<Node>, caught: set<Node>, chosen: set<Node>, insync: set<Node>)
    | Repair(x: Node)
    | Shrink(x: Node)
    | SetNames(x: Node, strict: bool)
    | Recheck(x: Node, replicas: set<Node>, caught: set<Node>, chosen: set<Node>, insync: set<Node>)
    | Grow(x: Node)
    // leader race and promotion
    | Gate(x: Node)
    | Acquire(x: Node)
    | Reload(x: Node)
    | Claim(x: Node)
    | ClearNames(x: Node, strict: bool)
    | Promote(x: Node)
    | GiveUp(x: Node)

  // ---------------------------------------------------------------- sync handler

  predicate InFlight(p: Phase) {
    p.Begun? || p.Repairing? || p.Shrinking? || p.Naming? || p.Rechecking? || p.Growing?
  }

  predicate Racing(p: Phase) {
    p.Gated? || p.Holding? || p.Claiming?
  }

  /** `_handle_synchronous_standby_names_change`: forget standbys no longer listed and note the
      flush position that newly listed ones have to reach. */
  function Noticed(l: Local): Handler {
    if l.handler.seen == l.names then l.handler
    else Handler(l.names, |l.wal|, l.handler.ready * l.names.listed)
  }

  /** `_process_replica_readiness`: a listed standby becomes ready when the loaded /sync already
      names it, or when it reached the noted flush position. */
  function Readied(l: Local, cluster: SyncKey, replicas: set<Node>, caught: set<Node>): Handler {
    var h := Noticed(l);
    h.(ready := h.ready + replicas * l.names.listed * (cluster.members + caught))
  }

  /** The second result of `current_state`: picked standbys that are 'sync' and ready. Only listed
      standbys are 'sync', but a listed one need not be: it may still be catching up. */
  function Allowed(l: Local, h: Handler, chosen: set<Node>, insync: set<Node>): set<Node> {
    chosen * insync * l.names.listed * h.ready
  }

  /** n streams from x: PostgreSQL only streams to a standby whose WAL is a prefix of its own. */
  predicate Streams(s: State, n: Node, x: Node) {
    n != x && At(s, n).role == Standby && At(s, n).wal <= At(s, x).wal
  }

  /** A query of the standbys; by then the last assigned names are in force. */
  predicate Queried(s: State, x: Node, replicas: set<Node>, caught: set<Node>, chosen: set<Node>) {
    && At(s, x).role == Primary && At(s, x).names == At(s, x).wanted
    && (forall n <- replicas :: Streams(s, n, x))
    && caught <= replicas && chosen <= replicas
    && (forall n <- caught :: Noticed(At(s, x)).flushLsn <= |At(s, n).wal|)
  }

  predicate Confirms(s: State, n: Node, x: Node, upTo: nat) {
    Streams(s, n, x) && upTo <= |At(s, n).wal|
  }

  /** Commits up to `upTo` need every listed standby, or any one under '*'. */
  predicate Confirmed(s: State, x: Node, upTo: nat, helper: Node) {
    if At(s, x).names.star then Confirms(s, helper, x, upTo)
    else forall n <- At(s, x).names.listed :: Confirms(s, n, x, upTo)
  }

  /** `SyncState.matches(name, check_leader=True)`. */
  predicate Matches(key: SyncKey, n: Node) {
    n in key.members || n == key.leader
  }

  function TimelineOf(wal: Wal): nat {
    if wal == [] then 1 else TimelineOf(wal[..|wal| - 1]) + if wal[|wal| - 1].Timeline? then 1 else 0
  }

  // ---------------------------------------------------------------- steps

  /** The guards of the program and of PostgreSQL. */
  predicate Guard(s: State, step: Step) {
    match step
    case Write(x) => At(s, x).role == Primary
    case Stream(x, source, upTo) => Streams(s, x, source) && |At(s, x).wal| <= upTo <= |At(s, source).wal|
    case Ack(x, upTo, helper) => At(s, x).role == Primary && upTo <= |At(s, x).wal| && Confirmed(s, x, upTo, helper)
    case Stop(x) => true
    case Restart(x) => true
    case TakesNames(x) => true
    case Rejoin(x) =>
      && s.leaderKey.Some? && s.leaderKey.value != x
      && At(s, s.leaderKey.value).role == Primary && At(s, x).role == Standby
    case Expire => true
    case Reclaim(x) =>
      && At(s, x).role == Primary && At(s, x).phase == Idle && s.leaderKey == None
      && s.history <= TimelineOf(At(s, x).wal)
    case UpdateHistory(x) => At(s, x).role == Primary && s.leaderKey == Some(x)
    case Begin(x) => At(s, x).role == Primary && At(s, x).phase == Idle && s.leaderKey == Some(x)
    case Observe(x) => At(s, x).role == Primary
    case CurrentState(x, replicas, caught, chosen, _) => At(s, x).phase.Begun? && Queried(s, x, replicas, caught, chosen)
    case Repair(x) => At(s, x).phase.Repairing?
    case Shrink(x) => At(s, x).phase.Shrinking?
    case SetNames(x, strict) => At(s, x).phase.Naming?
    case Recheck(x, replicas, caught, chosen, _) => At(s, x).phase.Rechecking? && Queried(s, x, replicas, caught, chosen)
    case Grow(x) => At(s, x).phase.Growing?
    case Gate(x) =>
      && At(s, x).role == Standby && At(s, x).phase == Idle
      && s.leaderKey == None && Matches(s.sync, x)
    case Acquire(x) => At(s, x).phase.Gated? && s.leaderKey == None
    case Reload(x) => At(s, x).phase.Holding?
    case Claim(x) => At(s, x).phase.Claiming?
    case ClearNames(x, strict) => At(s, x).phase.Claimed?
    case Promote(x) => At(s, x).phase.Promoting?
    case GiveUp(x) => !At(s, x).phase.Promoting?
  }

  /** What `trust` adds to the guards. */
  predicate Trusted(trust: Trust, s: State, step: Step)
    requires Guard(s, step)
  {
    match step
    case Reclaim(x) => trust.fenced ==> s.sync.leader == x
    case Repair(x) => trust.lease && RepairWrites(At(s, x).phase) ==> Entitled(s, x)
    case Shrink(x) => trust.lease && ShrinkWrites(At(s, x).phase) ==> Entitled(s, x)
    case Grow(x) => trust.lease && GrowWrites(At(s, x).phase) ==> Entitled(s, x)
    case Acquire(x) => trust.lease ==> At(s, x).phase.grants == s.grants
    case Claim(x) => trust.lease ==> s.leaderKey == Some(x) || !Wins(s, At(s, x).phase.version)
    case _ => true
  }

  /** x holds the leader key, or its write of /sync will be refused anyhow. */
  predicate Entitled(s: State, x: Node)
    requires InFlight(At(s, x).phase)
  {
    s.leaderKey == Some(x) || !Wins(s, At(s, x).phase.sync.version)
  }

  /** A compare-and-set of /sync by x; only the version decides. */
  predicate Wins(s: State, version: nat) {
    s.sync.version == version
  }

  function NextKey(s: State, x: Node, members: set<Node>): SyncKey {
    SyncKey(x, members, s.sync.version + 1)
  }

  /** First branch of `process_sync_replication`: picked == current but /sync disagrees. */
  predicate RepairWrites(p: Phase)
    requires p.Repairing?
  {
    p.picked == p.sync.members && p.sync.members != p.allow
  }

  predicate ShrinkWrites(p: Phase)
    requires p.Shrinking?
  {
    p.picked != p.sync.members && p.sync.members * p.allow != p.sync.members
  }

  /** After the names changed, whether the standbys are asked again. */
  predicate Asks(p: Phase)
    requires p.Naming?
  {
    p.picked != {} && p.allow != p.picked
  }

  predicate GrowWrites(p: Phase)
    requires p.Growing?
  {
    p.allow != {} && p.allow != p.sync.members
  }

  function Apply(s: State, step: Step): State
    requires Guard(s, step)
  {
    match step
    case Write(x) =>
      var l := At(s, x);
      Put(s, x, l.(wal := l.wal + [Commit(s.serial)])).(serial := s.serial + 1)
    case Stream(x, source, upTo) => Put(s, x, At(s, x).(wal := At(s, source).wal[..upTo]))
    case Ack(x, upTo, helper) => s.(acked := s.acked + set r | r in At(s, x).wal[..upTo])
    case Stop(x) => Put(s, x, At(s, x).(role := Standby, phase := Idle))
    case Restart(x) =>
      var l := At(s, x);
      Put(s, x, l.(handler := Handler(NO_NAMES, 0, {}), phase := if l.phase.Promoting? then Promoting else Idle))
    case TakesNames(x) => Put(s, x, At(s, x).(names := At(s, x).wanted))
    case Rejoin(x) => Put(s, x, At(s, x).(wal := At(s, s.leaderKey.value).wal))
    case Expire => s.(leaderKey := None)
    case Reclaim(x) => s.(leaderKey := Some(x), grants := s.grants + 1)
    case UpdateHistory(x) => s.(history := TimelineOf(At(s, x).wal))
    case Begin(x) => Put(s, x, At(s, x).(phase := Begun(s.sync, s.sync)))
    case Observe(x) => Put(s, x, At(s, x).(handler := Noticed(At(s, x))))
    case CurrentState(x, replicas, caught, chosen, insync) =>
      var l := At(s, x);
      var h := Readied(l, l.phase.cluster, replicas, caught);
      Put(s, x, l.(handler := h, phase := Repairing(l.phase.cluster, l.phase.sync, chosen, Allowed(l, h, chosen, insync))))
    case Repair(x) =>
      var l := At(s, x);
      var p := l.phase;
      if !RepairWrites(p) then
        Put(s, x, l.(phase := Shrinking(p.cluster, p.sync, p.picked, p.allow)))
      else if Wins(s, p.sync.version) then
        var key := NextKey(s, x, p.allow);
        Put(s, x, l.(phase := Shrinking(p.cluster, key, p.picked, p.allow))).(sync := key)
      else
        Put(s, x, l.(phase := Idle))
    case Shrink(x) =>
      var l := At(s, x);
      var p := l.phase;
      if p.picked == p.sync.members then
        Put(s, x, l.(phase := Idle))
      else if !ShrinkWrites(p) then
        Put(s, x, l.(phase := Naming(p.cluster, p.sync, p.picked, p.allow)))
      else if Wins(s, p.sync.version) then
        var key := NextKey(s, x, p.sync.members * p.allow);
        Put(s, x, l.(phase := Naming(p.cluster, key, p.picked, p.allow))).(sync := key)
      else
        Put(s, x, l.(phase := Idle))
    case SetNames(x, strict) =>
      var l := At(s, x);
      var p := l.phase;
      Put(s, x, l.(wanted := Names(p.picked, strict && p.picked == {}),
                   phase := if Asks(p) then Rechecking(p.cluster, p.sync, p.picked, p.allow)
                            else Growing(p.cluster, p.sync, p.picked, p.allow)))
    case Recheck(x, replicas, caught, chosen, insync) =>
      var l := At(s, x);
      var p := l.phase;
      var h := Readied(l, p.cluster, replicas, caught);
      Put(s, x, l.(handler := h, phase := Growing(p.cluster, p.sync, p.picked, Allowed(l, h, chosen, insync))))
    case Grow(x) =>
      var l := At(s, x);
      var p := l.phase;
      if GrowWrites(p) && Wins(s, p.sync.version) then
        Put(s, x, l.(phase := Idle)).(sync := NextKey(s, x, p.allow))
      else
        Put(s, x, l.(phase := Idle))
    case Gate(x) => Put(s, x, At(s, x).(phase := Gated(s.sync.version, s.grants)))
    case Acquire(x) =>
      Put(s, x, At(s, x).(phase := Holding(At(s, x).phase.seen))).(leaderKey := Some(x), grants := s.grants + 1)
    case Reload(x) => Put(s, x, At(s, x).(phase := Claiming(At(s, x).phase.seen, s.sync.version)))
    case Claim(x) =>
      var l := At(s, x);
      if Wins(s, l.phase.version) then
        Put(s, x, l.(phase := Claimed)).(sync := NextKey(s, x, {}))
      else
        Put(s, x, l.(phase := Holding(l.phase.seen)))
    case ClearNames(x, strict) => Put(s, x, At(s, x).(wanted := Names({}, strict), phase := Promoting))
    case Promote(x) =>
      var l := At(s, x);
      Put(s, x, l.(role := Primary, phase := Idle, wal := l.wal + [Timeline(s.serial)])).(serial := s.serial + 1)
    case GiveUp(x) => Put(s, x, At(s, x).(phase := Idle))
  }

  // ---------------------------------------------------------------- runs

  /** Synchronous mode has just been switched on: `p` runs as primary and has written its own name
      with no standby into /sync. Other nodes may hold any WAL. */
  ghost predicate Init(s: State) {
    && At(s, s.sync.leader).role == Primary
    && s.sync.members == {}
    && (s.leaderKey.Some? ==> s.leaderKey.value == s.sync.leader)
    && (forall r <- s.acked :: r in At(s, s.sync.leader).wal)
    && (forall n: Node :: At(s, n).phase == Idle && At(s, n).handler == Handler(NO_NAMES, 0, {}))
    && (forall n: Node :: At(s, n).role == Primary ==> n == s.sync.leader)
    && (forall n: Node :: At(s, n).names.star ==> At(s, n).names.listed == {})
    && (forall n: Node :: At(s, n).names == At(s, n).wanted)
    && (forall n: Node, r :: r in At(s, n).wal ==> r.serial < s.serial)
  }

  /** Executing `steps` from `s` is possible and ends in `t`. */
  ghost predicate Runs(trust: Trust, s: State, steps: seq<Step>, t: State)
    decreases |steps|
  {
    if steps == [] then s == t
    else
      && Guard(s, steps[0]) && Trusted(trust, s, steps[0])
      && Runs(trust, Apply(s, steps[0]), steps[1..], t)
  }

  ghost predicate Reachable(trust: Trust, t: State) {
    exists s, steps :: Init(s) && Runs(trust, s, steps, t)
  }

  /** n has every record that was ever acknowledged. */
  predicate HoldsAcked(s: State, n: Node) {
    forall r <- s.acked :: r in At(s, n).wal
  }

  /** A promotion that would lose an acknowledged record is about to happen. */
  ghost predicate AboutToLose(s: State) {
    exists n: Node :: At(s, n).phase.Promoting? && !HoldsAcked(s, n)
  }
}
