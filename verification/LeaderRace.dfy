/** The leader race: who counts itself as the healthiest node. */
module LeaderRace {
  import opened Options
  import opened Text
  import Sync = SyncState

  /** Member tags: `nofailover` when set, and `failover_priority` when it parses as an integer. */
  datatype Tags = Tags(nofailover: Option<bool>, failoverPriority: Option<int>)

  /** An explicit `nofailover` wins over the priority. */
  predicate NoFailover(t: Tags) {
    if t.nofailover.Some? then t.nofailover.value
    else t.failoverPriority.Some? && t.failoverPriority.value <= 0
  }

  function Priority(t: Tags): int {
    if t.nofailover == Some(true) then 0
    else if t.failoverPriority.Some? then t.failoverPriority.value else 1
  }

  /** `_MemberStatus`: the answer of a member to a status request; `inRecovery` is unknown when it
      could not be reached. */
  datatype Status = Status(
    name: string,
    reachable: bool,
    inRecovery: Option<bool>,
    wal: nat,
    tags: Tags,
    watchdogFailed: bool)

  predicate Limited(st: Status) {
    !st.reachable || NoFailover(st.tags) || st.watchdogFailed
  }

  /** What a node knows of itself and of the cluster. `lag` is `maximum_lag_on_failover`. */
  datatype View = View(
    wal: nat,
    priority: int,
    lastLsn: nat,
    lag: nat,
    checkTimeline: bool,
    clusterTimeline: nat,
    myTimeline: Option<nat>,
    syncMode: bool,
    sync: Sync.SyncState)

  /** `sync_mode_is_active`. */
  predicate SyncActive(v: View) {
    v.syncMode && !Sync.IsEmpty(v.sync)
  }

  /** The former leader may be ahead without ending the race of others. */
  predicate Excused(v: View, name: string) {
    SyncActive(v) && Sync.LeaderMatches(v.sync, name)
  }

  predicate TooFarBehind(v: View) {
    v.lastLsn as int - v.wal as int > v.lag
  }

  /** st keeps a node from being the healthiest. */
  predicate Disqualifies(v: View, st: Status) {
    && !Limited(st)
    && (|| st.inRecovery == Some(false)
        || (v.wal < st.wal && !Excused(v, st.name))
        || (v.wal == st.wal && v.priority < Priority(st.tags)))
  }

  /** `_is_healthiest_node`, a loop over the statuses with early returns. */
  method IsHealthiestNode(v: View, statuses: seq<Status>, checkLag: bool) returns (healthiest: bool)
    ensures healthiest <==>
      && (checkLag ==> v.lastLsn as int - v.wal as int <= v.lag)
      && (v.checkTimeline ==> v.myTimeline.Some? && v.clusterTimeline <= v.myTimeline.value)
      && forall st <- statuses :: !Disqualifies(v, st)
  {
    if checkLag && TooFarBehind(v) {
      return false;
    }
    if v.checkTimeline {
      match v.myTimeline {
        case None => return false;
        case Some(timeline) =>
          if timeline < v.clusterTimeline {
            return false;
          }
      }
    }
    for i := 0 to |statuses|
      invariant forall st <- statuses[..i] :: !Disqualifies(v, st)
    {
      var st := statuses[i];
      assert statuses[..i + 1] == statuses[..i] + [st];
      assert st in statuses;
      if !Limited(st) {
        if st.inRecovery == Some(false) {
          return false;
        }
        if v.wal < st.wal {
          if !SyncActive(v) || !Sync.LeaderMatches(v.sync, st.name) {
            return false;
          }
        }
        if v.wal == st.wal && v.priority < Priority(st.tags) {
          return false;
        }
      }
    }
    return true;
  }

  // ---------------------------------------------------------------- one snapshot of all nodes

  /* `nodes` holds every node's answer at one moment, as all the others see it. */

  /** The view of node i, but for what the snapshot determines. */
  function ViewOf(base: View, st: Status): View {
    base.(wal := st.wal, priority := Priority(st.tags))
  }

  function Others(nodes: seq<Status>, i: nat): seq<Status>
    requires i < |nodes|
  {
    nodes[..i] + nodes[i + 1..]
  }

  /** What `IsHealthiestNode` answers node i about the others, lag and timeline being fine. */
  predicate Passes(nodes: seq<Status>, i: nat, base: View)
    requires i < |nodes|
  {
    forall st <- Others(nodes, i) :: !Disqualifies(ViewOf(base, nodes[i]), st)
  }

  /** Better by WAL position, then by priority. */
  predicate Outranks(a: Status, b: Status) {
    b.wal < a.wal || (a.wal == b.wal && Priority(b.tags) < Priority(a.tags))
  }

  /** No node that may fail over outranks node i. */
  predicate Maximal(nodes: seq<Status>, i: nat)
    requires i < |nodes|
  {
    forall j :: 0 <= j < |nodes| && !Limited(nodes[j]) ==> !Outranks(nodes[j], nodes[i])
  }

  /** Another node that may fail over runs as primary. */
  predicate PrimaryAlive(nodes: seq<Status>, i: nat)
    requires i < |nodes|
  {
    exists j :: 0 <= j < |nodes| && j != i && !Limited(nodes[j]) && nodes[j].inRecovery == Some(false)
  }

  lemma AmongOthers(nodes: seq<Status>, i: nat, j: nat)
    requires i < |nodes| && j < |nodes| && j != i
    ensures nodes[j] in Others(nodes, i)
  {
    assert nodes[j] == if j < i then nodes[..i][j] else nodes[i + 1..][j - i - 1];
  }

  lemma OfOthers(nodes: seq<Status>, i: nat, st: Status) returns (j: nat)
    requires i < |nodes| && st in Others(nodes, i)
    ensures j < |nodes| && j != i && nodes[j] == st
  {
    var k :| 0 <= k < |nodes| - 1 && Others(nodes, i)[k] == st;
    j := if k < i then k else k + 1;
  }

  /** Without synchronous mode a node passes exactly when no primary is alive and it is a maximum, by
      WAL position and failover priority, among the nodes that may fail over. */
  lemma WinnersAreMaxima(nodes: seq<Status>, i: nat, base: View)
    requires i < |nodes| && !SyncActive(base)
    ensures Passes(nodes, i, base) <==> !PrimaryAlive(nodes, i) && Maximal(nodes, i)
  {
    var v := ViewOf(base, nodes[i]);
    if Passes(nodes, i, base) {
      forall j | 0 <= j < |nodes| && j != i ensures !Disqualifies(v, nodes[j]) {
        AmongOthers(nodes, i, j);
      }
    } else {
      var st :| st in Others(nodes, i) && Disqualifies(v, st);
      var j := OfOthers(nodes, i, st);
      assert !Limited(nodes[j]) && (nodes[j].inRecovery == Some(false) || Outranks(nodes[j], nodes[i]));
    }
  }

  /** Among the first n nodes, one that may fail over and that none of them outranks. */
  lemma {:induction false} SomebodyIsMaximal(nodes: seq<Status>, n: nat) returns (i: nat)
    requires n <= |nodes| && exists j :: 0 <= j < n && !Limited(nodes[j])
    ensures i < n && !Limited(nodes[i])
    ensures forall j :: 0 <= j < n && !Limited(nodes[j]) ==> !Outranks(nodes[j], nodes[i])
    decreases n
  {
    var last := n - 1;
    if j :| 0 <= j < last && !Limited(nodes[j]) {
      i := SomebodyIsMaximal(nodes, last);
      if !Limited(nodes[last]) && Outranks(nodes[last], nodes[i]) {
        i := last;
      }
    } else {
      i := last;
    }
  }

  /** When some node may fail over and those that may are all in recovery, one of them passes, with
      and without synchronous mode. */
  lemma SomebodyPasses(nodes: seq<Status>, base: View)
    requires exists j :: 0 <= j < |nodes| && !Limited(nodes[j])
    requires forall st <- nodes :: !Limited(st) ==> st.inRecovery == Some(true)
    ensures exists i :: 0 <= i < |nodes| && !Limited(nodes[i]) && Passes(nodes, i, base)
  {
    var i := SomebodyIsMaximal(nodes, |nodes|);
    forall st | st in Others(nodes, i) ensures !Disqualifies(ViewOf(base, nodes[i]), st) {
      var j := OfOthers(nodes, i, st);
      assert st in nodes;
    }
    assert Passes(nodes, i, base);
  }

  /** In synchronous mode a winner is never behind a node that may fail over except the former
      leader, and two such winners other than it stand at the same position with the same priority. */
  lemma SyncWinnerIsBehindNobodyElse(nodes: seq<Status>, i: nat, j: nat, base: View)
    requires i < |nodes| && j < |nodes| && i != j
    requires !Limited(nodes[i]) && !Limited(nodes[j]) && Passes(nodes, i, base)
    ensures !Excused(base, nodes[j].name) ==> nodes[j].wal <= nodes[i].wal
    ensures Passes(nodes, j, base) && !Excused(base, nodes[i].name) && !Excused(base, nodes[j].name) ==>
      nodes[i].wal == nodes[j].wal && Priority(nodes[i].tags) == Priority(nodes[j].tags)
  {
    AmongOthers(nodes, i, j);
    AmongOthers(nodes, j, i);
    assert !Disqualifies(ViewOf(base, nodes[i]), nodes[j]);
    assert Passes(nodes, j, base) ==> !Disqualifies(ViewOf(base, nodes[j]), nodes[i]);
  }

  /** Taking part with a non-positive priority is possible only by saying `nofailover: false`. */
  lemma PriorityOfEligible(t: Tags)
    requires !NoFailover(t)
    ensures Priority(t) <= 0 ==> t.nofailover == Some(false) && t.failoverPriority.Some?
  {
  }

  // ---------------------------------------------------------------- in terms of the tags

  /** The members whose answer is not taken into account: unreachable, with a failed watchdog, tagged
      `nofailover`, or without that tag and with a priority that is not positive. */
  lemma LimitedMeans(st: Status)
    ensures Limited(st) <==>
      || !st.reachable || st.watchdogFailed || st.tags.nofailover == Some(true)
      || (st.tags.nofailover == None && st.tags.failoverPriority.Some? && st.tags.failoverPriority.value <= 0)
  {
  }

  /** a was configured with a higher priority than b, one being the default. */
  predicate Preferred(a: Tags, b: Tags) {
    match (a.failoverPriority, b.failoverPriority)
    case (Some(p), Some(q)) => q < p
    case (Some(p), None) => 1 < p
    case (None, Some(q)) => q < 1
    case (None, None) => false
  }

  /** st was in synchronous mode the leader, as its name in /sync tells. */
  predicate FormerLeader(base: View, st: Status) {
    base.syncMode && match base.sync.leader
      case None => false
      case Some(l) => l != "" && st.name != "" && Lower(l) == Lower(st.name)
  }

  /** When a node that may fail over keeps another one from passing: as a running primary, by being
      ahead unless it is the former leader, or at the same position by its configured priority. */
  lemma KeepsOutIff(a: Status, b: Status, base: View)
    requires !NoFailover(a.tags)
    ensures Disqualifies(ViewOf(base, a), b) <==>
      && !Limited(b)
      && (|| b.inRecovery == Some(false)
          || (a.wal < b.wal && !FormerLeader(base, b))
          || (a.wal == b.wal && Preferred(b.tags, a.tags)))
  {
  }

  /** Of two nodes that may fail over at the same position the one with the smaller configured
      priority never passes; two alone with equal tags both do. */
  lemma PriorityDecides(nodes: seq<Status>, i: nat, j: nat, base: View)
    requires i < |nodes| && j < |nodes| && i != j && nodes[i].wal == nodes[j].wal
    requires !Limited(nodes[i]) && !Limited(nodes[j])
    ensures Preferred(nodes[j].tags, nodes[i].tags) ==> !Passes(nodes, i, base)
    ensures
      |nodes| == 2 && nodes[i].tags == nodes[j].tags && nodes[j].inRecovery == Some(true) ==> Passes(nodes, i, base)
  {
    AmongOthers(nodes, i, j);
    KeepsOutIff(nodes[i], nodes[j], base);
    if |nodes| == 2 {
      assert Others(nodes, i) == [nodes[j]];
    }
  }
}
