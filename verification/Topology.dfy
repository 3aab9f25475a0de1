/** `topology_sort`: the members of a cluster as an indented replication tree. */
module Topology {
  import opened Options

  datatype Member = Member(name: string, isLeader: bool, replicatefrom: Option<string>)

  /** A line of the output. */
  datatype Row = Row(text: string, level: nat, member: Member)

  function Label(level: nat, name: string): string {
    if level == 0 then name else seq(2 * (level - 1), _ => ' ') + "+ " + name
  }

  /** Names are unique and not empty, and at most one member is a leader. */
  ghost predicate Proper(ms: seq<Member>) {
    && (forall m <- ms :: m.name != "")
    && (forall i, j :: 0 <= i < j < |ms| ==> ms[i].name != ms[j].name && !(ms[i].isLeader && ms[j].isLeader))
  }

  function LeaderOf(ms: seq<Member>): Option<Member> {
    if ms == [] then None else if ms[0].isLeader then Some(ms[0]) else LeaderOf(ms[1..])
  }

  /** The key under which the leader's own replicas are filed. */
  function Root(ms: seq<Member>): Option<string> {
    match LeaderOf(ms) case Some(m) => Some(m.name) case None => None
  }

  predicate IsReplica(ms: seq<Member>, name: string) {
    exists m <- ms :: !m.isLeader && m.name == name
  }

  /** Where a replica is filed: under the replica it replicates from, else under the leader. */
  function ParentOf(ms: seq<Member>, m: Member): Option<string> {
    if m.replicatefrom.Some? && m.replicatefrom.value != "" && m.replicatefrom.value != m.name && IsReplica(ms, m.replicatefrom.value)
    then m.replicatefrom else Root(ms)
  }

  /** The replicas among `some` filed under `key`, in their order. */
  function Filed(ms: seq<Member>, some: seq<Member>, key: Option<string>): seq<Member> {
    if some == [] then []
    else
      var last := some[|some| - 1];
      Filed(ms, some[..|some| - 1], key) + if !last.isLeader && ParentOf(ms, last) == key then [last] else []
  }

  function Children(ms: seq<Member>, key: Option<string>): seq<Member> {
    Filed(ms, ms, key)
  }

  lemma {:induction false} FiledIff(ms: seq<Member>, some: seq<Member>, key: Option<string>, m: Member)
    ensures m in Filed(ms, some, key) <==> m in some && !m.isLeader && ParentOf(ms, m) == key
    decreases |some|
  {
    if some != [] {
      FiledIff(ms, some[..|some| - 1], key, m);
      assert some == some[..|some| - 1] + [some[|some| - 1]];
    }
  }

  lemma FiledSnoc(ms: seq<Member>, i: nat, key: Option<string>)
    requires i < |ms|
    ensures Filed(ms, ms[..i + 1], key)
            == Filed(ms, ms[..i], key) + if !ms[i].isLeader && ParentOf(ms, ms[i]) == key then [ms[i]] else []
  {
    assert ms[..i + 1][..i] == ms[..i];
  }

  lemma ChildrenIff(ms: seq<Member>, key: Option<string>)
    ensures forall m :: m in Children(ms, key) <==> m in ms && !m.isLeader && ParentOf(ms, m) == key
  {
    forall m: Member ensures m in Children(ms, key) <==> m in ms && !m.isLeader && ParentOf(ms, m) == key {
      FiledIff(ms, ms, key, m);
    }
  }

  // ---------------------------------------------------------------- the tree

  ghost function Names(ms: seq<Member>): set<string> {
    set m | m in ms :: m.name
  }

  lemma {:induction false} RootIsLeader(ms: seq<Member>)
    ensures match LeaderOf(ms)
            case Some(l) => l in ms && l.isLeader
            case None => forall m <- ms :: !m.isLeader
    decreases |ms|
  {
    if ms != [] {
      RootIsLeader(ms[1..]);
      assert ms == [ms[0]] + ms[1..];
    }
  }

  lemma Unique(ms: seq<Member>, a: Member, b: Member)
    requires Proper(ms) && a in ms && b in ms && a.name == b.name
    ensures a == b
  {
  }

  /** `path` holds the replicas on the way from the root down to the one filed as `key`, so none of
      the replicas filed under `key` is on it. */
  ghost predicate OnPath(ms: seq<Member>, path: set<string>, key: Option<string>) {
    && (key == Root(ms) || (key.Some? && key.value in path))
    && (forall m <- ms :: !m.isLeader && m.name in path ==> ParentOf(ms, m) == Root(ms) || (ParentOf(ms, m).Some? && ParentOf(ms, m).value in path))
    && (forall m <- ms :: !m.isLeader && ParentOf(ms, m) == key ==> m.name !in path)
  }

  lemma Descend(ms: seq<Member>, path: set<string>, key: Option<string>, m: Member)
    requires Proper(ms) && OnPath(ms, path, key) && m in ms && !m.isLeader && ParentOf(ms, m) == key
    ensures OnPath(ms, path + {m.name}, Some(m.name))
    ensures Names(ms) - (path + {m.name}) < Names(ms) - path
  {
    RootIsLeader(ms);
    forall d | d in ms && !d.isLeader && ParentOf(ms, d) == Some(m.name) ensures d.name !in path + {m.name} {
      if Root(ms) == Some(m.name) {
        Unique(ms, m, LeaderOf(ms).value);
      }
    }
    assert m.name in Names(ms) - path;
  }

  ghost predicate AreFiled(ms: seq<Member>, kids: seq<Member>, key: Option<string>) {
    forall m <- kids :: m in ms && !m.isLeader && ParentOf(ms, m) == key
  }

  ghost function Tree(ms: seq<Member>, level: nat, m: Member, key: Option<string>, path: set<string>): seq<Row>
    requires Proper(ms) && OnPath(ms, path, key) && AreFiled(ms, [m], key)
    decreases Names(ms) - path, 0, 0
  {
    assert m in [m];
    Descend(ms, path, key, m);
    ChildrenIff(ms, Some(m.name));
    [Row(Label(level, m.name), level, m)] + Forest(ms, level + 1, Children(ms, Some(m.name)), Some(m.name), path + {m.name})
  }

  ghost function Forest(ms: seq<Member>, level: nat, kids: seq<Member>, key: Option<string>, path: set<string>): seq<Row>
    requires Proper(ms) && OnPath(ms, path, key) && AreFiled(ms, kids, key)
    decreases Names(ms) - path, 1, |kids|
  {
    if kids == [] then []
    else Forest(ms, level, kids[..|kids| - 1], key, path) + Tree(ms, level, kids[|kids| - 1], key, path)
  }

  lemma ForestSnoc(ms: seq<Member>, level: nat, kids: seq<Member>, i: nat, key: Option<string>, path: set<string>)
    requires Proper(ms) && OnPath(ms, path, key) && AreFiled(ms, kids, key) && i < |kids|
    ensures AreFiled(ms, kids[..i], key) && AreFiled(ms, kids[..i + 1], key) && AreFiled(ms, [kids[i]], key)
    ensures Forest(ms, level, kids[..i + 1], key, path)
            == Forest(ms, level, kids[..i], key, path) + Tree(ms, level, kids[i], key, path)
  {
    assert kids[..i + 1][..i] == kids[..i];
    assert kids[i] in kids;
  }

  /** The whole output: the leader and what hangs below it. */
  ghost function Output(ms: seq<Member>): seq<Row>
    requires Proper(ms)
  {
    ChildrenIff(ms, Root(ms));
    (match LeaderOf(ms) case Some(l) => [Row(l.name, 0, l)] case None => [])
      + Forest(ms, 1, Children(ms, Root(ms)), Root(ms), {})
  }

  // ---------------------------------------------------------------- the program

  function Get(topology: map<Option<string>, seq<Member>>, key: Option<string>): seq<Member> {
    if key in topology then topology[key] else []
  }

  ghost predicate FiledSoFar(ms: seq<Member>, i: nat, topology: map<Option<string>, seq<Member>>)
    requires i <= |ms|
  {
    forall key :: Get(topology, key) == Filed(ms, ms[..i], key)
  }

  lemma LeaderNotFiled(ms: seq<Member>, i: nat, topology: map<Option<string>, seq<Member>>)
    requires i < |ms| && FiledSoFar(ms, i, topology) && ms[i].isLeader
    ensures FiledSoFar(ms, i + 1, topology)
  {
    forall key ensures Get(topology, key) == Filed(ms, ms[..i + 1], key) {
      FiledSnoc(ms, i, key);
    }
  }

  lemma ReplicaFiled(ms: seq<Member>, i: nat, topology: map<Option<string>, seq<Member>>, parent: Option<string>)
    requires i < |ms| && FiledSoFar(ms, i, topology) && !ms[i].isLeader && parent == ParentOf(ms, ms[i])
    ensures FiledSoFar(ms, i + 1, topology[parent := Get(topology, parent) + [ms[i]]])
  {
    var filed := topology[parent := Get(topology, parent) + [ms[i]]];
    forall key ensures Get(filed, key) == Filed(ms, ms[..i + 1], key) {
      FiledSnoc(ms, i, key);
    }
  }

  method TopologySort(ms: seq<Member>) returns (rows: seq<Row>)
    requires Proper(ms)
    ensures rows == Output(ms)
  {
    var topology: map<Option<string>, seq<Member>> := map[];
    var leader := LeaderOf(ms);
    var replicas := set m | m in ms && !m.isLeader :: m.name;
    for i := 0 to |ms|
      invariant FiledSoFar(ms, i, topology)
    {
      var member := ms[i];
      if !member.isLeader {
        var parent := member.replicatefrom;
        if !(parent.Some? && parent.value != "" && parent.value != member.name && parent.value in replicas) {
          parent := match leader case Some(l) => Some(l.name) case None => None;
        }
        ReplicaFiled(ms, i, topology, parent);
        topology := topology[parent := Get(topology, parent) + [member]];
      } else {
        LeaderNotFiled(ms, i, topology);
      }
    }
    assert ms[..|ms|] == ms;
    ChildrenIff(ms, Root(ms));
    rows := match leader case Some(l) => [Row(l.name, 0, l)] case None => [];
    var below := GenerateBelow(1, Root(ms), topology, ms, {});
    rows := rows + below;
  }

  /** `generate_topology` for one member. */
  method Generate(level: nat, member: Member, topology: map<Option<string>, seq<Member>>, ghost ms: seq<Member>, ghost key: Option<string>, ghost path: set<string>)
    returns (rows: seq<Row>)
    requires Proper(ms) && OnPath(ms, path, key) && AreFiled(ms, [member], key)
    requires forall k :: Get(topology, k) == Children(ms, k)
    ensures rows == Tree(ms, level, member, key, path)
    decreases Names(ms) - path, 0
  {
    assert member in [member];
    Descend(ms, path, key, member);
    rows := [Row(Label(level, member.name), level, member)];
    var below := GenerateBelow(level + 1, Some(member.name), topology, ms, path + {member.name});
    rows := rows + below;
  }

  /** Its loop over the members attached to one node. */
  method GenerateBelow(level: nat, key: Option<string>, topology: map<Option<string>, seq<Member>>, ghost ms: seq<Member>, ghost path: set<string>)
    returns (rows: seq<Row>)
    requires Proper(ms) && OnPath(ms, path, key)
    requires forall k :: Get(topology, k) == Children(ms, k)
    ensures AreFiled(ms, Children(ms, key), key)
    ensures rows == Forest(ms, level, Children(ms, key), key, path)
    decreases Names(ms) - path, 1
  {
    var members := Get(topology, key);
    ChildrenIff(ms, key);
    rows := [];
    for i := 0 to |members|
      invariant AreFiled(ms, members, key) && AreFiled(ms, members[..i], key)
      invariant rows == Forest(ms, level, members[..i], key, path)
    {
      ForestSnoc(ms, level, members, i, key, path);
      var more := Generate(level, members[i], topology, ms, key, path);
      rows := rows + more;
    }
    assert members[..|members|] == members;
  }
}
