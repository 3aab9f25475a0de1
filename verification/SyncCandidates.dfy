/**
 How `current_state` picks synchronous standbys from the replication connections: in order of
 preference, skipping those too far behind, until enough are found.
 */
module SyncCandidates {
  import opened SyncProtocol

  datatype SyncStatus = Async | Potential | Quorum | Sync

  datatype Replica = Replica(name: Node, status: SyncStatus, lsn: int, nofailover: bool)

  /** The texts in `pg_stat_replication` in alphabetical order. */
  function Rank(s: SyncStatus): nat {
    match s case Async => 0 case Potential => 1 case Quorum => 2 case Sync => 3
  }

  /** a is at least as good as b: first those allowed to fail over, then those synchronous already,
      then those further ahead. */
  predicate AsGood(a: Replica, b: Replica) {
    if a.nofailover != b.nofailover then b.nofailover
    else if a.status != b.status then Rank(a.status) > Rank(b.status)
    else a.lsn >= b.lsn
  }

  ghost predicate Ordered(list: seq<Replica>) {
    forall i, j :: 0 <= i < j < |list| ==> AsGood(list[i], list[j])
  }

  function Insert(list: seq<Replica>, r: Replica): (sorted: seq<Replica>)
    ensures multiset(sorted) == multiset(list + [r])
  {
    if list == [] || AsGood(r, list[0]) then
      [r] + list
    else
      assert list + [r] == [list[0]] + (list[1..] + [r]);
      [list[0]] + Insert(list[1..], r)
  }

  /** The two sorts of the source taken together: by status and position, then by tag. */
  function Preferred(list: seq<Replica>): (sorted: seq<Replica>)
    ensures multiset(sorted) == multiset(list)
  {
    if list == [] then []
    else
      assert list == [list[0]] + list[1..];
      Insert(Preferred(list[1..]), list[0])
  }

  lemma {:induction false} InsertKeepsOrder(list: seq<Replica>, r: Replica)
    requires Ordered(list)
    ensures Ordered(Insert(list, r))
    decreases |list|
  {
    if list != [] && !AsGood(r, list[0]) {
      InsertKeepsOrder(list[1..], r);
      var rest := Insert(list[1..], r);
      forall x <- rest ensures AsGood(list[0], x) {
        assert x in multiset(rest);
        assert x in list[1..] || x == r;
      }
    }
  }

  lemma {:induction false} PreferredIsOrdered(list: seq<Replica>)
    ensures Ordered(Preferred(list))
    ensures forall r :: r in Preferred(list) <==> r in list
    decreases |list|
  {
    if list != [] {
      PreferredIsOrdered(list[1..]);
      InsertKeepsOrder(Preferred(list[1..]), list[0]);
      forall r ensures r in Preferred(list) <==> r in list {
        assert r in multiset(Preferred(list)) <==> r in multiset(list);
      }
    }
  }

  predicate NearEnough(r: Replica, maxLsn: int, maxLag: int) {
    maxLag <= 0 || maxLsn - r.lsn <= maxLag
  }

  predicate Synchronous(r: Replica, ready: set<Node>, maxLsn: int, maxLag: int) {
    NearEnough(r, maxLsn, maxLag) && r.status == Sync && r.name in ready
  }

  /** Names of eligible replicas among the first n. */
  function Names(order: seq<Replica>, n: nat, maxLsn: int, maxLag: int): set<Node>
    requires n <= |order|
  {
    if n == 0 then {}
    else Names(order, n - 1, maxLsn, maxLag) + if NearEnough(order[n - 1], maxLsn, maxLag) then {order[n - 1].name} else {}
  }

  function SyncNames(order: seq<Replica>, n: nat, ready: set<Node>, maxLsn: int, maxLag: int): set<Node>
    requires n <= |order|
  {
    if n == 0 then {}
    else
      SyncNames(order, n - 1, ready, maxLsn, maxLag)
      + if Synchronous(order[n - 1], ready, maxLsn, maxLag) then {order[n - 1].name} else {}
  }

  lemma {:induction false} WhoIsNamed(order: seq<Replica>, n: nat, maxLsn: int, maxLag: int, name: Node)
    requires n <= |order|
    ensures name in Names(order, n, maxLsn, maxLag) <==>
            exists i :: 0 <= i < n && order[i].name == name && NearEnough(order[i], maxLsn, maxLag)
    decreases n
  {
    if n > 0 {
      WhoIsNamed(order, n - 1, maxLsn, maxLag, name);
    }
  }

  lemma SameLength(list: seq<Replica>)
    ensures |Preferred(list)| == |list|
  {
    assert |multiset(Preferred(list))| == |multiset(list)|;
  }

  /** The selection loop: `stop` is how many replicas it looked at. */
  method Scan(order: seq<Replica>, ready: set<Node>, count: nat, maxLsn: int, maxLag: int)
    returns (candidates: set<Node>, syncNodes: set<Node>, ghost stop: nat)
    requires count > 0
    ensures stop <= |order|
    ensures candidates == Names(order, stop, maxLsn, maxLag)
    ensures syncNodes == SyncNames(order, stop, ready, maxLsn, maxLag)
    ensures |candidates| <= count
    ensures |candidates| < count ==> stop == |order|
  {
    candidates, syncNodes, stop := {}, {}, 0;
    for i := 0 to |order|
      invariant stop == i && |candidates| < count
      invariant candidates == Names(order, i, maxLsn, maxLag)
      invariant syncNodes == SyncNames(order, i, ready, maxLsn, maxLag)
    {
      var replica := order[i];
      if NearEnough(replica, maxLsn, maxLag) {
        candidates := candidates + {replica.name};
        if replica.status == Sync && replica.name in ready {
          syncNodes := syncNodes + {replica.name};
        }
      }
      stop := i + 1;
      if |candidates| >= count {
        return;
      }
    }
  }

  /** `current_state`, once readiness has been noted. */
  method Choose(list: seq<Replica>, ready: set<Node>, count: nat, maxLsn: int, maxLag: int)
    returns (candidates: set<Node>, syncNodes: set<Node>, ghost stop: nat)
    requires count > 0
    ensures stop <= |list| == |Preferred(list)|
    ensures candidates == Names(Preferred(list), stop, maxLsn, maxLag)
    ensures syncNodes == SyncNames(Preferred(list), stop, ready, maxLsn, maxLag)
    ensures |candidates| <= count
    ensures |candidates| < count ==> stop == |list|
  {
    SameLength(list);
    candidates, syncNodes, stop := Scan(Preferred(list), ready, count, maxLsn, maxLag);
  }

  /** What the selection means: if an eligible standby is passed over then the count is full, and
      every chosen name has an eligible connection at least as good. */
  lemma PassedOverFor(list: seq<Replica>, stop: nat, maxLsn: int, maxLag: int, r: Replica, chosen: Node)
    requires stop <= |Preferred(list)|
    requires r in list && NearEnough(r, maxLsn, maxLag) && r.name !in Names(Preferred(list), stop, maxLsn, maxLag)
    requires chosen in Names(Preferred(list), stop, maxLsn, maxLag)
    ensures stop < |Preferred(list)|
    ensures exists better <- list :: better.name == chosen && NearEnough(better, maxLsn, maxLag) && AsGood(better, r)
  {
    PreferredIsOrdered(list);
    var order := Preferred(list);
    var j :| 0 <= j < |order| && order[j] == r;
    WhoIsNamed(order, stop, maxLsn, maxLag, r.name);
    WhoIsNamed(order, stop, maxLsn, maxLag, chosen);
    var i :| 0 <= i < stop && order[i].name == chosen && NearEnough(order[i], maxLsn, maxLag);
    assert order[i] in list && AsGood(order[i], r);
  }

  lemma {:induction false} WhoIsSync(order: seq<Replica>, n: nat, ready: set<Node>, maxLsn: int, maxLag: int, name: Node)
    requires n <= |order|
    ensures name in SyncNames(order, n, ready, maxLsn, maxLag) <==>
            exists i :: 0 <= i < n && order[i].name == name && Synchronous(order[i], ready, maxLsn, maxLag)
    decreases n
  {
    if n > 0 {
      WhoIsSync(order, n - 1, ready, maxLsn, maxLag, name);
    }
  }

  /** The names of the connections that report 'sync'. */
  function InSync(order: seq<Replica>): set<Node> {
    set r | r in order && r.status == Sync :: r.name
  }

  ghost predicate OneConnectionEach(order: seq<Replica>) {
    forall i, j :: 0 <= i < j < |order| ==> order[i].name != order[j].name
  }

  /** PostgreSQL reports 'sync' only for standbys it lists, though not for all of them. Then the two
      results are related as the step system has it: exactly, when every name has one connection,
      and otherwise with some of the standbys that are 'sync'. */
  lemma ChoiceIsAllowed(order: seq<Replica>, n: nat, ready: set<Node>, listed: set<Node>, maxLsn: int, maxLag: int)
    requires n <= |order|
    requires forall r <- order :: r.status == Sync ==> r.name in listed
    ensures
      var chosen, allow := Names(order, n, maxLsn, maxLag), SyncNames(order, n, ready, maxLsn, maxLag);
      && allow <= chosen * InSync(order) * listed * ready
      && (OneConnectionEach(order) ==> allow == chosen * InSync(order) * listed * ready)
  {
    var chosen, allow := Names(order, n, maxLsn, maxLag), SyncNames(order, n, ready, maxLsn, maxLag);
    forall name: Node
      ensures name in allow ==> name in chosen && name in InSync(order) && name in listed && name in ready
      ensures OneConnectionEach(order) && name in chosen && name in InSync(order) && name in ready ==> name in allow
    {
      WhoIsSync(order, n, ready, maxLsn, maxLag, name);
      WhoIsNamed(order, n, maxLsn, maxLag, name);
      if name in allow {
        var i :| 0 <= i < n && order[i].name == name && Synchronous(order[i], ready, maxLsn, maxLag);
        assert order[i] in order;
      }
      if OneConnectionEach(order) && name in chosen && name in InSync(order) && name in ready {
        var i :| 0 <= i < n && order[i].name == name && NearEnough(order[i], maxLsn, maxLag);
        var j :| 0 <= j < |order| && order[j].name == name && order[j].status == Sync;
        assert i == j;
      }
    }
  }

  // ---------------------------------------------------------------- who is never passed over

  /** A connection may be chosen: there is no lag limit, or it is not further behind than that. */
  lemma NearEnoughMeans(r: Replica, maxLsn: int, maxLag: int)
    ensures NearEnough(r, maxLsn, maxLag) <==> (0 < maxLag ==> maxLsn <= r.lsn + maxLag)
  {
  }

  /** Everyone chosen is near enough and, being at least as good as an eligible standby passed over,
      may fail over if that one may; among those equal in this, is synchronous already if that one
      is, and otherwise waits behind no weaker state; and among those equal in both is as far. */
  lemma PassedOverMeans(list: seq<Replica>, stop: nat, maxLsn: int, maxLag: int, r: Replica, chosen: Node) returns (better: Replica)
    requires stop <= |Preferred(list)|
    requires r in list && (0 < maxLag ==> maxLsn <= r.lsn + maxLag)
    requires r.name !in Names(Preferred(list), stop, maxLsn, maxLag)
    requires chosen in Names(Preferred(list), stop, maxLsn, maxLag)
    ensures better in list && better.name == chosen && (0 < maxLag ==> maxLsn <= better.lsn + maxLag)
    ensures !r.nofailover ==> !better.nofailover
    ensures r.nofailover == better.nofailover ==>
      && (r.status == Sync ==> better.status == Sync)
      && (r.status == Quorum ==> better.status in {Sync, Quorum})
      && (r.status == Potential ==> better.status != Async)
      && (r.status == better.status ==> r.lsn <= better.lsn)
  {
    PassedOverFor(list, stop, maxLsn, maxLag, r, chosen);
    better :| better in list && better.name == chosen && NearEnough(better, maxLsn, maxLag) && AsGood(better, r);
  }

  /** A standby that may fail over, is synchronous already and near enough is not passed over for one
      that is not all of this; nor one that may fail over for one that may not. */
  lemma SynchronousFirst(list: seq<Replica>, stop: nat, maxLsn: int, maxLag: int, r: Replica, other: Node)
    requires stop <= |Preferred(list)|
    requires r in list && !r.nofailover && r.status == Sync && (0 < maxLag ==> maxLsn <= r.lsn + maxLag)
    requires other in Names(Preferred(list), stop, maxLsn, maxLag)
    requires forall q <- list :: q.name == other ==> q.nofailover || q.status != Sync || q.lsn < r.lsn
    ensures r.name in Names(Preferred(list), stop, maxLsn, maxLag)
  {
    if r.name !in Names(Preferred(list), stop, maxLsn, maxLag) {
      var better := PassedOverMeans(list, stop, maxLsn, maxLag, r, other);
    }
  }
}
