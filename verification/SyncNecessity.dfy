/**
 The two facts the environment is trusted for are necessary: without either one there is a run
 that is about to promote a node lacking an acknowledged record. Node 0 starts as primary; node 1
 and node 2 are standbys.
 */
module SyncNecessity {
  import opened Options
  import opened SyncProtocol
  import opened SyncTheorems

  function Key(leader: Node, members: set<Node>, version: nat): SyncKey {
    SyncKey(leader, members, version)
  }

  /** A primary waiting for `listed`, all of it ready. */
  function Waiting(wal: Wal, listed: set<Node>, phase: Phase): Local {
    Local(Primary, wal, Names(listed, false), Names(listed, false), Handler(Names(listed, false), 0, listed), phase)
  }

  function World(sync: SyncKey, leaderKey: Option<Node>, nodes: map<Node, Local>, serial: nat, acked: set<Record>): State {
    State(sync, leaderKey, 0, 0, nodes, serial, acked)
  }

  /** Node 0 publishes node 1 as its synchronous standby. */
  function Published(): State {
    World(Key(0, {1}, 1), Some(0), map[0 := Waiting([], {1}, Idle)], 0, {})
  }

  /** A set of states that runs start in and never leave. The lemmas below speak of any such set. */
  ghost predicate Closed(trust: Trust, reach: State -> bool) {
    && (forall t :: Init(t) ==> reach(t))
    && (forall t, step :: reach(t) && Guard(t, step) && Trusted(trust, t, step) ==> reach(Apply(t, step)))
  }

  lemma Go(trust: Trust, reach: State -> bool, t: State, step: Step, t': State)
    requires Closed(trust, reach) && reach(t) && Guard(t, step) && Trusted(trust, t, step)
    requires Apply(t, step) == t'
    ensures reach(t')
  {
  }

  /** A running leader without published standby picks node b and is about to change the names. */
  lemma Enlisting(trust: Trust, reach: State -> bool, t: State, a: Node, b: Node)
    requires Closed(trust, reach) && reach(t) && t.leaderKey == Some(a) && t.sync.members == {}
    requires At(t, a).role == Primary && At(t, a).phase == Idle
    requires At(t, a).handler.seen == At(t, a).names == At(t, a).wanted && b !in At(t, a).names.listed
    requires Streams(t, b, a) && At(t, a).handler.flushLsn <= |At(t, b).wal|
    ensures reach(Put(t, a, At(t, a).(phase := Naming(t.sync, t.sync, {b}, {}))))
  {
    var l := At(t, a);
    var k := t.sync;
    var t1 := Put(t, a, l.(phase := Begun(k, k)));
    assert reach(t1) by {
      Go(trust, reach, t, Begin(a), t1);
    }
    var t2 := Put(t, a, l.(phase := Repairing(k, k, {b}, {})));
    PutTwice(t, a, At(t1, a), At(t2, a));
    Picks(trust, reach, t1, a, b);
    var t3 := Put(t, a, l.(phase := Shrinking(k, k, {b}, {})));
    assert reach(t3) by {
      PutTwice(t, a, At(t2, a), At(t3, a));
      Go(trust, reach, t2, Repair(a), t3);
    }
    var t4 := Put(t, a, l.(phase := Naming(k, k, {b}, {})));
    assert reach(t4) by {
      PutTwice(t, a, At(t3, a), At(t4, a));
      Go(trust, reach, t3, Shrink(a), t4);
    }
  }

  /** It waits for b alone, finds b caught up, and publishes it. */
  lemma Enlist(trust: Trust, reach: State -> bool, t: State, a: Node, b: Node)
    requires Closed(trust, reach) && reach(t) && t.leaderKey == Some(a) && t.sync.members == {}
    requires At(t, a).role == Primary && At(t, a).phase == Idle
    requires At(t, a).handler.seen == At(t, a).names == At(t, a).wanted
    requires b !in At(t, a).names.listed && b !in At(t, a).handler.ready
    requires Streams(t, b, a) && |At(t, b).wal| == |At(t, a).wal|
    requires At(t, a).handler.flushLsn <= |At(t, a).wal|
    ensures
      var names := Names({b}, false);
      var h := Handler(names, |At(t, a).wal|, {b});
      reach(Put(t, a, At(t, a).(names := names, wanted := names, handler := h)).(sync := NextKey(t, a, {b})))
  {
    var l := At(t, a);
    var k := t.sync;
    var names := Names({b}, false);
    Enlisting(trust, reach, t, a, b);
    NameAlone(trust, reach, Put(t, a, l.(phase := Naming(k, k, {b}, {}))), a, b);
    var t5 := Put(t, a, l.(names := names, wanted := names, phase := Rechecking(k, k, {b}, {})));
    PutTwice(t, a, l.(phase := Naming(k, k, {b}, {})), At(t5, a));
    Publish(trust, reach, t5, a, b);
    PutTwice(t, a, At(t5, a), l.(names := names, wanted := names, handler := Handler(names, |l.wal|, {b})));
  }

  lemma NameAlone(trust: Trust, reach: State -> bool, t: State, a: Node, b: Node)
    requires Closed(trust, reach) && reach(t) && At(t, a).phase.Naming? && At(t, a).phase.picked == {b} && At(t, a).phase.allow == {}
    ensures
      var l := At(t, a);
      var p := l.phase;
      var names := Names({b}, false);
      reach(Put(t, a, l.(names := names, wanted := names, phase := Rechecking(p.cluster, p.sync, {b}, {}))))
  {
    var l := At(t, a);
    var p := l.phase;
    var names := Names({b}, false);
    var t1 := Put(t, a, l.(wanted := names, phase := Rechecking(p.cluster, p.sync, {b}, {})));
    Go(trust, reach, t, SetNames(a, false), t1);
    var t2 := Put(t, a, At(t1, a).(names := names));
    PutTwice(t, a, At(t1, a), At(t2, a));
    Go(trust, reach, t1, TakesNames(a), t2);
  }

  lemma Publish(trust: Trust, reach: State -> bool, t: State, a: Node, b: Node)
    requires Closed(trust, reach) && reach(t) && At(t, a).phase == Rechecking(t.sync, t.sync, {b}, {}) && t.sync.members == {}
    requires At(t, a).names == At(t, a).wanted == Names({b}, false) && At(t, a).handler.seen != At(t, a).names
    requires At(t, a).role == Primary && b !in At(t, a).handler.ready && t.leaderKey == Some(a)
    requires Streams(t, b, a) && |At(t, b).wal| == |At(t, a).wal|
    ensures
      var l := At(t, a);
      var h := Handler(l.names, |l.wal|, {b});
      reach(Put(t, a, l.(handler := h, phase := Idle)).(sync := NextKey(t, a, {b})))
  {
    var l := At(t, a);
    var h := Handler(l.names, |l.wal|, {b});
    var t1 := Put(t, a, l.(handler := h, phase := Growing(t.sync, t.sync, {b}, {b})));
    CaughtUp(trust, reach, t, a, b, t1);
    var t2 := Put(t, a, l.(handler := h, phase := Idle)).(sync := NextKey(t, a, {b}));
    PutTwice(t, a, At(t1, a), At(t2, a));
    Go(trust, reach, t1, Grow(a), t2);
  }

  lemma Picks(trust: Trust, reach: State -> bool, t: State, a: Node, b: Node)
    requires Closed(trust, reach) && reach(t) && At(t, a).phase.Begun? && At(t, a).role == Primary
    requires At(t, a).handler.seen == At(t, a).names == At(t, a).wanted && b !in At(t, a).names.listed
    requires Streams(t, b, a) && At(t, a).handler.flushLsn <= |At(t, b).wal|
    ensures
      var l := At(t, a);
      reach(Put(t, a, l.(phase := Repairing(l.phase.cluster, l.phase.sync, {b}, {}))))
  {
    var l := At(t, a);
    var h := Readied(l, l.phase.cluster, {b}, {b});
    assert h.ready == l.handler.ready;
    assert Allowed(l, h, {b}, {b}) == {};
    Go(trust, reach, t, CurrentState(a, {b}, {b}, {b}, {b}), Put(t, a, l.(phase := Repairing(l.phase.cluster, l.phase.sync, {b}, {}))));
  }

  lemma CaughtUp(trust: Trust, reach: State -> bool, t: State, a: Node, b: Node, t': State)
    requires Closed(trust, reach) && reach(t) && At(t, a).phase.Rechecking? && At(t, a).role == Primary
    requires At(t, a).names == At(t, a).wanted == Names({b}, false) && At(t, a).handler.seen != At(t, a).names
    requires b !in At(t, a).handler.ready
    requires Streams(t, b, a) && |At(t, b).wal| == |At(t, a).wal|
    requires
      var l := At(t, a);
      t' == Put(t, a, l.(handler := Handler(l.names, |l.wal|, {b}), phase := Growing(l.phase.cluster, l.phase.sync, l.phase.picked, {b})))
    ensures reach(t')
  {
    var l := At(t, a);
    var h := Readied(l, l.phase.cluster, {b}, {b});
    assert h == Handler(l.names, |l.wal|, {b});
    assert Allowed(l, h, {b}, {b}) == {b};
    Go(trust, reach, t, Recheck(a, {b}, {b}, {b}, {b}), t');
  }

  lemma ReachPublished(trust: Trust, reach: State -> bool)
    requires Closed(trust, reach)
    ensures reach(Published())
  {
    var s0 := World(Key(0, {}, 0), Some(0), map[0 := Waiting([], {}, Idle)], 0, {});
    assert Init(s0);
    Enlist(trust, reach, s0, 0, 1);
    assert Put(s0, 0, At(s0, 0).(names := Names({1}, false), wanted := Names({1}, false), handler := Handler(Names({1}, false), 0, {1}))).(sync := NextKey(s0, 0, {1})) == Published();
  }

  /** Node c, past the gate, takes the key and loads the cluster again. */
  lemma Race(trust: Trust, reach: State -> bool, t: State, c: Node)
    requires Closed(trust, reach) && reach(t) && t.leaderKey == None
    requires At(t, c).phase.Gated? && (trust.lease ==> At(t, c).phase.grants == t.grants)
    ensures
      reach(Put(t, c, At(t, c).(phase := Claiming(At(t, c).phase.seen, t.sync.version))).(leaderKey := Some(c), grants := t.grants + 1))
  {
    var l := At(t, c);
    var t1 := Put(t, c, l.(phase := Holding(l.phase.seen))).(leaderKey := Some(c), grants := t.grants + 1);
    Go(trust, reach, t, Acquire(c), t1);
    var t2 := Put(t, c, l.(phase := Claiming(l.phase.seen, t.sync.version))).(leaderKey := Some(c), grants := t.grants + 1);
    Go(trust, reach, t1, Reload(c), t2);
  }

  lemma Win(trust: Trust, reach: State -> bool, t: State, c: Node)
    requires Closed(trust, reach) && reach(t) && At(t, c).phase.Claiming? && At(t, c).phase.version == t.sync.version
    requires trust.lease ==> t.leaderKey == Some(c)
    ensures
      reach(Put(t, c, At(t, c).(wanted := NO_NAMES, phase := Promoting)).(sync := NextKey(t, c, {})))
  {
    var l := At(t, c);
    var t1 := Put(t, c, l.(phase := Claimed)).(sync := NextKey(t, c, {}));
    Go(trust, reach, t, Claim(c), t1);
    var t2 := Put(t, c, l.(wanted := NO_NAMES, phase := Promoting)).(sync := NextKey(t, c, {}));
    PutTwice(t, c, At(t1, c), At(t2, c));
    Go(trust, reach, t1, ClearNames(c, false), t2);
  }

  /** With its only standby gone, the leader is about to drop it from /sync. */
  lemma DropsStandby(trust: Trust, reach: State -> bool, t: State, l: Local)
    requires Closed(trust, reach) && reach(t) && t.leaderKey == Some(0)
    requires l == At(t, 0) && l.role == Primary && l.phase == Idle
    requires l.handler.seen == l.names == l.wanted && t.sync.members != {}
    ensures reach(Put(t, 0, l.(phase := Shrinking(t.sync, t.sync, {}, {}))))
  {
    var k := t.sync;
    var t1 := Put(t, 0, l.(phase := Begun(k, k)));
    Go(trust, reach, t, Begin(0), t1);
    var t2 := Put(t, 0, l.(phase := Repairing(k, k, {}, {})));
    assert reach(t2) by {
      assert Readied(At(t1, 0), k, {}, {}).ready == l.handler.ready;
      assert Allowed(At(t1, 0), l.handler, {}, {}) == {};
      PutTwice(t, 0, At(t1, 0), At(t2, 0));
      Go(trust, reach, t1, CurrentState(0, {}, {}, {}, {}), t2);
    }
    var t3 := Put(t, 0, l.(phase := Shrinking(k, k, {}, {})));
    PutTwice(t, 0, At(t2, 0), At(t3, 0));
    Go(trust, reach, t2, Repair(0), t3);
  }

  /** A former primary, its leader key gone, still drops the standby and stops waiting for it. */
  lemma StaleDrop(trust: Trust, reach: State -> bool, t: State, l: Local)
    requires Closed(trust, reach) && reach(t) && l == At(t, 0) && !trust.lease
    requires t.sync.members != {} && l.phase == Shrinking(t.sync, t.sync, {}, {})
    ensures
      var key := NextKey(t, 0, {});
      reach(Put(t, 0, l.(names := NO_NAMES, wanted := NO_NAMES, phase := Growing(t.sync, key, {}, {}))).(sync := key))
  {
    var k := t.sync;
    var key := NextKey(t, 0, {});
    assert k.members * {} == {};
    var t1 := Put(t, 0, l.(phase := Naming(k, key, {}, {}))).(sync := key);
    Go(trust, reach, t, Shrink(0), t1);
    var t2 := Put(t, 0, l.(wanted := NO_NAMES, phase := Growing(k, key, {}, {}))).(sync := key);
    PutTwice(t, 0, At(t1, 0), At(t2, 0));
    Go(trust, reach, t1, SetNames(0, false), t2);
    var t3 := Put(t, 0, l.(names := NO_NAMES, wanted := NO_NAMES, phase := Growing(k, key, {}, {}))).(sync := key);
    PutTwice(t, 0, At(t2, 0), At(t3, 0));
    Go(trust, reach, t2, TakesNames(0), t3);
  }

  /** A former primary writes /sync although its leader key is gone and node 1 is in the race. */
  lemma LosesWithoutLease(trust: Trust, reach: State -> bool)
    requires !trust.lease && Closed(trust, reach)
    ensures exists t :: reach(t) && AboutToLose(t)
  {
    var l := At(Published(), 0);
    ReachPublished(trust, reach);
    DropsStandby(trust, reach, Published(), l);
    var t3 := Put(Published(), 0, l.(phase := Shrinking(Key(0, {1}, 1), Key(0, {1}, 1), {}, {})));
    var t4 := t3.(leaderKey := None);
    Go(trust, reach, t3, Expire, t4);
    var t5 := Put(t4, 1, At(t4, 1).(phase := Gated(1, 0)));
    Go(trust, reach, t4, Gate(1), t5);
    StaleDrop(trust, reach, t5, At(t5, 0));
    var key := NextKey(t5, 0, {});
    var t7 := Put(t5, 0, At(t5, 0).(names := NO_NAMES, wanted := NO_NAMES, phase := Growing(t5.sync, key, {}, {}))).(sync := key);
    LosesAlone(trust, reach, t7, 1);
  }

  /** A primary that waits for nobody commits, and a racing node without that commit wins. */
  lemma LosesAlone(trust: Trust, reach: State -> bool, t: State, c: Node)
    requires !trust.lease
    requires Closed(trust, reach) && reach(t) && t.leaderKey == None
    requires At(t, 0).role == Primary && At(t, 0).names == NO_NAMES && c != 0
    requires At(t, c).phase.Gated? && At(t, c).wal == []
    ensures exists t' :: reach(t') && AboutToLose(t')
  {
    var t1 := Apply(t, Write(0));
    assert reach(t1) by {
      Go(trust, reach, t, Write(0), t1);
    }
    var upTo := |At(t1, 0).wal|;
    var t2 := Apply(t1, Ack(0, upTo, 0));
    assert reach(t2) by {
      Go(trust, reach, t1, Ack(0, upTo, 0), t2);
    }
    assert At(t1, 0).wal[upTo - 1] in t2.acked;
    Race(trust, reach, t2, c);
    var t3 := Put(t2, c, At(t2, c).(phase := Claiming(At(t2, c).phase.seen, t2.sync.version))).(leaderKey := Some(c), grants := t2.grants + 1);
    Win(trust, reach, t3, c);
    var t4 := Put(t3, c, At(t3, c).(wanted := NO_NAMES, phase := Promoting)).(sync := NextKey(t3, c, {}));
    assert !HoldsAcked(t4, c);
  }

  /** A node that /sync lets through the gate takes the free key and claims /sync undisturbed. */
  lemma Succeed(trust: Trust, reach: State -> bool, t: State, c: Node, t': State)
    requires Closed(trust, reach) && reach(t) && t.leaderKey == None && Matches(t.sync, c)
    requires At(t, c).role == Standby && At(t, c).phase == Idle
    requires t' == Put(t, c, At(t, c).(wanted := NO_NAMES, phase := Promoting))
                   .(sync := NextKey(t, c, {}), leaderKey := Some(c), grants := t.grants + 1)
    ensures reach(t')
  {
    var l := At(t, c);
    var v := t.sync.version;
    var t1 := Put(t, c, l.(phase := Gated(v, t.grants)));
    PassGate(trust, reach, t, c);
    var t2 := Put(t, c, l.(phase := Claiming(v, v))).(leaderKey := Some(c), grants := t.grants + 1);
    assert reach(t2) by {
      Race(trust, reach, t1, c);
      PutTwice(t, c, At(t1, c), At(t2, c));
    }
    Win(trust, reach, t2, c);
    PutTwice(t, c, At(t2, c), At(t', c));
  }

  lemma PassGate(trust: Trust, reach: State -> bool, t: State, c: Node)
    requires Closed(trust, reach) && reach(t) && t.leaderKey == None && Matches(t.sync, c)
    requires At(t, c).role == Standby && At(t, c).phase == Idle
    ensures reach(Put(t, c, At(t, c).(phase := Gated(t.sync.version, t.grants))))
  {
    Go(trust, reach, t, Gate(c), Put(t, c, At(t, c).(phase := Gated(t.sync.version, t.grants))));
  }

  /** Node 1 takes over while node 0 keeps running, and commits on its own. */
  lemma TakeOver(trust: Trust, reach: State -> bool) returns (t: State)
    requires Closed(trust, reach)
    ensures reach(t) && t.leaderKey == None && t.sync == Key(1, {}, 2) && t.history == 0
    ensures At(t, 0) == At(Published(), 0) && At(t, 2) == FRESH_NODE
    ensures At(t, 1).role == Primary && Commit(1) in t.acked
  {
    var t1 := Published().(leaderKey := None);
    assert reach(t1) by {
      ReachPublished(trust, reach);
      Go(trust, reach, Published(), Expire, t1);
    }
    var t2 := Put(t1, 1, At(t1, 1).(wanted := NO_NAMES, phase := Promoting))
                .(sync := NextKey(t1, 1, {}), leaderKey := Some(1), grants := t1.grants + 1);
    Succeed(trust, reach, t1, 1, t2);
    t := Commits(trust, reach, t2);
  }

  lemma Commits(trust: Trust, reach: State -> bool, t: State) returns (t': State)
    requires Closed(trust, reach) && reach(t) && t.serial == 0
    requires At(t, 1) == FRESH_NODE.(phase := Promoting)
    ensures reach(t') && t'.leaderKey == None && t'.sync == t.sync && t'.history == t.history
    ensures forall n: Node :: n != 1 ==> At(t', n) == At(t, n)
    ensures At(t', 1).role == Primary && Commit(1) in t'.acked
  {
    var t1 := Apply(t, Promote(1));
    assert reach(t1) by {
      Go(trust, reach, t, Promote(1), t1);
    }
    var t2 := Apply(t1, Write(1));
    assert reach(t2) by {
      Go(trust, reach, t1, Write(1), t2);
    }
    var t3 := Apply(t2, Ack(1, 2, 0));
    assert reach(t3) by {
      Go(trust, reach, t2, Ack(1, 2, 0), t3);
    }
    assert At(t2, 1).wal[1] == Commit(1);
    t' := t3.(leaderKey := None);
    assert reach(t') by {
      Go(trust, reach, t3, Expire, t');
    }
  }

  /** The primary that was passed over takes the free key back, publishes another standby and
      fails; that standby lacks what node 1 acknowledged. */
  lemma LosesWithoutFencing(trust: Trust, reach: State -> bool)
    requires !trust.fenced && Closed(trust, reach)
    ensures exists t :: reach(t) && AboutToLose(t)
  {
    var t1 := TakeOver(trust, reach);
    var t2 := t1.(leaderKey := Some(0), grants := t1.grants + 1);
    assert reach(t2) by { Go(trust, reach, t1, Reclaim(0), t2); }
    var h := Handler(Names({2}, false), 0, {2});
    var t3 := Put(t2, 0, At(t2, 0).(names := Names({2}, false), wanted := Names({2}, false), handler := h)).(sync := NextKey(t2, 0, {2}));
    assert reach(t3) by { Enlist(trust, reach, t2, 0, 2); }
    var t4 := t3.(leaderKey := None);
    assert reach(t4) by { Go(trust, reach, t3, Expire, t4); }
    var t5 := Put(t4, 2, At(t4, 2).(wanted := NO_NAMES, phase := Promoting))
                .(sync := NextKey(t4, 2, {}), leaderKey := Some(2), grants := t4.grants + 1);
    Succeed(trust, reach, t4, 2, t5);
    assert Commit(1) in t5.acked && Commit(1) !in At(t5, 2).wal;
    assert AboutToLose(t5);
  }

  /** Between the two writes of a cycle the program restarts: the standby is out of /sync, the names
      still list it, and a cycle that again picks nobody finds nothing to change. */
  lemma LeftBehind(trust: Trust, reach: State -> bool) returns (t: State)
    requires Closed(trust, reach)
    ensures reach(t) && t.sync.leader == 0 && t.leaderKey == Some(0) && At(t, 0).role == Primary
    ensures t.sync.members == {} && At(t, 0).names.listed == {1}
    ensures At(t, 0).phase.Shrinking? && At(t, 0).phase.picked == At(t, 0).phase.sync.members
  {
    var l := At(Published(), 0);
    ReachPublished(trust, reach);
    DropsStandby(trust, reach, Published(), l);
    var k := Key(0, {1}, 1);
    var t1 := Put(Published(), 0, l.(phase := Shrinking(k, k, {}, {})));
    var t2 := Apply(t1, Shrink(0));
    Go(trust, reach, t1, Shrink(0), t2);
    var t3 := Apply(t2, Restart(0));
    Go(trust, reach, t2, Restart(0), t3);
    var t4 := Apply(t3, Observe(0));
    Go(trust, reach, t3, Observe(0), t4);
    t := PicksNobody(trust, reach, t4);
  }

  lemma PicksNobody(trust: Trust, reach: State -> bool, t: State) returns (t': State)
    requires Closed(trust, reach) && reach(t) && t.leaderKey == Some(0) && t.sync.members == {}
    requires At(t, 0).role == Primary && At(t, 0).phase == Idle && At(t, 0).names == At(t, 0).wanted
    ensures reach(t') && t'.sync == t.sync && t'.leaderKey == t.leaderKey
    ensures At(t', 0).role == Primary && At(t', 0).names == At(t, 0).names
    ensures At(t', 0).phase == Shrinking(t.sync, t.sync, {}, {})
  {
    var t1 := Apply(t, Begin(0));
    Go(trust, reach, t, Begin(0), t1);
    var t2 := Apply(t1, CurrentState(0, {}, {}, {}, {}));
    Go(trust, reach, t1, CurrentState(0, {}, {}, {}, {}), t2);
    assert At(t2, 0).phase == Repairing(t.sync, t.sync, {}, {});
    t' := Apply(t2, Repair(0));
    Go(trust, reach, t2, Repair(0), t');
  }

  lemma ReachableIsClosed(trust: Trust) returns (reach: State -> bool)
    ensures Closed(trust, reach) && forall t :: reach(t) <==> Reachable(trust, t)
  {
    reach := t => Reachable(trust, t);
    forall t | Init(t) ensures reach(t) {
      assert Runs(trust, t, [], t);
    }
    forall t, step | reach(t) && Guard(t, step) && Trusted(trust, t, step) ensures reach(Apply(t, step)) {
      SyncTheorems.Go(trust, t, step, Apply(t, step));
    }
  }

  /** Trusting the environment does not rule out the hand-off: there is a trusted run in which the
      published standby is promoted and has commits acknowledged. */
  lemma HandOffHappens()
    ensures exists t :: Reachable(TRUSTED, t) && t.sync.leader == 1 && At(t, 1).role == Primary && Commit(1) in t.acked
  {
    var reach := ReachableIsClosed(TRUSTED);
    var t := TakeOver(TRUSTED, reach);
    assert reach(t);
  }

  /** A cycle of the leader in /sync is over, and it waits for more standbys than it published. */
  predicate EndsExceeding(t: State, step: Step) {
    && EndsCycle(t, step) && step.x == t.sync.leader
    && Apply(t, step).sync.members < At(Apply(t, step), step.x).names.listed
  }

  lemma LeftBehindExceeds(t: State)
    requires t.sync.leader == 0 && t.sync.members == {} && At(t, 0).names.listed == {1}
    requires At(t, 0).phase.Shrinking? && At(t, 0).phase.picked == At(t, 0).phase.sync.members
    ensures EndsExceeding(t, Shrink(0))
  {
    assert 1 in At(Apply(t, Shrink(0)), 0).names.listed;
  }

  /** The inclusion of /sync in the names can be proper when a cycle is over. */
  lemma NamesMayExceedSync()
    ensures exists t, step :: Reachable(TRUSTED, t) && EndsExceeding(t, step)
  {
    var reach := ReachableIsClosed(TRUSTED);
    var t := LeftBehind(TRUSTED, reach);
    LeftBehindExceeds(t);
    assert reach(t);
  }

  /** Commits survive every run exactly when the environment can be trusted for both facts. */
  lemma SafeExactlyWhenTrusted(trust: Trust)
    ensures (forall t :: Reachable(trust, t) ==> !AboutToLose(t)) <==> trust.lease && trust.fenced
  {
    var reach := ReachableIsClosed(trust);
    if trust.lease && trust.fenced {
      forall t | Reachable(trust, t) ensures !AboutToLose(t) {
        NoAcknowledgedCommitLost(t);
      }
    } else if !trust.lease {
      LosesWithoutLease(trust, reach);
    } else {
      LosesWithoutFencing(trust, reach);
    }
  }
}
