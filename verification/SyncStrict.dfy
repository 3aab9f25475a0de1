/**
 What the assigned names mean for the commits of a primary, and what strict mode adds: once names
 assigned in strict mode are in force, nothing is acknowledged without a standby.
 */
module SyncStrict {
  import opened Options
  import opened SyncProtocol
  import opened SyncCycle

  /** The step assigns names at x. */
  predicate Assigns(x: Node, step: Step) {
    (step.SetNames? || step.ClearNames?) && step.x == x
  }

  predicate StrictAt(x: Node, step: Step) {
    Assigns(x, step) ==> step.strict
  }

  /** With these names in force a commit takes at least one standby. */
  predicate Needy(names: Names) {
    names.star || names.listed != {}
  }

  lemma StrictStep(s: State, step: Step, x: Node)
    requires Guard(s, step) && StrictAt(x, step)
    ensures
      var t := Apply(s, step);
      && (Needy(At(s, x).wanted) || Assigns(x, step) ==> Needy(At(t, x).wanted))
      && (Needy(At(s, x).names) && Needy(At(s, x).wanted) ==> Needy(At(t, x).names))
      && (Needy(At(s, x).wanted) && step == TakesNames(x) ==> Needy(At(t, x).names))
  {
  }

  lemma {:induction false} StrictRun(trust: Trust, s: State, steps: seq<Step>, t: State, x: Node)
    requires Runs(trust, s, steps, t) && (forall step <- steps :: StrictAt(x, step)) && Needy(At(s, x).wanted)
    ensures Needy(At(t, x).wanted)
    ensures Needy(At(s, x).names) || TakesNames(x) in steps ==> Needy(At(t, x).names)
    decreases |steps|
  {
    if steps != [] {
      assert steps[0] in steps;
      StrictStep(s, steps[0], x);
      assert forall step <- steps[1..] :: step in steps;
      assert forall step <- steps :: step == steps[0] || step in steps[1..];
      StrictRun(trust, Apply(s, steps[0]), steps[1..], t, x);
    }
  }

  lemma {:induction false} StrictNamesInForce(trust: Trust, s: State, steps: seq<Step>, t: State, x: Node, i: nat, j: nat)
    requires Runs(trust, s, steps, t) && (forall step <- steps :: StrictAt(x, step))
    requires i < j < |steps| && Assigns(x, steps[i]) && steps[j] == TakesNames(x)
    ensures Needy(At(t, x).names)
    decreases i
  {
    assert steps[0] in steps;
    StrictStep(s, steps[0], x);
    assert forall step <- steps[1..] :: step in steps;
    assert steps[1..][j - 1] == TakesNames(x);
    if i == 0 {
      StrictRun(trust, Apply(s, steps[0]), steps[1..], t, x);
    } else {
      assert steps[1..][i - 1] == steps[i];
      StrictNamesInForce(trust, Apply(s, steps[0]), steps[1..], t, x, i - 1, j - 1);
    }
  }

  /** Another node that streams from x has everything up to there. */
  ghost predicate Backed(t: State, x: Node, upTo: nat) {
    exists n: Node :: n != x && At(t, n).wal <= At(t, x).wal && upTo <= |At(t, n).wal|
  }

  lemma NeedyAck(t: State, x: Node, upTo: nat, helper: Node)
    requires Guard(t, Ack(x, upTo, helper)) && Needy(At(t, x).names)
    ensures Backed(t, x, upTo)
  {
    if At(t, x).names.star {
      assert At(t, helper).wal <= At(t, x).wal;
    } else {
      var n :| n in At(t, x).names.listed;
      assert Confirms(t, n, x, upTo);
      assert At(t, n).wal <= At(t, x).wal;
    }
  }

  /** In every run whose assignments at x are all strict, from the moment the first of them is in
      force, whatever x acknowledges is held by another node that streams from it. */
  lemma StrictModeNeedsAStandby(trust: Trust, s: State, steps: seq<Step>, t: State, x: Node, i: nat, j: nat, upTo: nat, helper: Node)
    requires Runs(trust, s, steps, t) && (forall step <- steps :: StrictAt(x, step))
    requires i < j < |steps| && Assigns(x, steps[i]) && steps[j] == TakesNames(x)
    requires Guard(t, Ack(x, upTo, helper))
    ensures Backed(t, x, upTo)
  {
    StrictNamesInForce(trust, s, steps, t, x, i, j);
    NeedyAck(t, x, upTo, helper);
  }

  function InForce(s: State, x: Node): State {
    Put(s, x, At(s, x).(names := At(s, x).wanted))
  }

  /** What a primary may acknowledge once the names it assigned for its picked standbys are in force:
      what all of them confirm; with nobody picked, in strict mode what anybody confirms, and
      otherwise everything. */
  lemma AssignedNamesMean(s: State, x: Node, strict: bool, upTo: nat, helper: Node)
    requires At(s, x).phase.Naming? && At(s, x).role == Primary
    ensures
      var picked := At(s, x).phase.picked;
      var t := InForce(Apply(s, SetNames(x, strict)), x);
      Guard(t, Ack(x, upTo, helper)) <==>
        && upTo <= |At(s, x).wal|
        && if picked != {} then forall n <- picked :: Confirms(s, n, x, upTo) else (strict ==> Confirms(s, helper, x, upTo))
  {
    var t := InForce(Apply(s, SetNames(x, strict)), x);
    assert forall n: Node :: Confirms(t, n, x, upTo) <==> Confirms(s, n, x, upTo);
  }

  /** The same for a node that has just won the leader race. */
  lemma ClearedNamesMean(s: State, x: Node, strict: bool, upTo: nat, helper: Node)
    requires At(s, x).phase.Claimed?
    ensures
      var t := InForce(Apply(Apply(s, ClearNames(x, strict)), Promote(x)), x);
      Guard(t, Ack(x, upTo, helper)) <==> upTo <= |At(t, x).wal| && (strict ==> Confirms(t, helper, x, upTo))
  {
  }

  // ---------------------------------------------------------------- the method

  /** Others leave the assigned names of x alone. */
  ghost predicate LeavesNames(env: Env, x: Node) {
    forall i, w :: At(env.others(i, w), x).wanted == At(w, x).wanted && At(env.settle(i, w), x).wanted == At(w, x).wanted
  }

  lemma {:induction false} StrictCycle(env: Env, w: State, i: nat, x: Node, p: Phase)
    requires LeavesNames(env, x) && (p.Naming? || Needy(At(w, x).wanted))
    ensures Needy(At(Continue(env, w, i, x, p, true), x).wanted)
    decreases Remaining(p)
  {
    if InFlight(p) {
      var seen := Before(env, i, w, p);
      var (after, q) := Effect(seen, x, p, true, env.ask(seen));
      StrictCycle(env, after, i + 1, x, q);
    }
  }

  /** The method in strict mode: from the point where it assigns names, or from its start if the
      names asked for a standby before, it ends with names under which nothing is acknowledged
      without one. */
  lemma StrictMethodNeedsAStandby(env: Env, w: State, i: nat, x: Node, p: Phase, upTo: nat, helper: Node)
    requires LeavesNames(env, x) && (p.Naming? || Needy(At(w, x).wanted))
    requires Guard(InForce(Continue(env, w, i, x, p, true), x), Ack(x, upTo, helper))
    ensures Backed(InForce(Continue(env, w, i, x, p, true), x), x, upTo)
  {
    StrictCycle(env, w, i, x, p);
    NeedyAck(InForce(Continue(env, w, i, x, p, true), x), x, upTo, helper);
  }

  // ---------------------------------------------------------------- a cycle nobody disturbs

  /** Who may be promoted according to a query: chosen, in sync, listed, and either ready before or
      connected and in /sync or caught up. */
  lemma AllowedMeans(w: State, x: Node, cluster: SyncKey, a: Answer, n: Node)
    ensures n in AllowedBy(w, x, cluster, a) <==>
      && n in a.chosen && n in a.insync && n in At(w, x).names.listed
      && (n in At(w, x).handler.ready || (n in a.replicas && (n in cluster.members || n in a.caught)))
  {
  }

  ghost predicate Calm(env: Env, x: Node) {
    forall i, w :: env.others(i, w) == w && env.settle(i, w) == InForce(w, x)
  }

  /** The world at the second query, when the first saw `a` and /sync has become `key`. */
  function SecondLook(w: State, x: Node, key: SyncKey, a: Answer, strict: bool): State {
    var names := Names(a.chosen, strict && a.chosen == {});
    var h := Readied(At(InForce(w, x), x), w.sync, a.replicas, a.caught);
    Put(w, x, At(w, x).(names := names, wanted := names, handler := h)).(sync := key)
  }

  /** The standbys still published while the names change: those that may be promoted anyhow. */
  function Common(w: State, picked: set<Node>, allow: set<Node>): set<Node> {
    if picked == w.sync.members then allow else w.sync.members * allow
  }

  /** First half: nothing to change, or on the way to the new names with only the common standbys
      published. */
  lemma CalmStart(env: Env, w: State, x: Node, i: nat, strict: bool) returns (seen: State, key: SyncKey)
    requires Calm(env, x)
    ensures
      var a := env.ask(InForce(w, x));
      var allow := AllowedBy(InForce(w, x), x, w.sync, a);
      && seen == Asked(InForce(w, x), x, w.sync, a).(sync := key)
      && key.members == Common(w, a.chosen, allow)
      && Continue(env, w, i, x, Begun(w.sync, w.sync), strict) ==
         if a.chosen == w.sync.members == allow then seen
         else Continue(env, seen, i + 3, x, Naming(w.sync, key, a.chosen, allow), strict)
  {
    var w0 := InForce(w, x);
    var a := env.ask(w0);
    var allow := AllowedBy(w0, x, w.sync, a);
    var w1 := Asked(w0, x, w.sync, a);
    var p1 := Repairing(w.sync, w.sync, a.chosen, allow);
    assert Continue(env, w, i, x, Begun(w.sync, w.sync), strict) == Continue(env, w1, i + 1, x, p1, strict);
    var (w2, p2) := Effect(w1, x, p1, strict, env.ask(w1));
    assert Continue(env, w1, i + 1, x, p1, strict) == Continue(env, w2, i + 2, x, p2, strict);
    var (w3, p3) := Effect(w2, x, p2, strict, env.ask(w2));
    assert Continue(env, w2, i + 2, x, p2, strict) == Continue(env, w3, i + 3, x, p3, strict);
    seen, key := w3, w3.sync;
    assert allow * allow == allow;
    if p3 == Idle {
      assert Continue(env, w3, i + 3, x, p3, strict) == w3;
    }
  }

  /** Second half: the names are assigned, the standbys asked again if some of them were not ready,
      and those then allowed are published. */
  lemma CalmEnd(env: Env, w: State, x: Node, i: nat, p: Phase, strict: bool)
    requires Calm(env, x) && p.Naming? && p.sync == w.sync
    ensures
      var named := InForce(Renamed(w, x, Names(p.picked, strict && p.picked == {})), x);
      var last := if p.picked != {} && p.allow != p.picked then AllowedBy(named, x, p.cluster, env.ask(named)) else p.allow;
      var after := Continue(env, w, i, x, p, strict);
      && after.sync.members == (if last != {} then last else p.sync.members)
      && At(after, x).wanted.listed == p.picked && (At(after, x).wanted.star <==> strict && p.picked == {})
  {
    var (w1, p1) := Effect(w, x, p, strict, env.ask(w));
    assert Continue(env, w, i, x, p, strict) == Continue(env, w1, i + 1, x, p1, strict);
    if p1.Rechecking? {
      var named := InForce(w1, x);
      var (w2, p2) := Effect(named, x, p1, strict, env.ask(named));
      assert Continue(env, w1, i + 1, x, p1, strict) == Continue(env, w2, i + 2, x, p2, strict);
      CalmGrow(env, w2, x, i + 2, p2, strict);
    } else {
      CalmGrow(env, w1, x, i + 1, p1, strict);
    }
  }

  lemma CalmGrow(env: Env, w: State, x: Node, i: nat, p: Phase, strict: bool)
    requires Calm(env, x) && p.Growing? && p.sync == w.sync
    ensures
      var after := Continue(env, w, i, x, p, strict);
      && after.sync.members == (if p.allow != {} then p.allow else p.sync.members)
      && At(after, x).wanted == At(w, x).wanted
  {
    var (w1, p1) := Effect(w, x, p, strict, env.ask(w));
    assert Continue(env, w, i, x, p, strict) == Continue(env, w1, i + 1, x, p1, strict);
    assert Continue(env, w1, i + 1, x, p1, strict) == w1;
  }

  /** What a whole cycle that nobody disturbs brings about. If the picked standbys are the published
      ones and all may be promoted, nothing changes. Otherwise the primary waits for exactly the
      picked ones, and /sync names exactly those that may be promoted by the last query; if by then
      none may, those that already were published and may be promoted by the first. */
  lemma UndisturbedCycle(env: Env, w: State, x: Node, i: nat, strict: bool)
    requires Calm(env, x)
    ensures
      var a := env.ask(InForce(w, x));
      var allow := AllowedBy(InForce(w, x), x, w.sync, a);
      var after := Continue(env, w, i, x, Begun(w.sync, w.sync), strict);
      if a.chosen == w.sync.members == allow then
        after.sync.members == w.sync.members && At(after, x).wanted == At(w, x).wanted
      else
        && At(after, x).wanted.listed == a.chosen && (At(after, x).wanted.star <==> strict && a.chosen == {})
        && exists key: SyncKey :: key.members == Common(w, a.chosen, allow) &&
             var named := SecondLook(w, x, key, a, strict);
             var last := if a.chosen != {} && allow != a.chosen then AllowedBy(named, x, w.sync, env.ask(named)) else allow;
             after.sync.members == if last != {} then last else key.members
  {
    var a := env.ask(InForce(w, x));
    var allow := AllowedBy(InForce(w, x), x, w.sync, a);
    var seen, key := CalmStart(env, w, x, i, strict);
    if !(a.chosen == w.sync.members == allow) {
      CalmEnd(env, seen, x, i + 3, Naming(w.sync, key, a.chosen, allow), strict);
      SecondLookIs(w, x, key, a, strict);
    }
  }

  lemma SecondLookIs(w: State, x: Node, key: SyncKey, a: Answer, strict: bool)
    ensures
      InForce(Renamed(Asked(InForce(w, x), x, w.sync, a).(sync := key), x, Names(a.chosen, strict && a.chosen == {})), x)
      == SecondLook(w, x, key, a, strict)
  {
    var w0 := InForce(w, x);
    var w1 := Asked(w0, x, w.sync, a);
    var w2 := Renamed(w1.(sync := key), x, Names(a.chosen, strict && a.chosen == {}));
    PutTwice(w, x, At(w0, x), At(w1, x));
    PutTwice(w, x, At(w1, x), At(w2, x));
    PutTwice(w, x, At(w2, x), At(InForce(w2, x), x));
  }
}
