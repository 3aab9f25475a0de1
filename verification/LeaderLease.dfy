/**
 The leader key as the Raft backend uses it, and the lease each node keeps locally.
 All stamps are readings of one clock.
 */
module LeaderLease {
  import opened Options
  import opened KvStore

  const LEADER := "leader"

  type Duration = r: real | 0.0 <= r witness 0.0

  // ---------------------------------------------------------------- retry

  /** What the callback of a submission reported: the outcome of the copy logged at `pos`; any
      reason but these two is tried again. */
  datatype Reason = Success(outcome: Outcome, pos: nat) | RequestDenied | Other

  /** One round of `retry`: how long the event is awaited and the last callback seen by then, which
      may answer this or any earlier copy of the command. */
  datatype Round = Round(wait: Duration, reason: Reason)

  datatype Reply = Result(outcome: Outcome, pos: nat) | Denied | TimedOut

  /** What came of it, how many copies were submitted, and when it was over. */
  datatype Ended = Ended(reply: Reply, copies: nat, end: real)

  function Awaited(round: Round, left: real): real {
    if round.wait < left then round.wait else left
  }

  /** `KVStoreTTL.retry` from round i on, which starts at `now` and may wait for `left`. */
  function Trying(rounds: nat -> Round, deadline: real, i: nat, now: real, left: real): (e: Ended)
    requires 0.0 < left && now + left <= deadline + 1.0
    ensures i < e.copies
    decreases (deadline + 1.0 - now).Floor
  {
    var end := now + Awaited(rounds(i), left);
    match rounds(i).reason
    case Success(outcome, pos) => Ended(Result(outcome, pos), i + 1, end)
    case RequestDenied => Ended(Denied, i + 1, end)
    case Other =>
      if deadline - end <= 0.0 then Ended(TimedOut, i + 1, end)
      else Trying(rounds, deadline, i + 1, end + 1.0, deadline - end)
  }

  function Retried(rounds: nat -> Round, timeout: real, start: real): (e: Ended)
    requires 0.0 < timeout
    ensures 0 < e.copies
  {
    Trying(rounds, start + timeout, 0, start, timeout)
  }

  /** Every round but the last is unanswered, an answer comes no later than one second after the
      deadline, and a timeout not before it. */
  lemma {:induction false} TryingEnds(rounds: nat -> Round, deadline: real, i: nat, now: real, left: real)
    requires 0.0 < left && now + left <= deadline + 1.0
    ensures
      var e := Trying(rounds, deadline, i, now, left);
      && i < e.copies && e.copies as real <= i as real + deadline - now + 2.0 && now <= e.end <= deadline + 1.0
      && (forall k :: i <= k < e.copies - 1 ==> rounds(k).reason == Other)
      && rounds(e.copies - 1).reason ==
           (match e.reply case Result(o, pos) => Success(o, pos) case Denied => RequestDenied case TimedOut => Other)
      && (e.reply == TimedOut ==> deadline <= e.end)
    decreases (deadline + 1.0 - now).Floor
  {
    var end := now + Awaited(rounds(i), left);
    if rounds(i).reason == Other && deadline - end > 0.0 {
      TryingEnds(rounds, deadline, i + 1, end + 1.0, deadline - end);
    }
  }

  /** The loop, started at `start`: the command is submitted again until a copy is answered, the
      request is denied or the deadline has passed. */
  method Retry(rounds: nat -> Round, timeout: real, start: real) returns (reply: Reply, copies: nat, end: real)
    requires 0.0 < timeout
    ensures Ended(reply, copies, end) == Retried(rounds, timeout, start)
    ensures 1 <= copies <= timeout.Floor + 2 && start <= end <= start + timeout + 1.0
    ensures forall i :: 0 <= i < copies - 1 ==> rounds(i).reason == Other
    ensures reply == TimedOut ==> start + timeout <= end
  {
    var deadline := start + timeout;
    var left := timeout;
    end, copies := start, 0;
    TryingEnds(rounds, deadline, 0, start, timeout);
    while true
      invariant 0.0 < left && end + left <= deadline + 1.0
      invariant Retried(rounds, timeout, start) == Trying(rounds, deadline, copies, end, left)
      decreases (deadline + 1.0 - end).Floor
    {
      var round := rounds(copies);
      copies := copies + 1;
      end := end + if round.wait < left then round.wait else left;
      match round.reason {
        case Success(outcome, pos) => return Result(outcome, pos), copies, end;
        case RequestDenied => return Denied, copies, end;
        case Other =>
          left := deadline - end;
          if left <= 0.0 {
            return TimedOut, copies, end;
          }
          end := end + 1.0;
      }
    }
  }

  // ---------------------------------------------------------------- commands on the leader key

  function LeaderData(name: string, updated: real, created: real, ttl: real): Data {
    Data(name, updated, created, Some(updated + ttl))
  }

  /** `attempt_to_acquire_leader`, `_update_leader` and `_delete_leader` of node `name`. */
  predicate Acquires(cmd: Command, name: string, ttl: real) {
    && cmd.Set? && cmd.key == LEADER && cmd.guard == Guard(Some(false), None, None)
    && cmd.data == LeaderData(name, cmd.data.updated, cmd.data.created, ttl)
  }

  predicate Renews(cmd: Command, name: string, ttl: real) {
    && cmd.Set? && cmd.key == LEADER && cmd.guard == Guard(None, Some(name), None)
    && cmd.data == LeaderData(name, cmd.data.updated, cmd.data.created, ttl)
  }

  predicate Releases(cmd: Command, name: string) {
    cmd == Delete(LEADER, Guard(None, Some(name), None))
  }

  /** The Raft leader proposes to expire a value only once its stamp has passed. */
  predicate ExpiresDue(cmd: Command, time: real) {
    cmd.Expire? && cmd.seen.data.expire.Some? && cmd.seen.data.expire.value <= time
  }

  predicate Touches(cmd: Command) {
    if cmd.DeleteTree? then cmd.prefix <= LEADER else cmd.key == LEADER
  }

  /** A log in which the leader key is only touched as the nodes and the expiry do it; entry k is
      applied at times[k]; each node's writes are logged in the order it submitted them. */
  ghost predicate LeaderLog(log: seq<Command>, times: seq<real>, ttl: real) {
    && |times| == |log|
    && (forall j, k :: 0 <= j <= k < |log| ==> times[j] <= times[k])
    && (forall k :: 0 <= k < |log| && Touches(log[k]) ==> Proper(log[k], times[k], ttl))
    && (forall j, k :: 0 <= j <= k < |log| && SameWriter(log[j], log[k]) ==> log[j].data.updated <= log[k].data.updated)
  }

  predicate LeaderSet(cmd: Command) {
    cmd.Set? && cmd.key == LEADER
  }

  predicate SameWriter(first: Command, second: Command) {
    LeaderSet(first) && LeaderSet(second) && first.data.value == second.data.value
  }

  predicate Proper(cmd: Command, time: real, ttl: real) {
    match cmd
    case Set(_, data, _) => Acquires(cmd, data.value, ttl) || Renews(cmd, data.value, ttl)
    case Delete(_, guard) => guard.prevValue.Some? && Releases(cmd, guard.prevValue.value)
    case DeleteTree(_) => false
    case Expire(_, _) => ExpiresDue(cmd, time)
  }

  function Holder(log: seq<Command>, k: nat): Option<string>
    requires k <= |log|
  {
    if LEADER in Before(log, k) then Some(Before(log, k)[LEADER].data.value) else None
  }

  /** Why the key disappeared at log entry k: the holder gave it up, or exactly the value that was
      there expired, not before its stamp. */
  predicate Vacates(log: seq<Command>, times: seq<real>, k: nat)
    requires k < |log| == |times|
  {
    && LEADER in Before(log, k)
    && var entry := Before(log, k)[LEADER];
       || Releases(log[k], entry.data.value)
       || (log[k].Expire? && entry.data.expire.Some? && entry.data.expire.value <= times[k])
  }

  /** One log entry never moves the key from one name to another. */
  lemma StepHandover(log: seq<Command>, times: seq<real>, ttl: real, k: nat)
    requires LeaderLog(log, times, ttl) && k < |log| && Holder(log, k).Some?
    ensures Holder(log, k + 1) == Holder(log, k) || (Holder(log, k + 1) == None && Vacates(log, times, k))
  {
    BeforeStep(log, k);
    if Touches(log[k]) {
      assert Proper(log[k], times[k], ttl);
    }
  }

  /** The key passes from one node to another only through absence, and the absence is the holder's
      own doing or a due expiry of the value it removes. */
  lemma {:induction false} HandoverThroughAbsence(log: seq<Command>, times: seq<real>, ttl: real, i: nat, j: nat) returns (k: nat)
    requires LeaderLog(log, times, ttl) && i <= j <= |log|
    requires Holder(log, i).Some? && Holder(log, j) != Holder(log, i)
    ensures i <= k < j && Vacates(log, times, k) && Holder(log, k + 1) == None
    ensures forall m :: i <= m <= k ==> Holder(log, m) == Holder(log, i)
    decreases j - i
  {
    StepHandover(log, times, ttl, i);
    if Holder(log, i + 1) == Holder(log, i) {
      k := HandoverThroughAbsence(log, times, ttl, i + 1, j);
    } else {
      k := i;
    }
  }

  /** A renewal that is logged first survives: an expiry proposed for the value before it, or for
      any value, does not remove an entry whose own stamp lies ahead. */
  lemma RenewalSurvivesExpiry(log: seq<Command>, times: seq<real>, ttl: real, k: nat)
    requires LeaderLog(log, times, ttl) && k < |log| && log[k].Expire?
    requires LEADER in Before(log, k) && Before(log, k)[LEADER].data.expire.Some?
    requires times[k] < Before(log, k)[LEADER].data.expire.value
    ensures Lookup(Before(log, k + 1), LEADER) == Lookup(Before(log, k), LEADER)
  {
    BeforeStep(log, k);
    if Touches(log[k]) {
      assert Proper(log[k], times[k], ttl);
    }
  }

  /** Acquiring succeeds exactly when nobody holds the key, renewing and releasing exactly for the
      holder; after a success the node holds the key, its expiry stamp one ttl ahead of the write,
      and after a release nobody does. */
  lemma LeaderWriteIff(log: seq<Command>, k: nat, name: string, ttl: real)
    requires k < |log| && (Acquires(log[k], name, ttl) || Renews(log[k], name, ttl) || Releases(log[k], name))
    ensures Carried(log, k) <==> Holder(log, k) == if Acquires(log[k], name, ttl) then None else Some(name)
    ensures !Carried(log, k) ==> Holder(log, k + 1) == Holder(log, k)
    ensures Carried(log, k) ==> Holder(log, k + 1) == if Releases(log[k], name) then None else Some(name)
    ensures Carried(log, k) && !Releases(log[k], name) ==>
              Before(log, k + 1)[LEADER].data.expire == Some(log[k].data.updated + ttl)
  {
    BeforeStep(log, k);
    if Acquires(log[k], name, ttl) {
      PresenceGuardIff(log, k, false);
    } else {
      ValueGuardIff(log, k, name);
    }
    if log[k].Set? && Carried(log, k) {
      StoredLeaves(log, k);
    }
  }

  // ---------------------------------------------------------------- leases

  /** `Ha._leader_expiry`. */
  class Lease {
    var expiry: real

    constructor ()
      ensures expiry == 0.0
    {
      expiry := 0.0;
    }

    method SetIsLeader(value: bool, now: real, ttl: real)
      modifies this
      ensures expiry == if value then now + ttl else 0.0
    {
      expiry := if value then now + ttl else 0.0;
    }

    predicate IsLeader(now: real)
      reads this
    {
      now < expiry
    }
  }

  /** `set_is_leader(True)` at `at`, after log entry `pos` was reported as stored. */
  datatype Grant = Grant(at: real, pos: nat)

  /** The grant follows the write it relies on, at most `delay` after its stamp was taken. */
  ghost predicate Granted(log: seq<Command>, times: seq<real>, delay: real, g: Grant) {
    && g.pos < |log| == |times|
    && LeaderSet(log[g.pos]) && OutcomeAt(log, g.pos).Stored?
    && times[g.pos] <= g.at <= log[g.pos].data.updated + delay
  }

  /** While the writer keeps the key its expiry stamp never falls below that of its write. */
  lemma {:induction false} StampsGrow(log: seq<Command>, times: seq<real>, ttl: real, i: nat, m: nat)
    requires LeaderLog(log, times, ttl) && i < m <= |log|
    requires LeaderSet(log[i]) && OutcomeAt(log, i).Stored?
    requires forall l :: i < l <= m ==> Holder(log, l) == Some(log[i].data.value)
    ensures LEADER in Before(log, m)
    ensures Before(log, m)[LEADER].data.expire.Some?
    ensures log[i].data.updated + ttl <= Before(log, m)[LEADER].data.expire.value
    decreases m
  {
    BeforeStep(log, m - 1);
    assert Holder(log, m) == Some(log[i].data.value);
    if Touches(log[m - 1]) {
      assert Proper(log[m - 1], times[m - 1], ttl);
    }
    if m - 1 > i {
      StampsGrow(log, times, ttl, i, m - 1);
      assert SameWriter(log[i], log[m - 1]) ==> log[i].data.updated <= log[m - 1].data.updated;
    } else {
      assert Proper(log[i], times[i], ttl);
    }
  }

  /** A write that succeeds for another node finds the key vacated after the first node's write. */
  lemma SecondWriterWaits(log: seq<Command>, times: seq<real>, ttl: real, i: nat, j: nat) returns (k: nat)
    requires LeaderLog(log, times, ttl) && i < j < |log|
    requires LeaderSet(log[i]) && OutcomeAt(log, i).Stored?
    requires LeaderSet(log[j]) && OutcomeAt(log, j).Stored?
    requires log[i].data.value != log[j].data.value
    ensures i < k < j && Vacates(log, times, k) && Holder(log, k) == Some(log[i].data.value)
    ensures Before(log, k)[LEADER].data.expire.Some?
    ensures log[i].data.updated + ttl <= Before(log, k)[LEADER].data.expire.value
  {
    BeforeStep(log, i);
    assert Proper(log[j], times[j], ttl);
    assert Holder(log, j) != Some(log[i].data.value);
    k := HandoverThroughAbsence(log, times, ttl, i + 1, j);
    StampsGrow(log, times, ttl, i, k);
  }

  /** Unless the first node gave the key up itself, its lease outlasts the moment another node
      starts its own by at most the delay between stamping a write and trusting it. */
  lemma LeasesOverlapAtMostDelay(log: seq<Command>, times: seq<real>, ttl: real, delay: real, first: Grant, second: Grant)
    requires LeaderLog(log, times, ttl)
    requires Granted(log, times, delay, first) && Granted(log, times, delay, second)
    requires first.pos < second.pos && log[first.pos].data.value != log[second.pos].data.value
    ensures
      || (exists k :: first.pos < k < second.pos && Releases(log[k], log[first.pos].data.value))
      || first.at + ttl <= second.at + delay
  {
    var k := SecondWriterWaits(log, times, ttl, first.pos, second.pos);
  }

  // ---------------------------------------------------------------- the acquire path

  /** `attempt_to_acquire_leader` by `name`, stamped at `start`; `present` tells whether the local
      copy of the store shows a leader, in which case nothing is submitted. */
  datatype Attempt = Attempt(name: string, start: real, present: bool, rounds: nat -> Round)

  datatype Acquired = Won(at: real, pos: nat) | Lost | Raised

  function AcquireCommand(a: Attempt, ttl: real): Command {
    Set(LEADER, LeaderData(a.name, a.start, a.start, ttl), Guard(Some(false), None, None))
  }

  function Concluded(a: Attempt, timeout: real): Acquired
    requires 0.0 < timeout
  {
    if a.present then Lost
    else
      var e := Retried(a.rounds, timeout, a.start);
      match e.reply
      case Result(outcome, pos) => if outcome.Stored? then Won(e.end, pos) else Lost
      case Denied => Lost
      case TimedOut => Raised
  }

  /** Callbacks tell the truth: a success reports the outcome of a copy of this very command, which
      was logged, and which had been applied when the loop ended on it. */
  ghost predicate Truthful(log: seq<Command>, times: seq<real>, ttl: real, timeout: real, a: Attempt)
    requires 0.0 < timeout
  {
    && |times| == |log|
    && (forall i :: a.rounds(i).reason.Success? ==> Reports(log, a.rounds(i).reason, AcquireCommand(a, ttl)))
    && (var e := Retried(a.rounds, timeout, a.start);
        e.reply.Result? && e.reply.pos < |log| ==> times[e.reply.pos] <= e.end)
  }

  predicate Reports(log: seq<Command>, reason: Reason, cmd: Command)
    requires reason.Success?
  {
    reason.pos < |log| && log[reason.pos] == cmd && OutcomeAt(log, reason.pos) == reason.outcome
  }

  /** The last round of the loop was answered by a copy of the command that took the free key. */
  predicate TookKey(log: seq<Command>, timeout: real, a: Attempt)
    requires 0.0 < timeout
  {
    var last := a.rounds(Retried(a.rounds, timeout, a.start).copies - 1).reason;
    !a.present && last.Success? && last.pos < |log| && Holder(log, last.pos) == None
  }

  lemma LastRound(a: Attempt, timeout: real)
    requires 0.0 < timeout
    ensures
      var e := Retried(a.rounds, timeout, a.start);
      && 1 <= e.copies && a.start <= e.end <= a.start + timeout + 1.0
      && a.rounds(e.copies - 1).reason ==
           (match e.reply case Result(o, pos) => Success(o, pos) case Denied => RequestDenied case TimedOut => Other)
      && (forall k :: 0 <= k < e.copies - 1 ==> a.rounds(k).reason == Other)
      && (e.reply == TimedOut ==> a.start + timeout <= e.end)
  {
    TryingEnds(a.rounds, a.start + timeout, 0, a.start, timeout);
  }

  /** An answered attempt is won exactly when the answering copy found the key free, which is when it
      was stored and the node held the key from there; it is raised exactly when time ran out. */
  lemma WonIff(log: seq<Command>, times: seq<real>, ttl: real, timeout: real, a: Attempt)
    requires 0.0 < timeout && Truthful(log, times, ttl, timeout, a)
    ensures
      var e := Retried(a.rounds, timeout, a.start);
      && (Concluded(a, timeout).Won? <==> TookKey(log, timeout, a))
      && (Concluded(a, timeout).Raised? <==> !a.present && a.rounds(e.copies - 1).reason == Other)
      && (TookKey(log, timeout, a) ==>
            var pos := a.rounds(e.copies - 1).reason.pos;
            && Concluded(a, timeout) == Won(e.end, pos) && pos < |log|
            && log[pos].data == Data(a.name, a.start, a.start, Some(a.start + ttl))
            && OutcomeAt(log, pos).Stored? && Holder(log, pos + 1) == Some(a.name))
  {
    LastRound(a, timeout);
    var e := Retried(a.rounds, timeout, a.start);
    var last := a.rounds(e.copies - 1).reason;
    if last.Success? {
      assert Reports(log, last, AcquireCommand(a, ttl));
      LeaderWriteIff(log, last.pos, a.name, ttl);
    }
  }

  /** `acquire_lock`: the answer decides about the local lease; a timeout raises and leaves it. With
      truthful callbacks the node becomes leader, for one ttl from the answer, exactly when the
      answering copy took the free key; a refusal, a denial and a leader in sight end its lease. */
  method AcquireLock(lease: Lease, a: Attempt, timeout: real, ttl: real, ghost log: seq<Command>, ghost times: seq<real>)
    returns (acquired: Acquired)
    requires 0.0 < timeout && Truthful(log, times, ttl, timeout, a)
    modifies lease
    ensures acquired == Concluded(a, timeout)
    ensures acquired.Won? ==> a.start <= acquired.at <= a.start + timeout + 1.0
    ensures
      var e := Retried(a.rounds, timeout, a.start);
      forall now :: 0.0 <= now ==>
        (lease.IsLeader(now) <==>
         if TookKey(log, timeout, a) then now < e.end + ttl
         else !a.present && a.rounds(e.copies - 1).reason == Other && old(lease.IsLeader(now)))
  {
    LastRound(a, timeout);
    WonIff(log, times, ttl, timeout, a);
    if a.present {
      lease.SetIsLeader(false, a.start, ttl);
      return Lost;
    }
    var reply, copies, end := Retry(a.rounds, timeout, a.start);
    match reply
    case Result(outcome, pos) =>
      lease.SetIsLeader(outcome.Stored?, end, ttl);
      acquired := if outcome.Stored? then Won(end, pos) else Lost;
    case Denied =>
      lease.SetIsLeader(false, end, ttl);
      acquired := Lost;
    case TimedOut =>
      acquired := Raised;
  }

  /** A won attempt is a grant whose delay the retry loop bounds. */
  lemma WonIsGranted(log: seq<Command>, times: seq<real>, ttl: real, timeout: real, a: Attempt)
    requires 0.0 < timeout && Truthful(log, times, ttl, timeout, a) && TookKey(log, timeout, a)
    ensures
      var won := Concluded(a, timeout);
      && won.Won? && Granted(log, times, timeout + 1.0, Grant(won.at, won.pos)) && log[won.pos].data.value == a.name
  {
    LastRound(a, timeout);
    WonIff(log, times, ttl, timeout, a);
    var e := Retried(a.rounds, timeout, a.start);
    assert Reports(log, a.rounds(e.copies - 1).reason, AcquireCommand(a, ttl));
  }

  /** Two nodes that take the free key, neither giving it up itself, believe to be leader together for
      at most retry_timeout + 1: one lease ends no later than that after the other begins. */
  lemma RaftLeasesOverlap(log: seq<Command>, times: seq<real>, ttl: real, timeout: real, a: Attempt, b: Attempt)
    requires LeaderLog(log, times, ttl) && 0.0 < timeout && a.name != b.name
    requires Truthful(log, times, ttl, timeout, a) && Truthful(log, times, ttl, timeout, b)
    requires TookKey(log, timeout, a) && TookKey(log, timeout, b)
    requires forall k :: 0 <= k < |log| ==> !Releases(log[k], a.name) && !Releases(log[k], b.name)
    ensures
      var first, second := Retried(a.rounds, timeout, a.start).end, Retried(b.rounds, timeout, b.start).end;
      first + ttl <= second + timeout + 1.0 || second + ttl <= first + timeout + 1.0
  {
    WonIsGranted(log, times, ttl, timeout, a);
    WonIsGranted(log, times, ttl, timeout, b);
    WonIff(log, times, ttl, timeout, a);
    WonIff(log, times, ttl, timeout, b);
    var first, second := Concluded(a, timeout), Concluded(b, timeout);
    var g, h := Grant(first.at, first.pos), Grant(second.at, second.pos);
    if g.pos < h.pos {
      LeasesOverlapAtMostDelay(log, times, ttl, timeout + 1.0, g, h);
    } else {
      LeasesOverlapAtMostDelay(log, times, ttl, timeout + 1.0, h, g);
    }
  }

  /** A refusal does not mean that nothing was written: when the first copy of an acquiring write is
      stored and only the answer to the second copy arrives, the caller is told no while it holds
      the key. */
  lemma RefusedYetStored(name: string, updated: real, ttl: real)
    ensures
      var write := Set(LEADER, LeaderData(name, updated, updated, ttl), Guard(Some(false), None, None));
      var log := [write, write];
      OutcomeAt(log, 1) == Refused && Holder(log, 2) == Some(name)
  {
    var write := Set(LEADER, LeaderData(name, updated, updated, ttl), Guard(Some(false), None, None));
    var log := [write, write];
    BeforeStep(log, 0);
    BeforeStep(log, 1);
    assert log[..0] == [];
  }
}
