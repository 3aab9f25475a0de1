# Patroni: the protocols, proved

Patroni keeps one PostgreSQL primary in a cluster. Nodes agree through a small replicated store (the
DCS) holding a leader key that expires, a `/sync` key that names the synchronous standbys, and a few
others. This project models the parts of Patroni on which data safety rests, and the algorithms
around them whose results are easy to get wrong, and proves what they promise.

Protocols are step systems: a state, the guards of the program's own branches, the effect of each
single access to the DCS or to PostgreSQL, and lemmas about every run. Code that loops or assigns is
also written as methods, proved against functions about which the lemmas speak.

## The parts

**Synchronous hand-off** (`SyncProtocol`, `SyncInvariant`, `SyncTheorems`, `SyncNecessity`,
`SyncCycle`, `SyncStrict`, `SyncCandidates`). Any number of nodes run `process_sync_replication`, the gate of the
leader race, the claim of `/sync` and the promotion, one access at a time, interleaved with
PostgreSQL writing, streaming, acknowledging and stopping, and with the leader key expiring at any
moment. The memory of `SyncHandler` (names last seen, flush position noted, standbys known ready) is
part of the state, and so are two values of `synchronous_standby_names`: the one assigned last and the
one in force, which follows at any later moment, so that commits are acknowledged under the old names
in between. The environment is trusted for two things the program does not check, each a flag:

- *lease*: a node writes `/sync` only while it holds the leader key, and a candidate that takes the key
  is the first to do so since it passed the gate. The program reloads the cluster after taking the key
  and writes on the version it finds, without looking at the membership again; that an old primary
  does not write without its key is the job of the ttl and of the watchdog. That nobody wrote `/sync`
  between the gate and the claim is proved from this.
- *fenced*: a primary that is still running and takes a free leader key is still the leader in
  `/sync`. The program compares its timeline with the history, which the new primary may not have
  written yet; where the flag holds, that comparison is not needed for safety.

The gate admits every node that `/sync` names; the comparison of positions that narrows it further is
the subject of `LeaderRace`. With both facts, no run loses an acknowledged record; without either one
there is a run that does (`SafeExactlyWhenTrusted`). The model further takes it that the names assigned
last are in force when the standbys are queried (the method waits two seconds for that), that
PostgreSQL streams only to a standby whose WAL is a prefix of its own, and that synchronous mode stays
on and has been activated.

**Key-value store and leader lease** (`KvStore`, `LeaderLease`). The state machine behind the Raft
backend over an arbitrary log of commands, Raft itself given; the leader key's handover; the retry
loop that may submit one command several times; and the lease each node keeps locally.

**Failsafe mode and the leader race** (`Failsafe`, `LeaderRace`, `SyncState`). **The asynchronous
executor** (`AsyncExecutor`): threads, two locks and an event, in every interleaving.

**Algorithms**: the chunked stream decoder (`ChunkedDecoder`), cascading-replication queries
(`ReplicationSlots`), the topology tree (`Topology`, `TopologyFacts`), units (`Units`,
`UnitsReading`, `UnitsRoundTrip`), configuration paths (`ConfigPath`) and the retry loop (`Retry`). `Text` and
`Options` are shared helpers.

## Where the code and its documentation differ

- The docstring of `process_sync_replication` wants the names in force to be the set in `/sync`. What
  holds in every reachable state is inclusion: `/sync` lists no standby the primary does not wait for.
  The inclusion can be proper even when a cycle is over (`NamesMayExceedSync`: after a restart between
  the two writes, the next cycle finds nothing to change); `CycleEndsEqualIff` says when it is not.
- `slot_name_from_member_name` says it truncates to 64 characters; it keeps 63.
- `Retry` says `max_delay` caps the delay regardless of other settings; the first delay is not capped.
- `matches` and `members` promise set membership. A name with a comma or with blanks at an end does
  not survive being written and is never found; the empty name is dropped, which only `members` shows.
- The documentation of failsafe mode (`docs/dcs_failsafe_mode.rst:39`, `:59`) has a replica remember a
  ping for ttl seconds and stay out of the race. That holds exactly for a node that, when the ping comes, is not in a cycle in
  which its own lease runs, in which it counts itself as the leader, or which is still heading for
  the leader race (`PingedStandbyKeepsOutIff`).
- `docs/replication_modes.rst:41` promises that synchronous mode promotes no standby lacking an
  acknowledged transaction. The code keeps that promise exactly under the two trusted facts above.

## Model

| member | source | states |
|---|---|---|
| SyncTheorems.NoAcknowledgedCommitLost | solutions/patroni/patroni/ha.py:869-877 | in every reachable state every node that has claimed `/sync` or is being promoted, and every node that `/sync` lets through the gate, holds each record any primary ever acknowledged, under whichever names were in force then |
| SyncTheorems.PublishedAreWaitedFor | solutions/patroni/patroni/ha.py:704-761 | between any two accesses of any node the members in `/sync` under a running primary are among the names in force there and among those assigned last |
| SyncTheorems.CycleEndsEqualIff | solutions/patroni/patroni/ha.py:704-712 | a finished cycle of the leader leaves `/sync` and the assigned names equal exactly when the names already were those it picked, or when all it picked are or could be published |
| SyncTheorems.SupersededPrimaryIsMute | solutions/patroni/patroni/ha.py:713-761 | once another node claimed `/sync` and runs as primary, an older primary cannot get anything acknowledged, whatever its standbys do |
| SyncTheorems.HistoryKeepsOldPrimaryOut | solutions/patroni/patroni/ha.py:1145-1160 | once a new primary has written the history, a primary with fewer timeline switches in its WAL cannot take a free leader key back |
| SyncTheorems.GateIff | solutions/patroni/patroni/ha.py:1192-1200 | an idle standby may enter the race for a free key exactly when `/sync` names it, as leader or member |
| SyncTheorems.StepKeeps | solutions/patroni/patroni/ha.py:704-761 | each of the 25 steps keeps the invariant: a surviving WAL prefix held by the `/sync` leader and all members, a blocker in the way of every superseded primary, and the facts about each phase |
| SyncTheorems.RunKeeps | solutions/patroni/patroni/ha.py:704-761 | so does every run |
| SyncInvariant.ShrinkWins | solutions/patroni/patroni/ha.py:735-743 | a won write of the common members keeps the invariant before the names shrink |
| SyncInvariant.KeepsSetNames | solutions/patroni/patroni/ha.py:746-750 | assigning the names keeps it, since by then `/sync` lists only standbys in both sets; the old names stay in force |
| SyncInvariant.KeepsTakesNames | solutions/patroni/patroni/ha.py:748-753 | the assigned names coming into force, at whatever moment, keeps it |
| SyncInvariant.RepairWins | solutions/patroni/patroni/ha.py:726-733 | a won repair of `/sync` while the names stay keeps it |
| SyncInvariant.KeepsGrow | solutions/patroni/patroni/ha.py:754-761 | publishing further standbys after the names changed keeps it, whether the write is won or lost |
| SyncInvariant.KeepsClaim | solutions/patroni/patroni/ha.py:869-875 | a candidate's claim of `/sync` keeps it: every other running primary is blocked from then on |
| SyncInvariant.KeepsClearNames | solutions/patroni/patroni/ha.py:876-877 | clearing its own names after the claim and before the promotion keeps it |
| SyncInvariant.StaleAck | solutions/patroni/patroni/ha.py:713-761 | under the invariant a superseded primary's commits stay unconfirmed |
| SyncNecessity.SafeExactlyWhenTrusted | solutions/patroni/patroni/ha.py:1370-1392 | no reachable state is about to promote a node lacking an acknowledged record if and only if the environment is trusted for both lease and fencing |
| SyncNecessity.HandOffHappens | solutions/patroni/patroni/ha.py:1370-1392 | trusting the environment does not rule the hand-off out: a trusted run promotes the published standby and has its commits acknowledged |
| SyncNecessity.NamesMayExceedSync | solutions/patroni/patroni/ha.py:735-761 | a trusted run in which a cycle is over and the primary waits for a standby that is not in `/sync` |
| SyncNecessity.LosesWithoutLease | solutions/patroni/patroni/ha.py:1192-1202 | without the lease: a run in which a former primary still shrinks `/sync` while a gated node is racing, and commits alone before it is promoted over |
| SyncNecessity.LosesWithoutFencing | solutions/patroni/patroni/ha.py:1145-1160 | without fencing: a run in which a primary that was passed over takes the free key back and publishes a standby lacking the new commits |
| SyncCycle.Ha.ProcessSyncReplication | solutions/patroni/patroni/ha.py:713-761 | the method with its local variables and early returns leaves the world exactly as the phases of the step system do, with others acting before every access |
| SyncCycle.Ha.AssignNames | solutions/patroni/patroni/ha.py:746-761 | its last part: names first, then the second query, then the publishing write |
| SyncCycle.Ha.WriteSyncState | solutions/patroni/patroni/dcs/__init__.py:1875-1892 | writes under a new version when the version matches, and otherwise changes nothing and reports it |
| SyncCycle.Ha.QueryState | solutions/patroni/patroni/postgresql/sync.py:301-319 | a query first notices changed names and notes readiness; only listed, ready, chosen standbys may be promoted |
| SyncCycle.EffectIsStep | solutions/patroni/patroni/ha.py:713-761 | every access of the method is an enabled step of the step system with the same effect |
| SyncCycle.CycleIsARun | solutions/patroni/patroni/ha.py:713-761 | from any point of the method, finishing it leads from a reachable state to a reachable state, if under a trusted lease its writes are made with the leader key in hand or are refused |
| SyncCycle.CycleKeepsItsPromise | solutions/patroni/patroni/ha.py:704-712 | when the method is done, wherever it returned and whatever others did, `/sync` under this primary lists only standbys it waits for and every node `/sync` admits holds all acknowledged records |
| SyncStrict.StrictModeNeedsAStandby | solutions/patroni/patroni/ha.py:745-752 | in every run whose assignments at a node are strict, from the first of them being in force whatever it acknowledges is held by another node streaming from it |
| SyncStrict.StrictMethodNeedsAStandby | solutions/patroni/patroni/ha.py:735-761 | the same for the method in strict mode: it ends with names under which nothing is acknowledged without a standby |
| SyncStrict.AssignedNamesMean | solutions/patroni/patroni/ha.py:745-752 | with the assigned names in force a primary may acknowledge exactly what all picked standbys confirm; with nobody picked, in strict mode what somebody confirms, and otherwise everything |
| SyncStrict.ClearedNamesMean | solutions/patroni/patroni/ha.py:876-877 | the same for a newly promoted node, which has picked nobody |
| SyncStrict.UndisturbedCycle | solutions/patroni/patroni/ha.py:713-761 | a whole cycle that nobody disturbs: nothing changes if the picked are the published and all allowed; otherwise the primary waits for exactly the picked and `/sync` names exactly those last allowed, or if there are none the common ones |
| SyncStrict.AllowedMeans | solutions/patroni/patroni/postgresql/sync.py:271-321 | a standby may be promoted when chosen, in sync, listed, and either ready before or connected and in `/sync` or caught up |
| SyncCandidates.Scan | solutions/patroni/patroni/postgresql/sync.py:310-321 | the loop collects the near enough replicas and the synchronous ready ones among the first it looked at, and stops early only when the count is full |
| SyncCandidates.Choose | solutions/patroni/patroni/postgresql/sync.py:300-321 | the same over the replicas in order of preference |
| SyncCandidates.PreferredIsOrdered | solutions/patroni/patroni/postgresql/sync.py:217-218 | the order of preference is sorted by failover tag, sync state and position, and holds the same replicas |
| SyncCandidates.PassedOverFor | solutions/patroni/patroni/postgresql/sync.py:310-321 | an eligible standby is passed over only for names that have a connection at least as good |
| SyncCandidates.PassedOverMeans | solutions/patroni/patroni/postgresql/sync.py:310-321 | on tag, sync state, position and lag limit: every chosen name has a connection near enough that beats the one passed over in this order |
| SyncCandidates.SynchronousFirst | solutions/patroni/patroni/postgresql/sync.py:310-321 | a synchronous standby that may fail over and is near enough is not passed over for one that is not all of this |
| SyncCandidates.ChoiceIsAllowed | solutions/patroni/patroni/postgresql/sync.py:313-319 | given that only listed standbys report sync, those that may be promoted are chosen, in sync, listed and ready, and with one connection for each name they are all of those |
| KvStore.KVStoreTTL.Apply | solutions/patroni/patroni/dcs/raft.py:178-254 | applying a command reports and stores what the command functions say and advances the log position |
| KvStore.KVStoreTTL.DoSet | solutions/patroni/patroni/dcs/raft.py:178-191 | guarded set: refused without effect, or stored under the log position with its creation stamp kept or restarted |
| KvStore.KVStoreTTL.DoDelete | solutions/patroni/patroni/dcs/raft.py:215-225 | guarded delete, including the raising case |
| KvStore.KVStoreTTL.DoDeleteTree | solutions/patroni/patroni/dcs/raft.py:217-220 | recursive delete removes exactly the keys with the prefix |
| KvStore.KVStoreTTL.DoExpire | solutions/patroni/patroni/dcs/raft.py:235-243 | expiry removes the key only while its value is the one that was seen |
| KvStore.EntryUntouchedSince | solutions/patroni/patroni/dcs/raft.py:178-191 | an entry's index names the log entry that wrote it, and nothing touched the key since |
| KvStore.IndexNamesTheVersion | solutions/patroni/patroni/dcs/raft.py:184-191 | indexes grow along the log, and an equal index means the same, continuously present version |
| KvStore.ConditionalWriteIsAtomic | solutions/patroni/patroni/dcs/raft.py:142-146 | a successful `prevIndex` write overwrote exactly the version that was read, with no write or delete and recreate between |
| KvStore.OneCopySucceeds | solutions/patroni/patroni/dcs/raft.py:151-176 | however often one conditional write is submitted, at most one copy succeeds |
| KvStore.ValueGuardIff | solutions/patroni/patroni/dcs/raft.py:142-146 | a `prevValue` write or delete goes through exactly when the key is there with that value, and otherwise changes nothing |
| KvStore.PresenceGuardIff | solutions/patroni/patroni/dcs/raft.py:142-146 | a `prevExist` write goes through exactly when the key is, or is not, there |
| KvStore.IndexGuardIff | solutions/patroni/patroni/dcs/raft.py:142-146 | a `prevIndex` write or delete goes through exactly when nothing touched the key since the read |
| KvStore.GuardsCombine | solutions/patroni/patroni/dcs/raft.py:142-146 | several guards refuse exactly when one of them alone does |
| KvStore.StoredLeaves | solutions/patroni/patroni/dcs/raft.py:178-191 | what a stored write leaves: value, stamps, index, and every other key as it was |
| KvStore.DeletedLeaves | solutions/patroni/patroni/dcs/raft.py:215-225 | a delete leaves the key absent and every other key as it was |
| KvStore.OthersLeave | solutions/patroni/patroni/dcs/raft.py:235-243 | expiry removes the key exactly when value and stamps are those seen, recursive deletion exactly the keys with the prefix |
| LeaderLease.Retry | solutions/patroni/patroni/dcs/raft.py:151-176 | the loop computes the result of its rounds and ends: at most timeout + 2 copies, every earlier answer was unusable, it is over within timeout + 1, and a timeout comes not before the deadline |
| LeaderLease.TryingEnds | solutions/patroni/patroni/dcs/raft.py:164-175 | the same bounds from any round on, and the last round carries the answer |
| LeaderLease.StepHandover | solutions/patroni/patroni/dcs/raft.py:420-429 | no single log entry moves the leader key from one name to another |
| LeaderLease.LeaderWriteIff | solutions/patroni/patroni/dcs/raft.py:420-448 | acquiring succeeds exactly when nobody holds the key, renewing and releasing exactly for the holder; then the node holds it until one ttl after the stamp, or nobody does |
| LeaderLease.HandoverThroughAbsence | solutions/patroni/patroni/dcs/raft.py:420-448 | the key leaves a holder only by its own release or by an expiry, at or after its stamp, of exactly the value removed |
| LeaderLease.RenewalSurvivesExpiry | solutions/patroni/patroni/dcs/raft.py:235-254 | an expiry applied after a renewal does not remove the renewed entry |
| LeaderLease.AcquireLock | solutions/patroni/patroni/ha.py:259-268 | stamp, retry loop and local lease together, callbacks being truthful: the node becomes leader, for one ttl from the answer and within retry_timeout + 1 of its stamp, exactly when the answering copy took the free key; a refusal, a denial and a leader in sight end its lease, a timeout leaves it |
| LeaderLease.WonIff | solutions/patroni/patroni/dcs/raft.py:427-429 | an attempt is won exactly when the answering copy found the key free, which then was stored for this node; it raises exactly when time ran out |
| LeaderLease.WonIsGranted | solutions/patroni/patroni/dcs/raft.py:193-204 | an attempt that took the key is a grant whose delay the retry loop bounds |
| LeaderLease.StampsGrow | solutions/patroni/patroni/dcs/raft.py:193-204 | while one writer keeps the key its expiry stamp never drops below that of an earlier write |
| LeaderLease.SecondWriterWaits | solutions/patroni/patroni/dcs/raft.py:420-429 | a successful write by another node comes after the first node's key was vacated |
| LeaderLease.LeasesOverlapAtMostDelay | solutions/patroni/patroni/ha.py:208-222 | unless the first node released the key, its lease outlasts the start of the second by at most the delay between stamping a write and trusting it |
| LeaderLease.RaftLeasesOverlap | solutions/patroni/patroni/ha.py:259-268 | of two attempts of different nodes that took the key and do not release it, one lease ends at most retry_timeout + 1 after the other begins |
| LeaderLease.RefusedYetStored | solutions/patroni/patroni/dcs/raft.py:427-429 | a log in which the caller is told no while it holds the key |
| Failsafe.Ha.UpdateFailsafe | solutions/patroni/patroni/ha.py:915-918 | the answer to a ping takes the node to the state of that event; refused exactly by a running primary |
| Failsafe.Ha.LoadClusterFromDcs | solutions/patroni/patroni/ha.py:242-257 | the loading assignments give the view, enriched by a ping in force, and end a lease the view does not confirm |
| Failsafe.LoadShows | solutions/patroni/patroni/ha.py:121-128 | the view is the DCS's, or has the pinging leader and its slots put in, with everything else kept |
| Failsafe.Ha.AcquireLock | solutions/patroni/patroni/ha.py:259-268 | leader for one ttl after a win, not at all after a loss |
| Failsafe.Ha.UpdateLock | solutions/patroni/patroni/ha.py:277-316 | the same for an update of the lock |
| Failsafe.Ha.HandleDcsError | solutions/patroni/patroni/ha.py:1933-1946 | composed with the topology check: in failsafe mode, part of the topology and with every other node of it accepting the primary is leader for one ttl from now and its failsafe state active; otherwise it gains no time, the state is reset and it is to be demoted |
| Failsafe.PrimaryGoesOnIff | solutions/patroni/patroni/ha.py:1933-1946 | while the DCS fails a primary is leader after its old lease exactly when its last check found every other node that may race accepting, and until that check is one ttl old |
| Failsafe.AgreementKeepsOthersOut | solutions/patroni/patroni/ha.py:114-128 | within that time a standby that accepted the ping does not open the race on loading |
| Failsafe.Ha.FinishCycle | solutions/patroni/patroni/ha.py:1927-1931 | the end of a cycle resets the failsafe state exactly when the DCS answered and the lease runs |
| Failsafe.CheckFailsafeTopology | solutions/patroni/patroni/ha.py:933-978 | a primary goes on exactly when it is in the topology and every other node that could enter the race accepted its ping |
| Failsafe.LoadOpensRaceIff | solutions/patroni/patroni/ha.py:242-257 | a fresh cluster view lets the node race exactly when the DCS shows no named leader and, in failsafe mode, no ping of a named leader is younger than ttl |
| Failsafe.DeferringStep | solutions/patroni/patroni/ha.py:114-128 | every event keeps a pinged standby deferring, and an acquisition belongs to a cycle loaded after the window |
| Failsafe.AcceptedPingDefers | solutions/patroni/patroni/ha.py:98-104 | a ping accepted by a receptive node starts the window |
| Failsafe.PingedStandbyKeepsOutIff | solutions/patroni/patroni/ha.py:242-257 | after a ping accepted at t no possible run reaches `acquire_lock` in a cycle loaded in [t, t + ttl), exactly when at the ping the node is in no cycle, or in one without a running lease, without itself as leader and not heading for the race |
| Failsafe.DeferringNeverRaces | solutions/patroni/patroni/ha.py:242-257 | a deferring node reaches `acquire_lock` in no such cycle, whatever happens |
| Failsafe.UnreceptiveRaces | solutions/patroni/patroni/ha.py:1370-1375 | for every node failing the condition, a possible run that does |
| Failsafe.LeaseHolderForgetsPing | solutions/patroni/patroni/ha.py:1927-1931 | any node whose lease runs at the end of a cycle forgets the ping and may acquire in the next cycle, inside the window |
| LeaderRace.IsHealthiestNode | solutions/patroni/patroni/ha.py:990-1032 | the loop with early returns answers yes exactly when lag and timeline are fine and no status disqualifies the node |
| LeaderRace.WinnersAreMaxima | solutions/patroni/patroni/ha.py:1012-1032 | without synchronous mode a node passes exactly when no other eligible node runs as primary and none of the eligible ones outranks it by WAL position and failover priority; members that may not fail over do not count |
| LeaderRace.SomebodyPasses | solutions/patroni/patroni/ha.py:1012-1032 | when some node may fail over and those that may are in recovery, one of them passes, in synchronous mode too |
| LeaderRace.SyncWinnerIsBehindNobodyElse | solutions/patroni/patroni/ha.py:1016-1022 | a passing node is behind nobody but the former leader, and two passing nodes other than it are level |
| LeaderRace.PriorityOfEligible | solutions/patroni/patroni/tags.py:55-79 | a node with a non-positive priority takes part only by saying `nofailover: false` |
| LeaderRace.LimitedMeans | solutions/patroni/patroni/ha.py:80-88 | whose answer does not count, in terms of reachability, watchdog and tags |
| LeaderRace.KeepsOutIff | solutions/patroni/patroni/ha.py:1012-1031 | when a member keeps a node from passing, on its WAL position, recovery state, configured priority and the leader named in `/sync` |
| LeaderRace.PriorityDecides | solutions/patroni/patroni/ha.py:1023-1031 | of two eligible nodes at one position the one with the smaller configured priority, one being the default, never passes; two alone with equal tags both do |
| SyncState.RoundTripIff | solutions/patroni/patroni/dcs/__init__.py:1864-1892 | writing a set of names and reading the members back gives the same set exactly when every name is non-empty, without comma and without blanks at its ends |
| SyncState.ReadBack | solutions/patroni/patroni/dcs/__init__.py:610-623 | clean names come back in sorted order |
| SyncState.SortedInOrder | solutions/patroni/patroni/dcs/__init__.py:1864-1873 | the names are written in alphabetical order |
| SyncState.LeaderMatchesIff | solutions/patroni/patroni/dcs/__init__.py:667-672 | `leader_matches` is equality with the written leader but for case |
| SyncState.MatchesIsMembershipIff | solutions/patroni/patroni/dcs/__init__.py:625-665 | `matches` is case-insensitive membership for every name, with the leader included on request, exactly when the names searched are clean, empty ones aside |
| SyncState.UncleanNeverMatches | solutions/patroni/patroni/dcs/__init__.py:625-665 | a name with a comma or with blanks at an end is never found |
| AsyncExecutor.StepKeeps | solutions/patroni/patroni/async_executor.py:108-177 | every statement of every thread keeps the locking invariant |
| AsyncExecutor.AtMostOneExecutes | solutions/patroni/patroni/async_executor.py:108-177 | in every interleaving at most one task function executes |
| AsyncExecutor.EntersWithFreshCriticalTask | solutions/patroni/patroni/async_executor.py:157-177 | when a run enters, the critical task has no result, and is cancelled only if the HA loop cancelled it for this very run |
| AsyncExecutor.WithoutCancelEntersReset | solutions/patroni/patroni/async_executor.py:171-175 | without such a cancellation it is in its reset state |
| AsyncExecutor.ExecutingHoldsFinishEventDown | solutions/patroni/patroni/async_executor.py:157-164 | while a task executes the finish event is down |
| AsyncExecutor.ScheduleIff | solutions/patroni/patroni/async_executor.py:108-127 | scheduling succeeds exactly when no action is scheduled, and otherwise changes nothing |
| AsyncExecutor.ScheduledCanRun | solutions/patroni/patroni/async_executor.py:144-177 | in every reachable state a scheduled job that has not executed can still come to execute |
| AsyncExecutor.ReadyExecutes | solutions/patroni/patroni/async_executor.py:157-164 | a ready job executes with the finish event down once the thread lock is free |
| AsyncExecutor.ExecutingCleansUp | solutions/patroni/patroni/async_executor.py:170-177 | a finished job leaves no action, a reset critical task and the finish event up |
| AsyncExecutor.CompletionIff | solutions/patroni/patroni/async_executor.py:47-66 | a completion counts exactly without a cancellation before it, a cancellation exactly without a result |
| AsyncExecutor.NeverCompletedAndCancelled | solutions/patroni/patroni/async_executor.py:47-66 | the critical task is never both |
| ChunkedDecoder.IterResponseObjects | solutions/patroni/patroni/utils.py:889-910 | for any chunking the documents are those of the whole text |
| ChunkedDecoder.DrainChunk | solutions/patroni/patroni/utils.py:895-910 | one chunk yields its documents up to the first failure and keeps the rest |
| ChunkedDecoder.ParseConcat | solutions/patroni/patroni/utils.py:889-910 | parsing what was left of a text followed by more text continues the parse of the whole |
| ChunkedDecoder.DocumentsComeOut | solutions/patroni/patroni/utils.py:895-910 | a text of documents with blanks before, between and behind them gives exactly these documents, up to whatever cannot be read |
| ReplicationSlots.SlotName | solutions/patroni/patroni/dcs/__init__.py:35-54 | a slot name has at most 63 characters, all acceptable to PostgreSQL, and is empty only for an empty name |
| ReplicationSlots.SlotNameIsStable | solutions/patroni/patroni/dcs/__init__.py:35-54 | a slot name is its own slot name |
| ReplicationSlots.SlotNameConcat | solutions/patroni/patroni/dcs/__init__.py:53-54 | a name is translated character by character and cut at 63 |
| ReplicationSlots.SlotNameOfCharacter | solutions/patroni/patroni/dcs/__init__.py:49-54 | what a character becomes: itself or its lower case, an underscore for dash and dot, else u and at least four digits of its code |
| ReplicationSlots.SlotOfTop | solutions/patroni/patroni/dcs/__init__.py:1186-1204 | the slot on the primary is that of the node at the top of the chain, or none when streaming is off anywhere on it |
| ReplicationSlots.SlotIsKeptIff | solutions/patroni/patroni/dcs/__init__.py:1091-1107 | the primary keeps that slot, exactly unless the chain ends at the primary itself when slot names do not collide |
| ReplicationSlots.KeepsSlotIff | solutions/patroni/patroni/dcs/__init__.py:1091-1107 | which slots a node keeps, on a replica and on a primary or standby leader, in terms of the members' tags |
| ReplicationSlots.SourceKeepsSlot | solutions/patroni/patroni/dcs/__init__.py:1100-1107 | the replica that a member streams from keeps its slot |
| ReplicationSlots.FeedbackIff | solutions/patroni/patroni/dcs/__init__.py:1164-1184 | feedback is enforced exactly when the node, or with slots some node reached through non-leaders, has permanent logical slots |
| ReplicationSlots.FeedbackOneHop | solutions/patroni/patroni/dcs/__init__.py:1176-1184 | one non-leader fed directly that has permanent logical slots is enough; without own slots and without such members there is no feedback |
| Topology.TopologySort | solutions/patroni/patroni/ctl.py:1462-1489 | the dictionary-filling loop and the recursion below it produce the tree's rows |
| Topology.Generate | solutions/patroni/patroni/ctl.py:1416-1459 | one member and everything below it, ending because no path repeats a name |
| TopologyFacts.OutputIsTheTree | solutions/patroni/patroni/ctl.py:1480-1489 | the output holds the leader and each replica whose chain reaches it exactly once, indented by depth, and nobody else |
| TopologyFacts.OutputParentsFirst | solutions/patroni/patroni/ctl.py:1450-1459 | every row's parent is the last earlier row one level out, which is how the indentation reads |
| TopologyFacts.OutputKeepsOrder | solutions/patroni/patroni/ctl.py:1480-1489 | members attached to the same node come out in the order in which they were listed |
| TopologyFacts.ParentMeans | solutions/patroni/patroni/ctl.py:1482-1487 | a replica hangs below the other replica it is told to replicate from, else below the leader |
| TopologyFacts.LabelLooks | solutions/patroni/patroni/ctl.py:1452-1453 | the indentation of a row |
| TopologyFacts.LeftOutIff | solutions/patroni/patroni/ctl.py:1480-1489 | a replica is left out exactly when it is on or below a cycle of `replicatefrom` |
| Units.ConvertIntFromBaseUnit | solutions/patroni/patroni/utils.py:323-364 | the search loop prints in the first unit of the table that fits exactly |
| Units.ConversionIsNear | solutions/patroni/patroni/utils.py:308-320 | the unit-rounding step moves a converted value by at most half the next smaller unit, and not at all in the smallest |
| Units.ReadsBack | solutions/patroni/patroni/utils.py:189-240 | an integer printed in front of a unit name is read as that integer and that name |
| UnitsReading.UnitlessReads | solutions/patroni/patroni/utils.py:510-516 | a number without a unit is itself, with blanks around it or not |
| UnitsReading.OddUnits | solutions/patroni/patroni/utils.py:518-521 | an unknown unit gives nothing, a base unit scaled by zero cannot be divided by |
| UnitsReading.FractionsReadBy | solutions/patroni/patroni/utils.py:510-516 | fractions and exponents are left to `strtod` and rounded |
| UnitsReading.HexReads | solutions/patroni/patroni/utils.py:189-240 | hexadecimal digits after 0x are read up to the first other character |
| UnitsReading.OctalReads | solutions/patroni/patroni/utils.py:189-240 | octal digits after a 0 likewise |
| UnitsReading.MemoryRatios | solutions/patroni/patroni/utils.py:60-66 | each memory unit is 1024 of the next smaller one |
| UnitsReading.TimeRatios | solutions/patroni/patroni/utils.py:67-74 | days, hours, minutes and so on in their ratios |
| UnitsReading.TieGoesToEven | solutions/patroni/patroni/utils.py:308-320 | an exact half is rounded to the even neighbour |
| UnitsRoundTrip.PlainRoundTrip | solutions/patroni/patroni/utils.py:510-521 | for every integer and every plain base unit, parsing the printed text gives the integer back |
| UnitsRoundTrip.ScaledRoundTripIff | solutions/patroni/patroni/utils.py:355-364 | for a scaled base unit exactly when the unit below the printed one divides the value (or is a fraction, or does not exist) |
| UnitsRoundTrip.GigabyteIsLost | solutions/patroni/patroni/utils.py:308-320 | 64 units of 16384kB print as 1GB and read back as 0 |
| ConfigPath.SetPathValue | solutions/patroni/patroni/ctl.py:1965-1995 | the recursive edit with its prefix is plain assignment at the effective path, everything below `postgresql.parameters` being one key |
| ConfigPath.ApplyConfigChanges | solutions/patroni/patroni/ctl.py:1997-2003 | the loop over the pairs applies them in order and stops at the first bad one |
| ConfigPath.WriteIsReadable | solutions/patroni/patroni/ctl.py:1983-1988 | a written value is found at its path |
| ConfigPath.RemovalRemoves | solutions/patroni/patroni/ctl.py:1985-1995 | after a removal nothing is at the path and no dictionary on the way is empty |
| ConfigPath.RemovalIsNoOpIff | solutions/patroni/patroni/ctl.py:1990-1995 | a removal changes nothing exactly when nothing is there and no scalar or empty dictionary stands on the way |
| ConfigPath.WriteThenRemoveIff | solutions/patroni/patroni/ctl.py:1985-1995 | removing a value just written restores the configuration under exactly the same condition |
| ConfigPath.LastChangeWins | solutions/patroni/patroni/ctl.py:1985-1995 | of two changes to one path only the second counts |
| ConfigPath.OthersKeep | solutions/patroni/patroni/ctl.py:1965-1995 | every path neither above nor below keeps its value |
| ConfigPath.AppliedIff | solutions/patroni/patroni/ctl.py:1997-2001 | the list goes through exactly when every pair has an equals sign and a loadable value |
| ConfigPath.UnnamedPathsKeep | solutions/patroni/patroni/ctl.py:1997-2001 | a path apart from all named ones keeps its value through the whole list |
| ConfigPath.LastNamedStands | solutions/patroni/patroni/ctl.py:1997-2001 | the last change named for a path is what is found there in the end |
| ConfigPath.ParameterIsOneKey | solutions/patroni/patroni/ctl.py:1977-1979 | a server parameter with any dots in its name is one key below `postgresql.parameters` |
| ConfigPath.DottedKeyIsItsPath | solutions/patroni/patroni/ctl.py:1997-2001 | the dotted names of any other setting are its path, one level each |
| ConfigPath.DottedSettingIsFound | solutions/patroni/patroni/ctl.py:1965-2001 | such a setting is found at exactly its path |
| ConfigPath.KeyBlanksIgnored | solutions/patroni/patroni/ctl.py:2000-2001 | blanks around the key make no difference |
| ConfigPath.FirstBadIsReported | solutions/patroni/patroni/ctl.py:1997-2001 | the first bad pair is the one reported |
| Retry.Retrier.Invoke | solutions/patroni/patroni/utils.py:736-779 | the loop makes the calls of its trace and leaves attempts, delay and stop time accordingly |
| Retry.Retrier.Handle | solutions/patroni/patroni/utils.py:762-779 | what it does about one call: return, give up, or sleep and back off |
| Retry.RetriesStartInTime | solutions/patroni/patroni/utils.py:774-779 | every retried call starts strictly before the deadline |
| Retry.RunExplains | solutions/patroni/patroni/utils.py:757-779 | call by call: each but the last failed, had tries left and a wake time before the deadline, and the next starts then; the last one decides which of the endings it is |
| Retry.CallsAreBounded | solutions/patroni/patroni/utils.py:765-768 | at most max_tries + 1 calls, and exactly that many before giving up |
| Retry.DeadlineEndsTheLoop | solutions/patroni/patroni/utils.py:757-779 | with a deadline, a positive delay and no sleep time brought by exceptions the loop ends even with unlimited tries, within deadline / least delay calls |
| Retry.NothingElseEndsIt | solutions/patroni/patroni/utils.py:757-779 | without deadline and limit a failing call is repeated for ever |
| Retry.DelayIsGeometricIff | solutions/patroni/patroni/utils.py:703-711 | the delay after k retries is min(delay * backoff^k, max_delay) for all k exactly when delay <= max_delay |
| Retry.DelayAboveCap | solutions/patroni/patroni/utils.py:703-711 | a first delay above the cap is used once, then the cap |

## Left out

- Disabling synchronous mode (`ha.py:762-765`), pause, manual failover without a leader, and the first activation of an empty `/sync` key: the hand-off is modelled with the mode on and activated.
- SyncTheorems.NoAcknowledgedCommitLost: holds under the two trusted facts and not without them; `SyncNecessity.SafeExactlyWhenTrusted` shows that neither can be dropped.
- SyncCycle.CycleKeepsItsPromise: others may not change this node's own memory or role during the method, except that assigned names come into force; a primary stopped in the middle is covered by the step system only.
- SyncCycle.Ha.AssignNames: is part of one method in the source, split off here; the wait before the second query is an access by the end of which the names are in force.
- SyncCandidates.Choose: takes the list of connections after members that are not running or tagged `nosync` were dropped; the two stable sorts of the source are one sort by the combined key.
- LeaderLease.RaftLeasesOverlap: leaves out a holder that releases the key itself, as the shutdown path does without ending its lease first; statements take no time besides waiting and sleeping; the fallback of `_update_leader` to acquiring counts as acquiring.
- LeaderLease.HandoverThroughAbsence: logs with `take_leader` or recursive deletion of the leader key are excluded, as both overwrite any holder by design.
- Failsafe.PingedStandbyKeepsOutIff: a run is possible while failsafe mode stays on, pings come from other nodes, PostgreSQL here stays a replica and the DCS does not name this node as leader.
- Failsafe.PrimaryGoesOnIff: between the check and the moment asked about the DCS keeps failing, so nothing is loaded and no lock is won or updated; the demotion that follows a refused check is a step of its own and ends the lease when PostgreSQL has stopped.
- AsyncExecutor.AtMostOneExecutes: `AsyncExecutor.cancel` is not a step; mixed with new scheduling it does not preserve mutual exclusion.
- ReplicationSlots.FeedbackIff: a cyclic `replicatefrom` graph is excluded, as the recursion of the source does not end on one; the same holds for ReplicationSlots.SlotOfTop.
- TopologyFacts.OutputIsTheTree: members have distinct non-empty names and at most one is a leader.
- ChunkedDecoder.IterResponseObjects: the decoder of one document is a parameter that makes progress and whose successes do not depend on later text; characters split across chunks by the byte encoding are not modelled.
- Units.ConvertIntFromBaseUnit: quotients are exact rationals, so rounding of floating-point numbers is not modelled; in `parse_int` the reader of fractional numbers (`strtod`) is a parameter.
- ConfigPath.SetPathValue: edits values, so dictionaries shared inside the configuration are not modelled; YAML loading is a parameter and formatting the result is left out.
- Retry.Retrier.Invoke: sleeps are ideal and the environment is a finite list of calls; jitter is drawn by the environment; the handling of one call is a method of its own.
- Strings are ASCII: lower-casing and blanks are those of ASCII text.
- A `/sync` write without a version, which the Raft backend performs unconditionally, does not occur in the modelled branches.
- Removal of expired keys in finite time: the Raft leader's proposals may be suppressed, so only what an expiry does is claimed.
- HTTP API, command-line prompts, logging, configuration files, validators, watchdog device, bootstrap, rewind, callbacks and the other backends: input and output, or long lists of easy cases.
