/**
 The replicated key-value store with expiring keys behind the Raft backend. Raft itself is taken
 as given: it hands every node the same log, and entry number k is applied when k entries have
 been applied before it.
 */
module KvStore {
  import opened Options

  /** What a writer submits: the value and its time stamps. */
  datatype Data = Data(value: string, updated: real, created: real, expire: Option<real>)

  /** What the store keeps: the index is the number of the log entry that wrote it. */
  datatype Entry = Entry(data: Data, index: nat)

  /** prevExist, prevValue and prevIndex, each optional. */
  datatype Guard = Guard(prevExist: Option<bool>, prevValue: Option<string>, prevIndex: Option<nat>)

  datatype Command =
    | Set(key: string, data: Data, guard: Guard)
    | Delete(key: string, guard: Guard)
    | DeleteTree(prefix: string)
    | Expire(key: string, seen: Entry)

  /** What applying a command reports; KeyError is the exception of popping an absent key. */
  datatype Outcome = Stored(entry: Entry) | Done | Refused | KeyError

  type Store = map<string, Entry>

  function Lookup(store: Store, key: string): Option<Entry> {
    if key in store then Some(store[key]) else None
  }

  predicate Meets(was: Option<Entry>, guard: Guard) {
    && (guard.prevExist == None || guard.prevExist.value == was.Some?)
    && (guard.prevValue == None || (was.Some? && was.value.data.value == guard.prevValue.value))
    && (guard.prevIndex == None || (was.Some? && was.value.index == guard.prevIndex.value))
  }

  /** The index takes no part in the comparison. */
  predicate ValuesMatch(was: Entry, latest: Entry) {
    was.data == latest.data
  }

  /** The entry a successful set leaves behind: rewriting a key that was created at another time
      restarts its creation stamp. */
  function NewEntry(was: Option<Entry>, data: Data, applied: nat): Entry {
    var created := if was.Some? && was.value.data.created != data.created then data.updated else data.created;
    Entry(data.(created := created), applied + 1)
  }

  function Report(store: Store, applied: nat, cmd: Command): Outcome {
    match cmd
    case Set(key, data, guard) =>
      if Meets(Lookup(store, key), guard) then Stored(NewEntry(Lookup(store, key), data, applied)) else Refused
    case Delete(key, guard) =>
      if !Meets(Lookup(store, key), guard) then Refused else if key in store then Done else KeyError
    case DeleteTree(prefix) => Done
    case Expire(key, seen) => Done
  }

  function Next(store: Store, applied: nat, cmd: Command): Store {
    match cmd
    case Set(key, data, guard) =>
      if Meets(Lookup(store, key), guard) then store[key := NewEntry(Lookup(store, key), data, applied)] else store
    case Delete(key, guard) => if Meets(Lookup(store, key), guard) then store - {key} else store
    case DeleteTree(prefix) => map k | k in store && !(prefix <= k) :: store[k]
    case Expire(key, seen) => if key in store && ValuesMatch(store[key], seen) then store - {key} else store
  }

  /** The state machine as every node runs it. */
  class KVStoreTTL {
    var data: Store
    var lastApplied: nat

    constructor ()
      ensures data == map[] && lastApplied == 0
    {
      data, lastApplied := map[], 0;
    }

    method Apply(cmd: Command) returns (outcome: Outcome)
      modifies this
      ensures outcome == Report(old(data), old(lastApplied), cmd)
      ensures data == Next(old(data), old(lastApplied), cmd)
      ensures lastApplied == old(lastApplied) + 1
    {
      match cmd {
        case Set(key, value, guard) => outcome := DoSet(key, value, guard);
        case Delete(key, guard) => outcome := DoDelete(key, guard);
        case DeleteTree(prefix) => outcome := DoDeleteTree(prefix);
        case Expire(key, seen) => outcome := DoExpire(key, seen);
      }
      lastApplied := lastApplied + 1;
    }

    method DoSet(key: string, value: Data, guard: Guard) returns (outcome: Outcome)
      modifies this`data
      ensures outcome == Report(old(data), lastApplied, Set(key, value, guard))
      ensures data == Next(old(data), lastApplied, Set(key, value, guard))
    {
      var old_value := Lookup(data, key);
      if !Meets(old_value, guard) {
        return Refused;
      }
      var entry := Entry(value, lastApplied + 1);
      if old_value.Some? && old_value.value.data.created != value.created {
        entry := entry.(data := value.(created := value.updated));
      }
      data := data[key := entry];
      return Stored(entry);
    }

    /** `__pop`: removing an absent key raises and changes nothing. */
    method Pop(key: string) returns (outcome: Outcome)
      modifies this`data
      ensures outcome == if key in old(data) then Done else KeyError
      ensures data == old(data) - {key}
    {
      if key !in data {
        return KeyError;
      }
      data := data - {key};
      return Done;
    }

    method DoDelete(key: string, guard: Guard) returns (outcome: Outcome)
      modifies this`data
      ensures outcome == Report(old(data), lastApplied, Delete(key, guard))
      ensures data == Next(old(data), lastApplied, Delete(key, guard))
    {
      if !Meets(Lookup(data, key), guard) {
        return Refused;
      }
      outcome := Pop(key);
    }

    method DoDeleteTree(prefix: string) returns (outcome: Outcome)
      modifies this`data
      ensures outcome == Done
      ensures data == Next(old(data), lastApplied, DeleteTree(prefix))
    {
      var keys := data.Keys;
      while keys != {}
        invariant keys <= data.Keys
        invariant data.Keys == set k | k in old(data) && (k in keys || !(prefix <= k))
        invariant forall k <- data :: data[k] == old(data)[k]
        decreases keys
      {
        var k :| k in keys;
        keys := keys - {k};
        if prefix <= k {
          var _ := Pop(k);
        }
      }
      return Done;
    }

    method DoExpire(key: string, seen: Entry) returns (outcome: Outcome)
      modifies this`data
      ensures outcome == Done
      ensures data == Next(old(data), lastApplied, Expire(key, seen))
    {
      if key in data && ValuesMatch(data[key], seen) {
        outcome := Pop(key);
      } else {
        outcome := Done;
      }
    }
  }

  // ---------------------------------------------------------------- logs

  /** The store after the whole log. */
  function Replay(log: seq<Command>): Store {
    if log == [] then map[] else Next(Replay(log[..|log| - 1]), |log| - 1, log[|log| - 1])
  }

  /** The store just before entry k was applied, and what entry k reported. */
  function Before(log: seq<Command>, k: nat): Store
    requires k <= |log|
  {
    Replay(log[..k])
  }

  function OutcomeAt(log: seq<Command>, k: nat): Outcome
    requires k < |log|
  {
    Report(Before(log, k), k, log[k])
  }

  lemma BeforeStep(log: seq<Command>, k: nat)
    requires k < |log|
    ensures Before(log, k + 1) == Next(Before(log, k), k, log[k])
  {
    assert log[..k + 1][..k] == log[..k];
  }

  /** Indexes are log positions, so they grow strictly along the log; and an entry found at k has
      stood there, untouched, ever since the log entry whose number is its index. */
  lemma {:induction false} EntryUntouchedSince(log: seq<Command>, key: string, k: nat)
    requires k <= |log| && key in Before(log, k)
    ensures
      var i := Before(log, k)[key].index;
      && 1 <= i <= k
      && log[i - 1].Set? && log[i - 1].key == key && OutcomeAt(log, i - 1) == Stored(Before(log, k)[key])
      && forall j :: i <= j <= k ==> Lookup(Before(log, j), key) == Lookup(Before(log, k), key)
    decreases k
  {
    BeforeStep(log, k - 1);
    var last := log[k - 1];
    if last.Set? && last.key == key && OutcomeAt(log, k - 1).Stored? {
    } else {
      assert Lookup(Before(log, k - 1), key) == Lookup(Before(log, k), key);
      EntryUntouchedSince(log, key, k - 1);
    }
  }

  /** Two versions of a key written at different times never carry the same index. */
  lemma IndexNamesTheVersion(log: seq<Command>, key: string, j: nat, k: nat)
    requires j <= k <= |log| && key in Before(log, j) && key in Before(log, k)
    ensures Before(log, j)[key].index <= Before(log, k)[key].index
    ensures Before(log, j)[key].index == Before(log, k)[key].index ==>
      forall m :: j <= m <= k ==> Lookup(Before(log, m), key) == Lookup(Before(log, j), key)
  {
    EntryUntouchedSince(log, key, k);
    EntryUntouchedSince(log, key, j);
  }

  /** A write conditional on prevIndex that reports success overwrote exactly the version the
      writer had read: from the read until the write nobody wrote, deleted or recreated the key. */
  lemma ConditionalWriteIsAtomic(log: seq<Command>, key: string, read: nat, k: nat)
    requires read <= k < |log| && key in Before(log, read)
    requires log[k].Set? && log[k].key == key && log[k].guard.prevIndex == Some(Before(log, read)[key].index)
    requires OutcomeAt(log, k).Stored?
    ensures forall m :: read <= m <= k ==> Lookup(Before(log, m), key) == Lookup(Before(log, read), key)
  {
    IndexNamesTheVersion(log, key, read, k);
  }

  /** However often `retry` submits one conditional write, at most one copy succeeds. */
  lemma OneCopySucceeds(log: seq<Command>, key: string, index: nat, j: nat, k: nat)
    requires j < k < |log|
    requires log[j].Set? && log[j].key == key && log[j].guard.prevIndex == Some(index)
    requires log[k].Set? && log[k].key == key && log[k].guard.prevIndex == Some(index)
    ensures !(OutcomeAt(log, j).Stored? && OutcomeAt(log, k).Stored?)
  {
    if OutcomeAt(log, j).Stored? && OutcomeAt(log, k).Stored? {
      BeforeStep(log, j);
      EntryUntouchedSince(log, key, j);
      EntryUntouchedSince(log, key, k);
    }
  }

  // ---------------------------------------------------------------- when a write goes through

  predicate Writes(cmd: Command) {
    cmd.Set? || cmd.Delete?
  }

  /** The command was carried out: the value stored, or the key removed. */
  predicate Carried(log: seq<Command>, k: nat)
    requires k < |log|
  {
    OutcomeAt(log, k).Stored? || OutcomeAt(log, k).Done?
  }

  /** A write conditional on the value goes through exactly when the key is there with that value. */
  lemma ValueGuardIff(log: seq<Command>, k: nat, value: string)
    requires k < |log| && Writes(log[k]) && log[k].guard == Guard(None, Some(value), None)
    ensures
      var key, before := log[k].key, Before(log, k);
      Carried(log, k) <==> key in before && before[key].data.value == value
    ensures !Carried(log, k) ==> OutcomeAt(log, k) == Refused && Before(log, k + 1) == Before(log, k)
  {
    BeforeStep(log, k);
  }

  /** A write conditional on presence goes through exactly when the key is, or is not, there. */
  lemma PresenceGuardIff(log: seq<Command>, k: nat, present: bool)
    requires k < |log| && log[k].Set? && log[k].guard == Guard(Some(present), None, None)
    ensures OutcomeAt(log, k).Stored? <==> (log[k].key in Before(log, k) <==> present)
    ensures !OutcomeAt(log, k).Stored? ==> OutcomeAt(log, k) == Refused && Before(log, k + 1) == Before(log, k)
  {
    BeforeStep(log, k);
  }

  /** A write conditional on the index read goes through exactly when nothing touched the key since. */
  lemma IndexGuardIff(log: seq<Command>, read: nat, k: nat)
    requires read <= k < |log| && Writes(log[k]) && log[k].key in Before(log, read)
    requires log[k].guard == Guard(None, None, Some(Before(log, read)[log[k].key].index))
    ensures
      var key := log[k].key;
      Carried(log, k) <==> forall m :: read <= m <= k ==> Lookup(Before(log, m), key) == Lookup(Before(log, read), key)
    ensures !Carried(log, k) ==> OutcomeAt(log, k) == Refused && Before(log, k + 1) == Before(log, k)
  {
    BeforeStep(log, k);
    if Carried(log, k) {
      IndexNamesTheVersion(log, log[k].key, read, k);
    }
  }

  /** Without a guard a set always goes through, and a delete raises exactly when the key is absent. */
  lemma Unguarded(log: seq<Command>, k: nat)
    requires k < |log| && Writes(log[k]) && log[k].guard == Guard(None, None, None)
    ensures log[k].Set? ==> OutcomeAt(log, k).Stored?
    ensures log[k].Delete? ==> OutcomeAt(log, k) == if log[k].key in Before(log, k) then Done else KeyError
  {
  }

  function WithGuard(cmd: Command, guard: Guard): Command
    requires Writes(cmd)
  {
    match cmd case Set(key, data, _) => Set(key, data, guard) case Delete(key, _) => Delete(key, guard)
  }

  /** Several guards refuse exactly when one of them alone does. */
  lemma GuardsCombine(store: Store, applied: nat, cmd: Command)
    requires Writes(cmd)
    ensures
      var g := cmd.guard;
      Report(store, applied, cmd) != Refused <==>
      && Report(store, applied, WithGuard(cmd, Guard(g.prevExist, None, None))) != Refused
      && Report(store, applied, WithGuard(cmd, Guard(None, g.prevValue, None))) != Refused
      && Report(store, applied, WithGuard(cmd, Guard(None, None, g.prevIndex))) != Refused
  {
  }

  /** What a stored write leaves: value and stamps as given, the creation stamp as given too unless
      the key was there with another one and now starts anew; every other key as it was. */
  lemma StoredLeaves(log: seq<Command>, k: nat)
    requires k < |log| && log[k].Set? && OutcomeAt(log, k).Stored?
    ensures
      var key, data, was, after := log[k].key, log[k].data, Before(log, k), Before(log, k + 1);
      && key in after && OutcomeAt(log, k) == Stored(after[key]) && after[key].index == k + 1
      && after[key].data.value == data.value && after[key].data.updated == data.updated
      && after[key].data.expire == data.expire
      && after[key].data.created ==
           (if key in was && was[key].data.created != data.created then data.updated else data.created)
      && forall other :: other != key ==> Lookup(after, other) == Lookup(was, other)
  {
    BeforeStep(log, k);
  }

  /** What a delete leaves: the key absent, every other key as it was. */
  lemma DeletedLeaves(log: seq<Command>, k: nat)
    requires k < |log| && log[k].Delete? && OutcomeAt(log, k).Done?
    ensures log[k].key !in Before(log, k + 1)
    ensures forall other :: other != log[k].key ==> Lookup(Before(log, k + 1), other) == Lookup(Before(log, k), other)
  {
    BeforeStep(log, k);
  }

  /** An expiry removes the key exactly when value and stamps are those seen, whatever its index, and
      touches nothing else; recursive deletion removes exactly the keys with the prefix. */
  lemma OthersLeave(log: seq<Command>, k: nat, key: string)
    requires k < |log| && (log[k].Expire? || log[k].DeleteTree?)
    ensures Lookup(Before(log, k + 1), key) ==
      if key in Before(log, k) && (if log[k].Expire? then key == log[k].key && Before(log, k)[key].data == log[k].seen.data
                                   else log[k].prefix <= key)
      then None else Lookup(Before(log, k), key)
  {
    BeforeStep(log, k);
  }
}
