/**
 * Runs of the durable store: operations, failed writes, crashes between the
 * write and the commit, and restarts, in any order.
 */
module StoreRuns {
  import opened Wrappers
  import opened Bytes
  import opened Sha256
  import opened RecoveryCodec
  import opened RecoveryRegistry
  import opened RecoveryStore
  import opened StoreInvariant

  // ---------------------------------------------------------------------
  // Reopening
  // ---------------------------------------------------------------------

  /** Opening the directory again; an existing file is read successfully. */
  function Reopen(disk: Disk, capacity: nat): Store
  {
    Open(disk, capacity, true, None, true).0
  }

  lemma RestoredRecordIsEncodable(r: PersistedTarget, salt: Salt)
    requires RecordEncodable(r)
    ensures RecordEncodable(IntoPersisted(RestoredTarget(r), salt))
  {
  }

  lemma RestoredIsEncodable(capacity: nat, salt: Salt, records: seq<PersistedTarget>)
    requires Restore(capacity, salt, records).Some? && Encodable(records)
    ensures Encodable(Snapshot(Restore(capacity, salt, records).value, [], salt))
  {
    hide Snapshot, RestoreInto, RegistrySound, RecordKey, RestoredTarget, IntoPersisted, RecordEncodable;
    var reg := Restore(capacity, salt, records).value;
    RestoredSound(capacity, salt, records);
    RestoredEntries(Empty(capacity, Some(salt)), records);
    SnapshotLength(reg, [], salt);
    forall p | p in Snapshot(reg, [], salt)
      ensures RecordEncodable(p)
    {
      SnapshotRecord(reg, [], salt, p);
      var k :| k in reg.entries && IntoPersisted(reg.entries[k], salt) == p;
      var r :| r in records && RecordKey(r) == k && reg.entries[k] == RestoredTarget(r);
      RestoredRecordIsEncodable(r, salt);
    }
  }

  lemma ReopenIsSound(disk: Disk, capacity: nat)
    requires FileSound(disk) && 0 < capacity
    requires |RecordsOn(disk)| <= capacity
    ensures Sound(Reopen(disk, capacity), disk)
    ensures Reopen(disk, capacity).pending == []
    ensures Reopen(disk, capacity).salt == SaltOn(disk)
    ensures Reopen(disk, capacity).registry.salt == Some(SaltOn(disk))
    ensures Reopen(disk, capacity).registry.capacity == capacity
    ensures Restore(capacity, SaltOn(disk), RecordsOn(disk)) == Some(Reopen(disk, capacity).registry)
  {
    hide RegistrySound, Snapshot, Decode, RestoreInto, Encodable;
    DecodeSound(disk.value);
    RestoredSound(capacity, SaltOn(disk), RecordsOn(disk));
    RestoredIsEncodable(capacity, SaltOn(disk), RecordsOn(disk));
  }

  lemma ReopenIsGood(disk: Disk, capacity: nat)
    requires FileInv(disk) && 0 < capacity
    requires |RecordsOn(disk)| <= capacity
    ensures Good(Reopen(disk, capacity), disk)
    ensures Reopen(disk, capacity).pending == []
    ensures Reopen(disk, capacity).salt == SaltOn(disk)
    ensures Reopen(disk, capacity).registry.salt == Some(SaltOn(disk))
    ensures Reopen(disk, capacity).registry.capacity == capacity
    ensures Restore(capacity, SaltOn(disk), RecordsOn(disk)) == Some(Reopen(disk, capacity).registry)
  {
    ReopenIsSound(disk, capacity);
    hide Sound, RegistryInv, PendingInv, Readable, Restore, Encodable, RecordsOn, SaltOn, Reopen;
    RestoredInv(capacity, SaltOn(disk), RecordsOn(disk));
    NothingPending();
  }

  lemma NothingPending()
    ensures PendingInv([])
  {
  }

  lemma ReopenIsOverfull(disk: Disk, capacity: nat)
    requires Readable(disk)
    requires |RecordsOn(disk)| > capacity
    ensures Reopen(disk, capacity).poison == Some(StateUnreadable(TooManyEntries))
  {
    hide Decode;
    DecodeSound(disk.value);
  }

  /** Some record is stored under this very key. */
  predicate KeyRecorded(records: seq<PersistedTarget>, key: Key)
  {
    exists r :: r in records && RecordKey(r) == key
  }

  lemma HashKeyRecorded(records: seq<PersistedTarget>, salt: Salt, uri: Text, token: Text)
    ensures KeyRecorded(records, HashKey(salt, uri, token)) <==> Recorded(records, IdOf(salt, uri, token))
  {
    hide KeyOf, Hex, SaltedHash;
    forall r | r in records && RecordKey(r) == HashKey(salt, uri, token)
      ensures RecordId(r) == IdOf(salt, uri, token)
    {
      HashedKeysDetermineNames(r.uri, r.expectedHash, uri, SaltedHash(salt, token));
    }
    if r :| r in records && RecordId(r) == IdOf(salt, uri, token) {
      assert RecordKey(r) == HashKey(salt, uri, token);
    }
  }

  /**
   * For every name: a reopened store blocks a target exactly when its identity
   * is on disk, or its plain key spells the key of some record.
   */
  lemma ReopenBlocksIff(disk: Disk, capacity: nat, uri: Text, token: Text)
    requires FileSound(disk) && 0 < capacity
    ensures TargetBlocked(Reopen(disk, capacity), uri, token)
      <==> || |RecordsOn(disk)| > capacity
           || Recorded(RecordsOn(disk), IdOf(SaltOn(disk), uri, token))
           || KeyRecorded(RecordsOn(disk), KeyOf(uri, token))
  {
    hide RegistrySound, Snapshot, Decode, RecordKey, KeyOf, HashKey, Mirrors, Encodable, Reopen, RestoreInto, IdOf;
    hide Recorded, UniqueRequestIds;
    var records, salt := RecordsOn(disk), SaltOn(disk);
    if |records| > capacity {
      ReopenIsOverfull(disk, capacity);
    } else {
      ReopenIsSound(disk, capacity);
      RestoredEntries(Empty(capacity, Some(salt)), records);
      HashKeyRecorded(records, salt, uri, token);
      var reg := Reopen(disk, capacity).registry;
      assert forall k :: k in reg.entries <==> KeyRecorded(records, k);
    }
  }

  /** A reopened store blocks a well-named target exactly when its identity is on disk. */
  lemma ReopenBlocksRecorded(disk: Disk, capacity: nat, uri: Text, token: Text)
    requires FileInv(disk) && 0 < capacity && WellNamed(uri, token)
    ensures TargetBlocked(Reopen(disk, capacity), uri, token)
      <==> |RecordsOn(disk)| > capacity || Recorded(RecordsOn(disk), IdOf(SaltOn(disk), uri, token))
  {
    ReopenBlocksIff(disk, capacity, uri, token);
    hide Reopen, TargetBlocked, Decode, Encodable, KeyOf, Hex, LooksHashed, SaltedHash;
    if r :| r in RecordsOn(disk) && RecordKey(r) == KeyOf(uri, token) {
      KeysDetermineNames(uri, token, r.uri, Hex(r.expectedHash));
      HashHexLooksHashed(r.expectedHash);
    }
  }

  // ---------------------------------------------------------------------
  // Worlds and events
  // ---------------------------------------------------------------------

  datatype World = World(store: Store, disk: Disk, capacity: nat)

  datatype Event =
    | Do(op: Operation, writes: bool)
    | CrashAfterWrite(op: Operation)
    | Restart

  function Step(w: World, e: Event): World
  {
    match e
    case Do(op, writes) =>
      var (store, disk, _) := Mutate(w.store, w.disk, op, writes);
      World(store, disk, w.capacity)
    case CrashAfterWrite(op) =>
      var disk := Mutate(w.store, w.disk, op, true).1;
      World(Reopen(disk, w.capacity), disk, w.capacity)
    case Restart => World(Reopen(w.disk, w.capacity), w.disk, w.capacity)
  }

  function Run(w: World, events: seq<Event>): World
    decreases |events|
  {
    if events == [] then w else Run(Step(w, events[0]), events[1..])
  }

  predicate WellNamedEvent(e: Event)
  {
    match e
    case Do(op, _) => WellNamedOperation(op)
    case CrashAfterWrite(op) => WellNamedOperation(op)
    case Restart => true
  }

  /** The file holds more records than a store of this capacity can load. */
  predicate Overfull(w: World)
  {
    w.store.poison.Some? && Readable(w.disk) && |RecordsOn(w.disk)| > w.capacity
  }

  /** The invariant of runs for all names. */
  ghost predicate SoundWorld(w: World)
  {
    0 < w.capacity
    && ((Sound(w.store, w.disk) && w.store.registry.capacity == w.capacity) || Overfull(w))
  }

  /** The invariant of runs of well-named operations. */
  ghost predicate Inv(w: World)
  {
    0 < w.capacity
    && ((Good(w.store, w.disk) && w.store.registry.capacity == w.capacity) || Overfull(w))
  }

  lemma OverfullStays(w: World, e: Event)
    requires Overfull(w)
    ensures Overfull(Step(w, e)) && Step(w, e).disk == w.disk
  {
    hide Decode;
    DecodeSound(w.disk.value);
  }

  lemma RestartIsSound(w: World)
    requires Sound(w.store, w.disk) && 0 < w.capacity
    ensures SoundWorld(World(Reopen(w.disk, w.capacity), w.disk, w.capacity))
  {
    hide RegistrySound, Snapshot, Decode, Mirrors, Encodable;
    if |RecordsOn(w.disk)| > w.capacity {
      ReopenIsOverfull(w.disk, w.capacity);
    } else {
      ReopenIsSound(w.disk, w.capacity);
    }
  }

  lemma StepKeepsSound(w: World, e: Event)
    requires SoundWorld(w)
    ensures SoundWorld(Step(w, e))
  {
    hide Sound, Prepare, Reopen, Readable;
    if Overfull(w) {
      OverfullStays(w, e);
    } else {
      RestartIsSound(w);
      if !e.Restart? && Prepare(w.store, e.op).Success? {
        PrepareKeepsSound(w.store, w.disk, e.op);
        var (next, bytes, _) := Prepare(w.store, e.op).value;
        RestartIsSound(World(next, Some(bytes), w.capacity));
      }
    }
  }

  lemma {:induction false} RunKeepsSound(w: World, events: seq<Event>)
    requires SoundWorld(w)
    ensures SoundWorld(Run(w, events))
    decreases |events|
  {
    hide SoundWorld, Step;
    if events != [] {
      StepKeepsSound(w, events[0]);
      RunKeepsSound(Step(w, events[0]), events[1..]);
    }
  }

  lemma PreparedIsInv(w: World, op: Operation)
    requires Good(w.store, w.disk) && w.store.registry.capacity == w.capacity && 0 < w.capacity
    requires WellNamedOperation(op) && Prepare(w.store, op).Success?
    ensures var (next, bytes, _) := Prepare(w.store, op).value;
      && Inv(World(next, Some(bytes), w.capacity))
      && Inv(World(Reopen(Some(bytes), w.capacity), Some(bytes), w.capacity))
  {
    hide RegistryInv, PendingInv, Perform, Snapshot, Decode, Mirrors, Encodable, Prepare, Reopen;
    PrepareKeepsGood(w.store, w.disk, op);
    var (next, bytes, _) := Prepare(w.store, op).value;
    RestartIsInv(World(next, Some(bytes), w.capacity));
  }

  lemma RestartIsInv(w: World)
    requires Good(w.store, w.disk) && 0 < w.capacity
    ensures Inv(World(Reopen(w.disk, w.capacity), w.disk, w.capacity))
  {
    hide RegistryInv, PendingInv, Snapshot, Decode, Mirrors, Encodable;
    if |RecordsOn(w.disk)| > w.capacity {
      ReopenIsOverfull(w.disk, w.capacity);
    } else {
      ReopenIsGood(w.disk, w.capacity);
    }
  }

  lemma StepKeepsInv(w: World, e: Event)
    requires Inv(w) && WellNamedEvent(e)
    ensures Inv(Step(w, e))
  {
    hide Good, Prepare, Reopen, WellNamedOperation, Readable;
    if Overfull(w) {
      OverfullStays(w, e);
    } else if e.Restart? {
      RestartIsInv(w);
    } else if Prepare(w.store, e.op).Success? {
      PreparedIsInv(w, e.op);
    } else {
      RestartIsInv(w);
    }
  }

  lemma {:induction false} RunKeepsInv(w: World, events: seq<Event>)
    requires Inv(w) && forall e :: e in events ==> WellNamedEvent(e)
    ensures Inv(Run(w, events))
    decreases |events|
  {
    hide Inv, WellNamedEvent, Step;
    if events != [] {
      StepKeepsInv(w, events[0]);
      RunKeepsInv(Step(w, events[0]), events[1..]);
    }
  }

  /** A store created in an empty directory starts in the invariant. */
  lemma FreshStoreIsInv(capacity: nat, salt: Salt)
    requires 0 < capacity
    ensures var (store, disk) := Open(None, capacity, true, Some(salt), true);
      && Inv(World(store, disk, capacity)) && Good(store, disk)
      && store.registry == Empty(capacity, None) && store.pending == []
  {
    hide Decode, FileBytes;
    EncodeSucceedsIff(salt, []);
    RoundTrip(salt, []);
    assert Snapshot(Empty(capacity, None), [], salt) == [];
  }

  // ---------------------------------------------------------------------
  // Blocked until acknowledged
  // ---------------------------------------------------------------------

  /** The operation becomes durable in this event. */
  predicate TakesEffect(w: World, e: Event)
  {
    !e.Restart? && Prepare(w.store, e.op).Success? && (e.Do? ==> e.writes)
  }

  /** An acknowledgement of the same resolved key becomes durable. */
  predicate Releases(w: World, e: Event, uri: Text, token: Text)
  {
    && TakesEffect(w, e) && e.op.AcknowledgeTarget?
    && ResolveKey(w.store.registry, e.op.uri, e.op.expected) == ResolveKey(w.store.registry, uri, token)
  }

  predicate NeverReleases(w: World, events: seq<Event>, uri: Text, token: Text)
    decreases |events|
  {
    events == [] || (!Releases(w, events[0], uri, token) && NeverReleases(Step(w, events[0]), events[1..], uri, token))
  }

  lemma MoreKeysStayBlocked(reg: Registry, next: Registry, uri: Text, token: Text)
    requires next.salt == reg.salt && reg.entries.Keys <= next.entries.Keys
    requires IsBlocked(reg, uri, token)
    ensures IsBlocked(next, uri, token)
  {
    hide SaltedHash, Hex, KeyOf;
  }

  /** Keys only grow, except that an acknowledgement removes its own. */
  lemma PerformKeys(op: Operation, reg: Registry, pending: seq<Descriptor>)
    requires Perform(op, reg, pending).Success?
    ensures var next := Perform(op, reg, pending).value.0;
      && next.salt == reg.salt
      && (if op.AcknowledgeTarget? then next.entries == reg.entries - {ResolveKey(reg, op.uri, op.expected)}
          else reg.entries.Keys <= next.entries.Keys)
  {
    hide ResolveKey, List, VerdictOf, RetainOthers, FirstPending, FreshTarget;
  }

  /** In memory only an acknowledgement of the same key unblocks. */
  lemma PerformKeepsBlocked(op: Operation, reg: Registry, pending: seq<Descriptor>, uri: Text, token: Text)
    requires Perform(op, reg, pending).Success? && IsBlocked(reg, uri, token)
    requires op.AcknowledgeTarget? ==> ResolveKey(reg, op.uri, op.expected) != ResolveKey(reg, uri, token)
    ensures IsBlocked(Perform(op, reg, pending).value.0, uri, token)
  {
    PerformKeys(op, reg, pending);
    hide Perform, IsBlocked, ResolveKey;
    var next := Perform(op, reg, pending).value.0;
    if op.AcknowledgeTarget? {
      OtherKeyStaysBlocked(reg, next, ResolveKey(reg, op.uri, op.expected), uri, token);
    } else {
      MoreKeysStayBlocked(reg, next, uri, token);
    }
  }

  lemma OtherKeyStaysBlocked(reg: Registry, next: Registry, key: Key, uri: Text, token: Text)
    requires next.salt == reg.salt && next.entries == reg.entries - {key}
    requires IsBlocked(reg, uri, token) && key != ResolveKey(reg, uri, token)
    ensures IsBlocked(next, uri, token)
  {
    hide SaltedHash, Hex, KeyOf;
  }

  lemma BlockedIsRecorded(store: Store, disk: Disk, uri: Text, token: Text)
    requires Good(store, disk) && WellNamed(uri, token)
    requires IsBlocked(store.registry, uri, token)
    ensures Recorded(RecordsOn(disk), IdOf(store.salt, uri, token))
  {
    hide PendingInv, Snapshot, Decode, WellNamed, Mirrors;
    ResolvedEntryId(store.registry, store.salt, uri, token);
    DiskIds(store, disk, IdOf(store.salt, uri, token));
  }

  lemma StepKeepsBlocked(w: World, e: Event, uri: Text, token: Text)
    requires Inv(w) && WellNamedEvent(e) && WellNamed(uri, token)
    requires TargetBlocked(w.store, uri, token) && !Releases(w, e, uri, token)
    ensures TargetBlocked(Step(w, e).store, uri, token)
  {
    hide Good, Readable, WellNamedOperation, WellNamed, Reopen, IsBlocked, ResolveKey, Prepare, RecordsOn;
    if Overfull(w) {
      OverfullStays(w, e);
    } else if TakesEffect(w, e) {
      PreparedKeepsBlocked(w, e.op, uri, token);
    } else {
      RestartKeepsBlocked(w.store, w.disk, w.capacity, uri, token);
    }
  }

  lemma PreparedKeepsBlocked(w: World, op: Operation, uri: Text, token: Text)
    requires Good(w.store, w.disk) && 0 < w.capacity && WellNamedOperation(op) && WellNamed(uri, token)
    requires Prepare(w.store, op).Success? && TargetBlocked(w.store, uri, token)
    requires op.AcknowledgeTarget?
      ==> ResolveKey(w.store.registry, op.uri, op.expected) != ResolveKey(w.store.registry, uri, token)
    ensures var (next, bytes, _) := Prepare(w.store, op).value;
      && TargetBlocked(next, uri, token)
      && TargetBlocked(Reopen(Some(bytes), w.capacity), uri, token)
  {
    hide PendingInv, RegistryInv, Snapshot, Decode, WellNamed, Mirrors, IsBlocked, Reopen, ResolveKey;
    var (next, bytes, _) := Prepare(w.store, op).value;
    PerformKeepsBlocked(op, w.store.registry, w.store.pending, uri, token);
    PrepareKeepsGood(w.store, w.disk, op);
    RestartKeepsBlocked(next, Some(bytes), w.capacity, uri, token);
  }

  lemma RestartKeepsBlocked(store: Store, disk: Disk, capacity: nat, uri: Text, token: Text)
    requires Good(store, disk) && 0 < capacity && WellNamed(uri, token)
    requires TargetBlocked(store, uri, token)
    ensures TargetBlocked(Reopen(disk, capacity), uri, token)
  {
    hide PendingInv, RegistryInv, Snapshot, Decode, WellNamed, Mirrors, IsBlocked, Reopen;
    BlockedIsRecorded(store, disk, uri, token);
    ReopenBlocksRecorded(disk, capacity, uri, token);
  }

  /**
   * Over every run of operations, failed writes, crashes and restarts a
   * blocked target stays blocked until its own key is acknowledged.
   */
  lemma {:induction false} BlockedUntilAcknowledged(w: World, events: seq<Event>, uri: Text, token: Text)
    requires Inv(w) && WellNamed(uri, token)
    requires forall e :: e in events ==> WellNamedEvent(e)
    requires TargetBlocked(w.store, uri, token) && NeverReleases(w, events, uri, token)
    ensures TargetBlocked(Run(w, events).store, uri, token)
    decreases |events|
  {
    hide Inv, WellNamedEvent, WellNamed, Step, Releases, TargetBlocked;
    if events != [] {
      StepKeepsInv(w, events[0]);
      StepKeepsBlocked(w, events[0], uri, token);
      BlockedUntilAcknowledged(Step(w, events[0]), events[1..], uri, token);
    }
  }
}
