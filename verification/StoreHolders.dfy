/**
 * Which targets memory and file hold, for all names: an exact account of every
 * operation, what can drop a target, and that nothing else does over any run.
 */
module StoreHolders {
  import opened Wrappers
  import opened Bytes
  import opened Sha256
  import opened RecoveryCodec
  import opened RecoveryRegistry
  import opened RecoveryStore
  import opened StoreInvariant
  import opened StoreRuns
  import opened StoreLimits

  // ---------------------------------------------------------------------
  // Holders of a target
  // ---------------------------------------------------------------------

  /** An entry or a pending intent carries the identity. */
  predicate Holds(store: Store, id: Id)
  {
    HeldByEntry(store.registry, store.salt, id) || HeldByPending(store.pending, store.salt, id)
  }

  function DescriptorId(salt: Salt, d: Descriptor): Id
  {
    IdOf(salt, d.uri, d.expected)
  }

  /** The registry takes a block of this pair. */
  predicate Accepts(reg: Registry, uri: Text, token: Text)
  {
    IsBlocked(reg, uri, token) || |reg.order| != reg.capacity
  }

  /** The intent a promotion finds, if the registry takes it. */
  function Promoted(store: Store, requestId: Text): Option<Descriptor>
  {
    if !HasPending(store.pending, requestId) then None else
    var d := store.pending[FirstPending(store.pending, requestId)];
    if Accepts(store.registry, d.uri, d.expected) then Some(d) else None
  }

  /** The operation removes or replaces the entry under this key. */
  predicate Overwrites(store: Store, op: Operation, key: Key)
  {
    match op
    case AcknowledgeTarget(_, uri, token, _) => key == ResolveKey(store.registry, uri, token)
    case BlockTarget(_, uri, token, _, _, _) => key == ResolveKey(store.registry, uri, token)
    case PromotePending(_, requestId) =>
      var p := Promoted(store, requestId);
      p.Some? && key == ResolveKey(store.registry, p.value.uri, p.value.expected)
    case _ => false
  }

  /** The operation takes this intent off the pending list. */
  predicate Withdraws(op: Operation, d: Descriptor)
  {
    match op
    case ClearPending(requestId) => d.requestId == requestId
    case PromotePending(_, requestId) => d.requestId == requestId
    case _ => false
  }

  /** The operation gives the identity a new holder. */
  predicate Adds(store: Store, op: Operation, id: Id)
  {
    match op
    case BeginPending(d) => !HasPending(store.pending, d.requestId) && DescriptorId(store.salt, d) == id
    case BlockTarget(_, uri, token, _, _, _) => IdOf(store.salt, uri, token) == id
    case PromotePending(_, requestId) =>
      var p := Promoted(store, requestId);
      p.Some? && DescriptorId(store.salt, p.value) == id
    case _ => false
  }

  /** An entry of the identity that the operation leaves alone. */
  predicate EntryRemains(store: Store, op: Operation, id: Id)
  {
    exists k :: k in store.registry.entries && TargetId(store.registry.entries[k], store.salt) == id
                && !Overwrites(store, op, k)
  }

  predicate IntentRemains(store: Store, op: Operation, id: Id)
  {
    exists d :: d in store.pending && DescriptorId(store.salt, d) == id && !Withdraws(op, d)
  }

  /** The operation takes an entry from the identity and gives it nothing back. */
  predicate DropsEntry(store: Store, op: Operation, id: Id)
  {
    !Adds(store, op, id)
    && exists k :: k in store.registry.entries && TargetId(store.registry.entries[k], store.salt) == id
                   && Overwrites(store, op, k)
  }

  predicate DropsIntent(store: Store, op: Operation, id: Id)
  {
    !Adds(store, op, id)
    && exists d :: d in store.pending && DescriptorId(store.salt, d) == id && Withdraws(op, d)
  }

  predicate Drops(store: Store, op: Operation, id: Id)
  {
    DropsEntry(store, op, id) || DropsIntent(store, op, id)
  }

  lemma DropsLeavesNone(store: Store, op: Operation, id: Id)
    requires Holds(store, id) && !Drops(store, op, id)
    ensures Adds(store, op, id) || EntryRemains(store, op, id) || IntentRemains(store, op, id)
  {
    hide Overwrites, Withdraws, Adds, SaltedHash, HashOf;
    if HeldByEntry(store.registry, store.salt, id) {
      var k :| k in store.registry.entries && TargetId(store.registry.entries[k], store.salt) == id;
    } else {
      var d :| d in store.pending && IdOf(store.salt, d.uri, d.expected) == id;
      assert DescriptorId(store.salt, d) == id;
    }
  }

  // ---------------------------------------------------------------------
  // The account of one operation
  // ---------------------------------------------------------------------

  lemma AcceptedBlock(reg: Registry, salt: Salt, session: Text, uri: Text, token: Text, replacement: Text,
                      start: u64, end: u64, epoch: u64)
    requires RegistrySound(reg, salt)
    ensures var result := Block(reg, session, uri, token, replacement, start, end, epoch);
      && (result.Success? <==> Accepts(reg, uri, token))
      && (result.Success? ==>
            var key, next := ResolveKey(reg, uri, token), result.value;
            && next.salt == reg.salt && next.entries.Keys == reg.entries.Keys + {key}
            && TargetId(next.entries[key], salt) == IdOf(salt, uri, token)
            && forall k :: k in reg.entries && k != key ==> next.entries[k] == reg.entries[k])
  {
    hide SaltedHash, ResolveKey, RegistrySound;
    if Accepts(reg, uri, token) {
      BlockSound(reg, salt, session, uri, token, replacement, start, end, epoch);
    }
  }

  /** Entry by entry: what the operation leaves under each key. */
  lemma EntriesAfter(store: Store, op: Operation)
    requires RegistrySound(store.registry, store.salt) && Prepare(store, op).Success?
    ensures var next := Prepare(store, op).value.0;
      && next.salt == store.salt && next.registry.salt == store.registry.salt
      && (forall k :: k in store.registry.entries && !Overwrites(store, op, k) ==>
            && k in next.registry.entries
            && TargetId(next.registry.entries[k], store.salt) == TargetId(store.registry.entries[k], store.salt))
      && (forall k :: k in next.registry.entries && !Overwrites(store, op, k) ==> k in store.registry.entries)
      && (forall k :: k in next.registry.entries && Overwrites(store, op, k) ==>
            Adds(store, op, TargetId(next.registry.entries[k], store.salt)))
      && (forall k :: Overwrites(store, op, k) && !op.AcknowledgeTarget? ==> k in next.registry.entries)
  {
    hide RegistrySound, Block, Reconcile, Acknowledge, List, Snapshot, Encode, SaltedHash, ResolveKey, HashOf, Accepts;
    hide RetainOthers;
    var reg, salt := store.registry, store.salt;
    match op {
      case BeginPending(d) =>
      case ClearPending(id) =>
      case PromotePending(session, id) =>
        if HasPending(store.pending, id) {
          var d := store.pending[FirstPending(store.pending, id)];
          AcceptedBlock(reg, salt, session, d.uri, d.expected, d.replacement,
                        d.rangeStart, d.rangeEnd, d.documentEpoch);
        }
      case BlockTarget(session, uri, token, replacement, start, end) =>
        AcceptedBlock(reg, salt, session, uri, token, replacement, start, end, 0);
      case ReconcileTarget(session, uri, token, epoch, live) =>
        ReconcileSound(reg, salt, session, uri, token, epoch, live);
      case AcknowledgeTarget(session, uri, token, epoch) =>
        AcknowledgeSound(reg, salt, session, uri, token, epoch);
    }
  }

  /** Intent by intent: withdrawn ones go, a new one comes, all others stay. */
  lemma IntentsAfter(store: Store, op: Operation, d: Descriptor)
    requires UniqueRequestIds(store.pending) && Prepare(store, op).Success?
    ensures d in Prepare(store, op).value.0.pending
      <==> || (d in store.pending && !Withdraws(op, d))
           || (op == BeginPending(d) && !HasPending(store.pending, d.requestId))
  {
    hide Block, Reconcile, Acknowledge, List, Snapshot, Encode;
    if op.PromotePending? && HasPending(store.pending, op.requestId) {
      RemovedById(store.pending, op.requestId, d);
    }
  }

  lemma RemovedById(pending: seq<Descriptor>, requestId: Text, d: Descriptor)
    requires UniqueRequestIds(pending) && HasPending(pending, requestId)
    ensures var index := FirstPending(pending, requestId);
      d in pending[..index] + pending[index + 1..] <==> d in pending && d.requestId != requestId
  {
    var index := FirstPending(pending, requestId);
    RemovedOnce(pending, index);
    if d in pending {
      SameIdSameIntent(pending, d, pending[index]);
    }
  }

  lemma SameIdSameIntent(pending: seq<Descriptor>, d: Descriptor, e: Descriptor)
    requires UniqueRequestIds(pending) && d in pending && e in pending
    ensures d.requestId == e.requestId ==> d == e
  {
    var i :| 0 <= i < |pending| && pending[i] == d;
    var j :| 0 <= j < |pending| && pending[j] == e;
  }

  /**
   * The exact account: after an operation an identity is held exactly when the
   * operation adds it or leaves one of its holders alone.
   */
  lemma HoldersAfter(store: Store, op: Operation, id: Id)
    requires RegistrySound(store.registry, store.salt) && UniqueRequestIds(store.pending)
    requires Prepare(store, op).Success?
    ensures Holds(Prepare(store, op).value.0, id)
      <==> Adds(store, op, id) || EntryRemains(store, op, id) || IntentRemains(store, op, id)
  {
    EntriesAfter(store, op);
    hide RegistrySound, UniqueRequestIds, Prepare, Overwrites, SaltedHash, HashOf, HeldByEntry, HeldByPending;
    var next := Prepare(store, op).value.0;
    if HeldByEntry(next.registry, next.salt, id) {
      HeldEntryComesFrom(store, op, id);
    }
    if HeldByPending(next.pending, next.salt, id) {
      HeldIntentComesFrom(store, op, id);
    }
    if EntryRemains(store, op, id) {
      EntryStays(store, op, id);
    }
    if IntentRemains(store, op, id) {
      IntentStays(store, op, id);
    }
    if Adds(store, op, id) {
      AddedIsHeld(store, op, id);
    }
  }

  lemma HeldEntryComesFrom(store: Store, op: Operation, id: Id)
    requires RegistrySound(store.registry, store.salt) && Prepare(store, op).Success?
    requires HeldByEntry(Prepare(store, op).value.0.registry, store.salt, id)
    ensures Adds(store, op, id) || EntryRemains(store, op, id)
  {
    EntriesAfter(store, op);
    hide RegistrySound, Prepare, Overwrites, Adds, SaltedHash, HashOf;
    var next := Prepare(store, op).value.0;
    var k :| k in next.registry.entries && TargetId(next.registry.entries[k], store.salt) == id;
  }

  lemma HeldIntentComesFrom(store: Store, op: Operation, id: Id)
    requires UniqueRequestIds(store.pending) && Prepare(store, op).Success?
    requires HeldByPending(Prepare(store, op).value.0.pending, store.salt, id)
    ensures Adds(store, op, id) || IntentRemains(store, op, id)
  {
    hide UniqueRequestIds, Prepare, SaltedHash;
    var d :| d in Prepare(store, op).value.0.pending && IdOf(store.salt, d.uri, d.expected) == id;
    IntentsAfter(store, op, d);
    assert DescriptorId(store.salt, d) == id;
  }

  lemma EntryStays(store: Store, op: Operation, id: Id)
    requires RegistrySound(store.registry, store.salt) && Prepare(store, op).Success?
    requires EntryRemains(store, op, id)
    ensures HeldByEntry(Prepare(store, op).value.0.registry, store.salt, id)
  {
    EntriesAfter(store, op);
    hide RegistrySound, Prepare, Overwrites, Adds, SaltedHash, HashOf;
    var k :| k in store.registry.entries && TargetId(store.registry.entries[k], store.salt) == id
             && !Overwrites(store, op, k);
    assert k in Prepare(store, op).value.0.registry.entries;
  }

  lemma IntentStays(store: Store, op: Operation, id: Id)
    requires UniqueRequestIds(store.pending) && Prepare(store, op).Success?
    requires IntentRemains(store, op, id)
    ensures HeldByPending(Prepare(store, op).value.0.pending, store.salt, id)
  {
    hide UniqueRequestIds, Prepare, SaltedHash, Withdraws;
    var d :| d in store.pending && DescriptorId(store.salt, d) == id && !Withdraws(op, d);
    IntentsAfter(store, op, d);
  }

  lemma AddedIsHeld(store: Store, op: Operation, id: Id)
    requires RegistrySound(store.registry, store.salt) && UniqueRequestIds(store.pending)
    requires Prepare(store, op).Success? && Adds(store, op, id)
    ensures Holds(Prepare(store, op).value.0, id)
  {
    EntriesAfter(store, op);
    hide RegistrySound, UniqueRequestIds, Prepare, SaltedHash, HashOf, ResolveKey, Accepts;
    var next := Prepare(store, op).value.0;
    match op {
      case BeginPending(d) =>
        IntentsAfter(store, op, d);
        assert IdOf(next.salt, d.uri, d.expected) == id;
      case BlockTarget(_, uri, token, _, _, _) =>
        assert Overwrites(store, op, ResolveKey(store.registry, uri, token));
      case PromotePending(_, requestId) =>
        var p := Promoted(store, requestId).value;
        assert Overwrites(store, op, ResolveKey(store.registry, p.uri, p.expected));
      case _ =>
    }
  }

  // ---------------------------------------------------------------------
  // After a restart
  // ---------------------------------------------------------------------

  lemma SoundParts(store: Store, disk: Disk)
    requires Sound(store, disk)
    ensures RegistrySound(store.registry, store.salt) && UniqueRequestIds(store.pending)
    ensures FileSound(disk) && SaltOn(disk) == store.salt && store.poison.None?
  {
    hide RegistrySound, UniqueRequestIds, Mirrors, Snapshot, Encodable, Decode;
  }

  /**
   * Exactly when a target is blocked once an operation was written and the
   * store reopened: it is added, a holder of it remains, or its plain key
   * spells the key of some record. No name is excluded.
   */
  lemma BlockedAfterRestartIff(store: Store, disk: Disk, op: Operation, capacity: nat, uri: Text, token: Text)
    requires Sound(store, disk) && 0 < capacity && Prepare(store, op).Success?
    ensures var file, id := Some(Prepare(store, op).value.1), IdOf(store.salt, uri, token);
      Readable(file)
      && (TargetBlocked(Reopen(file, capacity), uri, token)
          <==> || |RecordsOn(file)| > capacity
               || Adds(store, op, id) || EntryRemains(store, op, id) || IntentRemains(store, op, id)
               || KeyRecorded(RecordsOn(file), KeyOf(uri, token)))
  {
    hide Prepare, Sound, FileSound, SaltOn, RecordsOn, KeyRecorded, Recorded, RegistrySound, UniqueRequestIds;
    hide TargetBlocked, Reopen, Adds, EntryRemains, IntentRemains, SaltedHash, KeyOf, Readable;
    hide HeldByEntry, HeldByPending;
    PrepareKeepsSound(store, disk, op);
    var (next, bytes, _) := Prepare(store, op).value;
    SoundParts(store, disk);
    SoundParts(next, Some(bytes));
    HoldersAfter(store, op, IdOf(store.salt, uri, token));
    DiskIds(next, Some(bytes), IdOf(store.salt, uri, token));
    ReopenBlocksIff(Some(bytes), capacity, uri, token);
    ReadableFile(Some(bytes));
  }

  lemma ReadableFile(disk: Disk)
    requires FileSound(disk)
    ensures Readable(disk)
  {
  }

  /** A written block outlives the restart, whatever its URI and token. */
  lemma BlockSurvivesRestart(store: Store, disk: Disk, op: Operation, capacity: nat)
    requires Sound(store, disk) && 0 < capacity && op.BlockTarget? && Prepare(store, op).Success?
    ensures TargetBlocked(Prepare(store, op).value.0, op.uri, op.expected)
    ensures TargetBlocked(Reopen(Some(Prepare(store, op).value.1), capacity), op.uri, op.expected)
  {
    BlockedAfterRestartIff(store, disk, op, capacity, op.uri, op.expected);
    hide Reopen, ResolveKey, Encode, Snapshot, RecordsOn, EntryRemains, IntentRemains, KeyRecorded, Sound, SaltedHash;
    BlockedNow(store, op);
  }

  lemma BlockedNow(store: Store, op: Operation)
    requires op.BlockTarget? && Prepare(store, op).Success?
    ensures TargetBlocked(Prepare(store, op).value.0, op.uri, op.expected)
  {
    hide SaltedHash, Hex, KeyOf, Encode, Snapshot, List, RetainOthers, FirstPending, Reconcile, Acknowledge;
  }

  // ---------------------------------------------------------------------
  // Over every run
  // ---------------------------------------------------------------------

  predicate NeverDrops(w: World, events: seq<Event>, id: Id)
    decreases |events|
  {
    events == []
    || (!(TakesEffect(w, events[0]) && Drops(w.store, events[0].op, id))
        && NeverDrops(Step(w, events[0]), events[1..], id))
  }

  lemma StepKeepsRecorded(w: World, e: Event, id: Id)
    requires SoundWorld(w) && Readable(w.disk) && Recorded(RecordsOn(w.disk), id)
    requires TakesEffect(w, e) ==> !Drops(w.store, e.op, id)
    ensures Readable(Step(w, e).disk) && Recorded(RecordsOn(Step(w, e).disk), id)
    ensures SaltOn(Step(w, e).disk) == SaltOn(w.disk) && Step(w, e).capacity == w.capacity
  {
    hide Sound, Drops, Prepare, Reopen, Readable, RecordsOn, Recorded, SaltOn;
    if Overfull(w) {
      OverfullStays(w, e);
    } else if TakesEffect(w, e) {
      var (next, bytes, _) := Prepare(w.store, e.op).value;
      assert Step(w, e).disk == Some(bytes);
      PreparedKeepsRecorded(w.store, w.disk, e.op, id);
    } else {
      assert Step(w, e).disk == w.disk;
    }
  }

  lemma PreparedKeepsRecorded(store: Store, disk: Disk, op: Operation, id: Id)
    requires Sound(store, disk) && Readable(disk) && Recorded(RecordsOn(disk), id)
    requires Prepare(store, op).Success? && !Drops(store, op, id)
    ensures var file := Some(Prepare(store, op).value.1);
      Readable(file) && Recorded(RecordsOn(file), id) && SaltOn(file) == SaltOn(disk)
  {
    hide Sound, Prepare, Readable, RecordsOn, Recorded, Drops, RegistrySound, UniqueRequestIds, SaltOn;
    hide HeldByEntry, HeldByPending, Adds, EntryRemains, IntentRemains;
    var (next, bytes, _) := Prepare(store, op).value;
    PrepareKeepsSound(store, disk, op);
    SoundParts(store, disk);
    SoundParts(next, Some(bytes));
    DiskIds(store, disk, id);
    DropsLeavesNone(store, op, id);
    HoldersAfter(store, op, id);
    DiskIds(next, Some(bytes), id);
    ReadableFile(Some(bytes));
  }

  lemma RecordedReopensBlocked(w: World, uri: Text, token: Text)
    requires SoundWorld(w) && Readable(w.disk) && Recorded(RecordsOn(w.disk), IdOf(SaltOn(w.disk), uri, token))
    ensures TargetBlocked(Reopen(w.disk, w.capacity), uri, token)
  {
    hide Readable, RecordsOn, Recorded, TargetBlocked, Reopen, SaltOn, IdOf, Sound, KeyRecorded;
    if Overfull(w) {
      OverfullBlocks(w, uri, token);
    } else {
      SoundParts(w.store, w.disk);
      ReopenBlocksIff(w.disk, w.capacity, uri, token);
    }
  }

  lemma OverfullBlocks(w: World, uri: Text, token: Text)
    requires Overfull(w)
    ensures TargetBlocked(w.store, uri, token) && TargetBlocked(Reopen(w.disk, w.capacity), uri, token)
  {
    hide Reopen, Readable, RecordsOn, IsBlocked;
    ReopenIsOverfull(w.disk, w.capacity);
  }

  /**
   * For all names and over every run of operations, failed writes, crashes and
   * restarts: a recorded target stays recorded until an operation takes a
   * holder from it and gives it nothing back; every reopening until then
   * blocks it.
   */
  lemma {:induction false} RecordedUntilDropped(w: World, events: seq<Event>, uri: Text, token: Text, salt: Salt)
    requires SoundWorld(w) && Readable(w.disk) && SaltOn(w.disk) == salt
    requires Recorded(RecordsOn(w.disk), IdOf(salt, uri, token))
    requires NeverDrops(w, events, IdOf(salt, uri, token))
    ensures var end := Run(w, events);
      && Readable(end.disk) && SaltOn(end.disk) == salt && Recorded(RecordsOn(end.disk), IdOf(salt, uri, token))
      && TargetBlocked(Reopen(end.disk, w.capacity), uri, token)
    decreases |events|
  {
    hide SoundWorld, Drops, Readable, RecordsOn, Recorded, TargetBlocked, Reopen, SaltOn, IdOf, TakesEffect, Step;
    if events == [] {
      RecordedReopensBlocked(w, uri, token);
    } else {
      StepKeepsSound(w, events[0]);
      StepKeepsRecorded(w, events[0], IdOf(salt, uri, token));
      RecordedUntilDropped(Step(w, events[0]), events[1..], uri, token, salt);
    }
  }

  // ---------------------------------------------------------------------
  // In the running process
  // ---------------------------------------------------------------------

  /** The keys a live pair may resolve to. */
  predicate OwnKey(reg: Registry, uri: Text, token: Text, key: Key)
  {
    key == KeyOf(uri, token) || (reg.salt.Some? && key == HashKey(reg.salt.value, uri, token))
  }

  /** The target's own entry is stored under one of its keys. */
  predicate HasOwnEntry(store: Store, uri: Text, token: Text)
  {
    exists k :: k in store.registry.entries && OwnKey(store.registry, uri, token, k)
                && TargetId(store.registry.entries[k], store.salt) == IdOf(store.salt, uri, token)
  }

  lemma OwnEntryBlocks(store: Store, uri: Text, token: Text)
    requires HasOwnEntry(store, uri, token)
    ensures TargetBlocked(store, uri, token)
  {
    hide KeyOf, HashKey, TargetId, IdOf;
  }

  /** The block that stores it. */
  lemma BlockedHasOwnEntry(store: Store, disk: Disk, op: Operation)
    requires Sound(store, disk) && op.BlockTarget? && Prepare(store, op).Success?
    ensures HasOwnEntry(Prepare(store, op).value.0, op.uri, op.expected)
  {
    SoundParts(store, disk);
    EntriesAfter(store, op);
    hide Sound, Prepare, KeyOf, HashKey, TargetId, IdOf, RegistrySound, UniqueRequestIds, FileSound;
    var k := ResolveKey(store.registry, op.uri, op.expected);
    assert Overwrites(store, op, k);
    assert k in Prepare(store, op).value.0.registry.entries;
  }

  lemma PreparedKeepsOwnEntry(store: Store, op: Operation, uri: Text, token: Text)
    requires RegistrySound(store.registry, store.salt) && HasOwnEntry(store, uri, token)
    requires Prepare(store, op).Success? && !DropsEntry(store, op, IdOf(store.salt, uri, token))
    ensures HasOwnEntry(Prepare(store, op).value.0, uri, token)
  {
    EntriesAfter(store, op);
    hide Prepare, KeyOf, HashKey, TargetId, IdOf, RegistrySound, Overwrites, Adds;
    var id := IdOf(store.salt, uri, token);
    var k :| k in store.registry.entries && OwnKey(store.registry, uri, token, k)
             && TargetId(store.registry.entries[k], store.salt) == id;
    var next := Prepare(store, op).value.0;
    if Overwrites(store, op, k) {
      AddedUnder(store, op, k, id);
    }
    assert k in next.registry.entries;
  }

  /** An operation that adds an entry's identity stores it under the key it overwrites. */
  lemma AddedUnder(store: Store, op: Operation, k: Key, id: Id)
    requires RegistrySound(store.registry, store.salt) && Prepare(store, op).Success?
    requires Overwrites(store, op, k) && Adds(store, op, id)
    ensures var next := Prepare(store, op).value.0;
      k in next.registry.entries && TargetId(next.registry.entries[k], store.salt) == id
  {
    EntriesAfter(store, op);
    hide Prepare, ResolveKey, TargetId, IdOf, RegistrySound, Accepts, HasPending;
    var next := Prepare(store, op).value.0;
    assert k in next.registry.entries;
    assert Adds(store, op, TargetId(next.registry.entries[k], store.salt));
  }

  /** A restart stores a recorded target under its hash key. */
  lemma RestoredUnderHashKey(capacity: nat, salt: Salt, records: seq<PersistedTarget>, uri: Text, token: Text)
    requires Restore(capacity, salt, records).Some? && Recorded(records, IdOf(salt, uri, token))
    ensures var reg, key := Restore(capacity, salt, records).value, HashKey(salt, uri, token);
      key in reg.entries && TargetId(reg.entries[key], salt) == IdOf(salt, uri, token)
  {
    hide SaltedHash, Hex, KeyOf, RestoreInto;
    RestoredEntries(Empty(capacity, Some(salt)), records);
    var r :| r in records && RecordId(r) == IdOf(salt, uri, token);
    var reg, k := Restore(capacity, salt, records).value, RecordKey(r);
    var s :| s in records && RecordKey(s) == k && reg.entries[k] == RestoredTarget(s);
    HashedKeysDetermineNames(r.uri, r.expectedHash, s.uri, s.expectedHash);
  }

  lemma OwnUnderHashKey(store: Store, uri: Text, token: Text)
    requires store.registry.salt == Some(store.salt) && HashKey(store.salt, uri, token) in store.registry.entries
    requires TargetId(store.registry.entries[HashKey(store.salt, uri, token)], store.salt)
          == IdOf(store.salt, uri, token)
    ensures HasOwnEntry(store, uri, token)
  {
    hide HashKey, KeyOf, TargetId, IdOf;
  }

  lemma OwnIsHeld(store: Store, uri: Text, token: Text)
    requires HasOwnEntry(store, uri, token)
    ensures HeldByEntry(store.registry, store.salt, IdOf(store.salt, uri, token))
  {
    hide OwnKey, TargetId, IdOf;
  }

  lemma RestartKeepsOwnEntry(store: Store, disk: Disk, capacity: nat, uri: Text, token: Text)
    requires Sound(store, disk) && 0 < capacity && HasOwnEntry(store, uri, token)
    ensures var next := Reopen(disk, capacity);
      next.poison.Some? || HasOwnEntry(next, uri, token)
  {
    SoundParts(store, disk);
    ReadableFile(disk);
    hide Sound, FileSound, RegistrySound, Reopen, Restore, HasOwnEntry, Readable, SaltOn, RecordsOn, HashKey;
    hide IdOf, TargetId, HeldByEntry, HeldByPending, Recorded;
    if |RecordsOn(disk)| > capacity {
      ReopenIsOverfull(disk, capacity);
    } else {
      ReopenIsSound(disk, capacity);
      OwnIsHeld(store, uri, token);
      DiskIds(store, disk, IdOf(store.salt, uri, token));
      RestoredUnderHashKey(capacity, store.salt, RecordsOn(disk), uri, token);
      OwnUnderHashKey(Reopen(disk, capacity), uri, token);
    }
  }

  predicate NeverDropsEntry(w: World, events: seq<Event>, uri: Text, token: Text)
    decreases |events|
  {
    events == []
    || (!(TakesEffect(w, events[0]) && DropsEntry(w.store, events[0].op, IdOf(w.store.salt, uri, token)))
        && NeverDropsEntry(Step(w, events[0]), events[1..], uri, token))
  }

  lemma StepKeepsOwnEntry(w: World, e: Event, uri: Text, token: Text)
    requires SoundWorld(w) && (w.store.poison.Some? || HasOwnEntry(w.store, uri, token))
    requires TakesEffect(w, e) ==> !DropsEntry(w.store, e.op, IdOf(w.store.salt, uri, token))
    ensures var next := Step(w, e).store;
      next.poison.Some? || HasOwnEntry(next, uri, token)
  {
    hide Readable, RecordsOn, Reopen, Sound, Prepare, HasOwnEntry, DropsEntry, IdOf;
    if Overfull(w) {
      OverfullStays(w, e);
    } else {
      SoundParts(w.store, w.disk);
      if TakesEffect(w, e) {
        PreparedKeepsOwnEntry(w.store, e.op, uri, token);
        PrepareKeepsSound(w.store, w.disk, e.op);
        var (next, bytes, _) := Prepare(w.store, e.op).value;
        RestartKeepsOwnEntry(next, Some(bytes), w.capacity, uri, token);
      } else {
        RestartKeepsOwnEntry(w.store, w.disk, w.capacity, uri, token);
      }
    }
  }

  /**
   * For all names, inside the running process and across restarts: a target
   * whose own entry is stored stays blocked until an acknowledgement resolves
   * to an entry of it, or a block or promotion of another identity does.
   */
  lemma {:induction false} BlockedUntilOverwritten(w: World, events: seq<Event>, uri: Text, token: Text)
    requires SoundWorld(w) && (w.store.poison.Some? || HasOwnEntry(w.store, uri, token))
    requires NeverDropsEntry(w, events, uri, token)
    ensures TargetBlocked(Run(w, events).store, uri, token)
    decreases |events|
  {
    hide SoundWorld, HasOwnEntry, DropsEntry, IdOf, Step, TakesEffect, IsBlocked;
    if events == [] {
      if w.store.poison.None? {
        OwnEntryBlocks(w.store, uri, token);
      }
    } else {
      StepKeepsSound(w, events[0]);
      StepKeepsOwnEntry(w, events[0], uri, token);
      BlockedUntilOverwritten(Step(w, events[0]), events[1..], uri, token);
    }
  }

  // ---------------------------------------------------------------------
  // Well-named targets lose nothing by accident
  // ---------------------------------------------------------------------

  /** Where names cannot be confused, only an acknowledgement of the same identity takes an entry. */
  lemma NamedEntriesAreAcknowledged(store: Store, disk: Disk, op: Operation, id: Id)
    requires Good(store, disk) && WellNamedOperation(op)
    requires op.AcknowledgeTarget? ==> WellNamed(op.uri, op.expected)
    requires DropsEntry(store, op, id)
    ensures op.AcknowledgeTarget? && IdOf(store.salt, op.uri, op.expected) == id
  {
    hide Sound, FileInv, RegistryInv, WellNamed, ResolveKey, SaltedHash, HashOf, UniqueRequestIds, Accepts;
    var k :| k in store.registry.entries && TargetId(store.registry.entries[k], store.salt) == id
             && Overwrites(store, op, k);
    match op {
      case AcknowledgeTarget(_, uri, token, _) => ResolvedEntryId(store.registry, store.salt, uri, token);
      case BlockTarget(_, uri, token, _, _, _) => ResolvedEntryId(store.registry, store.salt, uri, token);
      case PromotePending(_, requestId) =>
        var p := Promoted(store, requestId).value;
        assert p in store.pending;
        ResolvedEntryId(store.registry, store.salt, p.uri, p.expected);
      case _ =>
    }
  }
}
