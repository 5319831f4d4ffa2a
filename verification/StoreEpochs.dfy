/**
 * What a restart keeps of a target beside its name: range, generation, verdict
 * and document epoch, and that the epoch gate holds after every run.
 */
module StoreEpochs {
  import opened Wrappers
  import opened Bytes
  import opened Sha256
  import opened RecoveryCodec
  import opened RecoveryRegistry
  import opened RecoveryStore
  import opened StoreInvariant
  import opened StoreRuns
  import opened StoreLimits
  import opened StoreHolders

  /** Persisting and reloading a blocked target unbinds its session, hashes its tokens and keeps all else. */
  lemma RestartKeepsTarget(t: BlockedTarget, salt: Salt)
    ensures RestoredTarget(IntoPersisted(t, salt))
         == t.(sessionId := [], expected := Hashed(HashOf(t.expected, salt)),
               replacement := Hashed(HashOf(t.replacement, salt)))
  {
  }

  /** A pending intent reloads as a block without verdict, with its own range, generation and epoch. */
  lemma RestartBlocksIntent(d: Descriptor, salt: Salt)
    ensures RestoredTarget(PendingRecord(d, salt))
         == BlockedTarget([], d.uri, Hashed(SaltedHash(salt, d.expected)), Hashed(SaltedHash(salt, d.replacement)),
                          d.rangeStart, d.rangeEnd, None, d.generation, d.documentEpoch)
    ensures PendingRecord(d, salt).requestId == d.requestId
  {
    hide SaltedHash;
  }

  /** What an operator block stores: unverified, of generation zero, and bound to no epoch. */
  lemma BlockedEntry(store: Store, disk: Disk, op: Operation)
    requires Sound(store, disk) && op.BlockTarget? && Prepare(store, op).Success?
    ensures var entries, key := Prepare(store, op).value.0.registry.entries,
                                ResolveKey(store.registry, op.uri, op.expected);
      key in entries
      && entries[key] == BlockedTarget(op.session, op.uri, Plain(op.expected), Plain(op.replacement),
                                       op.rangeStart, op.rangeEnd, None, 0, 0)
  {
    BlockSucceedsIff(store, disk, op);
    hide Sound, Prepare, ResolveKey;
  }

  /** What a promotion stores: the intent with its range and epoch, unverified and of generation zero. */
  lemma PromotedEntry(store: Store, disk: Disk, session: Text, requestId: Text)
    requires Sound(store, disk) && Promoted(store, requestId).Some?
    ensures Prepare(store, PromotePending(session, requestId)).Success?
    ensures var d := Promoted(store, requestId).value;
      var entries, key := Prepare(store, PromotePending(session, requestId)).value.0.registry.entries,
                          ResolveKey(store.registry, d.uri, d.expected);
      key in entries
      && entries[key] == BlockedTarget(session, d.uri, Plain(d.expected), Plain(d.replacement),
                                       d.rangeStart, d.rangeEnd, None, 0, d.documentEpoch)
  {
    hide *;
    PromotionIsPending(store, requestId);
    PromotionPrepares(store, disk, session, requestId);
    var op, d := PromotePending(session, requestId), Promoted(store, requestId).value;
    PreparedIsPerformed(store, op);
    PerformedPromotion(store, op);
    BlockStores(store.registry, session, d);
  }

  lemma PromotionIsPending(store: Store, requestId: Text)
    requires Promoted(store, requestId).Some?
    ensures var d := Promoted(store, requestId).value;
      && HasPending(store.pending, requestId) && d == store.pending[FirstPending(store.pending, requestId)]
      && Accepts(store.registry, d.uri, d.expected)
  {
    hide HasPending, FirstPending, Accepts;
  }

  /** A prepared operation is the operation on registry and intents. */
  lemma PreparedIsPerformed(store: Store, op: Operation)
    requires Prepare(store, op).Success?
    ensures Perform(op, store.registry, store.pending).Success?
    ensures var next := Prepare(store, op).value.0;
      && next.registry == Perform(op, store.registry, store.pending).value.0
      && next.salt == store.salt
  {
    hide Perform, Snapshot, Encode;
  }

  function BlockedBy(reg: Registry, session: Text, d: Descriptor): Result<Registry, RegistryError>
  {
    Block(reg, session, d.uri, d.expected, d.replacement, d.rangeStart, d.rangeEnd, d.documentEpoch)
  }

  lemma PerformedPromotion(store: Store, op: Operation)
    requires op.PromotePending? && HasPending(store.pending, op.requestId)
    ensures Perform(op, store.registry, store.pending).Success?
    ensures var d := store.pending[FirstPending(store.pending, op.requestId)];
      var block := BlockedBy(store.registry, op.session, d);
      Perform(op, store.registry, store.pending).value.0 == if block.Success? then block.value else store.registry
  {
    hide HasPending, FirstPending, Block;
  }

  lemma BlockStores(reg: Registry, session: Text, d: Descriptor)
    requires Accepts(reg, d.uri, d.expected)
    ensures BlockedBy(reg, session, d).Success?
    ensures var entries, key := BlockedBy(reg, session, d).value.entries, ResolveKey(reg, d.uri, d.expected);
      key in entries
      && entries[key] == BlockedTarget(session, d.uri, Plain(d.expected), Plain(d.replacement),
                                       d.rangeStart, d.rangeEnd, None, 0, d.documentEpoch)
  {
    hide ResolveKey;
  }

  // ---------------------------------------------------------------------
  // The epoch of a target
  // ---------------------------------------------------------------------

  /** Every holder of the identity carries this document epoch. */
  predicate HasEpoch(store: Store, id: Id, epoch: u64)
  {
    && (forall k :: k in store.registry.entries && TargetId(store.registry.entries[k], store.salt) == id ==>
          store.registry.entries[k].documentEpoch == epoch)
    && (forall d :: d in store.pending && DescriptorId(store.salt, d) == id ==> d.documentEpoch == epoch)
  }

  /** The epoch of the holder an operation adds; operator blocks are not bound to one. */
  function AddedEpoch(store: Store, op: Operation): u64
  {
    match op
    case BeginPending(d) => d.documentEpoch
    case PromotePending(_, requestId) =>
      var p := Promoted(store, requestId);
      if p.Some? then p.value.documentEpoch else 0
    case _ => 0
  }

  lemma AcceptedEpoch(reg: Registry, salt: Salt, session: Text, uri: Text, token: Text, replacement: Text,
                      start: u64, end: u64, epoch: u64)
    requires RegistrySound(reg, salt)
    ensures var result := Block(reg, session, uri, token, replacement, start, end, epoch);
      var key := ResolveKey(reg, uri, token);
      && (result.Success? <==> Accepts(reg, uri, token))
      && (result.Success? ==>
            && key in result.value.entries && result.value.entries[key].documentEpoch == epoch
            && forall k :: k in reg.entries && k != key ==>
                 k in result.value.entries && result.value.entries[k] == reg.entries[k])
  {
    hide SaltedHash, ResolveKey, RegistrySound;
    if Accepts(reg, uri, token) {
      BlockSound(reg, salt, session, uri, token, replacement, start, end, epoch);
    }
  }

  lemma EntryWasThere(store: Store, op: Operation, k: Key)
    requires RegistrySound(store.registry, store.salt) && Prepare(store, op).Success?
    requires k in Prepare(store, op).value.0.registry.entries && !Overwrites(store, op, k)
    ensures k in store.registry.entries
  {
    EntriesAfter(store, op);
    hide RegistrySound, Prepare, Overwrites;
  }

  /** Entry by entry: an operation keeps the epochs it does not overwrite and stores the added one. */
  lemma EpochsAfter(store: Store, op: Operation, k: Key)
    requires RegistrySound(store.registry, store.salt) && Prepare(store, op).Success?
    requires k in Prepare(store, op).value.0.registry.entries
    ensures var next := Prepare(store, op).value.0;
      if Overwrites(store, op, k) then next.registry.entries[k].documentEpoch == AddedEpoch(store, op)
      else k in store.registry.entries
           && next.registry.entries[k].documentEpoch == store.registry.entries[k].documentEpoch
  {
    hide *;
    PreparedIsPerformed(store, op);
    if !Overwrites(store, op, k) {
      EntryWasThere(store, op, k);
    }
    if op.PromotePending? {
      PromotedEpochs(store, op, k);
    } else {
      OtherEpochs(store, op, k);
    }
  }

  lemma PromotedEpochs(store: Store, op: Operation, k: Key)
    requires RegistrySound(store.registry, store.salt) && op.PromotePending?
    requires Perform(op, store.registry, store.pending).Success?
    requires k in Perform(op, store.registry, store.pending).value.0.entries
    requires !Overwrites(store, op, k) ==> k in store.registry.entries
    ensures var next := Perform(op, store.registry, store.pending).value.0;
      if Overwrites(store, op, k) then next.entries[k].documentEpoch == AddedEpoch(store, op)
      else next.entries[k].documentEpoch == store.registry.entries[k].documentEpoch
  {
    hide RegistrySound, Block, ResolveKey, Accepts;
    if HasPending(store.pending, op.requestId) {
      var d := store.pending[FirstPending(store.pending, op.requestId)];
      AcceptedEpoch(store.registry, store.salt, op.session, d.uri, d.expected, d.replacement,
                    d.rangeStart, d.rangeEnd, d.documentEpoch);
    }
  }

  lemma OtherEpochs(store: Store, op: Operation, k: Key)
    requires RegistrySound(store.registry, store.salt) && !op.PromotePending?
    requires Perform(op, store.registry, store.pending).Success?
    requires k in Perform(op, store.registry, store.pending).value.0.entries
    requires !Overwrites(store, op, k) ==> k in store.registry.entries
    ensures var next := Perform(op, store.registry, store.pending).value.0;
      if Overwrites(store, op, k) then next.entries[k].documentEpoch == AddedEpoch(store, op)
      else next.entries[k].documentEpoch == store.registry.entries[k].documentEpoch
  {
    hide RegistrySound, Block, Reconcile, Acknowledge, List, SaltedHash, ResolveKey, HashOf, Accepts;
    hide RetainOthers, HasPending, AddedEpoch;
    UnboundUnlessIntent(store, op);
    var reg, salt := store.registry, store.salt;
    match op {
      case BlockTarget(session, uri, token, replacement, start, end) =>
        AcceptedEpoch(reg, salt, session, uri, token, replacement, start, end, 0);
      case ReconcileTarget(session, uri, token, epoch, live) =>
        ReconcileTouchesState(reg, session, uri, token, epoch, live);
      case AcknowledgeTarget(session, uri, token, epoch) =>
        AcknowledgeSound(reg, salt, session, uri, token, epoch);
      case _ =>
    }
  }

  lemma UnboundUnlessIntent(store: Store, op: Operation)
    ensures !op.PromotePending? && !op.BeginPending? ==> AddedEpoch(store, op) == 0
  {
  }

  lemma PreparedKeepsEpoch(store: Store, op: Operation, id: Id, epoch: u64)
    requires RegistrySound(store.registry, store.salt) && UniqueRequestIds(store.pending)
    requires Prepare(store, op).Success? && HasEpoch(store, id, epoch)
    requires Adds(store, op, id) ==> AddedEpoch(store, op) == epoch
    ensures HasEpoch(Prepare(store, op).value.0, id, epoch)
  {
    EntriesAfter(store, op);
    hide RegistrySound, UniqueRequestIds, Prepare, Overwrites, TargetId, IdOf;
    var next := Prepare(store, op).value.0;
    forall k | k in next.registry.entries && TargetId(next.registry.entries[k], next.salt) == id
      ensures next.registry.entries[k].documentEpoch == epoch
    {
      EpochsAfter(store, op, k);
      hide Adds, AddedEpoch;
    }
    forall d | d in next.pending && DescriptorId(next.salt, d) == id
      ensures d.documentEpoch == epoch
    {
      IntentsAfter(store, op, d);
    }
  }

  // ---------------------------------------------------------------------
  // Across a restart
  // ---------------------------------------------------------------------

  lemma RestoredEpochs(capacity: nat, salt: Salt, records: seq<PersistedTarget>, id: Id, epoch: u64)
    requires Restore(capacity, salt, records).Some?
    requires forall r :: r in records && RecordId(r) == id ==> r.documentEpoch == epoch
    ensures var reg := Restore(capacity, salt, records).value;
      forall k :: k in reg.entries && TargetId(reg.entries[k], salt) == id ==> reg.entries[k].documentEpoch == epoch
  {
    hide RestoreInto, RecordKey, SaltedHash;
    var reg := Restore(capacity, salt, records).value;
    RestoredEntries(Empty(capacity, Some(salt)), records);
    forall k | k in reg.entries && TargetId(reg.entries[k], salt) == id
      ensures reg.entries[k].documentEpoch == epoch
    {
      var r :| r in records && RecordKey(r) == k && reg.entries[k] == RestoredTarget(r);
    }
  }

  lemma SnapshotEpochs(store: Store, id: Id, epoch: u64)
    requires RegistrySound(store.registry, store.salt) && HasEpoch(store, id, epoch)
    ensures forall r :: r in Snapshot(store.registry, store.pending, store.salt) && RecordId(r) == id
              ==> r.documentEpoch == epoch
  {
    hide RegistrySound, Snapshot, SaltedHash, HashOf;
    forall r | r in Snapshot(store.registry, store.pending, store.salt) && RecordId(r) == id
      ensures r.documentEpoch == epoch
    {
      SnapshotRecord(store.registry, store.pending, store.salt, r);
      if k :| k in store.registry.entries && IntoPersisted(store.registry.entries[k], store.salt) == r {
        assert TargetId(store.registry.entries[k], store.salt) == id;
      } else {
        var d :| d in store.pending && PendingRecord(d, store.salt) == r;
        assert DescriptorId(store.salt, d) == id;
      }
    }
  }

  lemma RestartKeepsEpoch(store: Store, disk: Disk, id: Id, epoch: u64)
    requires Sound(store, disk) && HasEpoch(store, id, epoch)
    ensures var next := Reopen(disk, store.registry.capacity);
      next.poison.Some? || HasEpoch(next, id, epoch)
  {
    SoundParts(store, disk);
    ReadableFile(disk);
    SnapshotEpochs(store, id, epoch);
    var capacity, records := store.registry.capacity, RecordsOn(disk);
    hide RegistrySound, UniqueRequestIds, Snapshot, Decode, Restore, Encodable, Reopen, TargetId, IdOf, RecordsOn;
    if |records| > capacity {
      ReopenIsOverfull(disk, capacity);
    } else {
      ReopenIsSound(disk, capacity);
      if records == Snapshot(store.registry, store.pending, store.salt) {
        RestoredEpochs(capacity, store.salt, records, id, epoch);
      }
    }
  }

  // ---------------------------------------------------------------------
  // Over every run
  // ---------------------------------------------------------------------

  /** Whatever the run adds to the identity carries the epoch. */
  predicate AddsOnly(w: World, events: seq<Event>, id: Id, epoch: u64)
    decreases |events|
  {
    events == []
    || ((TakesEffect(w, events[0]) && Adds(w.store, events[0].op, id) ==> AddedEpoch(w.store, events[0].op) == epoch)
        && AddsOnly(Step(w, events[0]), events[1..], id, epoch))
  }

  lemma StepKeepsEpoch(w: World, e: Event, id: Id, epoch: u64)
    requires SoundWorld(w) && (w.store.poison.Some? || HasEpoch(w.store, id, epoch))
    requires TakesEffect(w, e) && Adds(w.store, e.op, id) ==> AddedEpoch(w.store, e.op) == epoch
    ensures var next := Step(w, e).store;
      next.poison.Some? || HasEpoch(next, id, epoch)
  {
    hide Readable, RecordsOn, Reopen, Sound, Prepare, HasEpoch, Adds, AddedEpoch;
    if Overfull(w) {
      OverfullStays(w, e);
    } else {
      SoundParts(w.store, w.disk);
      if TakesEffect(w, e) {
        PreparedKeepsEpoch(w.store, e.op, id, epoch);
        PrepareKeepsSound(w.store, w.disk, e.op);
        var (next, bytes, _) := Prepare(w.store, e.op).value;
        RestartKeepsEpoch(next, Some(bytes), id, epoch);
      } else {
        RestartKeepsEpoch(w.store, w.disk, id, epoch);
      }
    }
  }

  lemma {:induction false} RunKeepsEpoch(w: World, events: seq<Event>, id: Id, epoch: u64)
    requires SoundWorld(w) && (w.store.poison.Some? || HasEpoch(w.store, id, epoch)) && AddsOnly(w, events, id, epoch)
    ensures var end := Run(w, events).store;
      end.poison.Some? || HasEpoch(end, id, epoch)
    decreases |events|
  {
    hide SoundWorld, HasEpoch, Adds, AddedEpoch, Step, TakesEffect;
    if events != [] {
      StepKeepsSound(w, events[0]);
      StepKeepsEpoch(w, events[0], id, epoch);
      RunKeepsEpoch(Step(w, events[0]), events[1..], id, epoch);
    }
  }

  // ---------------------------------------------------------------------
  // The gate
  // ---------------------------------------------------------------------

  /** A target bound to an epoch answers every other epoch with a mismatch, never its own; epoch zero binds nothing. */
  predicate Gated(store: Store, uri: Text, token: Text, bound: u64, session: Text, epoch: u64, live: Text)
  {
    var mismatch := bound != 0 && epoch != bound;
    && (Prepare(store, ReconcileTarget(session, uri, token, epoch, live)) == Failure(Refused(EpochMismatch))
        <==> mismatch)
    && (Prepare(store, AcknowledgeTarget(session, uri, token, epoch)) == Failure(Refused(EpochMismatch)) <==> mismatch)
  }

  lemma UnboundIsGated(store: Store, uri: Text, token: Text, bound: u64, session: Text, epoch: u64, live: Text)
    requires store.poison.None? && IsBlocked(store.registry, uri, token)
    requires var t := store.registry.entries[ResolveKey(store.registry, uri, token)];
      t.sessionId == [] && t.documentEpoch == bound
    ensures Gated(store, uri, token, bound, session, epoch, live)
  {
    if bound != 0 && epoch != bound {
      RebindRefused(store, uri, token, session, epoch, live);
    } else {
      RebindAccepted(store, uri, token, session, epoch, live);
    }
    hide Prepare, ResolveKey;
  }

  lemma RebindAccepted(store: Store, uri: Text, token: Text, session: Text, epoch: u64, live: Text)
    requires store.poison.None? && IsBlocked(store.registry, uri, token)
    requires var t := store.registry.entries[ResolveKey(store.registry, uri, token)];
      t.sessionId == [] && (t.documentEpoch == 0 || t.documentEpoch == epoch)
    ensures Prepare(store, ReconcileTarget(session, uri, token, epoch, live)) != Failure(Refused(EpochMismatch))
    ensures Prepare(store, AcknowledgeTarget(session, uri, token, epoch)) != Failure(Refused(EpochMismatch))
  {
    hide ResolveKey, KeyOf, VerdictOf, Encode, Snapshot, Block, List, RetainOthers, FirstPending, HasPending, Without;
    var t := store.registry.entries[ResolveKey(store.registry, uri, token)];
    assert Bind(t, session, epoch) == Success(t.(sessionId := session));
  }

  lemma RestoredUnbound(capacity: nat, salt: Salt, records: seq<PersistedTarget>, k: Key)
    requires Restore(capacity, salt, records).Some? && k in Restore(capacity, salt, records).value.entries
    ensures Restore(capacity, salt, records).value.entries[k].sessionId == []
    ensures KeyRecorded(records, k)
  {
    hide RestoreInto, RecordKey;
    RestoredEntries(Empty(capacity, Some(salt)), records);
    var reg := Restore(capacity, salt, records).value;
    var r :| r in records && RecordKey(r) == k && reg.entries[k] == RestoredTarget(r);
  }

  /** A reopened store gates a recorded target by the epoch all its holders carry. */
  lemma ReopenedIsGated(store: Store, disk: Disk, uri: Text, token: Text, bound: u64,
                        session: Text, epoch: u64, live: Text)
    requires Sound(store, disk) && HasEpoch(store, IdOf(store.salt, uri, token), bound)
    requires Readable(disk) && |RecordsOn(disk)| <= store.registry.capacity
    requires Recorded(RecordsOn(disk), IdOf(store.salt, uri, token))
    requires !KeyRecorded(RecordsOn(disk), KeyOf(uri, token))
    ensures Gated(Reopen(disk, store.registry.capacity), uri, token, bound, session, epoch, live)
  {
    var id, capacity, records := IdOf(store.salt, uri, token), store.registry.capacity, RecordsOn(disk);
    SoundParts(store, disk);
    RestartKeepsEpoch(store, disk, id, bound);
    hide Sound, Reopen, Restore, KeyOf, RecordsOn, Recorded, KeyRecorded, TargetId, IdOf, Gated, RegistrySound, SaltOn;
    hide FileSound, UniqueRequestIds, SaltedHash, Hex;
    CapacityIsPositive(store, disk);
    ReopenIsSound(disk, capacity);
    var next := Reopen(disk, capacity);
    RestoredUnderHashKey(capacity, store.salt, records, uri, token);
    RestoredUnbound(capacity, store.salt, records, HashKey(store.salt, uri, token));
    if KeyOf(uri, token) in next.registry.entries {
      RestoredUnbound(capacity, store.salt, records, KeyOf(uri, token));
    }
    SoundParts(next, disk);
    UnboundIsGated(next, uri, token, bound, session, epoch, live);
  }

  lemma CapacityIsPositive(store: Store, disk: Disk)
    requires Sound(store, disk)
    ensures 0 < store.registry.capacity
  {
  }

  /**
   * Over every run that takes no holder from the target and adds none of
   * another epoch, the next reopening gates it by that epoch.
   */
  lemma EpochBindsOverRun(w: World, events: seq<Event>, uri: Text, token: Text, salt: Salt, bound: u64,
                          session: Text, epoch: u64, live: Text)
    requires SoundWorld(w) && Readable(w.disk) && SaltOn(w.disk) == salt
    requires w.store.poison.Some? || HasEpoch(w.store, IdOf(salt, uri, token), bound)
    requires Recorded(RecordsOn(w.disk), IdOf(salt, uri, token))
    requires NeverDrops(w, events, IdOf(salt, uri, token)) && AddsOnly(w, events, IdOf(salt, uri, token), bound)
    requires var disk := Run(w, events).disk;
      Readable(disk) && |RecordsOn(disk)| <= w.capacity && !KeyRecorded(RecordsOn(disk), KeyOf(uri, token))
    ensures Gated(Reopen(Run(w, events).disk, w.capacity), uri, token, bound, session, epoch, live)
  {
    RecordedUntilDropped(w, events, uri, token, salt);
    RunKeepsEpoch(w, events, IdOf(salt, uri, token), bound);
    RunKeepsSound(w, events);
    RunKeepsWorldCapacity(w, events);
    var end := Run(w, events);
    hide Run, Sound, Readable, RecordsOn, Recorded, KeyRecorded, SaltOn, HasEpoch, IdOf, KeyOf, Gated, Reopen;
    hide TargetBlocked;
    SoundParts(end.store, end.disk);
    ReopenedIsGated(end.store, end.disk, uri, token, bound, session, epoch, live);
  }

  lemma {:induction false} RunKeepsWorldCapacity(w: World, events: seq<Event>)
    ensures Run(w, events).capacity == w.capacity
    decreases |events|
  {
    if events != [] {
      assert Step(w, events[0]).capacity == w.capacity;
      hide Step;
      RunKeepsWorldCapacity(Step(w, events[0]), events[1..]);
    }
  }

  /**
   * End to end: an intent whose target no holder of another epoch shares is
   * promoted and written; after any run that takes nothing from its target and
   * adds nothing of another epoch, and a restart, its target refuses to be
   * reconciled or acknowledged under exactly the epochs other than its own.
   */
  lemma PromotionBindsEpoch(w: World, session: Text, requestId: Text, events: seq<Event>,
                            later: Text, epoch: u64, live: Text)
    requires Sound(w.store, w.disk) && w.store.registry.capacity == w.capacity
    requires Promoted(w.store, requestId).Some?
    requires var d := Promoted(w.store, requestId).value;
      HasEpoch(w.store, DescriptorId(w.store.salt, d), d.documentEpoch)
    requires var d, promoted := Promoted(w.store, requestId).value,
                                Step(w, Do(PromotePending(session, requestId), true));
      && NeverDrops(promoted, events, DescriptorId(w.store.salt, d))
      && AddsOnly(promoted, events, DescriptorId(w.store.salt, d), d.documentEpoch)
      && var disk := Run(promoted, events).disk;
         Readable(disk) && |RecordsOn(disk)| <= w.capacity && !KeyRecorded(RecordsOn(disk), KeyOf(d.uri, d.expected))
    ensures var d, promoted := Promoted(w.store, requestId).value,
                               Step(w, Do(PromotePending(session, requestId), true));
      Gated(Reopen(Run(promoted, events).disk, w.capacity), d.uri, d.expected, d.documentEpoch, later, epoch, live)
  {
    var op, d := PromotePending(session, requestId), Promoted(w.store, requestId).value;
    var id := DescriptorId(w.store.salt, d);
    PromotionIsWritten(w, session, requestId);
    hide Run, Sound, Readable, RecordsOn, Recorded, KeyRecorded, SaltOn, HasEpoch, KeyOf, Gated, Reopen, SaltedHash;
    hide Step, NeverDrops, AddsOnly, Prepare, Promoted;
    var promoted := Step(w, Do(op, true));
    EpochBindsOverRun(promoted, events, d.uri, d.expected, w.store.salt, d.documentEpoch, later, epoch, live);
  }

  lemma PromotionIsWritten(w: World, session: Text, requestId: Text)
    requires Sound(w.store, w.disk) && w.store.registry.capacity == w.capacity
    requires Promoted(w.store, requestId).Some?
    requires var d := Promoted(w.store, requestId).value;
      HasEpoch(w.store, DescriptorId(w.store.salt, d), d.documentEpoch)
    ensures var d, next := Promoted(w.store, requestId).value, Step(w, Do(PromotePending(session, requestId), true));
      var id := DescriptorId(w.store.salt, d);
      && SoundWorld(next) && next.capacity == w.capacity && Readable(next.disk) && SaltOn(next.disk) == w.store.salt
      && HasEpoch(next.store, id, d.documentEpoch) && Recorded(RecordsOn(next.disk), id)
  {
    var op, d := PromotePending(session, requestId), Promoted(w.store, requestId).value;
    var id := DescriptorId(w.store.salt, d);
    PromotionIsPending(w.store, requestId);
    PromotionPrepares(w.store, w.disk, session, requestId);
    PromotionAdds(w.store, op);
    hide *;
    PromotionWrites(w, op, id, d.documentEpoch);
  }

  lemma PromotionAdds(store: Store, op: Operation)
    requires op.PromotePending? && Promoted(store, op.requestId).Some?
    ensures var d := Promoted(store, op.requestId).value;
      Adds(store, op, DescriptorId(store.salt, d)) && AddedEpoch(store, op) == d.documentEpoch
  {
    hide Promoted, SaltedHash;
  }

  lemma PromotionWrites(w: World, op: Operation, id: Id, epoch: u64)
    requires Sound(w.store, w.disk) && w.store.registry.capacity == w.capacity
    requires Prepare(w.store, op).Success? && HasEpoch(w.store, id, epoch)
    requires Adds(w.store, op, id) && AddedEpoch(w.store, op) == epoch
    ensures var next := Step(w, Do(op, true));
      && SoundWorld(next) && next.capacity == w.capacity && Readable(next.disk) && SaltOn(next.disk) == w.store.salt
      && HasEpoch(next.store, id, epoch) && Recorded(RecordsOn(next.disk), id)
  {
    hide *;
    CapacityIsPositive(w.store, w.disk);
    SoundParts(w.store, w.disk);
    PreparedKeepsEpoch(w.store, op, id, epoch);
    HoldersAfter(w.store, op, id);
    PrepareKeepsSound(w.store, w.disk, op);
    WrittenStep(w, op);
    var (next, bytes, _) := Prepare(w.store, op).value;
    SoundParts(next, Some(bytes));
    ReadableFile(Some(bytes));
    DiskIds(next, Some(bytes), id);
    HoldsWhere(next, id);
    SoundIsSoundWorld(Step(w, Do(op, true)));
  }

  lemma WrittenStep(w: World, op: Operation)
    requires Prepare(w.store, op).Success?
    ensures var (next, bytes, _) := Prepare(w.store, op).value;
      Step(w, Do(op, true)) == World(next, Some(bytes), w.capacity)
  {
    hide Prepare;
  }

  lemma HoldsWhere(store: Store, id: Id)
    ensures Holds(store, id)
      <==> HeldByEntry(store.registry, store.salt, id) || HeldByPending(store.pending, store.salt, id)
  {
    hide HeldByEntry, HeldByPending;
  }

  lemma SoundIsSoundWorld(w: World)
    requires 0 < w.capacity && Sound(w.store, w.disk) && w.store.registry.capacity == w.capacity
    ensures SoundWorld(w)
  {
    hide Sound, Overfull;
  }

  lemma PromotionPrepares(store: Store, disk: Disk, session: Text, requestId: Text)
    requires Sound(store, disk) && HasPending(store.pending, requestId)
    ensures Prepare(store, PromotePending(session, requestId)).Success?
  {
    PromoteOutcome(store, disk, session, requestId);
    hide Sound, Prepare;
  }
}
