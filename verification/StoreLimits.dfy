/**
 * Capacity, lost intents, confusable names and the epoch gate: what the store
 * guarantees at its limits, and the inputs for which it guarantees less.
 */
module StoreLimits {
  import opened Wrappers
  import opened Bytes
  import opened Sha256
  import opened RecoveryCodec
  import opened RecoveryRegistry
  import opened RecoveryStore
  import opened StoreInvariant
  import opened StoreRuns

  // ---------------------------------------------------------------------
  // What fits into the file
  // ---------------------------------------------------------------------

  predicate TargetEncodable(t: BlockedTarget)
  {
    0 < |t.uri| <= MAX_URI_BYTES && t.rangeStart <= t.rangeEnd
  }

  predicate DescriptorEncodable(d: Descriptor)
  {
    && 0 < |d.uri| <= MAX_URI_BYTES && d.rangeStart <= d.rangeEnd
    && 0 < |d.requestId| <= MAX_REQUEST_ID_BYTES
  }

  lemma TargetRecord(t: BlockedTarget, salt: Salt)
    ensures RecordEncodable(IntoPersisted(t, salt)) <==> TargetEncodable(t)
  {
  }

  lemma DescriptorRecord(d: Descriptor, salt: Salt)
    ensures RecordEncodable(PendingRecord(d, salt)) <==> DescriptorEncodable(d)
  {
  }

  lemma SnapshotEncodableIff(reg: Registry, pending: seq<Descriptor>, salt: Salt)
    requires RegistrySound(reg, salt)
    ensures Encodable(Snapshot(reg, pending, salt))
      <==> && |reg.order| + |pending| <= MAX_ENTRIES
           && (forall k :: k in reg.entries ==> TargetEncodable(reg.entries[k]))
           && (forall d :: d in pending ==> DescriptorEncodable(d))
  {
    hide RegistrySound, Snapshot, IntoPersisted, PendingRecord, RecordEncodable, TargetEncodable, DescriptorEncodable;
    SnapshotLength(reg, pending, salt);
    var records := Snapshot(reg, pending, salt);
    forall k | k in reg.entries
      ensures IntoPersisted(reg.entries[k], salt) in records
      ensures RecordEncodable(IntoPersisted(reg.entries[k], salt)) <==> TargetEncodable(reg.entries[k])
    {
      SnapshotRecord(reg, pending, salt, IntoPersisted(reg.entries[k], salt));
      TargetRecord(reg.entries[k], salt);
    }
    forall d | d in pending
      ensures PendingRecord(d, salt) in records
      ensures RecordEncodable(PendingRecord(d, salt)) <==> DescriptorEncodable(d)
    {
      SnapshotRecord(reg, pending, salt, PendingRecord(d, salt));
      DescriptorRecord(d, salt);
    }
    forall r | r in records
      ensures (exists k :: k in reg.entries && IntoPersisted(reg.entries[k], salt) == r)
           || (exists d :: d in pending && PendingRecord(d, salt) == r)
    {
      SnapshotRecord(reg, pending, salt, r);
    }
  }

  /** Every sound state shares one bound between blocks and intents. */
  lemma SharedBound(store: Store, disk: Disk)
    requires Sound(store, disk)
    ensures |store.registry.order| + |store.pending| <= MAX_ENTRIES
    ensures forall k :: k in store.registry.entries ==> TargetEncodable(store.registry.entries[k])
    ensures forall d :: d in store.pending ==> DescriptorEncodable(d)
  {
    hide RegistrySound, Decode, Snapshot, Mirrors, Encodable, TargetEncodable, DescriptorEncodable;
    SnapshotEncodableIff(store.registry, store.pending, store.salt);
  }

  // ---------------------------------------------------------------------
  // Beginning an intent
  // ---------------------------------------------------------------------

  /** Exactly when a preflight can be made durable. */
  lemma BeginSucceedsIff(store: Store, disk: Disk, d: Descriptor)
    requires Sound(store, disk)
    ensures Prepare(store, BeginPending(d)).Success?
      <==> HasPending(store.pending, d.requestId)
           || (|store.registry.order| + |store.pending| < store.registry.capacity
               && |store.registry.order| + |store.pending| < MAX_ENTRIES && DescriptorEncodable(d))
    ensures Prepare(store, BeginPending(d)).Success? && !HasPending(store.pending, d.requestId)
      ==> Prepare(store, BeginPending(d)).value.0 == store.(pending := store.pending + [d])
  {
    hide RegistrySound, UniqueRequestIds, Decode, Snapshot, Mirrors, Encodable, TargetEncodable, DescriptorEncodable;
    hide FileBytes;
    var reg, pending, salt := store.registry, store.pending, store.salt;
    SnapshotEncodableIff(reg, pending, salt);
    SnapshotEncodableIff(reg, pending + [d], salt);
    EncodeSucceedsIff(salt, Snapshot(reg, pending, salt));
    EncodeSucceedsIff(salt, Snapshot(reg, pending + [d], salt));
    ListLength(reg, salt);
    assert d in pending + [d];
  }

  lemma ListLength(reg: Registry, salt: Salt)
    requires RegistrySound(reg, salt)
    ensures |List(reg, reg.order)| == |reg.order|
  {
    ListMembers(reg, reg.order);
  }

  // ---------------------------------------------------------------------
  // Promoting an intent
  // ---------------------------------------------------------------------

  /** What promotion leaves: the intent is gone, and blocked unless the registry refused it. */
  lemma PromoteOutcome(store: Store, disk: Disk, session: Text, id: Text)
    requires Sound(store, disk) && HasPending(store.pending, id)
    ensures var d := store.pending[FirstPending(store.pending, id)];
      var kept := IsBlocked(store.registry, d.uri, d.expected)
                  || |store.registry.order| != store.registry.capacity;
      && Prepare(store, PromotePending(session, id)).Success?
      && Prepare(store, PromotePending(session, id)).value.2 == Changed(kept)
      && var next := Prepare(store, PromotePending(session, id)).value.0;
      && !HasPending(next.pending, id) && |next.pending| == |store.pending| - 1
      && (forall e :: e in next.pending <==> e in store.pending && e != d)
      && (kept ==> TargetBlocked(next, d.uri, d.expected))
      && (!kept ==> next.registry == store.registry)
  {
    hide RegistrySound, Decode, Snapshot, Mirrors, Encodable, TargetEncodable, DescriptorEncodable, FileBytes;
    hide ResolveKey;
    var reg, pending, salt := store.registry, store.pending, store.salt;
    var index := FirstPending(pending, id);
    var d := pending[index];
    assert d in pending;
    var rest := pending[..index] + pending[index + 1..];
    RemovedOnce(pending, index);
    SharedBound(store, disk);
    if Block(reg, session, d.uri, d.expected, d.replacement, d.rangeStart, d.rangeEnd, d.documentEpoch).Success? {
      var next := Block(reg, session, d.uri, d.expected, d.replacement, d.rangeStart, d.rangeEnd,
                        d.documentEpoch).value;
      BlockSound(reg, salt, session, d.uri, d.expected, d.replacement, d.rangeStart, d.rangeEnd, d.documentEpoch);
      BlockedAfterBlock(reg, session, d.uri, d.expected, d.replacement, d.rangeStart, d.rangeEnd, d.documentEpoch);
      DescriptorTarget(session, d);
      hide Block, FreshTarget;
      SnapshotEncodableIff(next, rest, salt);
      EncodeSucceedsIff(salt, Snapshot(next, rest, salt));
    } else {
      SnapshotEncodableIff(reg, rest, salt);
      EncodeSucceedsIff(salt, Snapshot(reg, rest, salt));
    }
  }

  lemma DescriptorTarget(session: Text, d: Descriptor)
    requires DescriptorEncodable(d)
    ensures TargetEncodable(FreshTarget(session, d.uri, d.expected, d.replacement, d.rangeStart, d.rangeEnd,
                                        d.documentEpoch))
  {
  }

  lemma BlockedAfterBlock(reg: Registry, session: Text, uri: Text, expected: Text, replacement: Text,
                          start: u64, end: u64, epoch: u64)
    requires Block(reg, session, uri, expected, replacement, start, end, epoch).Success?
    ensures IsBlocked(Block(reg, session, uri, expected, replacement, start, end, epoch).value, uri, expected)
  {
    hide SaltedHash, Hex, KeyOf;
  }

  lemma RemovedOnce(pending: seq<Descriptor>, index: nat)
    requires index < |pending| && UniqueRequestIds(pending)
    ensures var rest := pending[..index] + pending[index + 1..];
      && |rest| == |pending| - 1
      && !HasPending(rest, pending[index].requestId)
      && (forall e :: e in rest <==> e in pending && e != pending[index])
  {
    var left, right := pending[..index], pending[index + 1..];
    assert pending == left + [pending[index]] + right;
    forall e | e in left || e in right
      ensures e.requestId != pending[index].requestId
    {
      if e in left {
        var i :| 0 <= i < index && pending[i] == e;
      } else {
        var i :| 0 <= i < |right| && right[i] == e;
        assert e == pending[index + 1 + i];
      }
    }
  }

  /**
   * With the default capacity a pending intent is never dropped: promotion
   * succeeds and leaves its target blocked whenever the write succeeds, and a
   * failed write leaves memory and file as they were.
   */
  lemma IntentIsNeverLost(store: Store, disk: Disk, session: Text, id: Text, writes: bool)
    requires Sound(store, disk) && store.registry.capacity >= MAX_ENTRIES
    requires HasPending(store.pending, id)
    ensures var d := store.pending[FirstPending(store.pending, id)];
      var (next, file, result) := Mutate(store, disk, PromotePending(session, id), writes);
      if writes then result == Success(Changed(true)) && TargetBlocked(next, d.uri, d.expected)
      else result == Failure(WriteFailed) && next == store && file == disk
  {
    hide RegistrySound, UniqueRequestIds, Decode, Snapshot, Mirrors, Encodable, Prepare, IsBlocked;
    SharedBound(store, disk);
    PromoteOutcome(store, disk, session, id);
  }

  /** A failed operation changes neither memory nor file; a successful one is exactly what the file says. */
  lemma MutationIsAtomic(store: Store, disk: Disk, op: Operation, writes: bool)
    requires Sound(store, disk)
    ensures var (next, file, result) := Mutate(store, disk, op, writes);
      && Sound(next, file)
      && (Good(store, disk) && WellNamedOperation(op) ==> Good(next, file))
      && (result.Failure? ==> next == store && file == disk)
      && (result.Success? ==> writes && RecordsOn(file) == Snapshot(next.registry, next.pending, next.salt))
  {
    SoundFile(store, disk);
    hide Sound, Good, Prepare, RecordsOn, Snapshot, WellNamedOperation, Readable;
    if Prepare(store, op).Success? {
      PrepareKeepsSound(store, disk, op);
      var (next, bytes, _) := Prepare(store, op).value;
      SoundFile(next, Some(bytes));
      if Good(store, disk) && WellNamedOperation(op) {
        PrepareKeepsGood(store, disk, op);
      }
    }
  }

  lemma SoundFile(store: Store, disk: Disk)
    requires Sound(store, disk)
    ensures Readable(disk) && FileSound(disk) && SaltOn(disk) == store.salt && |RecordsOn(disk)| <= MAX_ENTRIES
    ensures store.poison.None? && Encodable(Snapshot(store.registry, store.pending, store.salt))
  {
    hide RegistrySound, UniqueRequestIds, Snapshot, Mirrors, Decode;
  }

  /**
   * With the default capacity every state a run of operations, crashes and
   * restarts reaches is unpoisoned, within the shared bound, encodable, and
   * reopens unpoisoned.
   */
  lemma ReachableStatesFit(capacity: nat, salt: Salt, events: seq<Event>)
    requires MAX_ENTRIES <= capacity
    ensures var (store, disk) := Open(None, capacity, true, Some(salt), true);
      var w := Run(World(store, disk, capacity), events);
      && w.store.poison.None?
      && |w.store.registry.order| + |w.store.pending| <= MAX_ENTRIES
      && Encodable(Snapshot(w.store.registry, w.store.pending, w.store.salt))
      && Reopen(w.disk, capacity).poison.None?
  {
    hide Open, Run, Good, Sound, Inv, Overfull, FileSound, RecordsOn, Reopen, Snapshot, Encodable;
    FreshStoreIsSound(capacity, salt);
    var (store, disk) := Open(None, capacity, true, Some(salt), true);
    var w := Run(World(store, disk, capacity), events);
    NotOverfull(World(store, disk, capacity), events);
    SoundFile(w.store, w.disk);
    SharedBound(w.store, w.disk);
    ReopenIsSound(w.disk, capacity);
    SoundFile(Reopen(w.disk, capacity), w.disk);
  }

  lemma FreshStoreIsSound(capacity: nat, salt: Salt)
    requires 0 < capacity
    ensures var (store, disk) := Open(None, capacity, true, Some(salt), true);
      && Sound(store, disk) && store.registry == Empty(capacity, None) && store.pending == []
  {
    FreshStoreIsInv(capacity, salt);
    hide Open, Sound;
  }

  /** Below its limit a file never overfills a store of the default capacity. */
  lemma {:induction false} NotOverfull(w: World, events: seq<Event>)
    requires Sound(w.store, w.disk) && w.store.registry.capacity == w.capacity && MAX_ENTRIES <= w.capacity
    ensures Sound(Run(w, events).store, Run(w, events).disk) && Run(w, events).capacity == w.capacity
    decreases |events|
  {
    hide Sound, RecordsOn, Reopen, Step, Prepare;
    if events != [] {
      StepIsSound(w, events[0]);
      NotOverfull(Step(w, events[0]), events[1..]);
    }
  }

  lemma StepIsSound(w: World, e: Event)
    requires Sound(w.store, w.disk) && w.store.registry.capacity == w.capacity && MAX_ENTRIES <= w.capacity
    ensures var next := Step(w, e);
      Sound(next.store, next.disk) && next.store.registry.capacity == next.capacity == w.capacity
  {
    hide Sound, RecordsOn, Reopen, Prepare, FileSound;
    SoundFile(w.store, w.disk);
    ReopenIsSound(w.disk, w.capacity);
    if !e.Restart? && Prepare(w.store, e.op).Success? {
      PrepareKeepsSound(w.store, w.disk, e.op);
      var (next, bytes, _) := Prepare(w.store, e.op).value;
      SoundFile(next, Some(bytes));
      ReopenIsSound(Some(bytes), w.capacity);
    }
  }

  /**
   * When an operator block can be made durable: the target is blocked already
   * or the queue is not at capacity and the record limit leaves room, and the
   * request fits its caps.
   */
  lemma BlockSucceedsIff(store: Store, disk: Disk, op: Operation)
    requires Sound(store, disk) && op.BlockTarget?
    ensures var known := IsBlocked(store.registry, op.uri, op.expected);
      Prepare(store, op).Success?
      <==> && 0 < |op.uri| <= MAX_URI_BYTES && op.rangeStart <= op.rangeEnd
           && (known || (|store.registry.order| != store.registry.capacity
                         && |store.registry.order| + |store.pending| < MAX_ENTRIES))
    ensures Prepare(store, op).Success? ==>
              var next := Prepare(store, op).value.0;
              && next.pending == store.pending
              && Block(store.registry, op.session, op.uri, op.expected, op.replacement, op.rangeStart, op.rangeEnd, 0)
                 == Success(next.registry)
  {
    hide RegistrySound, UniqueRequestIds, Decode, Snapshot, Mirrors, Encodable, TargetEncodable, DescriptorEncodable;
    hide ResolveKey, FreshTarget;
    var block := Block(store.registry, op.session, op.uri, op.expected, op.replacement, op.rangeStart, op.rangeEnd, 0);
    if block.Success? {
      BlockSound(store.registry, store.salt, op.session, op.uri, op.expected, op.replacement,
                 op.rangeStart, op.rangeEnd, 0);
      SharedBound(store, disk);
      OperatorTarget(op);
      SnapshotEncodableIff(block.value, store.pending, store.salt);
      EncodeSucceedsIff(store.salt, Snapshot(block.value, store.pending, store.salt));
    }
  }

  lemma OperatorTarget(op: Operation)
    requires op.BlockTarget?
    ensures TargetEncodable(FreshTarget(op.session, op.uri, op.expected, op.replacement, op.rangeStart, op.rangeEnd, 0))
            <==> 0 < |op.uri| <= MAX_URI_BYTES && op.rangeStart <= op.rangeEnd
  {
  }

  function SmallIntent(): Descriptor
  {
    Descriptor(LetterA(), LetterA(), 0, 0, LetterA(), LetterA(), 0, 0)
  }

  function SmallBlock(): Operation
  {
    BlockTarget([], LetterB(), LetterB(), LetterB(), 0, 0)
  }

  lemma IntentStore(salt: Salt) returns (store: Store, disk: Disk)
    ensures var (first, file) := Open(None, 1, true, Some(salt), true);
      Step(World(first, file, 1), Do(BeginPending(SmallIntent()), true)) == World(store, disk, 1)
    ensures Good(store, disk) && store.registry == Empty(1, None) && store.pending == [SmallIntent()]
  {
    FreshStoreIsInv(1, salt);
    NamesAreShort();
    hide Open, Decode, Snapshot, Good, Prepare, LooksHashed;
    var (first, file) := Open(None, 1, true, Some(salt), true);
    BeginSucceedsIff(first, file, SmallIntent());
    PrepareKeepsGood(first, file, BeginPending(SmallIntent()));
    var (next, bytes, _) := Prepare(first, BeginPending(SmallIntent())).value;
    store, disk := next, Some(bytes);
  }

  /** A store of capacity one: after the intent an operator block takes the only place. */
  lemma CrowdedStore(salt: Salt) returns (store: Store, disk: Disk)
    ensures var (first, file) := Open(None, 1, true, Some(salt), true);
      Run(World(first, file, 1), [Do(BeginPending(SmallIntent()), true), Do(SmallBlock(), true)])
      == World(store, disk, 1)
    ensures Good(store, disk) && store.registry.capacity == 1 && store.registry.salt == None
    ensures store.pending == [SmallIntent()] && |store.registry.order| == 1
    ensures store.registry.entries.Keys == {KeyOf(LetterB(), LetterB())}
  {
    var begun, file1 := IntentStore(salt);
    NamesAreShort();
    hide Open, Decode, Snapshot, Good, Prepare, LooksHashed, SmallIntent;
    GoodIsSound(begun, file1);
    BlockSucceedsIff(begun, file1, SmallBlock());
    PrepareKeepsGood(begun, file1, SmallBlock());
    var (next, bytes, _) := Prepare(begun, SmallBlock()).value;
    store, disk := next, Some(bytes);
    assert Step(World(begun, file1, 1), Do(SmallBlock(), true)) == World(next, Some(bytes), 1);
    hide Step, SmallBlock;
    var (first, file) := Open(None, 1, true, Some(salt), true);
    RunTwo(World(first, file, 1), Do(BeginPending(SmallIntent()), true), Do(SmallBlock(), true));
  }

  lemma RunTwo(w: World, e: Event, f: Event)
    ensures Run(w, [e, f]) == Step(Step(w, e), f)
  {
    hide Step;
    assert [e, f][1..] == [f];
    assert Run(Step(w, e), [f]) == Run(Step(Step(w, e), f), []);
  }

  lemma NamesAreShort()
    ensures WellNamed(LetterA(), LetterA()) && WellNamed(LetterB(), LetterB())
    ensures KeyOf(LetterA(), LetterA()) != KeyOf(LetterB(), LetterB())
  {
    assert KeyOf(LetterA(), LetterA())[0] != KeyOf(LetterB(), LetterB())[0];
  }

  /** With a small capacity an operator block can take the last place and the intent is lost. */
  lemma SmallCapacityLosesIntent(salt: Salt) returns (store: Store, disk: Disk)
    ensures Good(store, disk) && store.registry.capacity == 1 && store.pending == [SmallIntent()]
    ensures var d := SmallIntent();
      var (next, file, result) := Mutate(store, disk, PromotePending([], d.requestId), true);
      && result == Success(Changed(false)) && next.pending == []
      && !TargetBlocked(next, d.uri, d.expected)
      && !TargetBlocked(Reopen(file, 1), d.uri, d.expected)
  {
    hide *;
    store, disk := CrowdedStore(salt);
    FullStorePromotes(store, disk);
    IntentNames();
    NoText();
    var op := PromotePending([], SmallIntent().requestId);
    MutateWrites(store, disk, op);
    var (next, bytes, _) := Prepare(store, op).value;
    LostAfterRestart(next, bytes);
    NotBlockedNow(next);
  }

  lemma NoText()
    ensures ValidUtf8([])
  {
  }

  lemma IntentNames()
    ensures SmallIntent().uri == LetterA() && SmallIntent().expected == LetterA()
    ensures SmallIntent().requestId == LetterA()
  {
  }

  lemma MutateWrites(store: Store, disk: Disk, op: Operation)
    requires Prepare(store, op).Success?
    ensures var (next, bytes, answer) := Prepare(store, op).value;
      Mutate(store, disk, op, true) == (next, Some(bytes), Success(answer))
  {
    hide Prepare;
  }

  lemma NotBlockedNow(store: Store)
    requires store.poison.None? && store.registry.salt == None
    requires store.registry.entries.Keys == {KeyOf(LetterB(), LetterB())}
    ensures !TargetBlocked(store, LetterA(), LetterA())
  {
    NamesAreShort();
    hide KeyOf, WellNamed;
  }

  lemma SmallIntentIsFirst(pending: seq<Descriptor>)
    requires pending == [SmallIntent()]
    ensures HasPending(pending, SmallIntent().requestId) && FirstPending(pending, SmallIntent().requestId) == 0
  {
    assert SmallIntent() in pending;
  }

  /** With its one place taken the registry refuses the intent, which is off the list all the same. */
  lemma FullStorePromotes(store: Store, disk: Disk)
    requires Good(store, disk) && store.registry.capacity == 1 && store.registry.salt == None
    requires store.pending == [SmallIntent()] && |store.registry.order| == 1
    requires store.registry.entries.Keys == {KeyOf(LetterB(), LetterB())}
    ensures var op := PromotePending([], SmallIntent().requestId);
      && Prepare(store, op).Success? && Prepare(store, op).value.2 == Changed(false)
      && var (next, bytes, _) := Prepare(store, op).value;
         next.pending == [] && next.registry == store.registry && Good(next, Some(bytes)) && next.poison.None?
         && RecordsOn(Some(bytes)) == Snapshot(next.registry, [], next.salt)
  {
    hide *;
    GoodIsSound(store, disk);
    IntentNames();
    NotBlockedNow(store);
    BlockedUnlessPoisoned(store, LetterA(), LetterA());
    SmallIntentIsFirst(store.pending);
    NoText();
    PromoteOutcome(store, disk, [], SmallIntent().requestId);
    var op := PromotePending([], SmallIntent().requestId);
    SmallOperation(op);
    PrepareKeepsGood(store, disk, op);
    var (next, bytes, _) := Prepare(store, op).value;
    GoodIsSound(next, Some(bytes));
  }

  lemma SmallOperation(op: Operation)
    requires op.PromotePending?
    ensures WellNamedOperation(op)
  {
  }

  lemma BlockedUnlessPoisoned(store: Store, uri: Text, token: Text)
    requires store.poison.None?
    ensures TargetBlocked(store, uri, token) <==> IsBlocked(store.registry, uri, token)
  {
    hide IsBlocked;
  }

  lemma LostAfterRestart(next: Store, bytes: seq<byte>)
    requires Good(next, Some(bytes)) && next.pending == [] && |next.registry.order| == 1
    requires next.registry.salt == None && next.registry.entries.Keys == {KeyOf(LetterB(), LetterB())}
    requires RecordsOn(Some(bytes)) == Snapshot(next.registry, [], next.salt)
    ensures !TargetBlocked(Reopen(Some(bytes), 1), LetterA(), LetterA())
  {
    hide *;
    NamesAreShort();
    GoodIsSound(next, Some(bytes));
    GoodFile(next, Some(bytes));
    ReopenBlocksRecorded(Some(bytes), 1, LetterA(), LetterA());
    DiskIds(next, Some(bytes), IdOf(next.salt, LetterA(), LetterA()));
    LostIntentIsNotRecorded(next, Some(bytes));
    NothingPending(next.salt, IdOf(next.salt, LetterA(), LetterA()));
    RecordCount(next, Some(bytes));
  }

  lemma NothingPending(salt: Salt, id: Id)
    ensures !HeldByPending([], salt, id)
  {
  }

  lemma GoodFile(store: Store, disk: Disk)
    requires Good(store, disk)
    ensures FileInv(disk) && SaltOn(disk) == store.salt
  {
    hide RegistryInv, PendingInv, FileInv, Mirrors, Snapshot, Decode, UniqueRequestIds, RegistrySound;
  }

  lemma GoodIsSound(store: Store, disk: Disk)
    requires Good(store, disk)
    ensures Sound(store, disk) && store.poison.None?
  {
    hide RegistryInv, PendingInv, FileInv, Mirrors, Snapshot, Decode;
  }

  lemma LostIntentIsNotRecorded(store: Store, disk: Disk)
    requires Good(store, disk) && store.registry.salt == None
    requires store.registry.entries.Keys == {KeyOf(LetterB(), LetterB())}
    ensures !HeldByEntry(store.registry, store.salt, IdOf(store.salt, LetterA(), LetterA()))
  {
    hide Decode, Snapshot, SaltedHash, KeyOf, PendingInv, Mirrors, Encodable, LooksHashed;
    var key := KeyOf(LetterB(), LetterB());
    var t := store.registry.entries[key];
    assert EntryKeyed(None, store.salt, key, t);
    KeysDetermineNames(LetterB(), LetterB(), t.uri, t.expected.text);
  }

  lemma RecordCount(store: Store, disk: Disk)
    requires Sound(store, disk) && RecordsOn(disk) == Snapshot(store.registry, store.pending, store.salt)
    ensures |RecordsOn(disk)| == |store.registry.order| + |store.pending|
  {
    hide Decode, Snapshot, RegistrySound, UniqueRequestIds, Mirrors, Encodable;
    SnapshotLength(store.registry, store.pending, store.salt);
  }

  function LetterA(): (t: Text)
    ensures t == [0x61]
  {
    AsciiIsValid([0x61]);
    [0x61]
  }

  function LetterB(): (t: Text)
    ensures t == [0x62]
  {
    AsciiIsValid([0x62]);
    [0x62]
  }

  // ---------------------------------------------------------------------
  // Names that can be confused
  // ---------------------------------------------------------------------

  /** A store holding one block, in plaintext or hashed mode. */
  function OneBlock(capacity: nat, salt: Salt, mode: Option<Salt>, key: Key, t: BlockedTarget): Store
  {
    Store(Registry(capacity, [key], map[key := t], mode), [], salt, None)
  }

  function OneFile(salt: Salt, t: BlockedTarget): Disk
  {
    Some(FileBytes(salt, [IntoPersisted(t, salt)]))
  }

  function Fresh(uri: Text, token: Text): BlockedTarget
  {
    FreshTarget([], uri, token, token, 0, 0, 0)
  }

  lemma OneSnapshot(reg: Registry, salt: Salt, key: Key, t: BlockedTarget)
    requires reg.order == [key] && reg.entries == map[key := t]
    ensures Snapshot(reg, [], salt) == [IntoPersisted(t, salt)]
  {
    assert List(reg, [key]) == [t] + List(reg, [key][1..]);
  }

  /** Blocking in a store that is empty, or whose one entry has the resolved key. */
  lemma BlockOne(w: World, uri: Text, token: Text)
    requires w.store.poison.None? && w.store.pending == []
    requires 0 < w.store.registry.capacity && 0 < |uri| <= MAX_URI_BYTES
    requires var reg, key := w.store.registry, ResolveKey(w.store.registry, uri, token);
      (reg.order == [] && reg.entries == map[]) || (reg.order == [key] && reg.entries.Keys == {key})
    ensures var reg := w.store.registry;
      Step(w, Do(BlockTarget([], uri, token, token, 0, 0), true))
      == World(OneBlock(reg.capacity, w.store.salt, reg.salt, ResolveKey(reg, uri, token), Fresh(uri, token)),
               OneFile(w.store.salt, Fresh(uri, token)), w.capacity)
  {
    hide ResolveKey, FileBytes, IntoPersisted, RecordEncodable, Snapshot;
    var reg, salt, t := w.store.registry, w.store.salt, Fresh(uri, token);
    var key := ResolveKey(reg, uri, token);
    var next := Block(reg, [], uri, token, token, 0, 0, 0).value;
    assert next.entries == map[key := t] && next.order == [key];
    OneSnapshot(next, salt, key, t);
    TargetRecord(t, salt);
    EncodeSucceedsIff(salt, [IntoPersisted(t, salt)]);
  }

  /** The same, when the one entry already has the plain key. */
  lemma BlockOver(w: World, capacity: nat, salt: Salt, mode: Option<Salt>, t: BlockedTarget, uri: Text, token: Text)
    requires w.store == OneBlock(capacity, salt, mode, KeyOf(uri, token), t)
    requires 0 < capacity && 0 < |uri| <= MAX_URI_BYTES
    ensures Step(w, Do(BlockTarget([], uri, token, token, 0, 0), true))
         == World(OneBlock(capacity, salt, mode, KeyOf(uri, token), Fresh(uri, token)),
                  OneFile(salt, Fresh(uri, token)), w.capacity)
  {
    hide Step, KeyOf, OneFile, FreshTarget;
    BlockOne(w, uri, token);
  }

  lemma OneBlocked(capacity: nat, salt: Salt, mode: Option<Salt>, key: Key, t: BlockedTarget, uri: Text, token: Text)
    ensures TargetBlocked(OneBlock(capacity, salt, mode, key, t), uri, token)
      <==> key == KeyOf(uri, token) || (mode.Some? && key == HashKey(mode.value, uri, token))
  {
    hide KeyOf, HashKey;
  }

  /** Restarting a store of one block. */
  lemma RestartOne(w: World, salt: Salt, t: BlockedTarget)
    requires w.disk == OneFile(salt, t) && 0 < w.capacity && TargetEncodable(t)
    ensures var r := IntoPersisted(t, salt);
      Step(w, Restart)
      == World(OneBlock(w.capacity, salt, Some(salt), RecordKey(r), RestoredTarget(r)), w.disk, w.capacity)
  {
    hide FileBytes, IntoPersisted, RecordEncodable, RecordKey, RestoredTarget, Decode;
    var r := IntoPersisted(t, salt);
    TargetRecord(t, salt);
    EncodeSucceedsIff(salt, [r]);
    RoundTrip(salt, [r]);
    var one := Empty(w.capacity, Some(salt)).(order := [] + [RecordKey(r)],
                                              entries := map[][RecordKey(r) := RestoredTarget(r)]);
    assert RestoreInto(Empty(w.capacity, Some(salt)), [r]) == RestoreInto(one, []);
  }

  /** A URI with a NUL shares its key with another target, and is forgotten by a restart. */
  lemma NulUriLosesBlock(salt: Salt, uri: Text, token: Text, otherUri: Text, other: Text)
    requires uri == [0x61, 0, 0x62] && token == [0x63] && otherUri == [0x61] && other == [0x62, 0, 0x63]
    ensures var (store, disk) := Open(None, MAX_ENTRIES, true, Some(salt), true);
      var blocked := Run(World(store, disk, MAX_ENTRIES),
                         [Do(BlockTarget([], uri, token, token, 0, 0), true),
                          Do(BlockTarget([], otherUri, other, other, 0, 0), true)]);
      TargetBlocked(blocked.store, uri, token) && !TargetBlocked(Step(blocked, Restart).store, uri, token)
  {
    NulNamesCollide(salt, uri, token, otherUri, other);
    UnpoisonedFresh(salt);
    hide Open, IntoPersisted, OneFile, FreshTarget, KeyOf, HashKey, RecordKey, RestoredTarget, TargetEncodable;
    hide OneBlock, TargetBlocked;
    var (store, disk) := Open(None, MAX_ENTRIES, true, Some(salt), true);
    var w0 := World(store, disk, MAX_ENTRIES);
    var first, second := Do(BlockTarget([], uri, token, token, 0, 0), true),
                         Do(BlockTarget([], otherUri, other, other, 0, 0), true);
    BlockOne(w0, uri, token);
    hide Step, ResolveKey;
    var w1 := Step(w0, first);
    BlockOver(w1, MAX_ENTRIES, salt, None, Fresh(uri, token), otherUri, other);
    var w2 := Step(w1, second);
    RunTwo(w0, first, second);
    OneBlocked(MAX_ENTRIES, salt, None, KeyOf(uri, token), Fresh(otherUri, other), uri, token);
    FreshIsEncodable(otherUri, other);
    RestartOne(w2, salt, Fresh(otherUri, other));
    var r := IntoPersisted(Fresh(otherUri, other), salt);
    OneBlocked(MAX_ENTRIES, salt, Some(salt), RecordKey(r), RestoredTarget(r), uri, token);
  }

  lemma FreshIsEncodable(uri: Text, token: Text)
    requires 0 < |uri| <= MAX_URI_BYTES
    ensures TargetEncodable(Fresh(uri, token))
  {
  }

  /** The two names share a plain key, but the second one's hash key is neither key of the first. */
  lemma NulNamesCollide(salt: Salt, uri: Text, token: Text, otherUri: Text, other: Text)
    requires uri == [0x61, 0, 0x62] && token == [0x63] && otherUri == [0x61] && other == [0x62, 0, 0x63]
    ensures KeyOf(uri, token) == KeyOf(otherUri, other)
    ensures RecordKey(IntoPersisted(Fresh(otherUri, other), salt)) != KeyOf(uri, token)
    ensures RecordKey(IntoPersisted(Fresh(otherUri, other), salt)) != HashKey(salt, uri, token)
  {
    hide *;
    NulKeysAgree(uri, token, otherUri, other);
    KeyLengths(salt, uri, token, otherUri, other);
  }

  lemma NulKeysAgree(uri: Text, token: Text, otherUri: Text, other: Text)
    requires uri == [0x61, 0, 0x62] && token == [0x63] && otherUri == [0x61] && other == [0x62, 0, 0x63]
    ensures KeyOf(uri, token) == KeyOf(otherUri, other)
  {
    hide ValidUtf8;
  }

  lemma KeyLengths(salt: Salt, uri: Text, token: Text, otherUri: Text, other: Text)
    requires |uri| == 3 && |token| == 1 && |otherUri| == 1
    ensures |KeyOf(uri, token)| == 5 && |HashKey(salt, uri, token)| == 68
    ensures |RecordKey(IntoPersisted(Fresh(otherUri, other), salt))| == 66
  {
    hide SaltedHash, Hex, ValidUtf8;
  }

  lemma UnpoisonedFresh(salt: Salt)
    ensures Open(None, MAX_ENTRIES, true, Some(salt), true).0 == Store(Empty(MAX_ENTRIES, None), [], salt, None)
  {
    hide FileBytes;
    EncodeSucceedsIff(salt, []);
  }

  /**
   * After a restart, blocking the token that spells a stored hash replaces
   * that entry: the hashed target survives the next restart exactly when the
   * two tokens have the same salted hash (or spell each other's hash).
   */
  lemma HashTokenReplacesBlock(salt: Salt, uri: Text, token: Text, spelled: Text)
    requires 0 < |uri| <= MAX_URI_BYTES
    requires spelled == Hex(SaltedHash(salt, token))
    ensures var w := World(OneBlock(MAX_ENTRIES, salt, None, KeyOf(uri, token), Fresh(uri, token)),
                           OneFile(salt, Fresh(uri, token)), MAX_ENTRIES);
      var restarted := Step(w, Restart);
      var replaced := Step(restarted, Do(BlockTarget([], uri, spelled, spelled, 0, 0), true));
      && TargetBlocked(restarted.store, uri, token)
      && (TargetBlocked(Step(replaced, Restart).store, uri, token)
          <==> SaltedHash(salt, spelled) == SaltedHash(salt, token)
               || HashKey(salt, uri, spelled) == KeyOf(uri, token))
  {
    var t, s := Fresh(uri, token), Fresh(uri, spelled);
    FreshRecordKey(salt, uri, token);
    FreshRecordKey(salt, uri, spelled);
    FreshIsEncodable(uri, token);
    FreshIsEncodable(uri, spelled);
    SameHashKey(salt, uri, token, spelled);
    hide Step, SaltedHash, Hex, KeyOf, OneFile, IntoPersisted, RestoredTarget, FreshTarget, TargetEncodable;
    hide RecordKey, OneBlock, TargetBlocked;
    var w := World(OneBlock(MAX_ENTRIES, salt, None, KeyOf(uri, token), t), OneFile(salt, t), MAX_ENTRIES);
    var r := IntoPersisted(t, salt);
    RestartOne(w, salt, t);
    OneBlocked(MAX_ENTRIES, salt, Some(salt), RecordKey(r), RestoredTarget(r), uri, token);
    var restarted := Step(w, Restart);
    BlockOver(restarted, MAX_ENTRIES, salt, Some(salt), RestoredTarget(r), uri, spelled);
    var replaced := Step(restarted, Do(BlockTarget([], uri, spelled, spelled, 0, 0), true));
    RestartOne(replaced, salt, s);
    var q := IntoPersisted(s, salt);
    OneBlocked(MAX_ENTRIES, salt, Some(salt), RecordKey(q), RestoredTarget(q), uri, token);
  }

  lemma FreshRecordKey(salt: Salt, uri: Text, token: Text)
    ensures RecordKey(IntoPersisted(Fresh(uri, token), salt)) == HashKey(salt, uri, token)
  {
  }

  lemma SameHashKey(salt: Salt, uri: Text, token: Text, other: Text)
    ensures HashKey(salt, uri, token) == HashKey(salt, uri, other)
        <==> SaltedHash(salt, token) == SaltedHash(salt, other)
  {
    hide SaltedHash, Hex;
    if HashKey(salt, uri, token) == HashKey(salt, uri, other) {
      assert KeyOf(uri, Hex(SaltedHash(salt, token)))[|uri| + 1..] == Hex(SaltedHash(salt, token));
      assert KeyOf(uri, Hex(SaltedHash(salt, other)))[|uri| + 1..] == Hex(SaltedHash(salt, other));
      HexInjective(SaltedHash(salt, token), SaltedHash(salt, other));
    }
  }

  // ---------------------------------------------------------------------
  // The epoch gate across a restart
  // ---------------------------------------------------------------------

  /**
   * When every record of a target carries the same nonzero document epoch, a
   * restarted store answers reconciliation and acknowledgement under any other
   * epoch with a mismatch, and nothing changes.
   */
  lemma EpochBindsAfterRestart(store: Store, disk: Disk, capacity: nat, uri: Text, token: Text,
                               session: Text, epoch: u64, bound: u64, live: Text)
    requires Good(store, disk) && |RecordsOn(disk)| <= capacity && 0 < capacity && WellNamed(uri, token)
    requires Recorded(RecordsOn(disk), IdOf(store.salt, uri, token))
    requires forall r :: r in RecordsOn(disk) && RecordId(r) == IdOf(store.salt, uri, token)
                      ==> r.documentEpoch == bound
    requires bound != 0 && epoch != bound
    ensures var next := Reopen(disk, capacity);
      && Prepare(next, ReconcileTarget(session, uri, token, epoch, live)) == Failure(Refused(EpochMismatch))
      && Prepare(next, AcknowledgeTarget(session, uri, token, epoch)) == Failure(Refused(EpochMismatch))
      && TargetBlocked(next, uri, token)
  {
    hide PendingInv, RegistryInv, Snapshot, Decode, WellNamed, Mirrors, Encodable, Reopen, ResolveKey, Restore;
    ReopenBlocksRecorded(disk, capacity, uri, token);
    ReopenIsGood(disk, capacity);
    var next := Reopen(disk, capacity);
    RestoredEpoch(capacity, store.salt, RecordsOn(disk), uri, token, bound);
    RebindRefused(next, uri, token, session, epoch, live);
  }

  lemma RestoredEpoch(capacity: nat, salt: Salt, records: seq<PersistedTarget>, uri: Text, token: Text, bound: u64)
    requires Restore(capacity, salt, records).Some? && WellNamed(uri, token)
    requires forall r :: r in records ==> NulFree(r.uri)
    requires forall r :: r in records && RecordId(r) == IdOf(salt, uri, token) ==> r.documentEpoch == bound
    requires IsBlocked(Restore(capacity, salt, records).value, uri, token)
    ensures var reg := Restore(capacity, salt, records).value;
      var t := reg.entries[ResolveKey(reg, uri, token)];
      t.sessionId == [] && t.documentEpoch == bound
  {
    hide RegistryInv, WellNamed, RestoreInto, ResolveKey, SaltedHash, RecordKey, NulFree;
    var reg := Restore(capacity, salt, records).value;
    RestoredInv(capacity, salt, records);
    RestoredEntries(Empty(capacity, Some(salt)), records);
    ResolvedEntryId(reg, salt, uri, token);
    var key := ResolveKey(reg, uri, token);
    var r :| r in records && RecordKey(r) == key && reg.entries[key] == RestoredTarget(r);
    assert RecordId(r) == IdOf(salt, uri, token);
  }

  lemma RebindRefused(store: Store, uri: Text, token: Text, session: Text, epoch: u64, live: Text)
    requires store.poison.None? && IsBlocked(store.registry, uri, token)
    requires var t := store.registry.entries[ResolveKey(store.registry, uri, token)];
      t.sessionId == [] && t.documentEpoch != 0 && t.documentEpoch != epoch
    ensures Prepare(store, ReconcileTarget(session, uri, token, epoch, live)) == Failure(Refused(EpochMismatch))
    ensures Prepare(store, AcknowledgeTarget(session, uri, token, epoch)) == Failure(Refused(EpochMismatch))
  {
    hide ResolveKey, KeyOf, VerdictOf, Encode, Snapshot, Block, List, RetainOthers, FirstPending, HasPending, Without;
    var t := store.registry.entries[ResolveKey(store.registry, uri, token)];
    assert Bind(t, session, epoch) == Failure(EpochMismatch);
  }
}
