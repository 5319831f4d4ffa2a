/**
 * Acknowledgement follows a verdict: over every run, a target is released only
 * after a readback of that same target recorded since it was last blocked.
 */
module StoreVerdicts {
  import opened Wrappers
  import opened Bytes
  import opened Sha256
  import opened RecoveryCodec
  import opened RecoveryRegistry
  import opened RecoveryStore
  import opened StoreInvariant
  import opened StoreRuns
  import opened StoreLimits

  /** No other token of the same document has the salted hash of `token`. */
  predicate Distinguished(salt: Salt, uri: seq<byte>, token: seq<byte>, otherUri: seq<byte>, other: seq<byte>)
  {
    otherUri == uri && SaltedHash(salt, other) == SaltedHash(salt, token) ==> other == token
  }

  predicate DistinguishedOperation(salt: Salt, uri: seq<byte>, token: seq<byte>, op: Operation)
  {
    match op
    case BeginPending(d) => Distinguished(salt, uri, token, d.uri, d.expected)
    case BlockTarget(_, u, t, _, _, _) => Distinguished(salt, uri, token, u, t)
    case _ => true
  }

  predicate DistinguishedEvent(salt: Salt, uri: seq<byte>, token: seq<byte>, e: Event)
  {
    !e.Restart? ==> DistinguishedOperation(salt, uri, token, e.op)
  }

  predicate DistinguishedTarget(salt: Salt, uri: seq<byte>, token: seq<byte>, t: BlockedTarget)
  {
    t.expected.Plain? ==> Distinguished(salt, uri, token, t.uri, t.expected.text)
  }

  predicate DistinguishedEntries(reg: Registry, salt: Salt, uri: seq<byte>, token: seq<byte>)
  {
    forall k :: k in reg.entries ==> DistinguishedTarget(salt, uri, token, reg.entries[k])
  }

  predicate DistinguishedPending(pending: seq<Descriptor>, salt: Salt, uri: seq<byte>, token: seq<byte>)
  {
    forall d :: d in pending ==> Distinguished(salt, uri, token, d.uri, d.expected)
  }

  /** Whether a readback of the target succeeded since it was last blocked. */
  function Seen(w: World, e: Event, uri: Text, token: Text, seen: bool): bool
  {
    if !TakesEffect(w, e) then seen else
    var reg := w.store.registry;
    match e.op
    case BlockTarget(_, u, t, _, _, _) =>
      if ResolveKey(reg, u, t) == ResolveKey(reg, uri, token) then false else seen
    case PromotePending(_, id) =>
      if HasPending(w.store.pending, id)
         && (var d := w.store.pending[FirstPending(w.store.pending, id)];
             ResolveKey(reg, d.uri, d.expected) == ResolveKey(reg, uri, token)) then false else seen
    case ReconcileTarget(_, u, t, _, _) =>
      if ResolveKey(reg, u, t) == ResolveKey(reg, uri, token) then true else seen
    case _ => seen
  }

  function SeenAfter(w: World, events: seq<Event>, uri: Text, token: Text, seen: bool): bool
    decreases |events|
  {
    if events == [] then seen
    else SeenAfter(Step(w, events[0]), events[1..], uri, token, Seen(w, events[0], uri, token, seen))
  }

  /** The entry is the target's and carries a verdict. */
  predicate HasVerdict(salt: Salt, uri: seq<byte>, token: seq<byte>, t: BlockedTarget)
  {
    TargetId(t, salt) == IdOf(salt, uri, token) && t.state.Some?
  }

  /** A recorded verdict of the target implies that its readback was seen. */
  predicate VerdictsSeen(reg: Registry, salt: Salt, uri: seq<byte>, token: seq<byte>, seen: bool)
  {
    forall k :: k in reg.entries && HasVerdict(salt, uri, token, reg.entries[k]) ==> seen
  }

  lemma OnlyKeyOfTarget(reg: Registry, salt: Salt, uri: Text, token: Text, k: Key)
    requires RegistryInv(reg, salt) && WellNamed(uri, token) && DistinguishedEntries(reg, salt, uri, token)
    requires k in reg.entries && HasVerdict(salt, uri, token, reg.entries[k])
    ensures k == ResolveKey(reg, uri, token)
  {
    OnlyKeyById(reg, salt, uri, token, k, reg.entries[k]);
  }

  lemma FreshHasNoVerdict(salt: Salt, uri: seq<byte>, token: seq<byte>, session: Text, u: Text, t: Text,
                          replacement: Text, start: u64, end: u64, epoch: u64)
    ensures !HasVerdict(salt, uri, token, FreshTarget(session, u, t, replacement, start, end, epoch))
    ensures Distinguished(salt, uri, token, u, t)
      ==> DistinguishedTarget(salt, uri, token, FreshTarget(session, u, t, replacement, start, end, epoch))
  {
    hide SaltedHash;
  }

  lemma BlockVerdicts(reg: Registry, salt: Salt, session: Text, u: Text, t: Text, replacement: Text,
                      start: u64, end: u64, epoch: u64, uri: Text, token: Text, seen: bool)
    requires RegistryInv(reg, salt) && WellNamed(uri, token) && WellNamed(u, t)
    requires DistinguishedEntries(reg, salt, uri, token) && Distinguished(salt, uri, token, u, t)
    requires VerdictsSeen(reg, salt, uri, token, seen)
    requires Block(reg, session, u, t, replacement, start, end, epoch).Success?
    ensures var next := Block(reg, session, u, t, replacement, start, end, epoch).value;
      && DistinguishedEntries(next, salt, uri, token)
      && VerdictsSeen(next, salt, uri, token, ResolveKey(reg, u, t) != ResolveKey(reg, uri, token) && seen)
  {
    hide RegistryInv, WellNamed, Distinguished, ResolveKey, Block, HasVerdict, DistinguishedTarget, FreshTarget;
    BlockKeeps(reg, salt, session, u, t, replacement, start, end, epoch);
    FreshHasNoVerdict(salt, uri, token, session, u, t, replacement, start, end, epoch);
    var next := Block(reg, session, u, t, replacement, start, end, epoch).value;
    var key := ResolveKey(reg, u, t);
    forall k | k in next.entries && HasVerdict(salt, uri, token, next.entries[k])
      ensures key != ResolveKey(reg, uri, token) && seen
    {
      assert k != key && k in reg.entries && next.entries[k] == reg.entries[k];
      OnlyKeyOfTarget(reg, salt, uri, token, k);
    }
  }

  lemma SameNameSameDistinction(salt: Salt, uri: seq<byte>, token: seq<byte>, t: BlockedTarget, s: BlockedTarget)
    requires t.uri == s.uri && t.expected == s.expected
    ensures DistinguishedTarget(salt, uri, token, t) == DistinguishedTarget(salt, uri, token, s)
    ensures TargetId(t, salt) == TargetId(s, salt)
  {
    hide SaltedHash;
  }

  lemma ReconcileVerdicts(reg: Registry, salt: Salt, session: Text, u: Text, t: Text, epoch: u64, live: Text,
                          uri: Text, token: Text, seen: bool)
    requires RegistryInv(reg, salt) && WellNamed(uri, token) && DistinguishedEntries(reg, salt, uri, token)
    requires VerdictsSeen(reg, salt, uri, token, seen)
    ensures var next := Reconcile(reg, session, u, t, epoch, live).0;
      && DistinguishedEntries(next, salt, uri, token)
      && VerdictsSeen(next, salt, uri, token, ResolveKey(reg, u, t) == ResolveKey(reg, uri, token) || seen)
  {
    hide RegistryInv, WellNamed, SaltedHash, ResolveKey, Reconcile, DistinguishedTarget, HasVerdict;
    ReconcileTouchesState(reg, session, u, t, epoch, live);
    var next, key := Reconcile(reg, session, u, t, epoch, live).0, ResolveKey(reg, u, t);
    if next != reg {
      SameNameSameDistinction(salt, uri, token, reg.entries[key], next.entries[key]);
      if HasVerdict(salt, uri, token, next.entries[key]) {
        OnlyKeyById(reg, salt, uri, token, key, next.entries[key]);
      }
    }
  }

  lemma OnlyKeyById(reg: Registry, salt: Salt, uri: Text, token: Text, k: Key, t: BlockedTarget)
    requires RegistryInv(reg, salt) && WellNamed(uri, token) && DistinguishedEntries(reg, salt, uri, token)
    requires k in reg.entries && reg.entries[k].uri == t.uri && reg.entries[k].expected == t.expected
    requires HasVerdict(salt, uri, token, t)
    ensures k == ResolveKey(reg, uri, token)
  {
    hide SaltedHash, Hex, KeyOf, LooksHashed, NulFree, ResolveKey;
    ResolveIsCanonical(reg, salt, uri, token);
    assert EntryKeyed(reg.salt, salt, k, reg.entries[k]);
    assert DistinguishedTarget(salt, uri, token, reg.entries[k]);
  }

  /** One operation that takes effect, on the registry and the pending intents. */
  lemma PerformVerdicts(w: World, e: Event, uri: Text, token: Text, seen: bool)
    requires RegistryInv(w.store.registry, w.store.salt) && PendingInv(w.store.pending) && WellNamed(uri, token)
    requires WellNamedEvent(e) && DistinguishedEvent(w.store.salt, uri, token, e) && TakesEffect(w, e)
    requires DistinguishedEntries(w.store.registry, w.store.salt, uri, token)
    requires DistinguishedPending(w.store.pending, w.store.salt, uri, token)
    requires VerdictsSeen(w.store.registry, w.store.salt, uri, token, seen)
    ensures var next := Prepare(w.store, e.op).value.0;
      && DistinguishedEntries(next.registry, w.store.salt, uri, token)
      && DistinguishedPending(next.pending, w.store.salt, uri, token)
      && VerdictsSeen(next.registry, w.store.salt, uri, token, Seen(w, e, uri, token, seen))
  {
    hide RegistryInv, WellNamed, Distinguished, ResolveKey, Block, Reconcile, Acknowledge, Snapshot, Encode;
    hide List, VerdictsSeen, DistinguishedEntries, UniqueRequestIds;
    var reg, pending, salt := w.store.registry, w.store.pending, w.store.salt;
    match e.op {
      case BeginPending(d) =>
      case ClearPending(id) =>
      case PromotePending(session, id) =>
        if HasPending(pending, id) {
          var d := pending[FirstPending(pending, id)];
          assert d in pending;
          PromoteVerdicts(reg, salt, session, d, uri, token, seen);
        }
      case BlockTarget(session, u, t, replacement, start, end) =>
        BlockVerdicts(reg, salt, session, u, t, replacement, start, end, 0, uri, token, seen);
      case ReconcileTarget(session, u, t, epoch, live) =>
        ReconcileVerdicts(reg, salt, session, u, t, epoch, live, uri, token, seen);
      case AcknowledgeTarget(session, u, t, epoch) =>
        AcknowledgeVerdicts(reg, salt, session, u, t, epoch, uri, token, seen);
    }
  }

  lemma PromoteVerdicts(reg: Registry, salt: Salt, session: Text, d: Descriptor, uri: Text, token: Text, seen: bool)
    requires RegistryInv(reg, salt) && WellNamed(uri, token) && WellNamed(d.uri, d.expected)
    requires DistinguishedEntries(reg, salt, uri, token) && Distinguished(salt, uri, token, d.uri, d.expected)
    requires VerdictsSeen(reg, salt, uri, token, seen)
    ensures var next :=
        match Block(reg, session, d.uri, d.expected, d.replacement, d.rangeStart, d.rangeEnd, d.documentEpoch)
        case Success(next) => next
        case Failure(_) => reg;
      && DistinguishedEntries(next, salt, uri, token)
      && VerdictsSeen(next, salt, uri, token, ResolveKey(reg, d.uri, d.expected) != ResolveKey(reg, uri, token) && seen)
  {
    hide RegistryInv, WellNamed, Distinguished, ResolveKey, VerdictsSeen, DistinguishedEntries;
    if Block(reg, session, d.uri, d.expected, d.replacement, d.rangeStart, d.rangeEnd, d.documentEpoch).Success? {
      BlockVerdicts(reg, salt, session, d.uri, d.expected, d.replacement, d.rangeStart, d.rangeEnd, d.documentEpoch,
                    uri, token, seen);
    } else {
      RefusedBlockVerdicts(reg, salt, session, d, uri, token, seen);
    }
  }

  lemma RefusedBlockVerdicts(reg: Registry, salt: Salt, session: Text, d: Descriptor,
                             uri: Text, token: Text, seen: bool)
    requires RegistryInv(reg, salt) && WellNamed(uri, token) && DistinguishedEntries(reg, salt, uri, token)
    requires VerdictsSeen(reg, salt, uri, token, seen)
    requires Block(reg, session, d.uri, d.expected, d.replacement, d.rangeStart, d.rangeEnd, d.documentEpoch).Failure?
    ensures VerdictsSeen(reg, salt, uri, token,
                         ResolveKey(reg, d.uri, d.expected) != ResolveKey(reg, uri, token) && seen)
  {
    hide RegistryInv, WellNamed, ResolveKey, HasVerdict, DistinguishedEntries;
    forall k | k in reg.entries && HasVerdict(salt, uri, token, reg.entries[k])
      ensures k == ResolveKey(reg, uri, token)
    {
      OnlyKeyOfTarget(reg, salt, uri, token, k);
    }
  }

  lemma AcknowledgeVerdicts(reg: Registry, salt: Salt, session: Text, u: Text, t: Text, epoch: u64,
                            uri: Text, token: Text, seen: bool)
    requires RegistryInv(reg, salt) && DistinguishedEntries(reg, salt, uri, token)
    requires VerdictsSeen(reg, salt, uri, token, seen)
    requires Acknowledge(reg, session, u, t, epoch).1.Success?
    ensures var next := Acknowledge(reg, session, u, t, epoch).0;
      DistinguishedEntries(next, salt, uri, token) && VerdictsSeen(next, salt, uri, token, seen)
  {
    AcknowledgeKeeps(reg, salt, session, u, t, epoch);
    hide RegistryInv, DistinguishedTarget, HasVerdict, ResolveKey, Acknowledge;
  }

  lemma RestoredVerdict(reg: Registry, pending: seq<Descriptor>, salt: Salt, r: PersistedTarget,
                        uri: Text, token: Text, seen: bool)
    requires RegistrySound(reg, salt) && VerdictsSeen(reg, salt, uri, token, seen)
    requires r in Snapshot(reg, pending, salt) && HasVerdict(salt, uri, token, RestoredTarget(r))
    ensures seen
  {
    hide RegistrySound, Snapshot, SaltedHash;
    SnapshotRecord(reg, pending, salt, r);
    if k :| k in reg.entries && IntoPersisted(reg.entries[k], salt) == r {
      assert HasVerdict(salt, uri, token, reg.entries[k]);
    }
  }

  /** Restarting invents no verdict. */
  lemma RestartVerdicts(store: Store, disk: Disk, capacity: nat, uri: Text, token: Text, seen: bool)
    requires Good(store, disk) && store.registry.capacity == capacity
    requires VerdictsSeen(store.registry, store.salt, uri, token, seen)
    ensures var next := Reopen(disk, capacity);
      && DistinguishedEntries(next.registry, store.salt, uri, token)
      && DistinguishedPending(next.pending, store.salt, uri, token)
      && VerdictsSeen(next.registry, store.salt, uri, token, seen)
  {
    hide RegistryInv, PendingInv, Mirrors, Encodable, Decode, Reopen, DistinguishedEntries, VerdictsSeen, Distinguished;
    if |RecordsOn(disk)| > capacity {
      PoisonedIsEmpty(disk, capacity);
      NothingStored(Reopen(disk, capacity), store.salt, uri, token, seen);
    } else {
      ReopenIsGood(disk, capacity);
      var next := Reopen(disk, capacity);
      RestoredVerdicts(store, RecordsOn(disk), next.registry, uri, token, seen);
    }
  }

  lemma RestoredVerdicts(store: Store, records: seq<PersistedTarget>, next: Registry,
                         uri: Text, token: Text, seen: bool)
    requires RegistryInv(store.registry, store.salt) && Mirrors(store, records)
    requires VerdictsSeen(store.registry, store.salt, uri, token, seen)
    requires Restore(store.registry.capacity, store.salt, records) == Some(next)
    ensures DistinguishedEntries(next, store.salt, uri, token)
    ensures VerdictsSeen(next, store.salt, uri, token, seen)
  {
    hide RegistrySound, EntryKeyed, Snapshot, RestoreInto, HasVerdict, RecordKey, RestoredTarget, DistinguishedTarget;
    RestoredEntries(Empty(store.registry.capacity, Some(store.salt)), records);
    forall k | k in next.entries
      ensures DistinguishedTarget(store.salt, uri, token, next.entries[k])
      ensures HasVerdict(store.salt, uri, token, next.entries[k]) ==> seen
    {
      var r :| r in records && RecordKey(r) == k && next.entries[k] == RestoredTarget(r);
      RestoredIsDistinguished(store.salt, uri, token, r);
      if HasVerdict(store.salt, uri, token, next.entries[k]) && next != store.registry {
        RestoredVerdict(store.registry, store.pending, store.salt, r, uri, token, seen);
      }
    }
  }

  lemma RestoredIsDistinguished(salt: Salt, uri: seq<byte>, token: seq<byte>, r: PersistedTarget)
    ensures DistinguishedTarget(salt, uri, token, RestoredTarget(r))
  {
  }

  lemma NothingStored(store: Store, salt: Salt, uri: seq<byte>, token: seq<byte>, seen: bool)
    requires store.registry.entries == map[] && store.pending == []
    ensures DistinguishedEntries(store.registry, salt, uri, token)
    ensures DistinguishedPending(store.pending, salt, uri, token)
    ensures VerdictsSeen(store.registry, salt, uri, token, seen)
  {
  }

  lemma PoisonedIsEmpty(disk: Disk, capacity: nat)
    requires Readable(disk) && |RecordsOn(disk)| > capacity
    ensures Reopen(disk, capacity).registry.entries == map[] && Reopen(disk, capacity).pending == []
    ensures Reopen(disk, capacity).poison.Some?
  {
    hide Decode;
    DecodeSound(disk.value);
  }

  /** What a run keeps about one target whose token no other token collides with. */
  ghost predicate VerdictInv(w: World, salt: Salt, uri: Text, token: Text, seen: bool)
  {
    && Inv(w)
    && (w.store.poison.None? ==> w.store.salt == salt)
    && DistinguishedEntries(w.store.registry, salt, uri, token)
    && DistinguishedPending(w.store.pending, salt, uri, token)
    && VerdictsSeen(w.store.registry, salt, uri, token, seen)
  }

  lemma StepVerdicts(w: World, e: Event, salt: Salt, uri: Text, token: Text, seen: bool)
    requires VerdictInv(w, salt, uri, token, seen) && WellNamed(uri, token)
    requires WellNamedEvent(e) && DistinguishedEvent(salt, uri, token, e)
    ensures VerdictInv(Step(w, e), salt, uri, token, Seen(w, e, uri, token, seen))
  {
    StepKeepsInv(w, e);
    hide Readable, RecordsOn, DistinguishedEvent, WellNamedEvent, WellNamed, Reopen, VerdictsSeen, DistinguishedEntries;
    hide DistinguishedPending, Prepare;
    if Overfull(w) {
      PoisonedIsEmpty(w.disk, w.capacity);
      OverfullStays(w, e);
      OverfullStep(w, e);
      assert Step(w, e).store == w.store || Step(w, e).store == Reopen(w.disk, w.capacity);
    } else if TakesEffect(w, e) {
      PerformVerdicts(w, e, uri, token, seen);
      PrepareKeepsGood(w.store, w.disk, e.op);
      var (next, bytes, _) := Prepare(w.store, e.op).value;
      RestartVerdicts(next, Some(bytes), w.capacity, uri, token, Seen(w, e, uri, token, seen));
    } else {
      RestartVerdicts(w.store, w.disk, w.capacity, uri, token, seen);
    }
  }

  lemma OverfullStep(w: World, e: Event)
    requires Overfull(w)
    ensures Step(w, e).store == w.store || Step(w, e).store == Reopen(w.disk, w.capacity)
    ensures !TakesEffect(w, e)
  {
    hide Reopen;
  }

  lemma {:induction false} RunVerdicts(w: World, events: seq<Event>, salt: Salt, uri: Text, token: Text, seen: bool)
    requires VerdictInv(w, salt, uri, token, seen) && WellNamed(uri, token)
    requires forall e :: e in events ==> WellNamedEvent(e) && DistinguishedEvent(salt, uri, token, e)
    ensures VerdictInv(Run(w, events), salt, uri, token, SeenAfter(w, events, uri, token, seen))
    decreases |events|
  {
    hide VerdictInv, WellNamedEvent, DistinguishedEvent, WellNamed, Step, Seen;
    if events != [] {
      StepVerdicts(w, events[0], salt, uri, token, seen);
      RunVerdicts(Step(w, events[0]), events[1..], salt, uri, token, Seen(w, events[0], uri, token, seen));
    }
  }

  /**
   * Whenever the target can be acknowledged, a readback of that target has
   * been recorded since it was last blocked, on whichever side of a restart.
   */
  lemma AcknowledgeFollowsVerdict(capacity: nat, salt: Salt, events: seq<Event>, uri: Text, token: Text,
                                  session: Text, epoch: u64)
    requires 0 < capacity && WellNamed(uri, token)
    requires forall e :: e in events ==> WellNamedEvent(e) && DistinguishedEvent(salt, uri, token, e)
    ensures var (store, disk) := Open(None, capacity, true, Some(salt), true);
      var start := World(store, disk, capacity);
      var end := Run(start, events).store;
      Prepare(end, AcknowledgeTarget(session, uri, token, epoch)).Success?
      ==> SeenAfter(start, events, uri, token, false)
  {
    var (store, disk) := Open(None, capacity, true, Some(salt), true);
    var start := World(store, disk, capacity);
    FreshVerdicts(capacity, salt, uri, token);
    hide Open, WellNamed, WellNamedEvent, DistinguishedEvent, Prepare, HasVerdict;
    RunVerdicts(start, events, salt, uri, token, false);
    var end := Run(start, events);
    hide Run, Inv, Good, SeenAfter;
    if Prepare(end.store, AcknowledgeTarget(session, uri, token, epoch)).Success? {
      PreparedIsUnpoisoned(end, AcknowledgeTarget(session, uri, token, epoch));
      AcknowledgedHadVerdict(end.store, end.disk, salt, uri, token, session, epoch);
    }
  }

  lemma PreparedIsUnpoisoned(w: World, op: Operation)
    requires Inv(w) && Prepare(w.store, op).Success?
    ensures w.store.poison.None? && Good(w.store, w.disk)
  {
    hide Good, Readable;
  }

  lemma FreshVerdicts(capacity: nat, salt: Salt, uri: Text, token: Text)
    requires 0 < capacity
    ensures var (store, disk) := Open(None, capacity, true, Some(salt), true);
      VerdictInv(World(store, disk, capacity), salt, uri, token, false)
  {
    FreshStoreIsInv(capacity, salt);
    hide Inv, Encode;
    NothingStored(Open(None, capacity, true, Some(salt), true).0, salt, uri, token, false);
  }

  lemma AcknowledgedHadVerdict(store: Store, disk: Disk, salt: Salt, uri: Text, token: Text, session: Text, epoch: u64)
    requires Good(store, disk) && store.salt == salt && WellNamed(uri, token)
    requires Prepare(store, AcknowledgeTarget(session, uri, token, epoch)).Success?
    ensures exists k :: k in store.registry.entries && HasVerdict(salt, uri, token, store.registry.entries[k])
  {
    hide RegistryInv, WellNamed, Snapshot, Decode, Encode, Mirrors, Encodable, PendingInv, Acknowledge, ResolveKey;
    AcknowledgeKeeps(store.registry, salt, session, uri, token, epoch);
    ResolvedEntryId(store.registry, salt, uri, token);
  }

  // ---------------------------------------------------------------------
  // What a verdict says
  // ---------------------------------------------------------------------

  /** The live text hashes like this one only if it is this one. */
  predicate ToldApart(salt: Salt, live: seq<byte>, text: RecoveryText)
  {
    text.Plain? && (SaltedHash(salt, live) == SaltedHash(salt, text.text) ==> live == text.text)
  }

  /**
   * Hashing a target away keeps its recorded verdict and, unless hashes
   * collide, the verdict every live text would get.
   */
  lemma RestartKeepsVerdict(t: BlockedTarget, salt: Salt, mode: Option<Salt>, live: Text)
    requires ToldApart(salt, live, t.replacement) && ToldApart(salt, live, t.expected)
    ensures var restored := RestoredTarget(IntoPersisted(t, salt));
      && restored.state == t.state && TargetId(restored, salt) == TargetId(t, salt)
      && VerdictOf(restored, Some(salt), live) == VerdictOf(t, mode, live)
  {
    hide SaltedHash;
  }

  /** Blocking a target and reconciling it in the same session, with or without a restart between. */
  lemma VerdictMeans(reg: Registry, salt: Salt, session: Text, uri: Text, expected: Text, replacement: Text,
                     start: u64, end: u64, epoch: u64, live: Text)
    requires RegistryInv(reg, salt) && WellNamed(uri, expected) && session != []
    requires Block(reg, session, uri, expected, replacement, start, end, epoch).Success?
    ensures var blocked := Block(reg, session, uri, expected, replacement, start, end, epoch).value;
      Reconcile(blocked, session, uri, expected, epoch, live).1
      == Success(if live == replacement then AppliedAcknowledged
                 else if live == expected then NotApplied else ConflictHumanReview)
  {
    hide SaltedHash, RegistryInv, WellNamed, Block;
    var blocked := Block(reg, session, uri, expected, replacement, start, end, epoch).value;
    BlockKeeps(reg, salt, session, uri, expected, replacement, start, end, epoch);
    BlockedResolvesSame(reg, salt, session, uri, expected, replacement, start, end, epoch);
    hide ResolveKey;
  }

  lemma BlockedResolvesSame(reg: Registry, salt: Salt, session: Text, uri: Text, expected: Text, replacement: Text,
                            start: u64, end: u64, epoch: u64)
    requires RegistryInv(reg, salt) && WellNamed(uri, expected)
    requires Block(reg, session, uri, expected, replacement, start, end, epoch).Success?
    ensures var blocked := Block(reg, session, uri, expected, replacement, start, end, epoch).value;
      ResolveKey(blocked, uri, expected) == ResolveKey(reg, uri, expected)
  {
    hide SaltedHash, RegistryInv, WellNamed, Block, ResolveKey;
    var blocked := Block(reg, session, uri, expected, replacement, start, end, epoch).value;
    BlockKeeps(reg, salt, session, uri, expected, replacement, start, end, epoch);
    ResolveIsCanonical(reg, salt, uri, expected);
    ResolveIsCanonical(blocked, salt, uri, expected);
  }

  /** The first verdict stands: reconciling again returns it, whatever the live text is by then. */
  lemma FirstVerdictStands(reg: Registry, session: Text, uri: Text, expected: Text, epoch: u64, live: Text, later: Text)
    requires session != [] && Reconcile(reg, session, uri, expected, epoch, live).1.Success?
    ensures var (next, verdict) := Reconcile(reg, session, uri, expected, epoch, live);
      Reconcile(next, session, uri, expected, epoch, later) == (next, verdict)
  {
    hide SaltedHash, VerdictOf;
    var key := ResolveKey(reg, uri, expected);
    var next := Reconcile(reg, session, uri, expected, epoch, live).0;
    assert next.entries.Keys == reg.entries.Keys;
    assert ResolveKey(next, uri, expected) == key;
    assert next.entries[key := next.entries[key]] == next.entries;
  }

  // ---------------------------------------------------------------------
  // Where two tokens of a document share a hash
  // ---------------------------------------------------------------------

  /** A store of two blocks of one document, in the order they came. */
  function TwoBlocks(salt: Salt, key: Key, t: BlockedTarget, key2: Key, t2: BlockedTarget): Store
  {
    Store(Registry(MAX_ENTRIES, [key, key2], map[key := t, key2 := t2], None), [], salt, None)
  }

  function TwoFile(salt: Salt, t: BlockedTarget, t2: BlockedTarget): Disk
  {
    Some(FileBytes(salt, [IntoPersisted(t, salt), IntoPersisted(t2, salt)]))
  }

  lemma TwoSnapshot(reg: Registry, salt: Salt, key: Key, t: BlockedTarget, key2: Key, t2: BlockedTarget)
    requires key != key2 && reg.order == [key, key2] && reg.entries == map[key := t, key2 := t2]
    requires TargetEncodable(t) && TargetEncodable(t2)
    ensures Encode(salt, Snapshot(reg, [], salt)) == Success(TwoFile(salt, t, t2).value)
  {
    hide IntoPersisted, FileBytes, Encode, TargetEncodable, RecordEncodable;
    assert [key, key2][1..] == [key2] && [key2][1..] == [];
    assert List(reg, [key2]) == [t2] + List(reg, []);
    assert List(reg, [key, key2]) == [t] + List(reg, [key2]);
    assert Snapshot(reg, [], salt) == [IntoPersisted(t, salt), IntoPersisted(t2, salt)];
    TargetRecord(t, salt);
    TargetRecord(t2, salt);
    EncodeTwo(salt, IntoPersisted(t, salt), IntoPersisted(t2, salt));
  }

  lemma EncodeTwo(salt: Salt, r: PersistedTarget, r2: PersistedTarget)
    requires RecordEncodable(r) && RecordEncodable(r2)
    ensures Encode(salt, [r, r2]) == Success(FileBytes(salt, [r, r2]))
    ensures Decode(FileBytes(salt, [r, r2])) == Success(StateFile(salt, [r, r2]))
  {
    hide FileBytes, RecordEncodable, Decode;
    EncodeSucceedsIff(salt, [r, r2]);
    RoundTrip(salt, [r, r2]);
  }

  /** A written operation takes store and file to what it computes. */
  lemma StepWrites(w: World, op: Operation, reg: Registry, pending: seq<Descriptor>, answer: Answer, bytes: seq<byte>)
    requires w.store.poison.None? && Perform(op, w.store.registry, w.store.pending) == Success((reg, pending, answer))
    requires Encode(w.store.salt, Snapshot(reg, pending, w.store.salt)) == Success(bytes)
    ensures Step(w, Do(op, true)) == World(w.store.(registry := reg, pending := pending), Some(bytes), w.capacity)
  {
    hide Perform, Encode, Snapshot;
  }

  function ReadBack(t: BlockedTarget, session: Text, live: Text): BlockedTarget
  {
    t.(sessionId := session, state := Some(VerdictOf(t, None, live)))
  }

  lemma BlockFirst(salt: Salt, uri: Text, token: Text)
    requires 0 < |uri| <= MAX_URI_BYTES
    ensures var (store, disk) := Open(None, MAX_ENTRIES, true, Some(salt), true);
      Step(World(store, disk, MAX_ENTRIES), Do(BlockTarget([], uri, token, token, 0, 0), true))
      == World(OneBlock(MAX_ENTRIES, salt, None, KeyOf(uri, token), Fresh(uri, token)),
               OneFile(salt, Fresh(uri, token)), MAX_ENTRIES)
  {
    UnpoisonedFresh(salt);
    var (store, disk) := Open(None, MAX_ENTRIES, true, Some(salt), true);
    hide Open, Fresh, KeyOf, OneFile, Step;
    BlockOne(World(store, disk, MAX_ENTRIES), uri, token);
  }

  lemma BlockSecond(salt: Salt, uri: Text, token: Text, other: Text)
    requires 0 < |uri| <= MAX_URI_BYTES && token != other
    ensures KeyOf(uri, token) != KeyOf(uri, other)
    ensures Step(World(OneBlock(MAX_ENTRIES, salt, None, KeyOf(uri, token), Fresh(uri, token)),
                       OneFile(salt, Fresh(uri, token)), MAX_ENTRIES),
                 Do(BlockTarget([], uri, other, other, 0, 0), true))
      == World(TwoBlocks(salt, KeyOf(uri, token), Fresh(uri, token), KeyOf(uri, other), Fresh(uri, other)),
               TwoFile(salt, Fresh(uri, token), Fresh(uri, other)), MAX_ENTRIES)
  {
    OtherToken(uri, token, other);
    FreshIsEncodable(uri, token);
    FreshIsEncodable(uri, other);
    hide KeyOf, TwoFile, OneFile, Encode, Snapshot, TargetEncodable, Fresh;
    var store := TwoBlocks(salt, KeyOf(uri, token), Fresh(uri, token), KeyOf(uri, other), Fresh(uri, other));
    TwoSnapshot(store.registry, salt, KeyOf(uri, token), Fresh(uri, token), KeyOf(uri, other), Fresh(uri, other));
    var w := World(OneBlock(MAX_ENTRIES, salt, None, KeyOf(uri, token), Fresh(uri, token)),
                   OneFile(salt, Fresh(uri, token)), MAX_ENTRIES);
    SecondBlock(w.store.registry, uri, token, other);
    StepWrites(w, BlockTarget([], uri, other, other, 0, 0), store.registry, [], Done,
               TwoFile(salt, Fresh(uri, token), Fresh(uri, other)).value);
  }

  lemma SecondBlock(reg: Registry, uri: Text, token: Text, other: Text)
    requires KeyOf(uri, token) != KeyOf(uri, other)
    requires reg == Registry(MAX_ENTRIES, [KeyOf(uri, token)], map[KeyOf(uri, token) := Fresh(uri, token)], None)
    ensures Perform(BlockTarget([], uri, other, other, 0, 0), reg, [])
      == Success((Registry(MAX_ENTRIES, [KeyOf(uri, token), KeyOf(uri, other)],
                           map[KeyOf(uri, token) := Fresh(uri, token), KeyOf(uri, other) := Fresh(uri, other)], None),
                  [], Done))
  {
    hide KeyOf, List, Reconcile, Acknowledge;
    assert [KeyOf(uri, token)] + [KeyOf(uri, other)] == [KeyOf(uri, token), KeyOf(uri, other)];
  }

  lemma OtherToken(uri: Text, token: Text, other: Text)
    requires token != other
    ensures KeyOf(uri, token) != KeyOf(uri, other)
  {
    assert KeyOf(uri, token)[|uri| + 1..] == token && KeyOf(uri, other)[|uri| + 1..] == other;
  }

  lemma ReconcileSecond(salt: Salt, uri: Text, token: Text, other: Text, session: Text, live: Text)
    requires 0 < |uri| <= MAX_URI_BYTES && token != other
    ensures Step(World(TwoBlocks(salt, KeyOf(uri, token), Fresh(uri, token), KeyOf(uri, other), Fresh(uri, other)),
                       TwoFile(salt, Fresh(uri, token), Fresh(uri, other)), MAX_ENTRIES),
                 Do(ReconcileTarget(session, uri, other, 0, live), true))
      == World(TwoBlocks(salt, KeyOf(uri, token), Fresh(uri, token), KeyOf(uri, other),
                         ReadBack(Fresh(uri, other), session, live)),
               TwoFile(salt, Fresh(uri, token), ReadBack(Fresh(uri, other), session, live)), MAX_ENTRIES)
  {
    OtherToken(uri, token, other);
    FreshIsEncodable(uri, token);
    ReadBackIsEncodable(uri, other, session, live);
    hide KeyOf, TwoFile, Encode, Snapshot, VerdictOf, Perform, TargetEncodable, Fresh, ReadBack, Step;
    var t2 := ReadBack(Fresh(uri, other), session, live);
    var w := World(TwoBlocks(salt, KeyOf(uri, token), Fresh(uri, token), KeyOf(uri, other), Fresh(uri, other)),
                   TwoFile(salt, Fresh(uri, token), Fresh(uri, other)), MAX_ENTRIES);
    var store := TwoBlocks(salt, KeyOf(uri, token), Fresh(uri, token), KeyOf(uri, other), t2);
    TwoSnapshot(store.registry, salt, KeyOf(uri, token), Fresh(uri, token), KeyOf(uri, other), t2);
    SecondReadBack(w.store.registry, uri, token, other, session, live);
    StepWrites(w, ReconcileTarget(session, uri, other, 0, live), store.registry, [],
               Reconciled(VerdictOf(Fresh(uri, other), None, live)), TwoFile(salt, Fresh(uri, token), t2).value);
  }

  lemma ReadBackIsEncodable(uri: Text, token: Text, session: Text, live: Text)
    requires 0 < |uri| <= MAX_URI_BYTES
    ensures TargetEncodable(ReadBack(Fresh(uri, token), session, live))
  {
    hide VerdictOf;
  }

  lemma SecondReadBack(reg: Registry, uri: Text, token: Text, other: Text, session: Text, live: Text)
    requires KeyOf(uri, token) != KeyOf(uri, other)
    requires reg == Registry(MAX_ENTRIES, [KeyOf(uri, token), KeyOf(uri, other)],
                             map[KeyOf(uri, token) := Fresh(uri, token), KeyOf(uri, other) := Fresh(uri, other)], None)
    ensures Perform(ReconcileTarget(session, uri, other, 0, live), reg, [])
      == Success((reg.(entries := map[KeyOf(uri, token) := Fresh(uri, token),
                                      KeyOf(uri, other) := ReadBack(Fresh(uri, other), session, live)]),
                  [], Reconciled(VerdictOf(Fresh(uri, other), None, live))))
  {
    hide KeyOf, List, Block, Acknowledge;
    BoundVerdict(Fresh(uri, other), session, live);
    hide VerdictOf;
    var key, t := KeyOf(uri, other), ReadBack(Fresh(uri, other), session, live);
    assert reg.entries[key := t] == map[KeyOf(uri, token) := Fresh(uri, token), key := t];
  }

  lemma BoundVerdict(t: BlockedTarget, session: Text, live: Text)
    ensures VerdictOf(t.(sessionId := session), None, live) == VerdictOf(t, None, live)
  {
  }

  /** Reloading two records of one key keeps the later one. */
  lemma RestartTwo(store: Store, salt: Salt, t: BlockedTarget, t2: BlockedTarget)
    requires TargetEncodable(t) && TargetEncodable(t2)
    requires RecordKey(IntoPersisted(t, salt)) == RecordKey(IntoPersisted(t2, salt))
    ensures var r := IntoPersisted(t2, salt);
      Step(World(store, TwoFile(salt, t, t2), MAX_ENTRIES), Restart).store
      == Store(Registry(MAX_ENTRIES, [RecordKey(r), RecordKey(r)], map[RecordKey(r) := RestoredTarget(r)], Some(salt)),
               [], salt, None)
  {
    hide FileBytes, IntoPersisted, RecordEncodable, RecordKey, RestoredTarget, Decode, TargetEncodable;
    var r, r2 := IntoPersisted(t, salt), IntoPersisted(t2, salt);
    TargetRecord(t, salt);
    TargetRecord(t2, salt);
    EncodeTwo(salt, r, r2);
    EncodeSucceedsIff(salt, [r, r2]);
    var zero := Empty(MAX_ENTRIES, Some(salt));
    var one := zero.(order := [] + [RecordKey(r)], entries := map[][RecordKey(r) := RestoredTarget(r)]);
    var two := one.(order := one.order + [RecordKey(r2)], entries := one.entries[RecordKey(r2) := RestoredTarget(r2)]);
    assert [r, r2][1..] == [r2] && [r2][1..] == [];
    assert RestoreInto(one, [r2]) == RestoreInto(two, []);
    assert RestoreInto(zero, [r, r2]) == RestoreInto(one, [r2]);
    assert two.entries == map[RecordKey(r2) := RestoredTarget(r2)];
  }

  /** An unbound entry with a verdict can be acknowledged by any session. */
  lemma AcknowledgeRestored(store: Store, uri: Text, token: Text, session: Text)
    requires store.poison.None? && store.pending == [] && IsBlocked(store.registry, uri, token)
    requires store.registry.entries.Keys == {ResolveKey(store.registry, uri, token)}
    requires var t := store.registry.entries[ResolveKey(store.registry, uri, token)];
      t.sessionId == [] && t.documentEpoch == 0 && t.state.Some?
    ensures Prepare(store, AcknowledgeTarget(session, uri, token, 0)).Success?
  {
    hide ResolveKey, FileBytes, Encode, Without;
    var key := ResolveKey(store.registry, uri, token);
    var next := Acknowledge(store.registry, session, uri, token, 0).0;
    assert next.entries == map[];
    NothingListed(next, next.order, store.salt);
    assert Snapshot(next, [], store.salt) == [];
    EncodeSucceedsIff(store.salt, []);
  }

  lemma {:induction false} NothingListed(reg: Registry, order: seq<Key>, salt: Salt)
    requires reg.entries == map[]
    ensures List(reg, order) == []
  {
    if order != [] {
      NothingListed(reg, order[1..], salt);
    }
  }

  /** Two blocks, a readback of the second, and a restart. */
  function CollisionEvents(uri: Text, token: Text, other: Text, session: Text, live: Text): seq<Event>
  {
    [Do(BlockTarget([], uri, token, token, 0, 0), true), Do(BlockTarget([], uri, other, other, 0, 0), true),
     Do(ReconcileTarget(session, uri, other, 0, live), true), Restart]
  }

  lemma RunFour(w: World, a: Event, b: Event, c: Event, d: Event, uri: Text, token: Text)
    ensures Run(w, [a, b, c, d]) == Step(Step(Step(Step(w, a), b), c), d)
    ensures SeenAfter(w, [a, b, c, d], uri, token, false)
         == (var w1, w2, w3 := Step(w, a), Step(Step(w, a), b), Step(Step(Step(w, a), b), c);
             Seen(w3, d, uri, token, Seen(w2, c, uri, token, Seen(w1, b, uri, token, Seen(w, a, uri, token, false)))))
  {
    hide Step, Seen;
    var w1, w2 := Step(w, a), Step(Step(w, a), b);
    var w3 := Step(w2, c);
    assert [a, b, c, d][1..] == [b, c, d] && [b, c, d][1..] == [c, d] && [c, d][1..] == [d] && [d][1..] == [];
    assert Run(w3, [d]) == Run(Step(w3, d), []);
    assert Run(w2, [c, d]) == Run(w3, [d]);
    assert Run(w1, [b, c, d]) == Run(w2, [c, d]);
    var s1 := Seen(w, a, uri, token, false);
    var s2 := Seen(w1, b, uri, token, s1);
    var s3 := Seen(w2, c, uri, token, s2);
    assert SeenAfter(w3, [d], uri, token, s3) == SeenAfter(Step(w3, d), [], uri, token, Seen(w3, d, uri, token, s3));
    assert SeenAfter(w2, [c, d], uri, token, s2) == SeenAfter(w3, [d], uri, token, s3);
    assert SeenAfter(w1, [b, c, d], uri, token, s1) == SeenAfter(w2, [c, d], uri, token, s2);
  }

  /**
   * If two tokens of a document have one salted hash, a readback of the second
   * releases the first after a restart, though the first was never read back.
   */
  lemma CollidingVerdictReleases(salt: Salt, uri: Text, token: Text, other: Text, session: Text, live: Text,
                                 session2: Text)
    requires 0 < |uri| <= MAX_URI_BYTES
    requires other != token && SaltedHash(salt, other) == SaltedHash(salt, token)
    ensures var (store, disk) := Open(None, MAX_ENTRIES, true, Some(salt), true);
      var start, events := World(store, disk, MAX_ENTRIES), CollisionEvents(uri, token, other, session, live);
      && !SeenAfter(start, events, uri, token, false)
      && Prepare(Run(start, events).store, AcknowledgeTarget(session2, uri, token, 0)).Success?
  {
    var (store, disk) := Open(None, MAX_ENTRIES, true, Some(salt), true);
    var start, events := World(store, disk, MAX_ENTRIES), CollisionEvents(uri, token, other, session, live);
    assert |events| == 4 && events == [events[0], events[1], events[2], Restart];
    ReadBackOther(salt, uri, token, other, session, live);
    hide *;
    var w3 := Step(Step(Step(start, events[0]), events[1]), events[2]);
    RunFour(start, events[0], events[1], events[2], Restart, uri, token);
    NothingSeenByRestart(w3, uri, token);
    ReleasedAfterRestart(w3, salt, uri, token, other, session, live, session2);
  }

  lemma NothingSeenByRestart(w: World, uri: Text, token: Text)
    ensures !Seen(w, Restart, uri, token, false)
  {
  }

  /** The state before the restart, reached without a readback of the first token. */
  lemma ReadBackOther(salt: Salt, uri: Text, token: Text, other: Text, session: Text, live: Text)
    requires 0 < |uri| <= MAX_URI_BYTES && token != other
    ensures var (store, disk) := Open(None, MAX_ENTRIES, true, Some(salt), true);
      var start, events := World(store, disk, MAX_ENTRIES), CollisionEvents(uri, token, other, session, live);
      var w1, w2 := Step(start, events[0]), Step(Step(start, events[0]), events[1]);
      && !Seen(start, events[0], uri, token, false) && !Seen(w1, events[1], uri, token, false)
      && !Seen(w2, events[2], uri, token, false)
      && Step(w2, events[2]) == World(TwoBlocks(salt, KeyOf(uri, token), Fresh(uri, token), KeyOf(uri, other),
                                                ReadBack(Fresh(uri, other), session, live)),
                                      TwoFile(salt, Fresh(uri, token), ReadBack(Fresh(uri, other), session, live)),
                                      MAX_ENTRIES)
  {
    var (store, disk) := Open(None, MAX_ENTRIES, true, Some(salt), true);
    var start, events := World(store, disk, MAX_ENTRIES), CollisionEvents(uri, token, other, session, live);
    BlockFirst(salt, uri, token);
    BlockUnseen(start, events[0], uri, token);
    hide Open, Fresh, ReadBack, KeyOf, OneFile, TwoFile, Step, Seen;
    BlockSecond(salt, uri, token, other);
    ReconcileSecond(salt, uri, token, other, session, live);
    OtherKeyUnseen(Step(start, events[0]), events[1], uri, token, other);
    OtherKeyUnseen(Step(Step(start, events[0]), events[1]), events[2], uri, token, other);
  }

  lemma BlockUnseen(w: World, e: Event, uri: Text, token: Text)
    requires e.Do? && e.op.BlockTarget?
    ensures !Seen(w, e, uri, token, false)
  {
    hide ResolveKey, Prepare;
  }

  lemma ReleasedAfterRestart(w: World, salt: Salt, uri: Text, token: Text, other: Text, session: Text, live: Text,
                             session2: Text)
    requires 0 < |uri| <= MAX_URI_BYTES && SaltedHash(salt, other) == SaltedHash(salt, token)
    requires w.disk == TwoFile(salt, Fresh(uri, token), ReadBack(Fresh(uri, other), session, live))
    requires w.capacity == MAX_ENTRIES
    ensures Prepare(Step(w, Restart).store, AcknowledgeTarget(session2, uri, token, 0)).Success?
  {
    var t, t2 := Fresh(uri, token), ReadBack(Fresh(uri, other), session, live);
    FreshIsEncodable(uri, token);
    FreshIsEncodable(uri, other);
    SameRecordKey(salt, uri, token, other, session, live);
    hide TargetEncodable, IntoPersisted, RecordKey, RestoredTarget, Fresh, ReadBack, SaltedHash, KeyOf, HashKey;
    hide TwoFile;
    RestartTwo(w.store, salt, t, t2);
    hide *;
    AcknowledgeUnderHashKey(Step(w, Restart).store, salt, uri, token, session2);
  }

  lemma AcknowledgeUnderHashKey(store: Store, salt: Salt, uri: Text, token: Text, session: Text)
    requires store.poison.None? && store.pending == [] && store.registry.salt == Some(salt)
    requires store.registry.entries.Keys == {HashKey(salt, uri, token)}
    requires var t := store.registry.entries[HashKey(salt, uri, token)];
      t.sessionId == [] && t.documentEpoch == 0 && t.state.Some?
    ensures Prepare(store, AcknowledgeTarget(session, uri, token, 0)).Success?
  {
    hide Prepare, KeyOf, HashKey;
    AcknowledgeRestored(store, uri, token, session);
  }

  /** Blocking or reading back the other token in plaintext mode is not a readback of this one. */
  lemma OtherKeyUnseen(w: World, e: Event, uri: Text, token: Text, other: Text)
    requires w.store.registry.salt == None && token != other && e.Do?
    requires e.op.BlockTarget? || e.op.ReconcileTarget?
    requires e.op.uri == uri && e.op.expected == other
    ensures !Seen(w, e, uri, token, false)
  {
    OtherToken(uri, token, other);
    hide KeyOf, Prepare;
  }

  lemma SameRecordKey(salt: Salt, uri: Text, token: Text, other: Text, session: Text, live: Text)
    requires SaltedHash(salt, other) == SaltedHash(salt, token)
    ensures var r, r2 := IntoPersisted(Fresh(uri, token), salt),
                         IntoPersisted(ReadBack(Fresh(uri, other), session, live), salt);
      && RecordKey(r) == RecordKey(r2) == HashKey(salt, uri, token)
      && RestoredTarget(r2).sessionId == [] && RestoredTarget(r2).documentEpoch == 0 && RestoredTarget(r2).state.Some?
    ensures TargetEncodable(ReadBack(Fresh(uri, other), session, live)) <==> TargetEncodable(Fresh(uri, other))
  {
    hide SaltedHash, Hex, VerdictOf;
  }
}
