/** The reason each store operation is refused with, as the first condition that fails. */
module StoreErrors {
  import opened Wrappers
  import opened Bytes
  import opened Sha256
  import opened RecoveryCodec
  import opened RecoveryRegistry
  import opened RecoveryStore
  import opened StoreInvariant
  import opened StoreLimits

  /** The entry the pair resolves to, if there is one. */
  function Stored(reg: Registry, uri: Text, token: Text): Option<BlockedTarget>
  {
    var key := ResolveKey(reg, uri, token);
    if key in reg.entries then Some(reg.entries[key]) else None
  }

  /** A stored target answers its own session, or after a restart any session under its epoch. */
  function AccessChecks(target: Option<BlockedTarget>, session: Text, epoch: u64): seq<Check<RegistryError>>
  {
    [
      Check(target.Some?, UnknownTarget),
      Check(target.Some? && (target.value.sessionId != [] || target.value.documentEpoch in {0, epoch}), EpochMismatch),
      Check(target.Some? && target.value.sessionId in {[], session}, SessionMismatch)
    ]
  }

  /** The checks an operation makes, in their order; clearing and promoting an intent make none. */
  function OperationChecks(store: Store, op: Operation): seq<Check<RegistryError>>
  {
    var reg, queued := store.registry, |store.registry.order| + |store.pending|;
    match op
    case BeginPending(d) => [Check(HasPending(store.pending, d.requestId) || queued < reg.capacity, RegistryFull)]
    case BlockTarget(_, uri, token, _, _, _) =>
      [Check(Stored(reg, uri, token).Some? || |reg.order| != reg.capacity, RegistryFull)]
    case ReconcileTarget(session, uri, token, epoch, _) => AccessChecks(Stored(reg, uri, token), session, epoch)
    case AcknowledgeTarget(session, uri, token, epoch) =>
      var target := Stored(reg, uri, token);
      AccessChecks(target, session, epoch)
      + [Check(target.Some? && target.value.state.Some?, AckBeforeReconcile)]
    case ClearPending(_) | PromotePending(_, _) => []
  }

  /** What the operation adds fits the caps of a record and of the file. */
  predicate Writable(store: Store, op: Operation)
  {
    var queued := |store.registry.order| + |store.pending|;
    match op
    case BeginPending(d) => HasPending(store.pending, d.requestId) || (queued < MAX_ENTRIES && DescriptorEncodable(d))
    case BlockTarget(_, uri, token, _, start, end) =>
      && 0 < |uri| <= MAX_URI_BYTES && start <= end
      && (Stored(store.registry, uri, token).Some? || queued < MAX_ENTRIES)
    case _ => true
  }

  /**
   * An operation is refused with the reason of its first failing check; past
   * its checks it cannot be written exactly if what it adds does not fit.
   */
  lemma OperationErrorIsFirstFailure(store: Store, disk: Disk, op: Operation)
    requires Sound(store, disk)
    ensures match FirstFailure(OperationChecks(store, op))
      case Some(reason) => Prepare(store, op) == Failure(Refused(reason))
      case None =>
        if Writable(store, op) then Prepare(store, op).Success? else Prepare(store, op) == Failure(WriteFailed)
  {
    hide *;
    SoundStore(store, disk);
    PrepareFails(store, op);
    SharedBound(store, disk);
    match op {
      case BeginPending(d) =>
        BeginSucceedsIff(store, disk, d);
        BeginRefused(store, op);
      case BlockTarget(_, _, _, _, _, _) =>
        BlockSucceedsIff(store, disk, op);
        BlockRefused(store, op);
      case PromotePending(session, id) =>
        NoChecks(store, op);
        if HasPending(store.pending, id) {
          PromoteOutcome(store, disk, session, id);
        } else {
          StaysWritable(store, disk, op);
        }
      case _ =>
        RestRefused(store, op);
        if Perform(op, store.registry, store.pending).Success? {
          StaysWritable(store, disk, op);
        }
    }
  }

  lemma SoundStore(store: Store, disk: Disk)
    requires Sound(store, disk)
    ensures store.poison.None? && RegistrySound(store.registry, store.salt)
  {
    hide RegistrySound, Snapshot, Mirrors, Encodable, FileSound;
  }

  lemma PrepareFails(store: Store, op: Operation)
    requires store.poison.None?
    ensures match Perform(op, store.registry, store.pending)
      case Failure(error) => Prepare(store, op) == Failure(Refused(error))
      case Success(_) => Prepare(store, op).Success? || Prepare(store, op) == Failure(WriteFailed)
  {
    hide Perform, Snapshot, Encode;
  }

  lemma NoChecks(store: Store, op: Operation)
    requires op.PromotePending? || op.ClearPending?
    ensures FirstFailure(OperationChecks(store, op)).None? && Writable(store, op)
    ensures Perform(op, store.registry, store.pending).Success?
  {
    hide HasPending, FirstPending, Block, RetainOthers;
  }

  lemma BeginRefused(store: Store, op: Operation)
    requires op.BeginPending? && RegistrySound(store.registry, store.salt)
    ensures var d, queued := op.descriptor, |store.registry.order| + |store.pending|;
      var passes := HasPending(store.pending, d.requestId) || queued < store.registry.capacity;
      && FirstFailure(OperationChecks(store, op)) == (if passes then None else Some(RegistryFull))
      && (Perform(op, store.registry, store.pending).Failure? <==> !passes)
      && (!passes ==> Perform(op, store.registry, store.pending) == Failure(RegistryFull))
      && (Writable(store, op)
          <==> HasPending(store.pending, d.requestId) || (queued < MAX_ENTRIES && DescriptorEncodable(d)))
  {
    ListLength(store.registry, store.salt);
    hide RegistrySound, HasPending, List, DescriptorEncodable, FirstFailure;
    FirstFailureOfOne(HasPending(store.pending, op.descriptor.requestId)
             || |store.registry.order| + |store.pending| < store.registry.capacity, RegistryFull);
  }

  lemma BlockRefused(store: Store, op: Operation)
    requires op.BlockTarget?
    ensures var known := IsBlocked(store.registry, op.uri, op.expected);
      var passes := known || |store.registry.order| != store.registry.capacity;
      && FirstFailure(OperationChecks(store, op)) == (if passes then None else Some(RegistryFull))
      && (Perform(op, store.registry, store.pending).Failure? <==> !passes)
      && (!passes ==> Perform(op, store.registry, store.pending) == Failure(RegistryFull))
      && (Writable(store, op)
          <==> 0 < |op.uri| <= MAX_URI_BYTES && op.rangeStart <= op.rangeEnd
               && (known || |store.registry.order| + |store.pending| < MAX_ENTRIES))
  {
    hide ResolveKey, FirstFailure;
    FirstFailureOfOne(IsBlocked(store.registry, op.uri, op.expected)
             || |store.registry.order| != store.registry.capacity, RegistryFull);
  }

  lemma RestRefused(store: Store, op: Operation)
    requires op.ReconcileTarget? || op.AcknowledgeTarget? || op.ClearPending?
    ensures Writable(store, op)
    ensures match FirstFailure(OperationChecks(store, op))
      case Some(reason) => Perform(op, store.registry, store.pending) == Failure(reason)
      case None => Perform(op, store.registry, store.pending).Success?
  {
    hide ResolveKey, VerdictOf, Without, RetainOthers, FirstFailure;
    var place := FirstFailurePlace(OperationChecks(store, op));
  }

  /** Reading back, acknowledging and clearing add nothing to the file. */
  lemma StaysWritable(store: Store, disk: Disk, op: Operation)
    requires Sound(store, disk) && Perform(op, store.registry, store.pending).Success?
    requires op.ReconcileTarget? || op.AcknowledgeTarget? || op.ClearPending?
             || (op.PromotePending? && !HasPending(store.pending, op.requestId))
    ensures Prepare(store, op).Success?
  {
    hide *;
    var (reg, pending, _) := Perform(op, store.registry, store.pending).value;
    SoundStore(store, disk);
    SharedBound(store, disk);
    AddsNothing(store, op);
    SnapshotEncodableIff(reg, pending, store.salt);
    EncodeSucceedsIff(store.salt, Snapshot(reg, pending, store.salt));
    EncodedPrepares(store, op);
  }

  lemma AddsNothing(store: Store, op: Operation)
    requires RegistrySound(store.registry, store.salt) && Perform(op, store.registry, store.pending).Success?
    requires op.ReconcileTarget? || op.AcknowledgeTarget? || op.ClearPending?
             || (op.PromotePending? && !HasPending(store.pending, op.requestId))
    requires forall k :: k in store.registry.entries ==> TargetEncodable(store.registry.entries[k])
    ensures var (reg, pending, _) := Perform(op, store.registry, store.pending).value;
      && RegistrySound(reg, store.salt) && |reg.order| <= |store.registry.order| && |pending| <= |store.pending|
      && (forall k :: k in reg.entries ==> TargetEncodable(reg.entries[k]))
      && (forall d :: d in pending ==> d in store.pending)
  {
    var reg, salt := store.registry, store.salt;
    match op {
      case ReconcileTarget(session, uri, token, epoch, live) =>
        ReconcileSound(reg, salt, session, uri, token, epoch, live);
        ReconcileTouchesState(reg, session, uri, token, epoch, live);
      case AcknowledgeTarget(session, uri, token, epoch) =>
        if Acknowledge(reg, session, uri, token, epoch).1.Success? {
          AcknowledgeSound(reg, salt, session, uri, token, epoch);
        }
        AcknowledgedOrder(reg, session, uri, token, epoch);
      case _ =>
    }
    hide RegistrySound, Reconcile, Acknowledge, ResolveKey, HasPending, FirstPending, Block;
  }

  lemma AcknowledgedOrder(reg: Registry, session: Text, uri: Text, token: Text, epoch: u64)
    ensures |Acknowledge(reg, session, uri, token, epoch).0.order| <= |reg.order|
  {
    hide ResolveKey, Bind;
  }

  lemma EncodedPrepares(store: Store, op: Operation)
    requires store.poison.None? && Perform(op, store.registry, store.pending).Success?
    requires var (reg, pending, _) := Perform(op, store.registry, store.pending).value;
      Encode(store.salt, Snapshot(reg, pending, store.salt)).Success?
    ensures Prepare(store, op).Success?
  {
    hide Perform, Snapshot, Encode;
  }

  // ---------------------------------------------------------------------
  // Opening
  // ---------------------------------------------------------------------

  /** What opening needs, in order; an absent file is created, any other must be read whole. */
  function OpeningChecks(disk: Disk, capacity: nat, directory: bool, newSalt: Option<Salt>, writes: bool)
    : seq<Check<StoreError>>
  {
    match disk
    case None =>
      [Check(directory, Unavailable), Check(newSalt.Some?, Unavailable), Check(writes, Unavailable)]
    case Some(bytes) =>
      var read := Decode(bytes);
      [
        Check(directory, Unavailable),
        Check(read.Success?, StateUnreadable(if read.Failure? then read.error else Malformed)),
        Check(read.Success? && 0 < capacity && |read.value.records| <= capacity, StateUnreadable(TooManyEntries))
      ]
  }

  /** A store is poisoned with the reason of the first thing opening misses, and is then empty. */
  lemma PoisonIsFirstFailure(disk: Disk, capacity: nat, directory: bool, newSalt: Option<Salt>, writes: bool)
    ensures var (store, file) := Open(disk, capacity, directory, newSalt, writes);
      && store.poison == FirstFailure(OpeningChecks(disk, capacity, directory, newSalt, writes))
      && store.pending == []
      && (store.poison.Some? ==> store.registry.entries == map[] && file == disk)
      && (store.poison.None? ==> file == if disk.Some? then disk else Some(FileBytes(newSalt.value, [])))
  {
    if disk.Some? {
      OversizedIsRefused(disk.value);
    } else if newSalt.Some? {
      EncodeSucceedsIff(newSalt.value, []);
    }
    hide Decode, Encodable, FileBytes, FirstFailure, RestoreInto;
    var place := FirstFailurePlace(OpeningChecks(disk, capacity, directory, newSalt, writes));
  }

  lemma OversizedIsRefused(bytes: seq<byte>)
    ensures |bytes| > MAX_STATE_BYTES ==> Decode(bytes) == Failure(OversizedFile)
  {
  }
}
