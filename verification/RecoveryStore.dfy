/**
 * The durable recovery store: a registry and the pending preflight intents,
 * both mirrored to one state file that is replaced before memory changes.
 */
module RecoveryStore {
  import opened Wrappers
  import opened Bytes
  import opened Sha256
  import opened RecoveryCodec
  import opened RecoveryRegistry

  datatype Descriptor = Descriptor(
    requestId: Text,
    uri: Text,
    rangeStart: u64,
    rangeEnd: u64,
    expected: Text,
    replacement: Text,
    generation: u64,
    documentEpoch: u64)

  datatype StoreError =
    | StateUnreadable(code: CodecError)
    | Unavailable
    | WriteFailed
    | Refused(reason: RegistryError)

  datatype Operation =
    | BeginPending(descriptor: Descriptor)
    | ClearPending(requestId: Text)
    | PromotePending(session: Text, requestId: Text)
    | BlockTarget(session: Text, uri: Text, expected: Text, replacement: Text, rangeStart: u64, rangeEnd: u64)
    | ReconcileTarget(session: Text, uri: Text, expected: Text, epoch: u64, live: Text)
    | AcknowledgeTarget(session: Text, uri: Text, expected: Text, epoch: u64)

  datatype Answer = Done | Changed(changed: bool) | Reconciled(verdict: Verdict)

  datatype Store = Store(registry: Registry, pending: seq<Descriptor>, salt: Salt, poison: Option<StoreError>)

  /** The state file: absent, or its bytes. */
  type Disk = Option<seq<byte>>

  // ---------------------------------------------------------------------
  // Pending intents
  // ---------------------------------------------------------------------

  predicate HasPending(pending: seq<Descriptor>, id: Text)
  {
    exists d :: d in pending && d.requestId == id
  }

  function RetainOthers(pending: seq<Descriptor>, id: Text): (rest: seq<Descriptor>)
    ensures forall d :: d in rest <==> d in pending && d.requestId != id
    ensures |rest| <= |pending|
    ensures |rest| == |pending| <==> !HasPending(pending, id)
    ensures |rest| == |pending| ==> rest == pending
  {
    if pending == [] then []
    else if pending[0].requestId == id then
      assert pending[0] in pending;
      RetainOthers(pending[1..], id)
    else [pending[0]] + RetainOthers(pending[1..], id)
  }

  function FirstPending(pending: seq<Descriptor>, id: Text): (index: nat)
    requires HasPending(pending, id)
    ensures index < |pending| && pending[index].requestId == id
    ensures forall i :: 0 <= i < index ==> pending[i].requestId != id
  {
    if pending[0].requestId == id then 0 else 1 + FirstPending(pending[1..], id)
  }

  // ---------------------------------------------------------------------
  // Operations on the registry and the pending intents
  // ---------------------------------------------------------------------

  type Performed = Result<(Registry, seq<Descriptor>, Answer), RegistryError>

  function Perform(op: Operation, reg: Registry, pending: seq<Descriptor>): Performed
  {
    match op
    case BeginPending(d) =>
      if HasPending(pending, d.requestId) then Success((reg, pending, Done))
      else if |pending| + |List(reg, reg.order)| >= reg.capacity then Failure(RegistryFull)
      else Success((reg, pending + [d], Done))
    case ClearPending(id) =>
      var rest := RetainOthers(pending, id);
      Success((reg, rest, Changed(|pending| != |rest|)))
    case PromotePending(session, id) =>
      if !HasPending(pending, id) then Success((reg, pending, Changed(false))) else
      var index := FirstPending(pending, id);
      var d := pending[index];
      var rest := pending[..index] + pending[index + 1..];
      (match Block(reg, session, d.uri, d.expected, d.replacement, d.rangeStart, d.rangeEnd, d.documentEpoch)
       case Success(next) => Success((next, rest, Changed(true)))
       case Failure(_) => Success((reg, rest, Changed(false))))
    case BlockTarget(session, uri, expected, replacement, start, end) =>
      (match Block(reg, session, uri, expected, replacement, start, end, 0)
       case Success(next) => Success((next, pending, Done))
       case Failure(error) => Failure(error))
    case ReconcileTarget(session, uri, expected, epoch, live) =>
      (match Reconcile(reg, session, uri, expected, epoch, live)
       case (next, Success(verdict)) => Success((next, pending, Reconciled(verdict)))
       case (_, Failure(error)) => Failure(error))
    case AcknowledgeTarget(session, uri, expected, epoch) =>
      (match Acknowledge(reg, session, uri, expected, epoch)
       case (next, Success(_)) => Success((next, pending, Done))
       case (_, Failure(error)) => Failure(error))
  }

  // ---------------------------------------------------------------------
  // Snapshots
  // ---------------------------------------------------------------------

  /** The request id written for blocked targets: "operator". */
  function OperatorRequestId(): (id: Text)
    ensures |id| == 8
  {
    hide ValidUtf8;
    var id := [0x6F, 0x70, 0x65, 0x72, 0x61, 0x74, 0x6F, 0x72];
    AsciiIsValid(id);
    id
  }

  lemma {:induction false} AsciiIsValid(s: seq<byte>)
    requires forall i :: 0 <= i < |s| ==> s[i] <= 0x7F
    ensures ValidUtf8(s)
  {
    if s != [] {
      AsciiIsValid(s[1..]);
    }
  }

  function HashOf(text: RecoveryText, salt: Salt): Hash
  {
    match text
    case Plain(t) => SaltedHash(salt, t)
    case Hashed(h) => h
  }

  function IntoPersisted(t: BlockedTarget, salt: Salt): PersistedTarget
  {
    PersistedTarget(t.uri, t.rangeStart, t.rangeEnd, HashOf(t.expected, salt), HashOf(t.replacement, salt),
                    Blocked(t.state), t.generation, t.documentEpoch, OperatorRequestId())
  }

  function PendingRecord(d: Descriptor, salt: Salt): PersistedTarget
  {
    PersistedTarget(d.uri, d.rangeStart, d.rangeEnd, SaltedHash(salt, d.expected), SaltedHash(salt, d.replacement),
                    Pending, d.generation, d.documentEpoch, d.requestId)
  }

  function PersistedTargets(targets: seq<BlockedTarget>, salt: Salt): (records: seq<PersistedTarget>)
    ensures |records| == |targets|
    ensures forall i :: 0 <= i < |targets| ==> records[i] == IntoPersisted(targets[i], salt)
  {
    seq(|targets|, i requires 0 <= i < |targets| => IntoPersisted(targets[i], salt))
  }

  function PendingRecords(pending: seq<Descriptor>, salt: Salt): (records: seq<PersistedTarget>)
    ensures |records| == |pending|
    ensures forall i :: 0 <= i < |pending| ==> records[i] == PendingRecord(pending[i], salt)
  {
    seq(|pending|, i requires 0 <= i < |pending| => PendingRecord(pending[i], salt))
  }

  function Snapshot(reg: Registry, pending: seq<Descriptor>, salt: Salt): seq<PersistedTarget>
  {
    PersistedTargets(List(reg, reg.order), salt) + PendingRecords(pending, salt)
  }

  // ---------------------------------------------------------------------
  // Write-through commit
  // ---------------------------------------------------------------------

  /** What one operation would make durable, or why it would not. */
  function Prepare(store: Store, op: Operation): Result<(Store, seq<byte>, Answer), StoreError>
  {
    if store.poison.Some? then Failure(store.poison.value) else
    match Perform(op, store.registry, store.pending)
    case Failure(error) => Failure(Refused(error))
    case Success((reg, pending, answer)) =>
      match Encode(store.salt, Snapshot(reg, pending, store.salt))
      case Failure(_) => Failure(WriteFailed)
      case Success(bytes) => Success((store.(registry := reg, pending := pending), bytes, answer))
  }

  /** Clone, mutate, encode, replace the file, commit: nothing changes unless the write succeeds. */
  function Mutate(store: Store, disk: Disk, op: Operation, writes: bool): (Store, Disk, Result<Answer, StoreError>)
  {
    match Prepare(store, op)
    case Failure(error) => (store, disk, Failure(error))
    case Success((next, bytes, answer)) =>
      if writes then (next, Some(bytes), Success(answer)) else (store, disk, Failure(WriteFailed))
  }

  function Poisoned(capacity: nat, reason: StoreError): Store
  {
    Store(Empty(if capacity == 0 then 1 else capacity, None), [], Zeros(16), Some(reason))
  }

  /** Opening: an absent file is created empty, an unreadable one poisons the store. */
  function Open(disk: Disk, capacity: nat, directory: bool, newSalt: Option<Salt>, writes: bool): (Store, Disk)
  {
    if !directory then (Poisoned(capacity, Unavailable), disk) else
    match disk
    case None =>
      if newSalt.None? then (Poisoned(capacity, Unavailable), disk) else
      var store := Store(Empty(capacity, None), [], newSalt.value, None);
      (match Encode(newSalt.value, [])
       case Success(bytes) =>
         if writes then (store, Some(bytes)) else (store.(poison := Some(Unavailable)), disk)
       case Failure(_) => (store.(poison := Some(Unavailable)), disk))
    case Some(bytes) =>
      if |bytes| > MAX_STATE_BYTES then (Poisoned(capacity, StateUnreadable(OversizedFile)), disk) else
      match Decode(bytes)
      case Failure(error) => (Poisoned(capacity, StateUnreadable(error)), disk)
      case Success(StateFile(salt, records)) =>
        match Restore(capacity, salt, records)
        case None => (Poisoned(capacity, StateUnreadable(TooManyEntries)), disk)
        case Some(reg) => (Store(reg, [], salt, None), disk)
  }

  predicate TargetBlocked(store: Store, uri: Text, expected: Text)
  {
    store.poison.Some? || IsBlocked(store.registry, uri, expected)
  }

  // ---------------------------------------------------------------------
  // The store object
  // ---------------------------------------------------------------------

  /** The state file; a durable write either replaces it whole or leaves it. */
  class StateDisk {
    var contents: Disk

    constructor (contents: Disk)
      ensures this.contents == contents
    {
      this.contents := contents;
    }

    method DurableWrite(bytes: seq<byte>, succeeds: bool) returns (ok: bool)
      modifies this
      ensures ok == succeeds
      ensures contents == if succeeds then Some(bytes) else old(contents)
    {
      if succeeds {
        contents := Some(bytes);
      }
      ok := succeeds;
    }
  }

  class DurableRecoveryStore {
    var registry: RegistryObject
    var pending: seq<Descriptor>
    var salt: Salt
    var poison: Option<StoreError>

    function State(): Store
      reads this, registry
    {
      Store(registry.State(), pending, salt, poison)
    }

    constructor (registry: RegistryObject, salt: Salt, poison: Option<StoreError>)
      ensures State() == Store(registry.State(), [], salt, poison)
      ensures this.registry == registry
    {
      this.registry, this.pending, this.salt, this.poison := registry, [], salt, poison;
    }

    static method PoisonedStore(capacity: nat, reason: StoreError) returns (store: DurableRecoveryStore)
      ensures fresh(store) && fresh(store.registry)
      ensures store.State() == Poisoned(capacity, reason)
    {
      var registry := new RegistryObject(Empty(if capacity == 0 then 1 else capacity, None));
      store := new DurableRecoveryStore(registry, Zeros(16), Some(reason));
    }

    /** A fresh store needs a non-zero capacity; the implementation aborts without one. */
    static method OpenIn(disk: StateDisk, capacity: nat, directory: bool, freshSalt: Option<Salt>, writes: bool)
      returns (store: DurableRecoveryStore)
      requires directory && disk.contents.None? && freshSalt.Some? ==> 0 < capacity
      modifies disk
      ensures fresh(store) && fresh(store.registry)
      ensures (store.State(), disk.contents) == Open(old(disk.contents), capacity, directory, freshSalt, writes)
    {
      hide Decode, Encode, RestoreInto;
      if !directory {
        store := PoisonedStore(capacity, Unavailable);
        return;
      }
      if disk.contents.None? {
        if freshSalt.None? {
          store := PoisonedStore(capacity, Unavailable);
          return;
        }
        var registry := new RegistryObject(Empty(capacity, None));
        store := new DurableRecoveryStore(registry, freshSalt.value, None);
        var encoded := EncodeFile(freshSalt.value, []);
        var written := false;
        if encoded.Success? {
          written := disk.DurableWrite(encoded.value, writes);
        }
        if !written {
          store.poison := Some(Unavailable);
        }
        return;
      }
      var bytes := disk.contents.value;
      if |bytes| > MAX_STATE_BYTES {
        store := PoisonedStore(capacity, StateUnreadable(OversizedFile));
        return;
      }
      var decoded := DecodeFile(bytes);
      if decoded.Failure? {
        store := PoisonedStore(capacity, StateUnreadable(decoded.error));
        return;
      }
      var StateFile(salt, records) := decoded.value;
      if capacity == 0 || |records| > capacity {
        store := PoisonedStore(capacity, StateUnreadable(TooManyEntries));
        return;
      }
      var registry := new RegistryObject.FromRecords(capacity, salt, records);
      store := new DurableRecoveryStore(registry, salt, None);
    }

    method IsTargetBlocked(uri: Text, expected: Text) returns (blocked: bool)
      ensures blocked == TargetBlocked(State(), uri, expected)
    {
      if poison.Some? {
        return true;
      }
      var key := registry.Resolve(uri, expected);
      blocked := key in registry.entries;
    }

    /** One mutation against a clone: the answer, the next registry and the next pending intents. */
    method PerformOn(next: RegistryObject, op: Operation)
      returns (result: Result<Answer, RegistryError>, nextPending: seq<Descriptor>)
      requires next != registry && next.State() == registry.State()
      modifies next
      ensures match Perform(op, old(registry.State()), pending)
        case Success((reg, rest, answer)) => result == Success(answer) && next.State() == reg && nextPending == rest
        case Failure(error) => result == Failure(error)
    {
      hide Block, Reconcile, Acknowledge;
      nextPending := pending;
      match op {
        case BeginPending(d) =>
          if HasPending(pending, d.requestId) {
            return Success(Done), pending;
          }
          if |pending| + |List(next.State(), next.order)| >= next.capacity {
            return Failure(RegistryFull), pending;
          }
          nextPending := pending + [d];
          result := Success(Done);
        case ClearPending(id) =>
          nextPending := RetainOthers(pending, id);
          result := Success(Changed(|pending| != |nextPending|));
        case PromotePending(session, id) =>
          if !HasPending(pending, id) {
            return Success(Changed(false)), pending;
          }
          var index := FirstPending(pending, id);
          var d := pending[index];
          nextPending := pending[..index] + pending[index + 1..];
          var blocked := next.BlockTarget(session, d.uri, d.expected, d.replacement,
                                          d.rangeStart, d.rangeEnd, d.documentEpoch);
          result := Success(Changed(blocked.Success?));
        case BlockTarget(session, uri, expected, replacement, start, end) =>
          var blocked := next.BlockTarget(session, uri, expected, replacement, start, end, 0);
          result := if blocked.Success? then Success(Done) else Failure(blocked.error);
        case ReconcileTarget(session, uri, expected, epoch, live) =>
          var verdict := next.ReconcileTarget(session, uri, expected, epoch, live);
          result := if verdict.Success? then Success(Reconciled(verdict.value)) else Failure(verdict.error);
        case AcknowledgeTarget(session, uri, expected, epoch) =>
          var acknowledged := next.AcknowledgeTarget(session, uri, expected, epoch);
          result := if acknowledged.Success? then Success(Done) else Failure(acknowledged.error);
      }
    }

    method MutateState(disk: StateDisk, op: Operation, writes: bool) returns (result: Result<Answer, StoreError>)
      modifies this, disk
      ensures (State(), disk.contents, result) == Mutate(old(State()), old(disk.contents), op, writes)
      ensures registry == old(registry) || fresh(registry)
    {
      hide Perform, Encode, Snapshot;
      if poison.Some? {
        return Failure(poison.value);
      }
      var nextRegistry := new RegistryObject(registry.State());
      var answer, nextPending := PerformOn(nextRegistry, op);
      if answer.Failure? {
        return Failure(Refused(answer.error));
      }
      var records := Snapshot(nextRegistry.State(), nextPending, salt);
      var encoded := EncodeFile(salt, records);
      if encoded.Failure? {
        return Failure(WriteFailed);
      }
      var written := disk.DurableWrite(encoded.value, writes);
      if !written {
        return Failure(WriteFailed);
      }
      registry := nextRegistry;
      pending := nextPending;
      return Success(answer.value);
    }
  }
}
