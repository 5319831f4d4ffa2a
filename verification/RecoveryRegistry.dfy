/**
 * The bounded registry of blocked targets: its operations as functions on a
 * state value, and the class whose methods perform them in place.
 */
module RecoveryRegistry {
  import opened Wrappers
  import opened Bytes
  import opened Sha256
  import opened RecoveryCodec

  type Key = seq<byte>

  /** Token material: plaintext for fresh blocks, a salted hash after a restart. */
  datatype RecoveryText = Plain(text: Text) | Hashed(hash: Hash)

  datatype BlockedTarget = BlockedTarget(
    sessionId: Text,
    uri: Text,
    expected: RecoveryText,
    replacement: RecoveryText,
    rangeStart: u64,
    rangeEnd: u64,
    state: Option<Verdict>,
    generation: u64,
    documentEpoch: u64)

  datatype RegistryError = UnknownTarget | SessionMismatch | AckBeforeReconcile | RegistryFull | EpochMismatch

  datatype Registry = Registry(
    capacity: nat,
    order: seq<Key>,
    entries: map<Key, BlockedTarget>,
    salt: Option<Salt>)

  // ---------------------------------------------------------------------
  // Keys
  // ---------------------------------------------------------------------

  function KeyOf(uri: seq<byte>, token: seq<byte>): Key
  {
    uri + [0] + token
  }

  function HashKey(salt: Salt, uri: seq<byte>, token: seq<byte>): Key
  {
    KeyOf(uri, Hex(SaltedHash(salt, token)))
  }

  function ResolveKey(reg: Registry, uri: seq<byte>, token: seq<byte>): Key
  {
    if KeyOf(uri, token) in reg.entries then KeyOf(uri, token)
    else if reg.salt.Some? then HashKey(reg.salt.value, uri, token)
    else KeyOf(uri, token)
  }

  predicate IsBlocked(reg: Registry, uri: seq<byte>, token: seq<byte>)
  {
    ResolveKey(reg, uri, token) in reg.entries
  }

  // ---------------------------------------------------------------------
  // Operations
  // ---------------------------------------------------------------------

  function Matches(text: RecoveryText, salt: Option<Salt>, live: Text): bool
  {
    match text
    case Plain(t) => t == live
    case Hashed(h) => salt.Some? && SaltedHash(salt.value, live) == h
  }

  function FreshTarget(session: Text, uri: Text, expected: Text, replacement: Text,
                       start: u64, end: u64, epoch: u64): BlockedTarget
  {
    BlockedTarget(session, uri, Plain(expected), Plain(replacement), start, end, None, 0, epoch)
  }

  function Block(reg: Registry, session: Text, uri: Text, expected: Text, replacement: Text,
                 start: u64, end: u64, epoch: u64): Result<Registry, RegistryError>
  {
    var key := ResolveKey(reg, uri, expected);
    if key !in reg.entries && |reg.order| == reg.capacity then Failure(RegistryFull) else
    var order := if key in reg.entries then reg.order else reg.order + [key];
    Success(reg.(order := order,
                 entries := reg.entries[key := FreshTarget(session, uri, expected, replacement, start, end, epoch)]))
  }

  /** A restored target bound to a document epoch rebinds only under that epoch. */
  predicate RebindAllowed(target: BlockedTarget, epoch: u64)
  {
    target.documentEpoch == 0 || target.documentEpoch == epoch
  }

  /** The session gate shared by reconciliation and acknowledgement. */
  function Bind(target: BlockedTarget, session: Text, epoch: u64): Result<BlockedTarget, RegistryError>
  {
    if target.sessionId == [] then
      if RebindAllowed(target, epoch) then Success(target.(sessionId := session)) else Failure(EpochMismatch)
    else if target.sessionId != session then Failure(SessionMismatch)
    else Success(target)
  }

  function VerdictOf(target: BlockedTarget, salt: Option<Salt>, live: Text): Verdict
  {
    if Matches(target.replacement, salt, live) then AppliedAcknowledged
    else if Matches(target.expected, salt, live) then NotApplied
    else ConflictHumanReview
  }

  function Reconcile(reg: Registry, session: Text, uri: Text, expected: Text, epoch: u64, live: Text)
    : (Registry, Result<Verdict, RegistryError>)
  {
    var key := ResolveKey(reg, uri, expected);
    if key !in reg.entries then (reg, Failure(UnknownTarget)) else
    match Bind(reg.entries[key], session, epoch)
    case Failure(error) => (reg, Failure(error))
    case Success(bound) =>
      var verdict := if bound.state.Some? then bound.state.value else VerdictOf(bound, reg.salt, live);
      (reg.(entries := reg.entries[key := bound.(state := Some(verdict))]), Success(verdict))
  }

  function Without(order: seq<Key>, key: Key): (rest: seq<Key>)
    ensures forall k :: k in rest <==> k in order && k != key
    ensures |rest| <= |order|
    ensures key in order ==> |rest| < |order|
  {
    if order == [] then []
    else if order[0] == key then Without(order[1..], key)
    else [order[0]] + Without(order[1..], key)
  }

  /** An acknowledgement before reconciliation still leaves the target bound. */
  function Acknowledge(reg: Registry, session: Text, uri: Text, expected: Text, epoch: u64)
    : (Registry, Result<(), RegistryError>)
  {
    var key := ResolveKey(reg, uri, expected);
    if key !in reg.entries then (reg, Failure(UnknownTarget)) else
    match Bind(reg.entries[key], session, epoch)
    case Failure(error) => (reg, Failure(error))
    case Success(bound) =>
      if bound.state.None? then
        (reg.(entries := reg.entries[key := bound]), Failure(AckBeforeReconcile))
      else
        (reg.(order := Without(reg.order, key), entries := reg.entries - {key}), Success(()))
  }

  function List(reg: Registry, order: seq<Key>): seq<BlockedTarget>
  {
    if order == [] then []
    else if order[0] in reg.entries then [reg.entries[order[0]]] + List(reg, order[1..])
    else List(reg, order[1..])
  }

  // ---------------------------------------------------------------------
  // Restoring from durable records
  // ---------------------------------------------------------------------

  function RecordKey(r: PersistedTarget): Key
  {
    KeyOf(r.uri, Hex(r.expectedHash))
  }

  /** A pending intent that survived a restart reloads as a block without verdict. */
  function RestoredTarget(r: PersistedTarget): BlockedTarget
  {
    BlockedTarget([], r.uri, Hashed(r.expectedHash), Hashed(r.replacementHash), r.rangeStart, r.rangeEnd,
                  if r.kind.Blocked? then r.kind.verdict else None, r.generation, r.documentEpoch)
  }

  function RestoreInto(reg: Registry, records: seq<PersistedTarget>): Registry
    decreases |records|
  {
    if records == [] then reg else
    var r := records[0];
    RestoreInto(reg.(order := reg.order + [RecordKey(r)],
                     entries := reg.entries[RecordKey(r) := RestoredTarget(r)]), records[1..])
  }

  function Empty(capacity: nat, salt: Option<Salt>): Registry
  {
    Registry(capacity, [], map[], salt)
  }

  function Restore(capacity: nat, salt: Salt, records: seq<PersistedTarget>): Option<Registry>
  {
    if capacity == 0 || |records| > capacity then None
    else Some(RestoreInto(Empty(capacity, Some(salt)), records))
  }

  // ---------------------------------------------------------------------
  // The registry object
  // ---------------------------------------------------------------------

  class RegistryObject {
    var capacity: nat
    var order: seq<Key>
    var entries: map<Key, BlockedTarget>
    var salt: Option<Salt>

    function State(): Registry
      reads this
    {
      Registry(capacity, order, entries, salt)
    }

    constructor (state: Registry)
      ensures State() == state
    {
      capacity, order, entries, salt := state.capacity, state.order, state.entries, state.salt;
    }

    /** Rebuilds a registry from durable records, one record at a time. */
    constructor FromRecords(capacity: nat, salt: Salt, records: seq<PersistedTarget>)
      requires 0 < capacity && |records| <= capacity
      ensures Restore(capacity, salt, records) == Some(State())
    {
      this.capacity, this.order, this.entries, this.salt := capacity, [], map[], Some(salt);
      new;
      hide RecordKey, RestoredTarget;
      for i := 0 to |records|
        invariant Restore(capacity, salt, records) == Some(RestoreInto(State(), records[i..]))
      {
        var record := records[i];
        var key := RecordKey(record);
        order := order + [key];
        entries := entries[key := RestoredTarget(record)];
        assert records[i..][1..] == records[i + 1..];
      }
      assert records[|records|..] == [];
    }

    method Resolve(uri: Text, expected: Text) returns (key: Key)
      ensures key == ResolveKey(State(), uri, expected)
    {
      key := KeyOf(uri, expected);
      if key !in entries && salt.Some? {
        key := KeyOf(uri, Hex(SaltedHash(salt.value, expected)));
      }
    }

    method BlockTarget(session: Text, uri: Text, expected: Text, replacement: Text, start: u64, end: u64, epoch: u64)
      returns (result: Result<(), RegistryError>)
      modifies this
      ensures match Block(old(State()), session, uri, expected, replacement, start, end, epoch)
        case Success(next) => result == Success(()) && State() == next
        case Failure(error) => result == Failure(error) && State() == old(State())
    {
      var key := Resolve(uri, expected);
      if key !in entries && |order| == capacity {
        return Failure(RegistryFull);
      }
      if key !in entries {
        order := order + [key];
      }
      entries := entries[key := FreshTarget(session, uri, expected, replacement, start, end, epoch)];
      result := Success(());
    }

    method ReconcileTarget(session: Text, uri: Text, expected: Text, epoch: u64, live: Text)
      returns (result: Result<Verdict, RegistryError>)
      modifies this
      ensures (State(), result) == Reconcile(old(State()), session, uri, expected, epoch, live)
    {
      hide ResolveKey, VerdictOf;
      var key := Resolve(uri, expected);
      if key !in entries {
        return Failure(UnknownTarget);
      }
      var target := entries[key];
      if target.sessionId == [] {
        if !RebindAllowed(target, epoch) {
          return Failure(EpochMismatch);
        }
        target := target.(sessionId := session);
      } else if target.sessionId != session {
        return Failure(SessionMismatch);
      }
      assert Bind(old(entries)[key], session, epoch) == Success(target);
      entries := entries[key := target];
      if target.state.Some? {
        assert target == target.(state := Some(target.state.value));
        return Success(target.state.value);
      }
      var verdict := VerdictOf(target, salt, live);
      entries := entries[key := target.(state := Some(verdict))];
      assert entries == old(entries)[key := target.(state := Some(verdict))];
      result := Success(verdict);
    }

    method AcknowledgeTarget(session: Text, uri: Text, expected: Text, epoch: u64)
      returns (result: Result<(), RegistryError>)
      modifies this
      ensures (State(), result) == Acknowledge(old(State()), session, uri, expected, epoch)
    {
      hide ResolveKey, Without;
      var key := Resolve(uri, expected);
      if key !in entries {
        return Failure(UnknownTarget);
      }
      var target := entries[key];
      if target.sessionId == [] {
        if !RebindAllowed(target, epoch) {
          return Failure(EpochMismatch);
        }
        target := target.(sessionId := session);
      } else if target.sessionId != session {
        return Failure(SessionMismatch);
      }
      if target.state.None? {
        entries := entries[key := target];
        return Failure(AckBeforeReconcile);
      }
      entries := entries - {key};
      order := Without(order, key);
      result := Success(());
    }
  }
}
