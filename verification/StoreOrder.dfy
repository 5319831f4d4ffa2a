/**
 * The order of the records on file: what the queue of a reopened store is, and
 * which of several holders of one target a restart restores.
 */
module StoreOrder {
  import opened Wrappers
  import opened Bytes
  import opened Sha256
  import opened RecoveryCodec
  import opened RecoveryRegistry
  import opened RecoveryStore
  import opened StoreInvariant
  import opened StoreRuns
  import opened StoreHolders

  // ---------------------------------------------------------------------
  // Restoring record by record
  // ---------------------------------------------------------------------

  function Pushed(reg: Registry, r: PersistedTarget): Registry
  {
    reg.(order := reg.order + [RecordKey(r)], entries := reg.entries[RecordKey(r) := RestoredTarget(r)])
  }

  lemma {:induction false} RestoreSnoc(reg: Registry, records: seq<PersistedTarget>, r: PersistedTarget)
    ensures RestoreInto(reg, records + [r]) == Pushed(RestoreInto(reg, records), r)
    decreases |records|
  {
    hide RecordKey, RestoredTarget;
    if records == [] {
      assert [] + [r] == [r] && [r][1..] == [];
    } else {
      assert (records + [r])[1..] == records[1..] + [r] && (records + [r])[0] == records[0];
      RestoreSnoc(Pushed(reg, records[0]), records[1..], r);
    }
  }

  /** The last record under a key, if there is one. */
  function LastUnder(records: seq<PersistedTarget>, key: Key): Option<PersistedTarget>
  {
    if records == [] then None
    else if RecordKey(records[|records| - 1]) == key then Some(records[|records| - 1])
    else LastUnder(records[..|records| - 1], key)
  }

  lemma {:induction false} RestoredFromLast(reg: Registry, records: seq<PersistedTarget>, key: Key)
    ensures var next, last := RestoreInto(reg, records), LastUnder(records, key);
      && |next.order| == |reg.order| + |records| && next.order[..|reg.order|] == reg.order
      && (forall i :: 0 <= i < |records| ==> next.order[|reg.order| + i] == RecordKey(records[i]))
      && (if last.Some? then key in next.entries && next.entries[key] == RestoredTarget(last.value)
          else (key in next.entries <==> key in reg.entries)
               && (key in reg.entries ==> next.entries[key] == reg.entries[key]))
    decreases |records|
  {
    hide RecordKey, RestoredTarget;
    if records == [] {
      assert reg.order[..|reg.order|] == reg.order;
    } else {
      var before, r := records[..|records| - 1], records[|records| - 1];
      assert records == before + [r];
      RestoredFromLast(reg, before, key);
      RestoreSnoc(reg, before, r);
    }
  }

  // ---------------------------------------------------------------------
  // The records of a snapshot
  // ---------------------------------------------------------------------

  lemma {:induction false} ListedInOrder(reg: Registry, order: seq<Key>)
    requires forall k :: k in order ==> k in reg.entries
    ensures |List(reg, order)| == |order|
    ensures forall i :: 0 <= i < |order| ==> List(reg, order)[i] == reg.entries[order[i]]
  {
    if order != [] {
      assert order[0] in order;
      ListedInOrder(reg, order[1..]);
    }
  }

  /** The entries come in the order of the queue, then the intents in theirs. */
  lemma SnapshotInOrder(reg: Registry, pending: seq<Descriptor>, salt: Salt)
    requires RegistrySound(reg, salt)
    ensures var records, n := Snapshot(reg, pending, salt), |reg.order|;
      && |records| == n + |pending|
      && (forall i :: 0 <= i < n ==>
            reg.order[i] in reg.entries && records[i] == IntoPersisted(reg.entries[reg.order[i]], salt))
      && (forall j :: 0 <= j < |pending| ==> records[n + j] == PendingRecord(pending[j], salt))
  {
    hide *;
    ListedQueue(reg, salt);
    SnapshotParts(reg, pending, salt);
    var first, second := PersistedTargets(List(reg, reg.order), salt), PendingRecords(pending, salt);
    forall j | 0 <= j < |pending|
      ensures (first + second)[|reg.order| + j] == second[j]
    {
    }
  }

  lemma SnapshotParts(reg: Registry, pending: seq<Descriptor>, salt: Salt)
    ensures Snapshot(reg, pending, salt)
         == PersistedTargets(List(reg, reg.order), salt) + PendingRecords(pending, salt)
  {
    hide List, PersistedTargets, PendingRecords;
  }

  lemma ListedQueue(reg: Registry, salt: Salt)
    requires RegistrySound(reg, salt)
    ensures |List(reg, reg.order)| == |reg.order|
    ensures forall i :: 0 <= i < |reg.order| ==>
      reg.order[i] in reg.entries && List(reg, reg.order)[i] == reg.entries[reg.order[i]]
  {
    hide List;
    ListedInOrder(reg, reg.order);
    assert forall i :: 0 <= i < |reg.order| ==> reg.order[i] in reg.order;
  }

  /** The queue of a reopened store: the entries in their order, then the intents. */
  lemma RestartKeepsOrder(store: Store, disk: Disk, capacity: nat)
    requires Sound(store, disk) && 0 < capacity && |RecordsOn(disk)| <= capacity
    requires RecordsOn(disk) == Snapshot(store.registry, store.pending, store.salt)
    ensures var order, n := Reopen(disk, capacity).registry.order, |store.registry.order|;
      && |order| == n + |store.pending|
      && (forall i :: 0 <= i < n ==>
            store.registry.order[i] in store.registry.entries
            && order[i] == RecordKey(IntoPersisted(store.registry.entries[store.registry.order[i]], store.salt)))
      && (forall j :: 0 <= j < |store.pending| ==>
            order[n + j] == RecordKey(PendingRecord(store.pending[j], store.salt)))
  {
    hide *;
    Parts(store, disk);
    ReopenIsSound(disk, capacity);
    RestoreUnfolds(capacity, store.salt, RecordsOn(disk));
    RestoredFromLast(Empty(capacity, Some(store.salt)), RecordsOn(disk), []);
    EmptyQueue(capacity, store.salt);
    SnapshotInOrder(store.registry, store.pending, store.salt);
  }

  lemma Parts(store: Store, disk: Disk)
    requires Sound(store, disk)
    ensures RegistrySound(store.registry, store.salt) && FileSound(disk) && Readable(disk)
    ensures SaltOn(disk) == store.salt
  {
    hide RegistrySound, UniqueRequestIds, Mirrors, Snapshot, Encodable, Decode;
  }

  lemma RestoreUnfolds(capacity: nat, salt: Salt, records: seq<PersistedTarget>)
    requires 0 < capacity && |records| <= capacity
    ensures Restore(capacity, salt, records) == Some(RestoreInto(Empty(capacity, Some(salt)), records))
  {
    hide RestoreInto;
  }

  lemma EmptyQueue(capacity: nat, salt: Salt)
    ensures Empty(capacity, Some(salt)).order == [] && Empty(capacity, Some(salt)).entries == map[]
  {
  }

  // ---------------------------------------------------------------------
  // Several holders of one target
  // ---------------------------------------------------------------------

  /**
   * A restart restores a target from its last intent if it has one, and then
   * without verdict, whatever verdict an entry of the same target had.
   */
  lemma IntentOutranksEntry(store: Store, disk: Disk, capacity: nat, d: Descriptor)
    requires Sound(store, disk) && 0 < capacity && |RecordsOn(disk)| <= capacity
    requires RecordsOn(disk) == Snapshot(store.registry, store.pending, store.salt) && d in store.pending
    ensures var entries, key := Reopen(disk, capacity).registry.entries, HashKey(store.salt, d.uri, d.expected);
      key in entries && entries[key].state.None?
      && exists j :: 0 <= j < |store.pending|
           && entries[key] == RestoredTarget(PendingRecord(store.pending[j], store.salt))
           && DescriptorId(store.salt, store.pending[j]) == DescriptorId(store.salt, d)
           && forall k :: j < k < |store.pending| ==>
                DescriptorId(store.salt, store.pending[k]) != DescriptorId(store.salt, d)
  {
    hide *;
    Parts(store, disk);
    var key, records := HashKey(store.salt, d.uri, d.expected), RecordsOn(disk);
    ReopenIsSound(disk, capacity);
    RestoreUnfolds(capacity, store.salt, records);
    RestoredFromLast(Empty(capacity, Some(store.salt)), records, key);
    SnapshotInOrder(store.registry, store.pending, store.salt);
    var i := LastIntent(store.pending, store.salt, d);
    forall j | 0 <= j < |store.pending|
      ensures RecordKey(PendingRecord(store.pending[j], store.salt)) == key
        <==> DescriptorId(store.salt, store.pending[j]) == DescriptorId(store.salt, d)
    {
      IntentKey(store.salt, store.pending[j], d);
    }
    var n := |store.registry.order|;
    assert records[n + i] == PendingRecord(store.pending[i], store.salt);
    forall k | n + i < k < |records|
      ensures RecordKey(records[k]) != key
    {
      assert records[n + (k - n)] == PendingRecord(store.pending[k - n], store.salt);
    }
    LastUnderAt(records, key, n + i);
    IntentHasNoVerdict(store.pending[i], store.salt);
  }

  lemma IntentHasNoVerdict(d: Descriptor, salt: Salt)
    ensures RestoredTarget(PendingRecord(d, salt)).state.None?
  {
    hide SaltedHash;
  }

  lemma IntentKey(salt: Salt, e: Descriptor, d: Descriptor)
    ensures RecordKey(PendingRecord(e, salt)) == HashKey(salt, d.uri, d.expected)
      <==> DescriptorId(salt, e) == DescriptorId(salt, d)
  {
    if RecordKey(PendingRecord(e, salt)) == HashKey(salt, d.uri, d.expected) {
      HashedKeysDetermineNames(e.uri, SaltedHash(salt, e.expected), d.uri, SaltedHash(salt, d.expected));
    }
    hide SaltedHash, Hex, KeyOf;
  }

  lemma {:induction false} LastIntent(pending: seq<Descriptor>, salt: Salt, d: Descriptor) returns (i: nat)
    requires d in pending
    ensures i < |pending| && DescriptorId(salt, pending[i]) == DescriptorId(salt, d)
    ensures forall k :: i < k < |pending| ==> DescriptorId(salt, pending[k]) != DescriptorId(salt, d)
  {
    hide DescriptorId;
    i := |pending| - 1;
    if DescriptorId(salt, pending[i]) != DescriptorId(salt, d) {
      var before := pending[..i];
      assert pending == before + [pending[i]];
      i := LastIntent(before, salt, d);
    }
  }

  lemma {:induction false} LastUnderAt(records: seq<PersistedTarget>, key: Key, i: nat)
    requires i < |records| && RecordKey(records[i]) == key
    requires forall k :: i < k < |records| ==> RecordKey(records[k]) != key
    ensures LastUnder(records, key) == Some(records[i])
  {
    hide RecordKey;
    if i < |records| - 1 {
      LastUnderAt(records[..|records| - 1], key, i);
    }
  }
}
