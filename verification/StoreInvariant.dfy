/**
 * The invariant of the durable store: how memory and the state file agree, and
 * that every operation and every reopening keeps it. `Sound` is what holds for
 * all names; `Good` adds that no two names can be confused.
 */
module StoreInvariant {
  import opened Wrappers
  import opened Bytes
  import opened Sha256
  import opened RecoveryCodec
  import opened RecoveryRegistry
  import opened RecoveryStore

  // ---------------------------------------------------------------------
  // Names that cannot be confused with one another
  // ---------------------------------------------------------------------

  predicate NulFree(uri: seq<byte>)
  {
    0 !in uri
  }

  predicate IsHexDigit(b: byte)
  {
    0x30 <= b <= 0x39 || 0x61 <= b <= 0x66
  }

  /** Sixty-four lowercase hex digits: the form of a stored hash in a key. */
  predicate LooksHashed(token: seq<byte>)
  {
    |token| == 64 && forall i :: 0 <= i < 64 ==> IsHexDigit(token[i])
  }

  predicate WellNamed(uri: seq<byte>, token: seq<byte>)
  {
    NulFree(uri) && !LooksHashed(token)
  }

  lemma HexDigitIsHex(n: byte)
    requires n < 16
    ensures IsHexDigit(HexDigit(n))
  {
  }

  lemma {:induction false} HexLooksHashed(s: seq<byte>)
    ensures forall i :: 0 <= i < |Hex(s)| ==> IsHexDigit(Hex(s)[i])
  {
    if s != [] {
      HexLooksHashed(s[1..]);
      HexDigitIsHex(s[0] >> 4);
      HexDigitIsHex(s[0] & 0xF);
      hide HexDigit, IsHexDigit;
      forall i | 0 <= i < |Hex(s)|
        ensures IsHexDigit(Hex(s)[i])
      {
        if i >= 2 {
          assert Hex(s)[i] == Hex(s[1..])[i - 2];
        }
      }
    }
  }

  lemma HashHexLooksHashed(h: Hash)
    ensures LooksHashed(Hex(h))
  {
    HexLooksHashed(h);
  }

  lemma LongerUriHasNul(u: seq<byte>, t: seq<byte>, v: seq<byte>, s: seq<byte>)
    requires |u| < |v| && KeyOf(u, t) == KeyOf(v, s)
    ensures !NulFree(v)
  {
    assert KeyOf(u, t)[|u|] == 0;
    assert KeyOf(v, s)[|u|] == v[|u|];
  }

  lemma KeysDetermineNames(u: seq<byte>, t: seq<byte>, v: seq<byte>, s: seq<byte>)
    requires NulFree(u) && NulFree(v)
    requires KeyOf(u, t) == KeyOf(v, s)
    ensures u == v && t == s
  {
    var k := KeyOf(u, t);
    if |u| < |v| {
      LongerUriHasNul(u, t, v, s);
    }
    if |v| < |u| {
      LongerUriHasNul(v, s, u, t);
    }
    assert u == k[..|u|] && v == k[..|v|];
    assert t == k[|u| + 1..] && s == k[|v| + 1..];
  }

  /** Keys ending in a hash determine it, whatever the URI. */
  lemma HashedKeysDetermineNames(u: seq<byte>, h: Hash, v: seq<byte>, g: Hash)
    requires KeyOf(u, Hex(h)) == KeyOf(v, Hex(g))
    ensures u == v && h == g
  {
    var k := KeyOf(u, Hex(h));
    assert |k| == |u| + 65 == |v| + 65;
    assert u == k[..|u|] && v == k[..|v|];
    assert Hex(h) == k[|u| + 1..] && Hex(g) == k[|v| + 1..];
    hide Hex;
    HexInjective(h, g);
  }

  // ---------------------------------------------------------------------
  // Identities: what survives a restart
  // ---------------------------------------------------------------------

  /** A target as the state file knows it: its URI and its salted hash. */
  datatype Id = Id(uri: seq<byte>, hash: seq<byte>)

  function IdOf(salt: Salt, uri: seq<byte>, token: seq<byte>): Id
  {
    Id(uri, SaltedHash(salt, token))
  }

  function TargetId(t: BlockedTarget, salt: Salt): Id
  {
    Id(t.uri, HashOf(t.expected, salt))
  }

  function RecordId(r: PersistedTarget): Id
  {
    Id(r.uri, r.expectedHash)
  }

  predicate Recorded(records: seq<PersistedTarget>, id: Id)
  {
    exists r :: r in records && RecordId(r) == id
  }

  predicate HeldByEntry(reg: Registry, salt: Salt, id: Id)
  {
    exists k :: k in reg.entries && TargetId(reg.entries[k], salt) == id
  }

  predicate HeldByPending(pending: seq<Descriptor>, salt: Salt, id: Id)
  {
    exists d :: d in pending && IdOf(salt, d.uri, d.expected) == id
  }

  // ---------------------------------------------------------------------
  // The registry
  // ---------------------------------------------------------------------

  /** Before a restart keys hold plaintext, afterwards salted hashes. */
  predicate EntryKeyed(mode: Option<Salt>, salt: Salt, key: Key, t: BlockedTarget)
  {
    && NulFree(t.uri)
    && (t.expected.Plain? ==> !LooksHashed(t.expected.text))
    && (match mode
        case None => t.expected.Plain? && key == KeyOf(t.uri, t.expected.text)
        case Some(_) => key == KeyOf(t.uri, Hex(HashOf(t.expected, salt))))
  }

  /** What every registry has whatever the names: one salt, and a queue of the stored keys. */
  ghost predicate RegistrySound(reg: Registry, salt: Salt)
  {
    && (reg.salt.Some? ==> reg.salt.value == salt)
    && (forall k :: k in reg.order <==> k in reg.entries)
  }

  ghost predicate RegistryInv(reg: Registry, salt: Salt)
  {
    && RegistrySound(reg, salt)
    && (forall k :: k in reg.entries ==> EntryKeyed(reg.salt, salt, k, reg.entries[k]))
  }

  function CanonicalKey(reg: Registry, salt: Salt, uri: seq<byte>, token: seq<byte>): Key
  {
    if reg.salt.None? then KeyOf(uri, token) else HashKey(salt, uri, token)
  }

  /** For well-named targets there is one key per salt mode. */
  lemma ResolveIsCanonical(reg: Registry, salt: Salt, uri: seq<byte>, token: seq<byte>)
    requires RegistryInv(reg, salt) && WellNamed(uri, token)
    ensures ResolveKey(reg, uri, token) == CanonicalKey(reg, salt, uri, token)
  {
    hide SaltedHash, Hex, KeyOf, LooksHashed;
    if reg.salt.Some? && KeyOf(uri, token) in reg.entries {
      var t := reg.entries[KeyOf(uri, token)];
      assert EntryKeyed(reg.salt, salt, KeyOf(uri, token), t);
      KeysDetermineNames(uri, token, t.uri, Hex(HashOf(t.expected, salt)));
      HashHexLooksHashed(HashOf(t.expected, salt));
    }
  }

  /** The entry under a resolved key has the identity that was asked for. */
  lemma ResolvedEntryId(reg: Registry, salt: Salt, uri: seq<byte>, token: seq<byte>)
    requires RegistryInv(reg, salt) && WellNamed(uri, token)
    requires IsBlocked(reg, uri, token)
    ensures TargetId(reg.entries[ResolveKey(reg, uri, token)], salt) == IdOf(salt, uri, token)
  {
    hide SaltedHash, Hex, KeyOf, LooksHashed;
    ResolveIsCanonical(reg, salt, uri, token);
    var key := ResolveKey(reg, uri, token);
    var t := reg.entries[key];
    assert EntryKeyed(reg.salt, salt, key, t);
    if reg.salt.None? {
      KeysDetermineNames(uri, token, t.uri, t.expected.text);
    } else {
      KeysDetermineNames(uri, Hex(SaltedHash(salt, token)), t.uri, Hex(HashOf(t.expected, salt)));
      HexInjective(SaltedHash(salt, token), HashOf(t.expected, salt));
    }
  }

  /** After a restart an identity is blocked exactly when its hash key is present. */
  lemma HashedIdIsBlocked(reg: Registry, salt: Salt, uri: seq<byte>, token: seq<byte>)
    requires RegistryInv(reg, salt) && WellNamed(uri, token) && reg.salt.Some?
    ensures IsBlocked(reg, uri, token) <==> HeldByEntry(reg, salt, IdOf(salt, uri, token))
  {
    hide SaltedHash, Hex, KeyOf, LooksHashed;
    ResolveIsCanonical(reg, salt, uri, token);
    if IsBlocked(reg, uri, token) {
      ResolvedEntryId(reg, salt, uri, token);
    }
    if HeldByEntry(reg, salt, IdOf(salt, uri, token)) {
      var k :| k in reg.entries && TargetId(reg.entries[k], salt) == IdOf(salt, uri, token);
      assert EntryKeyed(reg.salt, salt, k, reg.entries[k]);
    }
  }

  lemma {:induction false} ListMembers(reg: Registry, order: seq<Key>)
    requires forall k :: k in order ==> k in reg.entries
    ensures |List(reg, order)| == |order|
    ensures forall i :: 0 <= i < |order| ==> List(reg, order)[i] == reg.entries[order[i]]
  {
    if order != [] {
      assert order[0] in order;
      ListMembers(reg, order[1..]);
    }
  }

  // ---------------------------------------------------------------------
  // Snapshots and restores hold the same identities
  // ---------------------------------------------------------------------

  lemma SnapshotLength(reg: Registry, pending: seq<Descriptor>, salt: Salt)
    requires RegistrySound(reg, salt)
    ensures |Snapshot(reg, pending, salt)| == |reg.order| + |pending|
  {
    ListMembers(reg, reg.order);
  }

  lemma ListedTargets(reg: Registry, salt: Salt, t: BlockedTarget)
    requires RegistrySound(reg, salt)
    ensures t in List(reg, reg.order) <==> exists k :: k in reg.entries && reg.entries[k] == t
  {
    ListMembers(reg, reg.order);
    if t in List(reg, reg.order) {
      var i :| 0 <= i < |reg.order| && List(reg, reg.order)[i] == t;
      assert reg.order[i] in reg.order;
    }
    if k :| k in reg.entries && reg.entries[k] == t {
      assert k in reg.order;
      var i :| 0 <= i < |reg.order| && reg.order[i] == k;
      assert List(reg, reg.order)[i] == t;
    }
  }

  lemma PersistedMembers(targets: seq<BlockedTarget>, salt: Salt, r: PersistedTarget)
    ensures r in PersistedTargets(targets, salt) <==> exists t :: t in targets && IntoPersisted(t, salt) == r
  {
    hide IntoPersisted;
    var records := PersistedTargets(targets, salt);
    if r in records {
      var i :| 0 <= i < |records| && records[i] == r;
      assert targets[i] in targets;
    }
    if t :| t in targets && IntoPersisted(t, salt) == r {
      var i :| 0 <= i < |targets| && targets[i] == t;
      assert records[i] == r;
    }
  }

  lemma PendingMembers(pending: seq<Descriptor>, salt: Salt, r: PersistedTarget)
    ensures r in PendingRecords(pending, salt) <==> exists d :: d in pending && PendingRecord(d, salt) == r
  {
    hide PendingRecord;
    var records := PendingRecords(pending, salt);
    if r in records {
      var i :| 0 <= i < |records| && records[i] == r;
      assert pending[i] in pending;
    }
    if d :| d in pending && PendingRecord(d, salt) == r {
      var i :| 0 <= i < |pending| && pending[i] == d;
      assert records[i] == r;
    }
  }

  lemma SnapshotRecord(reg: Registry, pending: seq<Descriptor>, salt: Salt, r: PersistedTarget)
    requires RegistrySound(reg, salt)
    ensures r in Snapshot(reg, pending, salt)
      <==> (exists k :: k in reg.entries && IntoPersisted(reg.entries[k], salt) == r)
           || (exists d :: d in pending && PendingRecord(d, salt) == r)
  {
    hide IntoPersisted, PendingRecord, RegistrySound, List;
    PersistedMembers(List(reg, reg.order), salt, r);
    PendingMembers(pending, salt, r);
    if t :| t in List(reg, reg.order) && IntoPersisted(t, salt) == r {
      ListedTargets(reg, salt, t);
    }
    if k :| k in reg.entries && IntoPersisted(reg.entries[k], salt) == r {
      ListedTargets(reg, salt, reg.entries[k]);
    }
  }

  lemma SnapshotIds(reg: Registry, pending: seq<Descriptor>, salt: Salt, id: Id)
    requires RegistrySound(reg, salt)
    ensures Recorded(Snapshot(reg, pending, salt), id)
      <==> HeldByEntry(reg, salt, id) || HeldByPending(pending, salt, id)
  {
    hide Snapshot, SaltedHash, HashOf;
    var records := Snapshot(reg, pending, salt);
    if Recorded(records, id) {
      var r :| r in records && RecordId(r) == id;
      SnapshotRecord(reg, pending, salt, r);
    }
    if HeldByEntry(reg, salt, id) {
      var k :| k in reg.entries && TargetId(reg.entries[k], salt) == id;
      SnapshotRecord(reg, pending, salt, IntoPersisted(reg.entries[k], salt));
      assert RecordId(IntoPersisted(reg.entries[k], salt)) == id;
    }
    if HeldByPending(pending, salt, id) {
      var d :| d in pending && IdOf(salt, d.uri, d.expected) == id;
      SnapshotRecord(reg, pending, salt, PendingRecord(d, salt));
      assert RecordId(PendingRecord(d, salt)) == id;
    }
  }

  lemma {:induction false} RestoredEntries(reg: Registry, records: seq<PersistedTarget>)
    ensures var out := RestoreInto(reg, records);
      && out.capacity == reg.capacity && out.salt == reg.salt
      && |out.order| == |reg.order| + |records|
      && (forall k :: k in out.order <==> k in reg.order || exists r :: r in records && RecordKey(r) == k)
      && (forall k :: k in reg.entries ==> k in out.entries)
      && (forall r :: r in records ==> RecordKey(r) in out.entries)
      && (forall k :: k in out.entries ==>
            (k in reg.entries && out.entries[k] == reg.entries[k])
            || exists r :: r in records && RecordKey(r) == k && out.entries[k] == RestoredTarget(r))
    decreases |records|
  {
    hide RecordKey, RestoredTarget;
    if records != [] {
      var r := records[0];
      var next := reg.(order := reg.order + [RecordKey(r)],
                       entries := reg.entries[RecordKey(r) := RestoredTarget(r)]);
      RestoredEntries(next, records[1..]);
      var out := RestoreInto(reg, records);
      forall s | s in records
        ensures RecordKey(s) in out.entries
      {
        if s != r {
          assert s in records[1..];
        }
      }
    }
  }

  lemma RestoredSound(capacity: nat, salt: Salt, records: seq<PersistedTarget>)
    requires Restore(capacity, salt, records).Some?
    ensures RegistrySound(Restore(capacity, salt, records).value, salt)
    ensures Restore(capacity, salt, records).value.salt == Some(salt)
    ensures Restore(capacity, salt, records).value.capacity == capacity
    ensures |Restore(capacity, salt, records).value.order| == |records|
  {
    hide RestoreInto, RecordKey, RestoredTarget;
    RestoredEntries(Empty(capacity, Some(salt)), records);
  }

  lemma RestoredInv(capacity: nat, salt: Salt, records: seq<PersistedTarget>)
    requires Restore(capacity, salt, records).Some?
    requires forall r :: r in records ==> NulFree(r.uri)
    ensures RegistryInv(Restore(capacity, salt, records).value, salt)
    ensures Restore(capacity, salt, records).value.salt == Some(salt)
    ensures Restore(capacity, salt, records).value.capacity == capacity
    ensures |Restore(capacity, salt, records).value.order| == |records|
  {
    hide SaltedHash, Hex, KeyOf, LooksHashed, RestoreInto, RegistrySound;
    var reg := Restore(capacity, salt, records).value;
    RestoredSound(capacity, salt, records);
    RestoredEntries(Empty(capacity, Some(salt)), records);
    forall k | k in reg.entries
      ensures EntryKeyed(reg.salt, salt, k, reg.entries[k])
    {
      var r :| r in records && RecordKey(r) == k && reg.entries[k] == RestoredTarget(r);
    }
  }

  lemma RestoredIds(capacity: nat, salt: Salt, records: seq<PersistedTarget>, id: Id)
    requires Restore(capacity, salt, records).Some?
    ensures HeldByEntry(Restore(capacity, salt, records).value, salt, id) <==> Recorded(records, id)
  {
    hide SaltedHash, Hex, KeyOf, LooksHashed, RestoreInto;
    var reg := Restore(capacity, salt, records).value;
    RestoredEntries(Empty(capacity, Some(salt)), records);
    if HeldByEntry(reg, salt, id) {
      var k :| k in reg.entries && TargetId(reg.entries[k], salt) == id;
      var r :| r in records && RecordKey(r) == k && reg.entries[k] == RestoredTarget(r);
      assert RecordId(r) == id;
    }
    if Recorded(records, id) {
      var r :| r in records && RecordId(r) == id;
      var k := RecordKey(r);
      var s :| s in records && RecordKey(s) == k && reg.entries[k] == RestoredTarget(s);
      HashedKeysDetermineNames(r.uri, r.expectedHash, s.uri, s.expectedHash);
      assert TargetId(reg.entries[k], salt) == id;
    }
  }

  // ---------------------------------------------------------------------
  // Each registry operation keeps the registry invariant
  // ---------------------------------------------------------------------

  lemma BlockSound(reg: Registry, salt: Salt, session: Text, uri: Text, expected: Text, replacement: Text,
                   start: u64, end: u64, epoch: u64)
    requires RegistrySound(reg, salt)
    requires Block(reg, session, uri, expected, replacement, start, end, epoch).Success?
    ensures var next := Block(reg, session, uri, expected, replacement, start, end, epoch).value;
      && RegistrySound(next, salt)
      && next.salt == reg.salt && next.capacity == reg.capacity
      && next.entries.Keys == reg.entries.Keys + {ResolveKey(reg, uri, expected)}
      && next.entries[ResolveKey(reg, uri, expected)]
         == FreshTarget(session, uri, expected, replacement, start, end, epoch)
      && (forall k :: k in reg.entries && k != ResolveKey(reg, uri, expected) ==> next.entries[k] == reg.entries[k])
      && |reg.order| <= |next.order| <= |reg.order| + 1
      && (|next.order| == |reg.order| <==> IsBlocked(reg, uri, expected))
  {
    hide ResolveKey, FreshTarget;
  }

  lemma BlockKeeps(reg: Registry, salt: Salt, session: Text, uri: Text, expected: Text, replacement: Text,
                   start: u64, end: u64, epoch: u64)
    requires RegistryInv(reg, salt) && WellNamed(uri, expected)
    requires Block(reg, session, uri, expected, replacement, start, end, epoch).Success?
    ensures var next := Block(reg, session, uri, expected, replacement, start, end, epoch).value;
      && RegistryInv(next, salt)
      && next.salt == reg.salt && next.capacity == reg.capacity
      && next.entries.Keys == reg.entries.Keys + {ResolveKey(reg, uri, expected)}
      && next.entries[ResolveKey(reg, uri, expected)]
         == FreshTarget(session, uri, expected, replacement, start, end, epoch)
      && (forall k :: k in reg.entries && k != ResolveKey(reg, uri, expected) ==> next.entries[k] == reg.entries[k])
      && |reg.order| <= |next.order| <= |reg.order| + 1
  {
    hide SaltedHash, Hex, KeyOf, LooksHashed, RegistrySound;
    ResolveIsCanonical(reg, salt, uri, expected);
    BlockSound(reg, salt, session, uri, expected, replacement, start, end, epoch);
    hide Block;
    var key := ResolveKey(reg, uri, expected);
    var target := FreshTarget(session, uri, expected, replacement, start, end, epoch);
    assert EntryKeyed(reg.salt, salt, key, target);
  }

  /** Blocking keeps every identity and adds its own. */
  lemma BlockIds(reg: Registry, salt: Salt, session: Text, uri: Text, expected: Text, replacement: Text,
                 start: u64, end: u64, epoch: u64, id: Id)
    requires RegistryInv(reg, salt) && WellNamed(uri, expected)
    requires Block(reg, session, uri, expected, replacement, start, end, epoch).Success?
    ensures HeldByEntry(Block(reg, session, uri, expected, replacement, start, end, epoch).value, salt, id)
      <==> HeldByEntry(reg, salt, id) || id == IdOf(salt, uri, expected)
  {
    BlockKeeps(reg, salt, session, uri, expected, replacement, start, end, epoch);
    hide SaltedHash, Hex, KeyOf, LooksHashed, RegistryInv, ResolveKey;
    var next := Block(reg, session, uri, expected, replacement, start, end, epoch).value;
    var key := ResolveKey(reg, uri, expected);
    assert TargetId(next.entries[key], salt) == IdOf(salt, uri, expected);
    if HeldByEntry(reg, salt, id) {
      var k :| k in reg.entries && TargetId(reg.entries[k], salt) == id;
      if k == key {
        ResolvedEntryId(reg, salt, uri, expected);
      } else {
        assert next.entries[k] == reg.entries[k];
      }
    }
    if HeldByEntry(next, salt, id) {
      var k :| k in next.entries && TargetId(next.entries[k], salt) == id;
      if k != key {
        assert k in reg.entries;
      }
    }
  }

  lemma ReconcileSound(reg: Registry, salt: Salt, session: Text, uri: Text, expected: Text, epoch: u64, live: Text)
    requires RegistrySound(reg, salt)
    ensures var next := Reconcile(reg, session, uri, expected, epoch, live).0;
      && RegistrySound(next, salt)
      && next.salt == reg.salt && next.capacity == reg.capacity && next.order == reg.order
      && next.entries.Keys == reg.entries.Keys
      && (forall k :: k in reg.entries ==>
            && TargetId(next.entries[k], salt) == TargetId(reg.entries[k], salt)
            && next.entries[k].rangeStart == reg.entries[k].rangeStart
            && next.entries[k].rangeEnd == reg.entries[k].rangeEnd
            && (k != ResolveKey(reg, uri, expected) ==> next.entries[k] == reg.entries[k]))
  {
    hide SaltedHash, Hex, KeyOf, ResolveKey;
    ReconcileTouchesState(reg, session, uri, expected, epoch, live);
    hide Reconcile;
  }

  lemma ReconcileKeeps(reg: Registry, salt: Salt, session: Text, uri: Text, expected: Text, epoch: u64, live: Text)
    requires RegistryInv(reg, salt)
    ensures var next := Reconcile(reg, session, uri, expected, epoch, live).0;
      && RegistryInv(next, salt)
      && next.salt == reg.salt && next.capacity == reg.capacity && next.order == reg.order
      && next.entries.Keys == reg.entries.Keys
      && (forall k :: k in reg.entries ==>
            && TargetId(next.entries[k], salt) == TargetId(reg.entries[k], salt)
            && next.entries[k].rangeStart == reg.entries[k].rangeStart
            && next.entries[k].rangeEnd == reg.entries[k].rangeEnd
            && (k != ResolveKey(reg, uri, expected) ==> next.entries[k] == reg.entries[k]))
  {
    hide SaltedHash, Hex, KeyOf, LooksHashed, ResolveKey, EntryKeyed, RegistrySound, TargetId;
    ReconcileSound(reg, salt, session, uri, expected, epoch, live);
    ReconcileTouchesState(reg, session, uri, expected, epoch, live);
    var next, key := Reconcile(reg, session, uri, expected, epoch, live).0, ResolveKey(reg, uri, expected);
    hide Reconcile;
    if next != reg {
      SameNameSameKey(reg.salt, salt, key, reg.entries[key], next.entries[key]);
    }
  }

  /** Reconciliation rewrites at most the session and the verdict of one entry. */
  lemma ReconcileTouchesState(reg: Registry, session: Text, uri: Text, expected: Text, epoch: u64, live: Text)
    ensures var next, key := Reconcile(reg, session, uri, expected, epoch, live).0, ResolveKey(reg, uri, expected);
      next == reg
      || (key in reg.entries && key in next.entries
          && next == reg.(entries := reg.entries[key := next.entries[key]])
          && next.entries[key] == reg.entries[key].(sessionId := next.entries[key].sessionId,
                                                    state := next.entries[key].state))
  {
    hide ResolveKey, VerdictOf;
  }

  lemma SameNameSameKey(mode: Option<Salt>, salt: Salt, key: Key, t: BlockedTarget, s: BlockedTarget)
    requires t.uri == s.uri && t.expected == s.expected
    ensures EntryKeyed(mode, salt, key, t) == EntryKeyed(mode, salt, key, s)
  {
  }

  lemma AcknowledgeSound(reg: Registry, salt: Salt, session: Text, uri: Text, expected: Text, epoch: u64)
    requires RegistrySound(reg, salt)
    requires Acknowledge(reg, session, uri, expected, epoch).1.Success?
    ensures var next, key := Acknowledge(reg, session, uri, expected, epoch).0, ResolveKey(reg, uri, expected);
      && RegistrySound(next, salt)
      && next.salt == reg.salt && next.capacity == reg.capacity
      && key in reg.entries && reg.entries[key].state.Some?
      && next.entries == reg.entries - {key}
  {
    hide ResolveKey;
  }

  lemma AcknowledgeKeeps(reg: Registry, salt: Salt, session: Text, uri: Text, expected: Text, epoch: u64)
    requires RegistryInv(reg, salt)
    requires Acknowledge(reg, session, uri, expected, epoch).1.Success?
    ensures var next, key := Acknowledge(reg, session, uri, expected, epoch).0, ResolveKey(reg, uri, expected);
      && RegistryInv(next, salt)
      && next.salt == reg.salt && next.capacity == reg.capacity
      && key in reg.entries && reg.entries[key].state.Some?
      && next.entries == reg.entries - {key}
  {
    hide SaltedHash, Hex, KeyOf, LooksHashed, ResolveKey, EntryKeyed, RegistrySound;
    AcknowledgeSound(reg, salt, session, uri, expected, epoch);
    hide Acknowledge;
  }

  // ---------------------------------------------------------------------
  // Each store operation keeps the invariant of its parts
  // ---------------------------------------------------------------------

  predicate WellNamedOperation(op: Operation)
  {
    match op
    case BeginPending(d) => WellNamed(d.uri, d.expected)
    case BlockTarget(_, uri, expected, _, _, _) => WellNamed(uri, expected)
    case _ => true
  }

  predicate UniqueRequestIds(pending: seq<Descriptor>)
  {
    forall i, j :: 0 <= i < j < |pending| ==> pending[i].requestId != pending[j].requestId
  }

  predicate PendingInv(pending: seq<Descriptor>)
  {
    UniqueRequestIds(pending) && forall d :: d in pending ==> WellNamed(d.uri, d.expected)
  }

  lemma {:induction false} RetainKeepsUnique(pending: seq<Descriptor>, id: Text)
    requires UniqueRequestIds(pending)
    ensures UniqueRequestIds(RetainOthers(pending, id))
  {
    if pending != [] {
      var rest := RetainOthers(pending[1..], id);
      RetainKeepsUnique(pending[1..], id);
      if pending[0].requestId != id {
        forall j | 0 <= j < |rest|
          ensures rest[j].requestId != pending[0].requestId
        {
          assert rest[j] in pending[1..];
        }
      }
    }
  }

  lemma PerformSound(op: Operation, reg: Registry, pending: seq<Descriptor>, salt: Salt)
    requires RegistrySound(reg, salt) && UniqueRequestIds(pending)
    requires Perform(op, reg, pending).Success?
    ensures var (next, rest, _) := Perform(op, reg, pending).value;
      && RegistrySound(next, salt) && UniqueRequestIds(rest)
      && next.salt == reg.salt && next.capacity == reg.capacity
  {
    hide RegistrySound, Block, Reconcile, Acknowledge, List;
    match op {
      case BeginPending(d) =>
      case ClearPending(id) =>
        RetainKeepsUnique(pending, id);
      case PromotePending(session, id) =>
        if HasPending(pending, id) {
          var d := pending[FirstPending(pending, id)];
          if Block(reg, session, d.uri, d.expected, d.replacement, d.rangeStart, d.rangeEnd, d.documentEpoch).Success? {
            BlockSound(reg, salt, session, d.uri, d.expected, d.replacement, d.rangeStart, d.rangeEnd, d.documentEpoch);
          }
        }
      case BlockTarget(session, uri, expected, replacement, start, end) =>
        BlockSound(reg, salt, session, uri, expected, replacement, start, end, 0);
      case ReconcileTarget(session, uri, expected, epoch, live) =>
        ReconcileSound(reg, salt, session, uri, expected, epoch, live);
      case AcknowledgeTarget(session, uri, expected, epoch) =>
        AcknowledgeSound(reg, salt, session, uri, expected, epoch);
    }
  }

  lemma PerformKeeps(op: Operation, reg: Registry, pending: seq<Descriptor>, salt: Salt)
    requires RegistryInv(reg, salt) && PendingInv(pending) && WellNamedOperation(op)
    requires Perform(op, reg, pending).Success?
    ensures var (next, rest, _) := Perform(op, reg, pending).value;
      && RegistryInv(next, salt) && PendingInv(rest)
      && next.salt == reg.salt && next.capacity == reg.capacity
  {
    hide RegistryInv, WellNamed, Block, Reconcile, Acknowledge, List;
    match op {
      case BeginPending(d) =>
      case ClearPending(id) =>
        RetainKeepsUnique(pending, id);
      case PromotePending(session, id) =>
        if HasPending(pending, id) {
          var d := pending[FirstPending(pending, id)];
          if Block(reg, session, d.uri, d.expected, d.replacement, d.rangeStart, d.rangeEnd, d.documentEpoch).Success? {
            BlockKeeps(reg, salt, session, d.uri, d.expected, d.replacement, d.rangeStart, d.rangeEnd, d.documentEpoch);
          }
        }
      case BlockTarget(session, uri, expected, replacement, start, end) =>
        BlockKeeps(reg, salt, session, uri, expected, replacement, start, end, 0);
      case ReconcileTarget(session, uri, expected, epoch, live) =>
        ReconcileKeeps(reg, salt, session, uri, expected, epoch, live);
      case AcknowledgeTarget(session, uri, expected, epoch) =>
        AcknowledgeKeeps(reg, salt, session, uri, expected, epoch);
    }
  }

  // ---------------------------------------------------------------------
  // Memory and disk
  // ---------------------------------------------------------------------

  predicate Readable(disk: Disk)
  {
    disk.Some? && Decode(disk.value).Success?
  }

  function RecordsOn(disk: Disk): seq<PersistedTarget>
    requires Readable(disk)
  {
    Decode(disk.value).value.records
  }

  function SaltOn(disk: Disk): Salt
    requires Readable(disk)
  {
    Decode(disk.value).value.salt
  }

  /** The file was written from this memory, or this memory was restored from the file. */
  predicate Mirrors(store: Store, records: seq<PersistedTarget>)
  {
    || records == Snapshot(store.registry, store.pending, store.salt)
    || (store.pending == [] && Restore(store.registry.capacity, store.salt, records) == Some(store.registry))
  }

  /** A file this store could have written, whatever the names. */
  predicate FileSound(disk: Disk)
  {
    Readable(disk) && Encodable(RecordsOn(disk))
  }

  predicate FileInv(disk: Disk)
  {
    FileSound(disk) && (forall r :: r in RecordsOn(disk) ==> NulFree(r.uri))
  }

  /** The invariant of an unpoisoned store and its file, for all names. */
  ghost predicate Sound(store: Store, disk: Disk)
  {
    && store.poison.None?
    && RegistrySound(store.registry, store.salt) && UniqueRequestIds(store.pending)
    && 0 < store.registry.capacity
    && Encodable(Snapshot(store.registry, store.pending, store.salt))
    && FileSound(disk) && SaltOn(disk) == store.salt
    && Mirrors(store, RecordsOn(disk))
  }

  /** The same, where moreover no two stored names can be confused. */
  ghost predicate Good(store: Store, disk: Disk)
  {
    Sound(store, disk) && RegistryInv(store.registry, store.salt) && PendingInv(store.pending) && FileInv(disk)
  }

  lemma SnapshotIsNulFree(reg: Registry, pending: seq<Descriptor>, salt: Salt)
    requires RegistryInv(reg, salt) && PendingInv(pending)
    ensures forall r :: r in Snapshot(reg, pending, salt) ==> NulFree(r.uri)
  {
    hide Snapshot, NulFree, SaltedHash, LooksHashed;
    forall r | r in Snapshot(reg, pending, salt)
      ensures NulFree(r.uri)
    {
      SnapshotRecord(reg, pending, salt, r);
      if k :| k in reg.entries && IntoPersisted(reg.entries[k], salt) == r {
        assert EntryKeyed(reg.salt, salt, k, reg.entries[k]);
      } else {
        var d :| d in pending && PendingRecord(d, salt) == r;
        assert WellNamed(d.uri, d.expected);
      }
    }
  }

  /** Whatever an operation makes durable is again a sound state. */
  lemma PrepareKeepsSound(store: Store, disk: Disk, op: Operation)
    requires Sound(store, disk) && Prepare(store, op).Success?
    ensures var (next, bytes, _) := Prepare(store, op).value;
      && Sound(next, Some(bytes))
      && RecordsOn(Some(bytes)) == Snapshot(next.registry, next.pending, next.salt)
      && next.registry.capacity == store.registry.capacity && next.registry.salt == store.registry.salt
      && next.salt == store.salt
  {
    hide RegistrySound, UniqueRequestIds, Perform, Snapshot, Decode, Encode, FileBytes, Encodable;
    PerformSound(op, store.registry, store.pending, store.salt);
    var (next, bytes, _) := Prepare(store, op).value;
    var records := Snapshot(next.registry, next.pending, next.salt);
    EncodeSucceedsIff(next.salt, records);
    RoundTrip(next.salt, records);
  }

  /** And, of well-named operations, again a good one. */
  lemma PrepareKeepsGood(store: Store, disk: Disk, op: Operation)
    requires Good(store, disk) && WellNamedOperation(op)
    requires Prepare(store, op).Success?
    ensures var (next, bytes, _) := Prepare(store, op).value;
      && Good(next, Some(bytes))
      && RecordsOn(Some(bytes)) == Snapshot(next.registry, next.pending, next.salt)
      && next.registry.capacity == store.registry.capacity && next.registry.salt == store.registry.salt
      && next.salt == store.salt
  {
    PrepareKeepsSound(store, disk, op);
    hide RegistryInv, PendingInv, Perform, Snapshot, Decode, Encode, Encodable, Mirrors, UniqueRequestIds;
    hide RegistrySound;
    PerformKeeps(op, store.registry, store.pending, store.salt);
    var (next, bytes, _) := Prepare(store, op).value;
    SnapshotIsNulFree(next.registry, next.pending, next.salt);
  }

  /** The identities on disk are exactly those in memory. */
  lemma DiskIds(store: Store, disk: Disk, id: Id)
    requires Sound(store, disk)
    ensures Recorded(RecordsOn(disk), id)
      <==> HeldByEntry(store.registry, store.salt, id) || HeldByPending(store.pending, store.salt, id)
  {
    hide RegistrySound, Snapshot, Decode, Restore;
    if RecordsOn(disk) == Snapshot(store.registry, store.pending, store.salt) {
      SnapshotIds(store.registry, store.pending, store.salt, id);
    } else {
      RestoredIds(store.registry.capacity, store.salt, RecordsOn(disk), id);
    }
  }
}
