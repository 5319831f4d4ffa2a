/**
 * The versioned recovery-state file: its layout, the encoder, the decoder with
 * every error it reports, and the loops that compute them.
 */
module RecoveryCodec {
  import opened Wrappers
  import opened Bytes
  import opened Sha256
  import opened Crc32

  const MAGIC: seq<byte> := [0x5A, 0x4E, 0x4B, 0x59, 0x52, 0x45, 0x43, 0x31]
  const VERSION: u32 := 2
  const MAX_ENTRIES := 128
  const MAX_STATE_BYTES := 256 * 1024
  const MAX_URI_BYTES := 1024
  const MAX_REQUEST_ID_BYTES := 256
  const HEADER_BYTES := 36

  datatype Verdict = AppliedAcknowledged | NotApplied | ConflictHumanReview

  datatype PersistedKind = Blocked(verdict: Option<Verdict>) | Pending

  datatype PersistedTarget = PersistedTarget(
    uri: Text,
    rangeStart: u64,
    rangeEnd: u64,
    expectedHash: Hash,
    replacementHash: Hash,
    kind: PersistedKind,
    generation: u64,
    documentEpoch: u64,
    requestId: Text)

  datatype CodecError =
    | Truncated
    | BadMagic
    | UnknownVersion
    | TooManyEntries
    | OversizedFile
    | OversizedRecord
    | Malformed
    | ChecksumMismatch
    | EncodeOverflow

  datatype StateFile = StateFile(salt: Salt, records: seq<PersistedTarget>)

  // ---------------------------------------------------------------------
  // Layout
  // ---------------------------------------------------------------------

  function VerdictCode(v: Verdict): byte
  {
    match v
    case AppliedAcknowledged => 0
    case NotApplied => 1
    case ConflictHumanReview => 2
  }

  function KindBytes(k: PersistedKind): (s: seq<byte>)
    ensures 1 <= |s| <= 2
  {
    match k
    case Blocked(None) => [0]
    case Blocked(Some(v)) => [1, VerdictCode(v)]
    case Pending => [2]
  }

  function RecordBytes(r: PersistedTarget): seq<byte>
  {
    LeBytes(|r.uri|, 2) + (r.uri + (LeBytes(r.rangeStart, 8) + (LeBytes(r.rangeEnd, 8)
    + (r.expectedHash + (r.replacementHash + (KindBytes(r.kind) + (LeBytes(r.generation, 8)
    + (LeBytes(r.documentEpoch, 8) + (LeBytes(|r.requestId|, 2) + r.requestId)))))))))
  }

  function PayloadBytes(records: seq<PersistedTarget>): seq<byte>
  {
    if records == [] then [] else RecordBytes(records[0]) + PayloadBytes(records[1..])
  }

  function HeaderBytes(salt: Salt, count: nat, payloadLength: nat): (s: seq<byte>)
    ensures |s| == HEADER_BYTES
  {
    MAGIC + LeBytes(VERSION, 4) + salt + LeBytes(count, 4) + LeBytes(payloadLength, 4)
  }

  function BodyBytes(salt: Salt, records: seq<PersistedTarget>): seq<byte>
  {
    HeaderBytes(salt, |records|, |PayloadBytes(records)|) + PayloadBytes(records)
  }

  function FileBytes(salt: Salt, records: seq<PersistedTarget>): seq<byte>
  {
    BodyBytes(salt, records) + TrailerOf(Checksum(BodyBytes(salt, records)))
  }

  /** The per-record bounds the decoder checks. */
  predicate RecordBounded(r: PersistedTarget)
  {
    0 < |r.uri| <= MAX_URI_BYTES && 0 < |r.requestId| <= MAX_REQUEST_ID_BYTES
  }

  /** The per-record bounds the encoder checks: it alone looks at the range. */
  predicate RecordEncodable(r: PersistedTarget)
  {
    RecordBounded(r) && r.rangeStart <= r.rangeEnd
  }

  predicate Encodable(records: seq<PersistedTarget>)
  {
    |records| <= MAX_ENTRIES && forall r :: r in records ==> RecordEncodable(r)
  }

  predicate Decodable(records: seq<PersistedTarget>)
  {
    |records| <= MAX_ENTRIES && forall r :: r in records ==> RecordBounded(r)
  }

  /** Encoding, with the total-size check the implementation makes last. */
  function Encode(salt: Salt, records: seq<PersistedTarget>): Result<seq<byte>, CodecError>
  {
    if Encodable(records) && |FileBytes(salt, records)| <= MAX_STATE_BYTES
    then Success(FileBytes(salt, records))
    else Failure(EncodeOverflow)
  }

  // ---------------------------------------------------------------------
  // Decoding, field by field
  // ---------------------------------------------------------------------

  type Parsed<T> = Result<(T, nat), CodecError>

  function ReadFixed(bytes: seq<byte>, offset: nat, width: nat): (r: Parsed<seq<byte>>)
    ensures r.Success? ==> r.value.1 == offset + width <= |bytes| && |r.value.0| == width
  {
    if offset + width <= |bytes|
    then Success((bytes[offset..offset + width], offset + width))
    else Failure(Truncated)
  }

  function ReadLe(bytes: seq<byte>, offset: nat, width: nat): (r: Parsed<nat>)
    ensures r.Success? ==> r.value.1 == offset + width <= |bytes| && r.value.0 < Pow256(width)
  {
    var (field, next) :- ReadFixed(bytes, offset, width);
    LeValueBound(field);
    Success((LeValue(field), next))
  }

  function ReadU64(bytes: seq<byte>, offset: nat): (r: Parsed<u64>)
    ensures r.Success? ==> r.value.1 == offset + 8 <= |bytes|
  {
    Pow256Values();
    var (value, next) :- ReadLe(bytes, offset, 8);
    Success((value, next))
  }

  function ReadHash(bytes: seq<byte>, offset: nat): (r: Parsed<Hash>)
    ensures r.Success? ==> r.value.1 == offset + 32 <= |bytes|
  {
    var (field, next) :- ReadFixed(bytes, offset, 32);
    Success((field, next))
  }

  /** A length-prefixed UTF-8 string of one to `limit` bytes. */
  function ReadText(bytes: seq<byte>, offset: nat, limit: nat): (r: Parsed<Text>)
    ensures r.Success? ==> 0 < |r.value.0| && r.value.1 == offset + 2 + |r.value.0| <= |bytes|
  {
    var (length, start) :- ReadLe(bytes, offset, 2);
    if length == 0 || length > limit then Failure(OversizedRecord) else
    var (field, next) :- ReadFixed(bytes, start, length);
    if !ValidUtf8(field) then Failure(Malformed) else Success((field, next))
  }

  function ReadKind(bytes: seq<byte>, offset: nat): (r: Parsed<PersistedKind>)
    ensures r.Success? ==> r.value.1 == offset + |KindBytes(r.value.0)| <= |bytes|
  {
    var (state, next) :- ReadFixed(bytes, offset, 1);
    if state[0] == 0 then Success((Blocked(None), next))
    else if state[0] == 1 then
      var (code, end) :- ReadFixed(bytes, next, 1);
      if code[0] == 0 then Success((Blocked(Some(AppliedAcknowledged)), end))
      else if code[0] == 1 then Success((Blocked(Some(NotApplied)), end))
      else if code[0] == 2 then Success((Blocked(Some(ConflictHumanReview)), end))
      else Failure(Malformed)
    else if state[0] == 2 then Success((Pending, next))
    else Failure(Malformed)
  }

  function DecodeRecord(payload: seq<byte>, cursor: nat): (r: Parsed<PersistedTarget>)
    ensures r.Success? ==> cursor < r.value.1 <= |payload|
  {
    var (uri, c0) :- ReadText(payload, cursor, MAX_URI_BYTES);
    var (start, c1) :- ReadU64(payload, c0);
    var (end, c2) :- ReadU64(payload, c1);
    var (expectedHash, c3) :- ReadHash(payload, c2);
    var (replacementHash, c4) :- ReadHash(payload, c3);
    var (kind, c5) :- ReadKind(payload, c4);
    var (generation, c6) :- ReadU64(payload, c5);
    var (documentEpoch, c7) :- ReadU64(payload, c6);
    var (requestId, c8) :- ReadText(payload, c7, MAX_REQUEST_ID_BYTES);
    Success((PersistedTarget(uri, start, end, expectedHash, replacementHash, kind, generation,
                             documentEpoch, requestId), c8))
  }

  function DecodeRecords(payload: seq<byte>, cursor: nat, count: nat): Parsed<seq<PersistedTarget>>
    decreases count
  {
    hide DecodeRecord;
    if count == 0 then Success(([], cursor)) else
    var (first, next) :- DecodeRecord(payload, cursor);
    var (rest, end) :- DecodeRecords(payload, next, count - 1);
    Success(([first] + rest, end))
  }

  function DecodePayload(salt: Salt, count: nat, payload: seq<byte>): Result<StateFile, CodecError>
  {
    var (records, end) :- DecodeRecords(payload, 0, count);
    if end != |payload| then Failure(Malformed) else Success(StateFile(salt, records))
  }

  function Decode(bytes: seq<byte>): Result<StateFile, CodecError>
  {
    if |bytes| > MAX_STATE_BYTES then Failure(OversizedFile) else
    var (magic, c0) :- ReadFixed(bytes, 0, 8);
    if magic != MAGIC then Failure(BadMagic) else
    var (version, c1) :- ReadLe(bytes, c0, 4);
    if version != VERSION then Failure(UnknownVersion) else
    var (salt, c2) :- ReadFixed(bytes, c1, 16);
    var (count, c3) :- ReadLe(bytes, c2, 4);
    if count > MAX_ENTRIES then Failure(TooManyEntries) else
    var (payloadLength, offset) :- ReadLe(bytes, c3, 4);
    if |bytes| != offset + payloadLength + 4 then Failure(Malformed) else
    var stored := bytes[offset + payloadLength..];
    if TrailerOf(Checksum(bytes[..|bytes| - 4])) != stored then Failure(ChecksumMismatch) else
    DecodePayload(salt, count, bytes[offset..offset + payloadLength])
  }

  // ---------------------------------------------------------------------
  // Each reader accepts exactly what the encoder writes
  // ---------------------------------------------------------------------

  /** `part` is what `bytes` holds from `offset` on. */
  predicate At(bytes: seq<byte>, offset: nat, part: seq<byte>)
  {
    offset + |part| <= |bytes| && bytes[offset..offset + |part|] == part
  }

  lemma AtConcat(bytes: seq<byte>, offset: nat, first: seq<byte>, rest: seq<byte>)
    ensures At(bytes, offset, first + rest) <==> At(bytes, offset, first) && At(bytes, offset + |first|, rest)
  {
    if offset + |first| + |rest| <= |bytes| {
      var whole := bytes[offset..offset + |first + rest|];
      assert whole[..|first|] == bytes[offset..offset + |first|];
      assert whole[|first|..] == bytes[offset + |first|..offset + |first| + |rest|];
      assert whole == whole[..|first|] + whole[|first|..];
    }
  }

  lemma ReadLeIff(bytes: seq<byte>, offset: nat, width: nat, n: nat)
    requires n < Pow256(width)
    ensures At(bytes, offset, LeBytes(n, width)) <==> ReadLe(bytes, offset, width) == Success((n, offset + width))
  {
    hide LeBytes, LeValue, Pow256;
    if offset + width <= |bytes| {
      var field := bytes[offset..offset + width];
      LeBytesOfValue(field);
      LeValueOfBytes(n, width);
    }
  }

  lemma ReadU64Iff(bytes: seq<byte>, offset: nat, n: u64)
    ensures At(bytes, offset, LeBytes(n, 8)) <==> ReadU64(bytes, offset) == Success((n, offset + 8))
  {
    Pow256Values();
    ReadLeIff(bytes, offset, 8, n);
  }

  lemma ReadTextIff(bytes: seq<byte>, offset: nat, limit: nat, t: Text)
    requires limit < 0x1_0000
    ensures 0 < |t| <= limit && At(bytes, offset, LeBytes(|t|, 2) + t)
      <==> ReadText(bytes, offset, limit) == Success((t, offset + 2 + |t|))
  {
    hide ValidUtf8, LeBytes, LeValue;
    Pow256Values();
    AtConcat(bytes, offset, LeBytes(|t|, 2), t);
    if |t| < 0x1_0000 {
      ReadLeIff(bytes, offset, 2, |t|);
    }
  }

  lemma ReadKindIff(bytes: seq<byte>, offset: nat, k: PersistedKind)
    ensures At(bytes, offset, KindBytes(k)) <==> ReadKind(bytes, offset) == Success((k, offset + |KindBytes(k)|))
  {
    if offset + 1 <= |bytes| {
      assert bytes[offset..offset + 1] == [bytes[offset]];
      if offset + 2 <= |bytes| {
        assert bytes[offset..offset + 2] == [bytes[offset], bytes[offset + 1]];
        assert bytes[offset + 1..offset + 2] == [bytes[offset + 1]];
      }
    }
  }

  lemma DecodeRecordIff(payload: seq<byte>, cursor: nat, r: PersistedTarget)
    ensures RecordBounded(r) && At(payload, cursor, RecordBytes(r))
      <==> DecodeRecord(payload, cursor) == Success((r, cursor + |RecordBytes(r)|))
  {
    hide LeBytes, At, KindBytes, ReadText, ReadU64, ReadHash, ReadKind, ValidUtf8, DecodeRecord;
    var tail8 := LeBytes(|r.requestId|, 2) + r.requestId;
    var tail7 := LeBytes(r.documentEpoch, 8) + tail8;
    var tail6 := LeBytes(r.generation, 8) + tail7;
    var tail5 := KindBytes(r.kind) + tail6;
    var tail4 := r.replacementHash + tail5;
    var tail3 := r.expectedHash + tail4;
    var tail2 := LeBytes(r.rangeEnd, 8) + tail3;
    var tail1 := LeBytes(r.rangeStart, 8) + tail2;
    var c0 := cursor + 2 + |r.uri|;
    assert RecordBytes(r) == (LeBytes(|r.uri|, 2) + r.uri) + tail1;
    AtConcat(payload, cursor, LeBytes(|r.uri|, 2) + r.uri, tail1);
    ReadTextIff(payload, cursor, MAX_URI_BYTES, r.uri);
    AtConcat(payload, c0, LeBytes(r.rangeStart, 8), tail2);
    ReadU64Iff(payload, c0, r.rangeStart);
    AtConcat(payload, c0 + 8, LeBytes(r.rangeEnd, 8), tail3);
    ReadU64Iff(payload, c0 + 8, r.rangeEnd);
    AtConcat(payload, c0 + 16, r.expectedHash, tail4);
    ReadHashIff(payload, c0 + 16, r.expectedHash);
    AtConcat(payload, c0 + 48, r.replacementHash, tail5);
    ReadHashIff(payload, c0 + 48, r.replacementHash);
    AtConcat(payload, c0 + 80, KindBytes(r.kind), tail6);
    ReadKindIff(payload, c0 + 80, r.kind);
    var c5 := c0 + 80 + |KindBytes(r.kind)|;
    AtConcat(payload, c5, LeBytes(r.generation, 8), tail7);
    ReadU64Iff(payload, c5, r.generation);
    AtConcat(payload, c5 + 8, LeBytes(r.documentEpoch, 8), tail8);
    ReadU64Iff(payload, c5 + 8, r.documentEpoch);
    ReadTextIff(payload, c5 + 16, MAX_REQUEST_ID_BYTES, r.requestId);
    DecodeRecordSteps(payload, cursor, r, c0, c5);
  }

  lemma ReadHashIff(bytes: seq<byte>, offset: nat, h: Hash)
    ensures At(bytes, offset, h) <==> ReadHash(bytes, offset) == Success((h, offset + 32))
  {
  }

  /** The record decoder succeeds exactly when all nine fields are read. */
  lemma DecodeRecordSteps(payload: seq<byte>, cursor: nat, r: PersistedTarget, c0: nat, c5: nat)
    requires c0 == cursor + 2 + |r.uri|
    requires c5 == c0 + 80 + |KindBytes(r.kind)|
    ensures DecodeRecord(payload, cursor) == Success((r, c5 + 16 + 2 + |r.requestId|))
      <==> && ReadText(payload, cursor, MAX_URI_BYTES) == Success((r.uri, c0))
           && ReadU64(payload, c0) == Success((r.rangeStart, c0 + 8))
           && ReadU64(payload, c0 + 8) == Success((r.rangeEnd, c0 + 16))
           && ReadHash(payload, c0 + 16) == Success((r.expectedHash, c0 + 48))
           && ReadHash(payload, c0 + 48) == Success((r.replacementHash, c0 + 80))
           && ReadKind(payload, c0 + 80) == Success((r.kind, c5))
           && ReadU64(payload, c5) == Success((r.generation, c5 + 8))
           && ReadU64(payload, c5 + 8) == Success((r.documentEpoch, c5 + 16))
           && ReadText(payload, c5 + 16, MAX_REQUEST_ID_BYTES) == Success((r.requestId, c5 + 16 + 2 + |r.requestId|))
  {
    hide LeBytes, ReadText, ReadU64, ReadHash, ReadKind, ValidUtf8;
  }

  lemma {:induction false} DecodeRecordsComplete(payload: seq<byte>, cursor: nat, records: seq<PersistedTarget>)
    requires forall r :: r in records ==> RecordBounded(r)
    requires At(payload, cursor, PayloadBytes(records))
    ensures DecodeRecords(payload, cursor, |records|) == Success((records, cursor + |PayloadBytes(records)|))
    decreases |records|
  {
    hide DecodeRecord, RecordBytes, At;
    if records != [] {
      var first, rest := records[0], records[1..];
      AtConcat(payload, cursor, RecordBytes(first), PayloadBytes(rest));
      DecodeRecordIff(payload, cursor, first);
      DecodeRecordsComplete(payload, cursor + |RecordBytes(first)|, rest);
      assert records == [first] + rest;
    }
  }

  lemma {:induction false} DecodeRecordsSound(payload: seq<byte>, cursor: nat, count: nat)
    requires cursor <= |payload|
    requires DecodeRecords(payload, cursor, count).Success?
    ensures var (records, end) := DecodeRecords(payload, cursor, count).value;
      && |records| == count
      && (forall r :: r in records ==> RecordBounded(r))
      && At(payload, cursor, PayloadBytes(records))
      && end == cursor + |PayloadBytes(records)|
    decreases count
  {
    hide DecodeRecord, RecordBytes, RecordBounded;
    if count > 0 {
      var (first, next) := DecodeRecord(payload, cursor).value;
      DecodeRecordsSound(payload, next, count - 1);
      var (rest, end) := DecodeRecords(payload, next, count - 1).value;
      DecodeRecordLength(payload, cursor);
      DecodeRecordIff(payload, cursor, first);
      AtConcat(payload, cursor, RecordBytes(first), PayloadBytes(rest));
      assert ([first] + rest)[1..] == rest;
    }
  }

  lemma DecodeRecordLength(payload: seq<byte>, cursor: nat)
    requires DecodeRecord(payload, cursor).Success?
    ensures DecodeRecord(payload, cursor).value.1
         == cursor + |RecordBytes(DecodeRecord(payload, cursor).value.0)|
  {
    hide LeBytes, ReadText, ReadU64, ReadHash, ReadKind, ValidUtf8, KindBytes;
  }

  lemma HeaderFields(bytes: seq<byte>, salt: Salt, count: nat, payloadLength: nat)
    requires count < 0x1_0000_0000 && payloadLength < 0x1_0000_0000
    ensures At(bytes, 0, HeaderBytes(salt, count, payloadLength))
      <==> && ReadFixed(bytes, 0, 8) == Success((MAGIC, 8))
           && ReadLe(bytes, 8, 4) == Success((VERSION, 12))
           && ReadFixed(bytes, 12, 16) == Success((salt, 28))
           && ReadLe(bytes, 28, 4) == Success((count, 32))
           && ReadLe(bytes, 32, 4) == Success((payloadLength, 36))
  {
    hide LeBytes, ReadLe, At;
    var tail3 := LeBytes(count, 4) + LeBytes(payloadLength, 4);
    var tail2 := salt + tail3;
    var tail1 := LeBytes(VERSION, 4) + tail2;
    Pow256Values();
    assert HeaderBytes(salt, count, payloadLength) == MAGIC + tail1;
    AtConcat(bytes, 0, MAGIC, tail1);
    ReadFixedIff(bytes, 0, MAGIC);
    AtConcat(bytes, 8, LeBytes(VERSION, 4), tail2);
    ReadLeIff(bytes, 8, 4, VERSION);
    AtConcat(bytes, 12, salt, tail3);
    ReadFixedIff(bytes, 12, salt);
    AtConcat(bytes, 28, LeBytes(count, 4), LeBytes(payloadLength, 4));
    ReadLeIff(bytes, 28, 4, count);
    ReadLeIff(bytes, 32, 4, payloadLength);
  }

  lemma ReadFixedIff(bytes: seq<byte>, offset: nat, field: seq<byte>)
    ensures At(bytes, offset, field) <==> ReadFixed(bytes, offset, |field|) == Success((field, offset + |field|))
  {
  }

  // ---------------------------------------------------------------------
  // Sizes: the total-size check never fires
  // ---------------------------------------------------------------------

  lemma {:induction false} PayloadBound(records: seq<PersistedTarget>)
    requires forall r :: r in records ==> RecordBounded(r)
    ensures |PayloadBytes(records)| <= 1382 * |records|
  {
    if records != [] {
      assert records[0] in records;
      assert |RecordBytes(records[0])| <= 1382;
      PayloadBound(records[1..]);
    }
  }

  lemma FileLength(salt: Salt, records: seq<PersistedTarget>)
    ensures |FileBytes(salt, records)| == HEADER_BYTES + |PayloadBytes(records)| + 4
  {
  }

  /** Within the record caps a file is never oversized, so only those caps can fail. */
  lemma EncodeSucceedsIff(salt: Salt, records: seq<PersistedTarget>)
    ensures Encode(salt, records).Success? <==> Encodable(records)
    ensures Encodable(records) ==> |FileBytes(salt, records)| < MAX_STATE_BYTES
  {
    if Encodable(records) {
      PayloadBound(records);
      FileLength(salt, records);
    }
  }

  // ---------------------------------------------------------------------
  // The decoder accepts exactly the files of the layout
  // ---------------------------------------------------------------------

  lemma FileParts(salt: Salt, records: seq<PersistedTarget>)
    ensures var file, length := FileBytes(salt, records), |PayloadBytes(records)|;
      && |file| == 36 + length + 4
      && At(file, 0, HeaderBytes(salt, |records|, length))
      && file[36..36 + length] == PayloadBytes(records)
      && file[..|file| - 4] == BodyBytes(salt, records)
      && file[36 + length..] == TrailerOf(Checksum(BodyBytes(salt, records)))
  {
    hide PayloadBytes, HeaderBytes, Checksum, TrailerOf;
  }

  lemma DecodeComplete(salt: Salt, records: seq<PersistedTarget>)
    requires Decodable(records)
    ensures Decode(FileBytes(salt, records)) == Success(StateFile(salt, records))
  {
    hide DecodeRecords, PayloadBytes, FileBytes, BodyBytes, HeaderBytes, Checksum, TrailerOf, ReadFixed, ReadLe;
    var payload, file := PayloadBytes(records), FileBytes(salt, records);
    PayloadBound(records);
    FileParts(salt, records);
    HeaderFields(file, salt, |records|, |payload|);
    assert payload[0..|payload|] == payload;
    DecodeRecordsComplete(payload, 0, records);
  }

  lemma DecodeSound(bytes: seq<byte>)
    requires Decode(bytes).Success?
    ensures Decodable(Decode(bytes).value.records)
    ensures bytes == FileBytes(Decode(bytes).value.salt, Decode(bytes).value.records)
    ensures |bytes| <= MAX_STATE_BYTES
  {
    hide DecodeRecords, HeaderBytes, Checksum, TrailerOf, ReadFixed, ReadLe;
    var StateFile(salt, records) := Decode(bytes).value;
    var count := ReadLe(bytes, 28, 4).value.0;
    var payloadLength := ReadLe(bytes, 32, 4).value.0;
    Pow256Values();
    HeaderFields(bytes, salt, count, payloadLength);
    var payload := bytes[36..36 + payloadLength];
    DecodeRecordsSound(payload, 0, count);
    assert payload[0..|payload|] == payload;
    assert payload == PayloadBytes(records);
    assert bytes[0..36] == HeaderBytes(salt, count, payloadLength);
    var body := bytes[..|bytes| - 4];
    assert body == bytes[0..36] + payload;
    assert bytes == body + bytes[|bytes| - 4..];
  }

  /** The decoder accepts exactly the layout: both directions of the inverse. */
  lemma DecodeIff(bytes: seq<byte>, salt: Salt, records: seq<PersistedTarget>)
    ensures Decode(bytes) == Success(StateFile(salt, records))
      <==> Decodable(records) && bytes == FileBytes(salt, records)
  {
    if Decodable(records) && bytes == FileBytes(salt, records) {
      DecodeComplete(salt, records);
    }
    if Decode(bytes) == Success(StateFile(salt, records)) {
      DecodeSound(bytes);
    }
  }

  lemma RoundTrip(salt: Salt, records: seq<PersistedTarget>)
    requires Encode(salt, records).Success?
    ensures Decode(Encode(salt, records).value) == Success(StateFile(salt, records))
  {
    DecodeComplete(salt, records);
  }

  /** An accepted file re-encodes to itself exactly when no range is reversed. */
  lemma ReEncodeIff(bytes: seq<byte>)
    requires Decode(bytes).Success?
    ensures var StateFile(salt, records) := Decode(bytes).value;
      Encode(salt, records) == Success(bytes) <==> forall r :: r in records ==> r.rangeStart <= r.rangeEnd
  {
    DecodeSound(bytes);
    var StateFile(salt, records) := Decode(bytes).value;
    EncodeSucceedsIff(salt, records);
    if Encode(salt, records) == Success(bytes) {
      assert Encodable(records);
    }
  }

  /** The decoder does not look at the range order: such a file is accepted but never written. */
  lemma ReversedRangeIsAcceptedButNotEncodable() returns (bytes: seq<byte>)
    ensures Decode(bytes).Success?
    ensures Encode(Decode(bytes).value.salt, Decode(bytes).value.records) == Failure(EncodeOverflow)
  {
    assert ValidUtf8([0x61]);
    hide Decode, FileBytes;
    var uri: Text := [0x61];
    var record := PersistedTarget(uri, 1, 0, Zeros(32), Zeros(32), Blocked(None), 0, 0, uri);
    var salt: Salt := Zeros(16);
    DecodeComplete(salt, [record]);
    EncodeSucceedsIff(salt, [record]);
    assert record in [record] && !RecordEncodable(record);
    bytes := FileBytes(salt, [record]);
  }

  // ---------------------------------------------------------------------
  // Damaged files are rejected
  // ---------------------------------------------------------------------

  lemma AcceptedHasResidue(bytes: seq<byte>)
    requires Decode(bytes).Success?
    ensures Feed(0xFFFF_FFFF, bytes) == Residue()
  {
    DecodeSound(bytes);
    var body := BodyBytes(Decode(bytes).value.salt, Decode(bytes).value.records);
    TrailerCheckIsResidue(body, TrailerOf(Checksum(body)));
  }

  /**
   * Overwriting up to four consecutive bytes anywhere in an accepted file,
   * trailer included, with other bytes makes the decoder reject it.
   */
  lemma DamagedFileRejected(prefix: seq<byte>, v: seq<byte>, w: seq<byte>, suffix: seq<byte>)
    requires Decode(prefix + v + suffix).Success?
    requires |v| == |w| <= 4 && v != w
    ensures Decode(prefix + w + suffix).Failure?
  {
    if Decode(prefix + w + suffix).Success? {
      AcceptedHasResidue(prefix + v + suffix);
      AcceptedHasResidue(prefix + w + suffix);
      FeedBurst(0xFFFF_FFFF, prefix, v, w, suffix);
    }
  }

  /** No accepted file is a strict prefix or a strict extension of another. */
  lemma AcceptedFilesArePrefixFree(short: seq<byte>, long: seq<byte>)
    requires Decode(short).Success? && Decode(long).Success?
    requires short <= long
    ensures short == long
  {
    LengthField(short);
    LengthField(long);
    assert short[32..36] == long[32..36];
  }

  lemma LengthField(bytes: seq<byte>)
    requires Decode(bytes).Success?
    ensures |bytes| >= 40 && |bytes| == 40 + LeValue(bytes[32..36])
  {
    DecodeSound(bytes);
    hide Decode, PayloadBytes, FileBytes, BodyBytes, Checksum, TrailerOf;
    var StateFile(salt, records) := Decode(bytes).value;
    var payload := PayloadBytes(records);
    FileParts(salt, records);
    PayloadBound(records);
    Pow256Values();
    LeValueOfBytes(|payload|, 4);
    var header := HeaderBytes(salt, |records|, |payload|);
    assert bytes[0..36] == header;
    assert bytes[32..36] == header[32..36];
    assert header[32..36] == LeBytes(|payload|, 4);
  }

  // ---------------------------------------------------------------------
  // The implementation's loops
  // ---------------------------------------------------------------------

  lemma {:induction false} PayloadSnoc(records: seq<PersistedTarget>, r: PersistedTarget)
    ensures PayloadBytes(records + [r]) == PayloadBytes(records) + RecordBytes(r)
  {
    hide RecordBytes;
    if records == [] {
      assert [r][1..] == [];
    } else {
      PayloadSnoc(records[1..], r);
      assert (records + [r])[1..] == records[1..] + [r];
    }
  }

  lemma PushField(bytes: seq<byte>, field: seq<byte>, rest: seq<byte>)
    ensures (bytes + field) + rest == bytes + (field + rest)
  {
  }

  method AppendRecord(payload: seq<byte>, record: PersistedTarget) returns (next: seq<byte>)
    ensures next == payload + RecordBytes(record)
  {
    hide LeBytes, KindBytes;
    ghost var tail8 := LeBytes(|record.requestId|, 2) + record.requestId;
    ghost var tail7 := LeBytes(record.documentEpoch, 8) + tail8;
    ghost var tail6 := LeBytes(record.generation, 8) + tail7;
    ghost var tail5 := KindBytes(record.kind) + tail6;
    ghost var tail4 := record.replacementHash + tail5;
    ghost var tail3 := record.expectedHash + tail4;
    ghost var tail2 := LeBytes(record.rangeEnd, 8) + tail3;
    ghost var tail1 := LeBytes(record.rangeStart, 8) + tail2;
    PushField(payload, LeBytes(|record.uri|, 2), record.uri + tail1);
    next := payload + LeBytes(|record.uri|, 2);
    PushField(next, record.uri, tail1);
    next := next + record.uri;
    PushField(next, LeBytes(record.rangeStart, 8), tail2);
    next := next + LeBytes(record.rangeStart, 8);
    PushField(next, LeBytes(record.rangeEnd, 8), tail3);
    next := next + LeBytes(record.rangeEnd, 8);
    PushField(next, record.expectedHash, tail4);
    next := next + record.expectedHash;
    PushField(next, record.replacementHash, tail5);
    next := next + record.replacementHash;
    PushField(next, KindBytes(record.kind), tail6);
    next := PushKind(next, record.kind);
    PushField(next, LeBytes(record.generation, 8), tail7);
    next := next + LeBytes(record.generation, 8);
    PushField(next, LeBytes(record.documentEpoch, 8), tail8);
    next := next + LeBytes(record.documentEpoch, 8);
    PushField(next, LeBytes(|record.requestId|, 2), record.requestId);
    next := next + LeBytes(|record.requestId|, 2);
    next := next + record.requestId;
  }

  method PushKind(payload: seq<byte>, kind: PersistedKind) returns (next: seq<byte>)
    ensures next == payload + KindBytes(kind)
  {
    match kind {
      case Blocked(None) => next := payload + [0];
      case Blocked(Some(verdict)) => next := payload + [1] + [VerdictCode(verdict)];
      case Pending => next := payload + [2];
    }
  }

  method EncodeFile(salt: Salt, records: seq<PersistedTarget>) returns (result: Result<seq<byte>, CodecError>)
    ensures result == Encode(salt, records)
  {
    hide RecordBytes, PayloadBytes, LeBytes, Checksum, TrailerOf;
    if |records| > MAX_ENTRIES {
      return Failure(EncodeOverflow);
    }
    var payload: seq<byte> := [];
    PayloadNil();
    for i := 0 to |records|
      invariant payload == PayloadBytes(records[..i])
      invariant forall r :: r in records[..i] ==> RecordEncodable(r)
    {
      var record := records[i];
      assert record in records;
      if |record.uri| == 0 || |record.uri| > MAX_URI_BYTES {
        return Failure(EncodeOverflow);
      }
      if |record.requestId| == 0 || |record.requestId| > MAX_REQUEST_ID_BYTES {
        return Failure(EncodeOverflow);
      }
      if record.rangeStart > record.rangeEnd {
        return Failure(EncodeOverflow);
      }
      payload := AppendRecord(payload, record);
      PayloadSnoc(records[..i], record);
      assert records[..i + 1] == records[..i] + [record];
    }
    assert records[..|records|] == records;
    var file := MAGIC;
    file := file + LeBytes(VERSION, 4);
    file := file + salt;
    file := file + LeBytes(|records|, 4);
    file := file + LeBytes(|payload|, 4);
    file := file + payload;
    assert file == BodyBytes(salt, records);
    FileLength(salt, records);
    if |file| + 4 > MAX_STATE_BYTES {
      return Failure(EncodeOverflow);
    }
    var checksum := ComputeChecksum(file);
    file := file + TrailerOf(checksum);
    return Success(file);
  }

  lemma PayloadNil()
    ensures PayloadBytes([]) == []
  {
  }

  method DecodeAllRecords(payload: seq<byte>, count: nat)
    returns (result: Result<seq<PersistedTarget>, CodecError>, cursor: nat)
    ensures match DecodeRecords(payload, 0, count)
      case Success((records, end)) => result == Success(records) && cursor == end
      case Failure(error) => result == Failure(error)
  {
    hide DecodeRecord;
    cursor := 0;
    var records: seq<PersistedTarget> := [];
    PrependedNothing(DecodeRecords(payload, 0, count));
    for i := 0 to count
      invariant DecodeRecords(payload, 0, count) == Prepended(records, DecodeRecords(payload, cursor, count - i))
    {
      var record := DecodeRecord(payload, cursor);
      if record.Failure? {
        return Failure(record.error), cursor;
      }
      var (target, next) := record.value;
      PrependedStep(records, target, DecodeRecords(payload, next, count - i - 1));
      records := records + [target];
      cursor := next;
    }
    assert records + [] == records;
    result := Success(records);
  }

  method DecodeFile(bytes: seq<byte>) returns (result: Result<StateFile, CodecError>)
    ensures result == Decode(bytes)
  {
    hide DecodeRecords, Checksum, TrailerOf, LeValue;
    if |bytes| > MAX_STATE_BYTES {
      return Failure(OversizedFile);
    }
    var magic :- ReadFixed(bytes, 0, 8);
    if magic.0 != MAGIC {
      return Failure(BadMagic);
    }
    var version :- ReadLe(bytes, magic.1, 4);
    if version.0 != VERSION {
      return Failure(UnknownVersion);
    }
    var salt :- ReadFixed(bytes, version.1, 16);
    var countField :- ReadLe(bytes, salt.1, 4);
    if countField.0 > MAX_ENTRIES {
      return Failure(TooManyEntries);
    }
    var lengthField :- ReadLe(bytes, countField.1, 4);
    var payloadLength, offset := lengthField.0, lengthField.1;
    if |bytes| != offset + payloadLength + 4 {
      return Failure(Malformed);
    }
    var checksum := ComputeChecksum(bytes[..|bytes| - 4]);
    if TrailerOf(checksum) != bytes[offset + payloadLength..] {
      return Failure(ChecksumMismatch);
    }
    var decoded, cursor := DecodeAllRecords(bytes[offset..offset + payloadLength], countField.0);
    var records :- decoded;
    if cursor != payloadLength {
      return Failure(Malformed);
    }
    return Success(StateFile(salt.0, records));
  }

  function Prepended(done: seq<PersistedTarget>, rest: Parsed<seq<PersistedTarget>>): Parsed<seq<PersistedTarget>>
  {
    var (records, end) :- rest;
    Success((done + records, end))
  }

  lemma PrependedNothing(rest: Parsed<seq<PersistedTarget>>)
    ensures Prepended([], rest) == rest
  {
    if rest.Success? {
      assert [] + rest.value.0 == rest.value.0;
    }
  }

  lemma PrependedStep(done: seq<PersistedTarget>, first: PersistedTarget, rest: Parsed<seq<PersistedTarget>>)
    ensures Prepended(done, Prepended([first], rest)) == Prepended(done + [first], rest)
  {
    if rest.Success? {
      assert done + ([first] + rest.value.0) == (done + [first]) + rest.value.0;
    }
  }
}
