/**
 * The state file byte by byte: where a record and the header keep their
 * fields, and which error each damaged file is refused with.
 */
module RecoveryLayout {
  import opened Wrappers
  import opened Bytes
  import opened Sha256
  import opened Crc32
  import opened RecoveryCodec

  // ---------------------------------------------------------------------
  // Little-endian fields
  // ---------------------------------------------------------------------

  /** The lowest byte comes first. */
  lemma LittleEndian(s: seq<byte>)
    ensures |s| == 2 ==> LeValue(s) == s[0] as int + 0x100 * s[1] as int
    ensures |s| == 4 ==> LeValue(s) == Low4(s)
    ensures |s| == 8 ==> LeValue(s) == Low4(s) + 0x1_0000_0000 * Low4(s[4..])
  {
    hide LeValue;
    if |s| == 2 || |s| == 4 || |s| == 8 {
      TwoBytes(s);
    }
    if |s| == 4 || |s| == 8 {
      TwoBytes(s[2..]);
    }
    if |s| == 8 {
      TwoBytes(s[4..]);
      TwoBytes(s[6..]);
      LeNil(s[8..]);
      assert s[2..][2..] == s[4..] && s[4..][2..] == s[6..] && s[6..][2..] == s[8..];
    } else if |s| == 4 {
      LeNil(s[4..]);
      assert s[2..][2..] == s[4..];
    } else if |s| == 2 {
      LeNil(s[2..]);
    }
  }

  function Low4(s: seq<byte>): nat
    requires |s| >= 4
  {
    s[0] as int + 0x100 * s[1] as int + 0x1_0000 * s[2] as int + 0x100_0000 * s[3] as int
  }

  lemma LeNil(s: seq<byte>)
    requires s == []
    ensures LeValue(s) == 0
  {
  }

  lemma TwoBytes(s: seq<byte>)
    requires |s| >= 2
    ensures LeValue(s) == s[0] as int + 0x100 * s[1] as int + 0x1_0000 * LeValue(s[2..])
  {
    assert s[1..][1..] == s[2..];
  }

  /** Two lowercase digits for each byte, the high one first. */
  lemma {:induction false} HexText(s: seq<byte>, i: nat)
    requires i < |s|
    ensures |Hex(s)| == 2 * |s|
    ensures DigitValue(Hex(s)[2 * i]) < 16 && DigitValue(Hex(s)[2 * i + 1]) < 16
    ensures 16 * DigitValue(Hex(s)[2 * i]) + DigitValue(Hex(s)[2 * i + 1]) == s[i]
  {
    hide *;
    HexBegins(s);
    if i == 0 {
      HexOfByte(s[0]);
    } else {
      HexText(s[1..], i - 1);
      TwoAhead(HexDigit(s[0] >> 4), HexDigit(s[0] & 0xF), Hex(s[1..]), 2 * (i - 1));
      TwoAhead(HexDigit(s[0] >> 4), HexDigit(s[0] & 0xF), Hex(s[1..]), 2 * (i - 1) + 1);
    }
  }

  lemma HexBegins(s: seq<byte>)
    requires s != []
    ensures Hex(s) == [HexDigit(s[0] >> 4), HexDigit(s[0] & 0xF)] + Hex(s[1..])
  {
    hide HexDigit;
  }

  lemma TwoAhead(high: byte, low: byte, rest: seq<byte>, i: nat)
    requires i < |rest|
    ensures ([high, low] + rest)[i + 2] == rest[i]
  {
  }

  /** The digits "0" to "9" and "a" to "f"; sixteen for any other byte. */
  function DigitValue(d: byte): byte
  {
    if 0x30 <= d <= 0x39 then d - 0x30 else if 0x61 <= d <= 0x66 then d - 0x57 else 16
  }

  lemma HexOfByte(b: byte)
    ensures DigitValue(HexDigit(b >> 4)) < 16 && DigitValue(HexDigit(b & 0xF)) < 16
    ensures 16 * DigitValue(HexDigit(b >> 4)) + DigitValue(HexDigit(b & 0xF)) == b
  {
  }

  // ---------------------------------------------------------------------
  // Where the fields stand
  // ---------------------------------------------------------------------

  /** The number the `width` bytes from `offset` on hold, or zero where they are not all there. */
  function Field(bytes: seq<byte>, offset: nat, width: nat): nat
  {
    if offset + width <= |bytes| then LeValue(bytes[offset..offset + width]) else 0
  }

  /** The number of bytes of the record's state, with its verdict. */
  function KindWidth(kind: PersistedKind): nat
  {
    if kind.Blocked? && kind.verdict.Some? then 2 else 1
  }

  /** The state code, followed by the verdict code where there is a verdict. */
  predicate KindCode(kind: PersistedKind, code: seq<byte>)
  {
    || (code == [0] && kind == Blocked(None))
    || (code == [1, 0] && kind == Blocked(Some(AppliedAcknowledged)))
    || (code == [1, 1] && kind == Blocked(Some(NotApplied)))
    || (code == [1, 2] && kind == Blocked(Some(ConflictHumanReview)))
    || (code == [2] && kind == Pending)
  }

  /** The fields of a written record, by their offsets. */
  lemma RecordLayout(r: PersistedTarget)
    requires RecordBounded(r)
    ensures var s, n, m, k := RecordBytes(r), |r.uri|, |r.requestId|, KindWidth(r.kind);
      && |s| == 100 + n + k + m
      && Field(s, 0, 2) == n && s[2..2 + n] == r.uri
      && Field(s, 2 + n, 8) == r.rangeStart && Field(s, 10 + n, 8) == r.rangeEnd
      && s[18 + n..50 + n] == r.expectedHash && s[50 + n..82 + n] == r.replacementHash
      && KindCode(r.kind, s[82 + n..82 + n + k])
      && Field(s, 82 + n + k, 8) == r.generation && Field(s, 90 + n + k, 8) == r.documentEpoch
      && Field(s, 98 + n + k, 2) == m && s[100 + n + k..] == r.requestId
  {
    hide *;
    RecordParts(r);
    var s, n, k := RecordBytes(r), |r.uri|, KindWidth(r.kind);
    FieldValue(s, 0, 2, n);
    FieldValue(s, 2 + n, 8, r.rangeStart);
    FieldValue(s, 10 + n, 8, r.rangeEnd);
    FieldValue(s, 82 + n + k, 8, r.generation);
    FieldValue(s, 90 + n + k, 8, r.documentEpoch);
    FieldValue(s, 98 + n + k, 2, |r.requestId|);
    PartAt(s, 2, r.uri);
    PartAt(s, 18 + n, r.expectedHash);
    PartAt(s, 50 + n, r.replacementHash);
    PartAt(s, 82 + n, KindBytes(r.kind));
    PartAt(s, 100 + n + k, r.requestId);
    KindCodes(r.kind);
  }

  lemma KindCodes(kind: PersistedKind)
    ensures |KindBytes(kind)| == KindWidth(kind) && KindCode(kind, KindBytes(kind))
  {
  }

  lemma RecordParts(r: PersistedTarget)
    requires RecordBounded(r)
    ensures 0 < |r.uri| <= 1024 && 0 < |r.requestId| <= 256 && |KindBytes(r.kind)| == KindWidth(r.kind)
    ensures var s, n, m, k := RecordBytes(r), |r.uri|, |r.requestId|, KindWidth(r.kind);
      && |s| == 100 + n + k + m
      && At(s, 0, LeBytes(n, 2)) && At(s, 2, r.uri)
      && At(s, 2 + n, LeBytes(r.rangeStart, 8)) && At(s, 10 + n, LeBytes(r.rangeEnd, 8))
      && At(s, 18 + n, r.expectedHash) && At(s, 50 + n, r.replacementHash)
      && At(s, 82 + n, KindBytes(r.kind))
      && At(s, 82 + n + k, LeBytes(r.generation, 8)) && At(s, 90 + n + k, LeBytes(r.documentEpoch, 8))
      && At(s, 98 + n + k, LeBytes(m, 2)) && At(s, 100 + n + k, r.requestId)
  {
    hide *;
    BoundedLengths(r);
    KindCodes(r.kind);
    RecordUnfolds(r);
    var s, n, k := RecordBytes(r), |r.uri|, KindWidth(r.kind);
    Whole(s);
    AtConcat(s, 0, LeBytes(n, 2), r.uri + AfterUri(r));
    AtConcat(s, 2, r.uri, AfterUri(r));
    AtConcat(s, 2 + n, LeBytes(r.rangeStart, 8), LeBytes(r.rangeEnd, 8) + AfterRange(r));
    AtConcat(s, 10 + n, LeBytes(r.rangeEnd, 8), AfterRange(r));
    AtConcat(s, 18 + n, r.expectedHash, r.replacementHash + AfterHashes(r));
    AtConcat(s, 50 + n, r.replacementHash, AfterHashes(r));
    AtConcat(s, 82 + n, KindBytes(r.kind), AfterKind(r));
    AtConcat(s, 82 + n + k, LeBytes(r.generation, 8), LeBytes(r.documentEpoch, 8) + AfterEpoch(r));
    AtConcat(s, 90 + n + k, LeBytes(r.documentEpoch, 8), AfterEpoch(r));
    AtConcat(s, 98 + n + k, LeBytes(|r.requestId|, 2), r.requestId);
    LengthOfRecord(r);
  }

  function AfterUri(r: PersistedTarget): seq<byte>
  {
    LeBytes(r.rangeStart, 8) + (LeBytes(r.rangeEnd, 8) + AfterRange(r))
  }

  function AfterRange(r: PersistedTarget): seq<byte>
  {
    r.expectedHash + (r.replacementHash + AfterHashes(r))
  }

  function AfterHashes(r: PersistedTarget): seq<byte>
  {
    KindBytes(r.kind) + AfterKind(r)
  }

  function AfterKind(r: PersistedTarget): seq<byte>
  {
    LeBytes(r.generation, 8) + (LeBytes(r.documentEpoch, 8) + AfterEpoch(r))
  }

  function AfterEpoch(r: PersistedTarget): seq<byte>
  {
    LeBytes(|r.requestId|, 2) + r.requestId
  }

  /** A record in its parts. */
  lemma RecordUnfolds(r: PersistedTarget)
    ensures RecordBytes(r) == LeBytes(|r.uri|, 2) + (r.uri + AfterUri(r))
    ensures AfterUri(r) == LeBytes(r.rangeStart, 8) + (LeBytes(r.rangeEnd, 8) + AfterRange(r))
    ensures AfterRange(r) == r.expectedHash + (r.replacementHash + AfterHashes(r))
    ensures AfterHashes(r) == KindBytes(r.kind) + AfterKind(r)
    ensures AfterKind(r) == LeBytes(r.generation, 8) + (LeBytes(r.documentEpoch, 8) + AfterEpoch(r))
    ensures AfterEpoch(r) == LeBytes(|r.requestId|, 2) + r.requestId
  {
    hide LeBytes, KindBytes, ValidUtf8;
  }

  lemma BoundedLengths(r: PersistedTarget)
    requires RecordBounded(r)
    ensures 0 < |r.uri| <= 1024 && 0 < |r.requestId| <= 256
  {
  }

  lemma Whole(s: seq<byte>)
    ensures At(s, 0, s)
  {
  }

  lemma LengthOfRecord(r: PersistedTarget)
    ensures |RecordBytes(r)| == 100 + |r.uri| + KindWidth(r.kind) + |r.requestId|
  {
    KindCodes(r.kind);
    hide LeBytes, KindBytes, KindWidth, ValidUtf8;
  }

  lemma PartAt(s: seq<byte>, offset: nat, part: seq<byte>)
    requires At(s, offset, part)
    ensures offset + |part| <= |s| && s[offset..offset + |part|] == part
    ensures offset + |part| == |s| ==> s[offset..] == part
  {
  }

  lemma FieldValue(s: seq<byte>, offset: nat, width: nat, n: nat)
    requires width == 2 || width == 4 || width == 8
    requires n < if width == 2 then 0x1_0000 else if width == 4 then 0x1_0000_0000 else 0x1_0000_0000_0000_0000
    requires At(s, offset, LeBytes(n, width))
    ensures Field(s, offset, width) == n
  {
    hide LeBytes, LeValue, Pow256;
    Pow256Values();
    LeValueOfBytes(n, width);
  }

  /** The header, the payload and the trailer of a written file. */
  lemma FileLayout(salt: Salt, records: seq<PersistedTarget>)
    requires Decodable(records)
    ensures var file, n := FileBytes(salt, records), |PayloadBytes(records)|;
      && |file| == 40 + n
      && file[0..8] == [0x5A, 0x4E, 0x4B, 0x59, 0x52, 0x45, 0x43, 0x31]
      && file[8..12] == [2, 0, 0, 0]
      && file[12..28] == salt
      && Field(file, 28, 4) == |records|
      && Field(file, 32, 4) == n
      && file[36..36 + n] == PayloadBytes(records)
      && file[36 + n..] == TrailerOf(Checksum(file[..36 + n]))
  {
    hide *;
    var file, n := FileBytes(salt, records), |PayloadBytes(records)|;
    FileParts(salt, records);
    PayloadFits(records);
    var header := HeaderBytes(salt, |records|, n);
    HeaderParts(salt, |records|, n);
    HeaderAt(file, header);
    CutIsAt(file, 28, LeBytes(|records|, 4));
    CutIsAt(file, 32, LeBytes(n, 4));
    FieldValue(file, 28, 4, |records|);
    FieldValue(file, 32, 4, n);
    assert file[..36 + n] == file[..|file| - 4];
  }

  lemma CutIsAt(s: seq<byte>, offset: nat, part: seq<byte>)
    requires offset + |part| <= |s| && s[offset..offset + |part|] == part
    ensures At(s, offset, part)
  {
  }

  lemma PayloadFits(records: seq<PersistedTarget>)
    requires Decodable(records)
    ensures |records| <= 128 && |PayloadBytes(records)| < 0x1_0000_0000
  {
    hide PayloadBytes, RecordBounded;
    PayloadBound(records);
  }

  lemma HeaderAt(file: seq<byte>, header: seq<byte>)
    requires |header| == 36 && At(file, 0, header)
    ensures |file| >= 36
    ensures file[0..8] == header[0..8] && file[8..12] == header[8..12] && file[12..28] == header[12..28]
    ensures file[28..32] == header[28..32] && file[32..36] == header[32..36]
  {
    assert file[0..36] == header;
  }

  lemma HeaderParts(salt: Salt, count: nat, length: nat)
    ensures var header := HeaderBytes(salt, count, length);
      && |header| == 36
      && header[0..8] == [0x5A, 0x4E, 0x4B, 0x59, 0x52, 0x45, 0x43, 0x31]
      && header[8..12] == [2, 0, 0, 0]
      && header[12..28] == salt
      && header[28..32] == LeBytes(count, 4)
      && header[32..36] == LeBytes(length, 4)
  {
    VersionBytes();
    hide LeBytes;
  }

  lemma VersionBytes()
    ensures LeBytes(VERSION, 4) == [2, 0, 0, 0]
  {
    assert LeBytes(0, 1) == [0] && LeBytes(0, 2) == [0, 0] && LeBytes(0, 3) == [0, 0, 0];
  }

  // ---------------------------------------------------------------------
  // Which error a damaged file is refused with
  // ---------------------------------------------------------------------

  /** The checks on a file around its payload, in the order they are made. */
  function FileChecks(bytes: seq<byte>): seq<Check<CodecError>>
  {
    [
      Check(|bytes| <= 0x4_0000, OversizedFile),
      Check(8 <= |bytes|, Truncated),
      Check(8 <= |bytes| && bytes[..8] == [0x5A, 0x4E, 0x4B, 0x59, 0x52, 0x45, 0x43, 0x31], BadMagic),
      Check(12 <= |bytes|, Truncated),
      Check(Field(bytes, 8, 4) == 2, UnknownVersion),
      Check(32 <= |bytes|, Truncated),
      Check(Field(bytes, 28, 4) <= 128, TooManyEntries),
      Check(36 <= |bytes|, Truncated),
      Check(|bytes| == 40 + Field(bytes, 32, 4), Malformed),
      Check(4 <= |bytes| && bytes[|bytes| - 4..] == TrailerOf(Checksum(bytes[..|bytes| - 4])), ChecksumMismatch)
    ]
  }

  /** The first check that fails names the error; past them the payload decides. */
  lemma FileErrorIsFirstFailure(bytes: seq<byte>)
    ensures match FirstFailure(FileChecks(bytes))
      case Some(error) => Decode(bytes) == Failure(error)
      case None =>
        && |bytes| >= 40
        && Decode(bytes) == DecodePayload(bytes[12..28], Field(bytes, 28, 4), bytes[36..|bytes| - 4])
  {
    hide FirstFailure, DecodePayload, Checksum, TrailerOf, LeValue;
    var place := FirstFailurePlace(FileChecks(bytes));
  }

  /** The checks on a string of one to `limit` bytes behind its length. */
  function TextChecks(bytes: seq<byte>, offset: nat, limit: nat): seq<Check<CodecError>>
  {
    var length := Field(bytes, offset, 2);
    [
      Check(offset + 2 <= |bytes|, Truncated),
      Check(0 < length <= limit, OversizedRecord),
      Check(offset + 2 + length <= |bytes|, Truncated),
      Check(offset + 2 + length <= |bytes| && ValidUtf8(bytes[offset + 2..offset + 2 + length]), Malformed)
    ]
  }

  /** The byte at `offset`, or zero past the end. */
  function Code(bytes: seq<byte>, offset: nat): byte
  {
    if offset < |bytes| then bytes[offset] else 0
  }

  /** The checks on the state of a record and its verdict. */
  function KindChecks(bytes: seq<byte>, offset: nat): seq<Check<CodecError>>
  {
    var judged := Code(bytes, offset) == 1;
    [
      Check(offset < |bytes|, Truncated),
      Check(Code(bytes, offset) <= 2, Malformed),
      Check(judged ==> offset + 1 < |bytes|, Truncated),
      Check(judged ==> Code(bytes, offset + 1) <= 2, Malformed)
    ]
  }

  lemma TextError(bytes: seq<byte>, offset: nat, limit: nat)
    ensures match FirstFailure(TextChecks(bytes, offset, limit))
      case Some(error) => ReadText(bytes, offset, limit) == Failure(error)
      case None =>
        && ReadText(bytes, offset, limit).Success?
        && ReadText(bytes, offset, limit).value.1 == offset + 2 + Field(bytes, offset, 2)
  {
    hide FirstFailure, ValidUtf8, LeValue;
    var place := FirstFailurePlace(TextChecks(bytes, offset, limit));
  }

  lemma KindError(bytes: seq<byte>, offset: nat)
    ensures match FirstFailure(KindChecks(bytes, offset))
      case Some(error) => ReadKind(bytes, offset) == Failure(error)
      case None =>
        && ReadKind(bytes, offset).Success?
        && ReadKind(bytes, offset).value.1 == offset + if Code(bytes, offset) == 1 then 2 else 1
  {
    hide FirstFailure;
    var place := FirstFailurePlace(KindChecks(bytes, offset));
  }

  /** The checks on one record, in the order they are made. */
  function RecordChecks(payload: seq<byte>, cursor: nat): seq<Check<CodecError>>
  {
    var kindAt := cursor + 2 + Field(payload, cursor, 2) + 80;
    var tail := kindAt + if Code(payload, kindAt) == 1 then 2 else 1;
    TextChecks(payload, cursor, 1024)
    + ([Check(kindAt <= |payload|, Truncated)]
    + (KindChecks(payload, kindAt)
    + ([Check(tail + 16 <= |payload|, Truncated)]
    + TextChecks(payload, tail + 16, 256))))
  }

  lemma RecordErrorIsFirstFailure(payload: seq<byte>, cursor: nat)
    ensures match FirstFailure(RecordChecks(payload, cursor))
      case Some(error) => DecodeRecord(payload, cursor) == Failure(error)
      case None => DecodeRecord(payload, cursor).Success?
  {
    hide TextChecks, KindChecks, Field, ReadText, ReadKind, ReadLe, FirstFailure, ValidUtf8;
    var kindAt := cursor + 2 + Field(payload, cursor, 2) + 80;
    var tail := kindAt + if Code(payload, kindAt) == 1 then 2 else 1;
    var last := TextChecks(payload, tail + 16, 256);
    var fixed := [Check(tail + 16 <= |payload|, Truncated)];
    var hashes := [Check(kindAt <= |payload|, Truncated)];
    FirstFailureInTwo(fixed, last);
    FirstFailureInTwo(KindChecks(payload, kindAt), fixed + last);
    FirstFailureInTwo(hashes, KindChecks(payload, kindAt) + (fixed + last));
    FirstFailureInTwo(TextChecks(payload, cursor, 1024), hashes + (KindChecks(payload, kindAt) + (fixed + last)));
    FirstFailureOfOne(kindAt <= |payload|, Truncated);
    FirstFailureOfOne(tail + 16 <= |payload|, Truncated);
    TextError(payload, cursor, 1024);
    KindError(payload, kindAt);
    TextError(payload, tail + 16, 256);
    NumberError(payload, kindAt - 80);
    NumberError(payload, kindAt - 72);
    NumberError(payload, tail);
    NumberError(payload, tail + 8);
  }

  lemma NumberError(bytes: seq<byte>, offset: nat)
    ensures if offset + 8 <= |bytes| then ReadU64(bytes, offset).Success?
            else ReadU64(bytes, offset) == Failure(Truncated)
  {
    hide LeValue;
  }

  /** Some whole records stand from `cursor` on, and the next of the `count` records cannot be read. */
  predicate FailsAfter(payload: seq<byte>, cursor: nat, done: seq<PersistedTarget>, count: nat, error: CodecError)
  {
    && |done| < count
    && (forall r :: r in done ==> RecordBounded(r))
    && At(payload, cursor, PayloadBytes(done))
    && DecodeRecord(payload, cursor + |PayloadBytes(done)|) == Failure(error)
  }

  /** The payload is refused with the error of its first record that cannot be read. */
  lemma {:induction false} RecordsErrorIff(payload: seq<byte>, cursor: nat, count: nat, error: CodecError)
    requires cursor <= |payload|
    ensures DecodeRecords(payload, cursor, count) == Failure(error)
      <==> exists done: seq<PersistedTarget> :: FailsAfter(payload, cursor, done, count, error)
    decreases count
  {
    hide *;
    if count == 0 {
      NoRecords(payload, cursor, error);
    } else {
      FirstRecord(payload, cursor, count);
      if DecodeRecord(payload, cursor).Failure? {
        FailsAtOnce(payload, cursor, count, error);
      } else {
        var (first, next) := DecodeRecord(payload, cursor).value;
        var fewer := count - 1;
        RecordsErrorIff(payload, next, fewer, error);
        if done: seq<PersistedTarget> :| FailsAfter(payload, cursor, done, count, error) {
          FailsLater(payload, cursor, done, count, error);
        }
        if done: seq<PersistedTarget> :| FailsAfter(payload, next, done, fewer, error) {
          FailsSooner(payload, cursor, done, count, error);
        }
      }
    }
  }

  lemma NoRecords(payload: seq<byte>, cursor: nat, error: CodecError)
    ensures DecodeRecords(payload, cursor, 0) == Success(([], cursor))
    ensures !exists done: seq<PersistedTarget> :: FailsAfter(payload, cursor, done, 0, error)
  {
  }

  lemma FirstRecord(payload: seq<byte>, cursor: nat, count: nat)
    requires 0 < count
    ensures match DecodeRecord(payload, cursor)
      case Failure(error) => DecodeRecords(payload, cursor, count) == Failure(error)
      case Success((_, next)) =>
        && next <= |payload|
        && var whole, rest := DecodeRecords(payload, cursor, count), DecodeRecords(payload, next, count - 1);
           whole.Failure? == rest.Failure? && (rest.Failure? ==> whole.error == rest.error)
  {
    hide DecodeRecord;
  }

  lemma FailsAtOnce(payload: seq<byte>, cursor: nat, count: nat, error: CodecError)
    requires 0 < count && cursor <= |payload| && DecodeRecord(payload, cursor).Failure?
    ensures (exists done: seq<PersistedTarget> :: FailsAfter(payload, cursor, done, count, error))
      <==> DecodeRecord(payload, cursor) == Failure(error)
  {
    hide DecodeRecord, At, RecordBytes, RecordBounded;
    if done: seq<PersistedTarget> :| FailsAfter(payload, cursor, done, count, error) {
      if done != [] {
        FirstOfDone(payload, cursor, done);
      }
    }
    if DecodeRecord(payload, cursor) == Failure(error) {
      AtNothing(payload, cursor);
      assert FailsAfter(payload, cursor, [], count, error);
    }
  }

  lemma AtNothing(bytes: seq<byte>, offset: nat)
    requires offset <= |bytes|
    ensures At(bytes, offset, [])
  {
  }

  lemma FirstOfDone(payload: seq<byte>, cursor: nat, done: seq<PersistedTarget>)
    requires done != [] && forall r :: r in done ==> RecordBounded(r)
    requires At(payload, cursor, PayloadBytes(done))
    ensures DecodeRecord(payload, cursor) == Success((done[0], cursor + |RecordBytes(done[0])|))
    ensures At(payload, cursor + |RecordBytes(done[0])|, PayloadBytes(done[1..]))
    ensures |PayloadBytes(done)| == |RecordBytes(done[0])| + |PayloadBytes(done[1..])|
  {
    hide DecodeRecord, At, RecordBytes, RecordBounded;
    AtConcat(payload, cursor, RecordBytes(done[0]), PayloadBytes(done[1..]));
    DecodeRecordIff(payload, cursor, done[0]);
  }

  lemma FailsLater(payload: seq<byte>, cursor: nat, done: seq<PersistedTarget>, count: nat, error: CodecError)
    requires 0 < count && DecodeRecord(payload, cursor).Success?
    requires FailsAfter(payload, cursor, done, count, error)
    ensures done != []
    ensures FailsAfter(payload, DecodeRecord(payload, cursor).value.1, done[1..], count - 1, error)
  {
    hide DecodeRecord, At, RecordBytes, RecordBounded, PayloadBytes;
    PayloadNil();
    FirstOfDone(payload, cursor, done);
  }

  lemma FailsSooner(payload: seq<byte>, cursor: nat, done: seq<PersistedTarget>, count: nat, error: CodecError)
    requires 0 < count && DecodeRecord(payload, cursor).Success?
    requires FailsAfter(payload, DecodeRecord(payload, cursor).value.1, done, count - 1, error)
    ensures FailsAfter(payload, cursor, [DecodeRecord(payload, cursor).value.0] + done, count, error)
  {
    hide DecodeRecord, At, RecordBytes, RecordBounded;
    var first := DecodeRecord(payload, cursor).value.0;
    DecodeRecordLength(payload, cursor);
    DecodeRecordIff(payload, cursor, first);
    AtConcat(payload, cursor, RecordBytes(first), PayloadBytes(done));
    assert ([first] + done)[1..] == done;
  }

  /** What is left to refuse once every record is read: bytes behind the last one. */
  lemma PayloadErrorIff(salt: Salt, count: nat, payload: seq<byte>, error: CodecError)
    ensures DecodePayload(salt, count, payload) == Failure(error)
      <==> || (exists done: seq<PersistedTarget> :: FailsAfter(payload, 0, done, count, error))
           || (error == Malformed && exists done: seq<PersistedTarget> :: StopsShort(payload, done, count))
  {
    hide DecodeRecords, FailsAfter, StopsShort;
    RecordsErrorIff(payload, 0, count, error);
    StopsShortIff(payload, count);
  }

  predicate StopsShort(payload: seq<byte>, done: seq<PersistedTarget>, count: nat)
  {
    && |done| == count
    && (forall r :: r in done ==> RecordBounded(r))
    && At(payload, 0, PayloadBytes(done))
    && |PayloadBytes(done)| < |payload|
  }

  lemma StopsShortIff(payload: seq<byte>, count: nat)
    ensures (exists done: seq<PersistedTarget> :: StopsShort(payload, done, count))
      <==> DecodeRecords(payload, 0, count).Success? && DecodeRecords(payload, 0, count).value.1 != |payload|
  {
    hide DecodeRecords, At, PayloadBytes, RecordBounded;
    if done: seq<PersistedTarget> :| StopsShort(payload, done, count) {
      DecodeRecordsComplete(payload, 0, done);
    }
    if DecodeRecords(payload, 0, count).Success? {
      DecodeRecordsSound(payload, 0, count);
      PartFits(payload, PayloadBytes(DecodeRecords(payload, 0, count).value.0));
      if DecodeRecords(payload, 0, count).value.1 != |payload| {
        assert StopsShort(payload, DecodeRecords(payload, 0, count).value.0, count);
      }
    }
  }

  lemma PartFits(bytes: seq<byte>, part: seq<byte>)
    requires At(bytes, 0, part)
    ensures |part| <= |bytes|
  {
  }
}
