/**
 * The answers of the mutation harness as the server sends them: which of them
 * clear a pending intent and which promote it.
 */
module ServedOutcomes {
  import opened Wrappers
  import opened Bytes
  import opened Utf16
  import opened Printing
  import opened RecoveryStore
  import opened RequestLedger
  import opened StoreHolders
  import opened Preflight
  import opened PipeService
  import H = MutationHarness

  // ---------------------------------------------------------------------
  // ASCII in bytes and in code units
  // ---------------------------------------------------------------------

  predicate AllAscii(units: seq<Unit>)
  {
    forall i :: 0 <= i < |units| ==> units[i] < 0x80
  }

  /** The bytes are the code units, one by one. */
  predicate Spells(text: seq<byte>, units: seq<Unit>)
  {
    |text| == |units| && forall i :: 0 <= i < |text| ==> text[i] as int == units[i]
  }

  lemma {:induction false} AsciiByteExists(n: nat) returns (b: byte)
    requires n < 0x80
    ensures b as int == n && b <= 0x7F
  {
    b := 0;
    if n > 0 {
      var previous := AsciiByteExists(n - 1);
      BelowLast(previous);
      b := previous + 1;
    }
  }

  lemma BelowLast(b: byte)
    requires b <= 0x7F && b as int < 0x7F
    ensures (b + 1) as int == b as int + 1 && b + 1 <= 0x7F
  {
  }

  lemma AsciiByte(n: nat)
    requires n < 0x80
    ensures (n as byte) as int == n && n as byte <= 0x7F
  {
    var b := AsciiByteExists(n);
    IntOfByte(b);
  }

  function AsUtf8(units: seq<Unit>): (text: Text)
    requires AllAscii(units)
    ensures Spells(text, units)
  {
    var text := seq(|units|, i requires 0 <= i < |units| => units[i] as byte);
    SpelledOut(units, text);
    text
  }

  lemma SpelledOut(units: seq<Unit>, text: seq<byte>)
    requires AllAscii(units) && |text| == |units|
    requires forall i :: 0 <= i < |units| ==> text[i] == units[i] as byte
    ensures ValidUtf8(text) && Spells(text, units)
  {
    hide ValidUtf8;
    forall i | 0 <= i < |units|
      ensures text[i] <= 0x7F && text[i] as int == units[i]
    {
      AsciiByte(units[i]);
    }
    AsciiIsValid(text);
  }

  lemma SameByte(a: byte, b: byte)
    requires a as int == b as int
    ensures a == b
  {
    IntOfByte(a);
    IntOfByte(b);
  }

  /** A prefix in bytes is a prefix in code units. */
  lemma SpelledPrefix(prefix: seq<byte>, prefixUnits: seq<Unit>, text: seq<byte>, units: seq<Unit>)
    requires Spells(prefix, prefixUnits) && Spells(text, units)
    ensures prefix <= text <==> prefixUnits <= units
  {
    if prefixUnits <= units {
      forall i | 0 <= i < |prefix|
        ensures prefix[i] == text[i]
      {
        assert units[i] == prefixUnits[i];
        SameByte(prefix[i], text[i]);
      }
      assert prefix == text[..|prefix|];
    }
    if prefix <= text {
      forall i | 0 <= i < |prefix|
        ensures prefixUnits[i] == units[i]
      {
        assert text[i] == prefix[i];
      }
      assert prefixUnits == units[..|prefixUnits|];
    }
  }

  // ---------------------------------------------------------------------
  // Outcomes
  // ---------------------------------------------------------------------

  lemma {:induction false} DecimalIsAscii(n: nat)
    ensures AllAscii(Decimal(n))
  {
    if n >= 10 {
      DecimalIsAscii(n / 10);
    }
  }

  lemma IdentityNames(r: H.RejectReason)
    requires r.ProtocolMismatch? || r.HostIdentityMismatch? || r.SessionMismatch?
    ensures AllAscii(Ascii(H.ReasonName(r)))
  {
  }

  lemma PlaceNames(r: H.RejectReason)
    requires r.TargetIdentityMismatch? || r.RangeMismatch? || r.CaretMismatch?
    ensures AllAscii(Ascii(H.ReasonName(r)))
  {
  }

  lemma TextNames(r: H.RejectReason)
    requires r.SelectionNotEmpty? || r.TextMismatch? || r.RevisionMismatch?
    ensures AllAscii(Ascii(H.ReasonName(r)))
  {
  }

  lemma SecureNames(r: H.RejectReason)
    requires r.SecureTarget? || r.SecureIsUnknown? || r.CompositionActive?
    ensures AllAscii(Ascii(H.ReasonName(r)))
  {
  }

  lemma UnknownNames(r: H.RejectReason)
    requires r.CompositionIsUnknown? || r.UnsupportedSession? || r.SessionIsUnknown?
    ensures AllAscii(Ascii(H.ReasonName(r)))
  {
  }

  lemma RequestNames(r: H.RejectReason)
    requires r.CapabilityMismatch? || r.RequestIdInvalid? || r.RequestIdReuse?
    ensures AllAscii(Ascii(H.ReasonName(r)))
  {
  }

  lemma HostNames(r: H.RejectReason)
    requires r.EditTransactionRefused? || r.RevisionOverflow?
    ensures AllAscii(Ascii(H.ReasonName(r)))
  {
  }

  lemma ReasonIsAscii(r: H.RejectReason)
    ensures AllAscii(Ascii(H.ReasonName(r)))
  {
    hide H.ReasonName, Ascii;
    match r {
      case ProtocolMismatch | HostIdentityMismatch | SessionMismatch => IdentityNames(r);
      case TargetIdentityMismatch | RangeMismatch | CaretMismatch => PlaceNames(r);
      case SelectionNotEmpty | TextMismatch | RevisionMismatch => TextNames(r);
      case SecureTarget | SecureIsUnknown | CompositionActive => SecureNames(r);
      case CompositionIsUnknown | UnsupportedSession | SessionIsUnknown => UnknownNames(r);
      case CapabilityMismatch | RequestIdInvalid | RequestIdReuse => RequestNames(r);
      case EditTransactionRefused | RevisionOverflow => HostNames(r);
    }
  }

  lemma WordsAreAscii()
    ensures AllAscii(Ascii("applied:")) && AllAscii(Ascii("rejected:")) && AllAscii(Ascii("blocked"))
  {
  }

  lemma LostIsAscii(lost: H.IndeterminateReason)
    ensures AllAscii(Ascii("indeterminate:") + Ascii(H.LostName(lost)))
  {
    IndeterminateIsAscii();
    LostNameIsAscii(lost);
    hide Ascii, H.LostName;
  }

  lemma IndeterminateIsAscii()
    ensures AllAscii(Ascii("indeterminate:"))
  {
  }

  lemma LostNameIsAscii(lost: H.IndeterminateReason)
    ensures AllAscii(Ascii(H.LostName(lost)))
  {
  }

  lemma OutcomeIsAscii(o: H.MutationOutcome)
    ensures match H.EncodeOutcome(o)
      case Definite(text) => AllAscii(text)
      case Ambiguous(text) => AllAscii(text)
  {
    hide H.ReasonName, Decimal;
    match o {
      case Applied(revision) =>
        DecimalIsAscii(revision);
        WordsAreAscii();
      case Rejected(reason) =>
        ReasonIsAscii(reason);
        WordsAreAscii();
      case Indeterminate(lost) => LostIsAscii(lost);
      case BlockedPendingReconciliation => WordsAreAscii();
    }
  }

  /** The answer of the harness as the server sends and resolves it. */
  function Served(o: H.MutationOutcome): Outcome
  {
    OutcomeIsAscii(o);
    match H.EncodeOutcome(o)
    case Definite(text) => Definite(AsUtf8(text))
    case Ambiguous(text) => Ambiguous(AsUtf8(text))
  }

  lemma RejectedSpelled()
    ensures Spells(REJECTED, Ascii("rejected:"))
  {
  }

  /** Exactly the rejections of the harness are rejections for the server. */
  lemma RejectionIffRejected(o: H.MutationOutcome)
    ensures IsRejection(Served(o)) <==> o.Rejected?
    ensures Served(o).Ambiguous? <==> o.Indeterminate?
  {
    hide H.ReasonName, Decimal, AsUtf8;
    OutcomeIsAscii(o);
    RejectedSpelled();
    var units := match H.EncodeOutcome(o) case Definite(text) => text case Ambiguous(text) => text;
    var text := AsUtf8(units);
    SpelledPrefix(REJECTED, Ascii("rejected:"), text, units);
    var word := Ascii("rejected:");
    match o {
      case Applied(revision) => assert units[0] == 0x61 && word[0] == 0x72;
      case Rejected(reason) => assert word <= units;
      case BlockedPendingReconciliation => assert units[0] == 0x62 && word[0] == 0x72;
      case Indeterminate(_) =>
    }
  }

  /** The answers the server gives without its handler, as texts; the harness reads the first two as rejections. */
  lemma FixedAnswers()
    ensures Spells(BlockedAnswer().text, Ascii("rejected:") + Ascii("TargetBlocked"))
    ensures Spells(PreflightFailedAnswer().text, Ascii("rejected:") + Ascii("RecoveryPreflightFailed"))
    ensures Spells(ReuseAnswer(), Ascii("request_id_reuse"))
    ensures BlockedAnswer().Definite? && PreflightFailedAnswer().Definite?
    ensures H.DecodeOutcome(Definite(Ascii("rejected:") + Ascii("TargetBlocked"))).Rejected?
    ensures H.DecodeOutcome(Definite(Ascii("rejected:") + Ascii("RecoveryPreflightFailed"))).Rejected?
    ensures !IsRejection(Definite(ReuseAnswer()))
  {
    hide ValidUtf8, H.ReasonNamed, H.DecodeOutcome, Spells, IsRejection, Ascii;
    BlockedSpelled();
    PreflightFailedSpelled();
    ReuseSpelled();
    ReuseIsNoRejection();
    PrefixesDiffer(Ascii("rejected:") + Ascii("TargetBlocked"));
    PrefixesDiffer(Ascii("rejected:") + Ascii("RecoveryPreflightFailed"));
  }

  /** The request id written for a blocked target. */
  lemma OperatorSpelled()
    ensures Spells(OperatorRequestId(), Ascii("operator"))
  {
    hide ValidUtf8;
  }

  lemma PrefixesDiffer(units: seq<Unit>)
    requires Ascii("rejected:") <= units
    ensures H.DecodeOutcome(Definite(units)).Rejected?
  {
    hide H.ReasonNamed;
    assert Ascii("applied:")[0] == 0x61 && Ascii("rejected:")[0] == 0x72 == units[0];
  }

  lemma SpelledInTwo(a: seq<byte>, aUnits: seq<Unit>, b: seq<byte>, bUnits: seq<Unit>)
    requires Spells(a, aUnits) && Spells(b, bUnits)
    ensures Spells(a + b, aUnits + bUnits)
  {
  }

  lemma BlockedSpelled()
    ensures Spells(BlockedAnswer().text, Ascii("rejected:") + Ascii("TargetBlocked"))
  {
    hide ValidUtf8, Ascii, Spells;
    RejectedSpelled();
    TargetBlockedSpelled();
    SpelledInTwo(REJECTED, Ascii("rejected:"), TARGET_BLOCKED, Ascii("TargetBlocked"));
  }

  lemma TargetBlockedSpelled()
    ensures Spells(TARGET_BLOCKED, Ascii("TargetBlocked"))
  {
    hide Ascii;
    assert |TARGET_BLOCKED| == |Ascii("TargetBlocked")| == 13;
    forall i | 0 <= i < 13
      ensures TARGET_BLOCKED[i] as int == Ascii("TargetBlocked")[i]
    {
      if i < 7 {
        TargetSpelled(i);
      } else {
        TargetEnds(i);
      }
    }
  }

  lemma TargetSpelled(i: nat)
    requires i < 7
    ensures TARGET_BLOCKED[i] as int == Ascii("TargetBlocked")[i]
  {
  }

  lemma TargetEnds(i: nat)
    requires 7 <= i < 13
    ensures TARGET_BLOCKED[i] as int == Ascii("TargetBlocked")[i]
  {
  }

  lemma PreflightFailedSpelled()
    ensures Spells(PreflightFailedAnswer().text, Ascii("rejected:") + Ascii("RecoveryPreflightFailed"))
  {
    hide ValidUtf8, Ascii, Spells;
    RejectedSpelled();
    RecoverySpelled();
    SpelledInTwo(REJECTED, Ascii("rejected:"), PREFLIGHT_FAILED, Ascii("RecoveryPreflightFailed"));
  }

  lemma RecoveryBegins(i: nat)
    requires 0 <= i < 8
    ensures PREFLIGHT_FAILED[i] as int == Ascii("RecoveryPreflightFailed")[i]
  {
  }

  lemma RecoveryGoesOn(i: nat)
    requires 8 <= i < 16
    ensures PREFLIGHT_FAILED[i] as int == Ascii("RecoveryPreflightFailed")[i]
  {
  }

  lemma RecoveryEnds(i: nat)
    requires 16 <= i < 23
    ensures PREFLIGHT_FAILED[i] as int == Ascii("RecoveryPreflightFailed")[i]
  {
  }

  lemma RecoverySpelled()
    ensures Spells(PREFLIGHT_FAILED, Ascii("RecoveryPreflightFailed"))
  {
    hide Ascii;
    assert |PREFLIGHT_FAILED| == |Ascii("RecoveryPreflightFailed")| == 23;
    forall i | 0 <= i < 23
      ensures PREFLIGHT_FAILED[i] as int == Ascii("RecoveryPreflightFailed")[i]
    {
      if i < 8 {
        RecoveryBegins(i);
      } else if i < 16 {
        RecoveryGoesOn(i);
      } else {
        RecoveryEnds(i);
      }
    }
  }

  lemma ReuseBegins(i: nat)
    requires i < 8
    ensures REQUEST_ID_REUSE[i] as int == Ascii("request_id_reuse")[i]
  {
  }

  lemma ReuseEnds(i: nat)
    requires 8 <= i < 16
    ensures REQUEST_ID_REUSE[i] as int == Ascii("request_id_reuse")[i]
  {
  }

  lemma ReuseSpelled()
    ensures Spells(ReuseAnswer(), Ascii("request_id_reuse"))
  {
    hide ValidUtf8, Ascii;
    assert |REQUEST_ID_REUSE| == |Ascii("request_id_reuse")| == 16;
    forall i | 0 <= i < 16
      ensures REQUEST_ID_REUSE[i] as int == Ascii("request_id_reuse")[i]
    {
      if i < 8 {
        ReuseBegins(i);
      } else {
        ReuseEnds(i);
      }
    }
  }

  lemma ReuseIsNoRejection()
    ensures !IsRejection(Definite(ReuseAnswer()))
  {
    hide ValidUtf8;
    assert REQUEST_ID_REUSE[2] == 0x71 && REJECTED[2] == 0x6A;
  }

  // ---------------------------------------------------------------------
  // Resolution
  // ---------------------------------------------------------------------

  /**
   * Once the handler has answered with an outcome of the harness, the request
   * is resolved by clearing its intent exactly if the outcome is a rejection
   * and was delivered, and else by promoting it.
   */
  lemma AnswerResolves(s: Server, o: H.MutationOutcome, delivered: bool, write: Write)
    requires s.process.Up? && s.process.phase.Intended?
    ensures var Intended(d, session, _) := s.process.phase;
      var sent := Step(Step(s, RunHandler(Served(o))), Deliver(delivered));
      var op := if delivered && o.Rejected? then ClearPending(d.requestId) else PromotePending(session, d.requestId);
      sent.process.Up? && Step(sent, Resolve(write)) == Commit(sent, op, write)
  {
    RejectionIffRejected(o);
    hide Served, IsRejection, Commit, Holds, Record, ReceiveStep;
    var sent := Step(Step(s, RunHandler(Served(o))), Deliver(delivered));
    ResolveIsCommit(sent, write);
  }

  /** A request that was turned away is resolved by clearing if its answer is delivered, and else by promoting. */
  lemma TurnedAwayResolves(s: Server, write: Write, delivered: bool)
    requires s.process.Up? && s.process.phase.Answered?
    requires s.process.phase.outcome == BlockedAnswer() || s.process.phase.outcome == PreflightFailedAnswer()
    ensures var Answered(d, session, _, _) := s.process.phase;
      var sent := Step(s, Deliver(delivered));
      var op := if delivered then ClearPending(d.requestId) else PromotePending(session, d.requestId);
      sent.process.Up? && Step(sent, Resolve(write)) == Commit(sent, op, write)
  {
    hide IsRejection, Commit, Holds, Record, ReceiveStep, BlockedAnswer, PreflightFailedAnswer;
    ResolveIsCommit(Step(s, Deliver(delivered)), write);
  }
}
