/**
 * The controlled-mutation harness: eligibility in fixed order, one host-owned
 * compare-and-replace with injected races, and blocking after a lost outcome.
 */
module MutationHarness {
  import opened Wrappers
  import opened Bytes
  import opened Utf16
  import opened Printing
  import opened RequestLedger

  const COMPOSITION_PROOF: byte := 0x10
  const LEDGER_CAPACITY := 64

  datatype Composition = Inactive | Active | CompositionUnknown
  datatype Secure = KnownNonSecure | Secure | SecureUnknown
  datatype SessionState = SupportedLocal | UnsupportedRemote | SessionUnknown
  datatype Mode = Normal | Refuse | Lost | LostAfterCommit

  /** A race: replace a range of UTF-16 units and bump the version. */
  datatype Change = Change(start: nat, end: nat, text: Str)

  /** What the harness reads of the host and never writes. */
  datatype HostFacts = HostFacts(
    hostId: Str,
    sessionId: Str,
    uri: Str,
    epoch: u64,
    editorId: u64,
    caret: nat,
    selectionSpan: nat,
    secure: Secure,
    sessionState: SessionState,
    composition: Composition,
    capabilities: byte,
    mode: Mode,
    preTransaction: Option<Change>,
    postCommit: Option<Change>)

  datatype Host = Host(facts: HostFacts, version: u64, text: Str)

  datatype MutationRequest = MutationRequest(
    protocolId: Str,
    hostId: Str,
    sessionId: Str,
    requestId: Str,
    uri: Str,
    epoch: u64,
    editorId: u64,
    revision: u64,
    rangeStart: nat,
    rangeEnd: nat,
    expectedText: Str,
    replacement: Str,
    caret: nat,
    composition: Composition,
    capabilities: byte)

  datatype RejectReason =
    | ProtocolMismatch
    | HostIdentityMismatch
    | SessionMismatch
    | TargetIdentityMismatch
    | RangeMismatch
    | CaretMismatch
    | SelectionNotEmpty
    | TextMismatch
    | RevisionMismatch
    | SecureTarget
    | SecureIsUnknown
    | CompositionActive
    | CompositionIsUnknown
    | UnsupportedSession
    | SessionIsUnknown
    | CapabilityMismatch
    | RequestIdInvalid
    | RequestIdReuse
    | EditTransactionRefused
    | RevisionOverflow

  datatype IndeterminateReason = EditOutcomeLost | AmbiguousCommit

  datatype MutationOutcome =
    | Applied(newRevision: u64)
    | Rejected(reason: RejectReason)
    | Indeterminate(lost: IndeterminateReason)
    | BlockedPendingReconciliation

  datatype Verdict = AppliedAcknowledged | NotApplied | ConflictHumanReview

  datatype TargetState = AwaitingReconciliation | Reconciled(acknowledged: bool)

  datatype Harness = Harness(host: Host, ledger: Ledger<seq<Unit>>, targets: map<seq<Unit>, TargetState>)

  function MutationProtocolId(): seq<Unit>
  {
    Ascii("zonkey.mutation-harness/1")
  }

  // ---------------------------------------------------------------------
  // The host
  // ---------------------------------------------------------------------

  /** Skip `start` units, take up to `end - start`, and decode lossily. */
  function Slice(text: Str, start: nat, end: nat): seq<Unit>
  {
    var from := Least(start, |text|);
    var to := Least(if end < from then from else end, |text|);
    Lossy(text[from..to])
  }

  function Replace(text: Str, start: nat, end: nat, replacement: Str): Option<Str>
  {
    if start > end || end > |text| then None else
    var next := text[..start] + replacement + text[end..];
    if WellFormed(next) then Some(next) else None
  }

  function Inject(host: Host, change: Option<Change>): Host
  {
    match change
    case None => host
    case Some(Change(start, end, text)) =>
      match Replace(host.text, start, end, text)
      case None => host
      case Some(next) => host.(text := next, version := Bumped(host.version))
  }

  // ---------------------------------------------------------------------
  // One transaction
  // ---------------------------------------------------------------------

  /** Eligibility in the fixed order of the checks; `None` when all pass. */
  function Refusal(host: Host, r: MutationRequest): Option<RejectReason>
  {
    var f := host.facts;
    if r.protocolId != MutationProtocolId() then Some(ProtocolMismatch)
    else if r.hostId != f.hostId then Some(HostIdentityMismatch)
    else if r.sessionId != f.sessionId then Some(SessionMismatch)
    else if r.uri != f.uri || r.epoch != f.epoch || r.editorId != f.editorId then Some(TargetIdentityMismatch)
    else if r.caret != f.caret || r.rangeEnd != r.caret then Some(CaretMismatch)
    else if f.selectionSpan != 0 then Some(SelectionNotEmpty)
    else if r.rangeStart > r.rangeEnd || r.rangeEnd > |host.text|
         || SplitsSurrogate(host.text, r.rangeStart) || SplitsSurrogate(host.text, r.rangeEnd) then Some(RangeMismatch)
    else if Slice(host.text, r.rangeStart, r.rangeEnd) != r.expectedText then Some(TextMismatch)
    else if r.revision != host.version then Some(RevisionMismatch)
    else if r.revision == MAX_U64 then Some(RevisionOverflow)
    else if f.secure.Secure? then Some(SecureTarget)
    else if f.secure.SecureUnknown? then Some(SecureIsUnknown)
    else if f.sessionState.UnsupportedRemote? then Some(UnsupportedSession)
    else if f.sessionState.SessionUnknown? then Some(SessionIsUnknown)
    else if f.composition.Active? then Some(CompositionActive)
    else if f.composition.CompositionUnknown? then Some(CompositionIsUnknown)
    else if f.capabilities & COMPOSITION_PROOF == 0 then Some(CompositionIsUnknown)
    else if !r.composition.Inactive? then Some(CompositionActive)
    else if r.capabilities != f.capabilities then Some(CapabilityMismatch)
    else None
  }

  /** The host after the commit, when the transaction gets that far. */
  function Committed(host: Host, r: MutationRequest): Option<Host>
  {
    var raced := Inject(host, host.facts.preTransaction);
    if Slice(raced.text, r.rangeStart, r.rangeEnd) != r.expectedText then None
    else if host.facts.mode.Refuse? || host.facts.mode.Lost? then None
    else
      match Replace(raced.text, r.rangeStart, r.rangeEnd, r.replacement)
      case None => None
      case Some(next) => Some(raced.(text := next, version := Bumped(raced.version)))
  }

  function Transaction(host: Host, r: MutationRequest): (Host, MutationOutcome)
  {
    var prefix := Slice(host.text, 0, r.rangeStart);
    var suffix := Slice(host.text, r.rangeEnd, |host.text|);
    var raced := Inject(host, host.facts.preTransaction);
    if Slice(raced.text, r.rangeStart, r.rangeEnd) != r.expectedText then
      (raced, if raced.version != host.version then Indeterminate(AmbiguousCommit) else Rejected(TextMismatch))
    else if host.facts.mode.Refuse? then (raced, Rejected(EditTransactionRefused))
    else if host.facts.mode.Lost? then (raced, Indeterminate(EditOutcomeLost))
    else
      match Committed(host, r)
      case None => (raced, Rejected(RangeMismatch))
      case Some(committed) =>
        var after := Inject(committed, host.facts.postCommit);
        if after.version == host.version + 1 && after.text == prefix + r.replacement + suffix then
          (after, if host.facts.mode.LostAfterCommit? then Indeterminate(EditOutcomeLost) else Applied(after.version))
        else (after, Indeterminate(AmbiguousCommit))
  }

  function ValidateAndMutate(host: Host, r: MutationRequest): (Host, MutationOutcome)
  {
    match Refusal(host, r)
    case Some(reason) => (host, Rejected(reason))
    case None => Transaction(host, r)
  }

  // ---------------------------------------------------------------------
  // Canonical forms and recorded outcomes
  // ---------------------------------------------------------------------

  /** Parsing an unsigned 64-bit decimal; a leading plus sign is accepted. */
  function ParseU64(s: seq<Unit>): Option<u64>
  {
    var body := if |s| > 1 && s[0] == 0x2B then s[1..] else s;
    match Digits(body)
    case None => None
    case Some(n) => if n <= MAX_U64 then Some(n) else None
  }

  function Join(fields: seq<seq<Unit>>): seq<Unit>
  {
    if fields == [] then [] else if |fields| == 1 then fields[0] else fields[0] + [1] + Join(fields[1..])
  }

  function CompositionName(c: Composition): string
  {
    match c
    case Inactive => "Inactive"
    case Active => "Active"
    case CompositionUnknown => "Unknown"
  }

  function Fields(r: MutationRequest): (fields: seq<seq<Unit>>)
    ensures |fields| == 15
  {
    [r.protocolId, r.hostId, r.sessionId, r.requestId, r.uri, Decimal(r.epoch), Decimal(r.editorId),
          Decimal(r.revision), Decimal(r.rangeStart), Decimal(r.rangeEnd), r.expectedText, r.replacement,
          Decimal(r.caret), Ascii(CompositionName(r.composition)), Decimal(r.capabilities as int)]
  }

  function Canonical(r: MutationRequest): seq<Unit>
  {
    Join(Fields(r))
  }

  function ReasonName(r: RejectReason): string
  {
    match r
    case ProtocolMismatch => "ProtocolMismatch"
    case HostIdentityMismatch => "HostIdentityMismatch"
    case SessionMismatch => "SessionMismatch"
    case TargetIdentityMismatch => "TargetIdentityMismatch"
    case RangeMismatch => "RangeMismatch"
    case CaretMismatch => "CaretMismatch"
    case SelectionNotEmpty => "SelectionNotEmpty"
    case TextMismatch => "TextMismatch"
    case RevisionMismatch => "RevisionMismatch"
    case SecureTarget => "SecureTarget"
    case SecureIsUnknown => "SecureUnknown"
    case CompositionActive => "CompositionActive"
    case CompositionIsUnknown => "CompositionUnknown"
    case UnsupportedSession => "UnsupportedSession"
    case SessionIsUnknown => "SessionUnknown"
    case CapabilityMismatch => "CapabilityMismatch"
    case RequestIdInvalid => "RequestIdInvalid"
    case RequestIdReuse => "RequestIdReuse"
    case EditTransactionRefused => "EditTransactionRefused"
    case RevisionOverflow => "RevisionOverflow"
  }

  /** Every reason except the text mismatch, which is also the answer for unknown names. */
  const NAMED_REASONS: seq<RejectReason> := [
    ProtocolMismatch, HostIdentityMismatch, SessionMismatch, TargetIdentityMismatch, RangeMismatch, CaretMismatch,
    SelectionNotEmpty, RevisionMismatch, SecureTarget, SecureIsUnknown, CompositionActive, CompositionIsUnknown,
    UnsupportedSession, SessionIsUnknown, CapabilityMismatch, RequestIdInvalid, RequestIdReuse,
    EditTransactionRefused, RevisionOverflow
  ]

  function ReasonNamed(name: seq<Unit>, reasons: seq<RejectReason>): RejectReason
  {
    if reasons == [] then TextMismatch
    else if name == Ascii(ReasonName(reasons[0])) then reasons[0]
    else ReasonNamed(name, reasons[1..])
  }

  function LostName(r: IndeterminateReason): string
  {
    match r
    case EditOutcomeLost => "EditOutcomeLost"
    case AmbiguousCommit => "AmbiguousCommit"
  }

  function EncodeOutcome(o: MutationOutcome): LedgerOutcome<seq<Unit>>
  {
    match o
    case Applied(revision) => Definite(Ascii("applied:") + Decimal(revision))
    case Rejected(reason) => Definite(Ascii("rejected:") + Ascii(ReasonName(reason)))
    case Indeterminate(lost) => Ambiguous(Ascii("indeterminate:") + Ascii(LostName(lost)))
    case BlockedPendingReconciliation => Definite(Ascii("blocked"))
  }

  function DecodeOutcome(o: LedgerOutcome<seq<Unit>>): MutationOutcome
  {
    match o
    case Definite(text) =>
      if Ascii("applied:") <= text then
        (match ParseU64(text[8..])
         case Some(n) => Applied(n)
         case None => Applied(MAX_U64))
      else if Ascii("rejected:") <= text then Rejected(ReasonNamed(text[9..], NAMED_REASONS))
      else if text == Ascii("blocked") then BlockedPendingReconciliation
      else Rejected(TextMismatch)
    case Ambiguous(text) =>
      if Ascii("indeterminate:") <= text && text[14..] == Ascii("EditOutcomeLost")
      then Indeterminate(EditOutcomeLost) else Indeterminate(AmbiguousCommit)
  }

  /** The length, the third and the ninth letter tell the reason names apart. */
  function Mark(r: RejectReason): (nat, char, char)
  {
    match r
    case ProtocolMismatch => (16, 'o', 'M')
    case HostIdentityMismatch => (20, 's', 't')
    case SessionMismatch => (15, 's', 'i')
    case TargetIdentityMismatch => (22, 'r', 'e')
    case RangeMismatch => (13, 'n', 'm')
    case CaretMismatch => (13, 'r', 'm')
    case SelectionNotEmpty => (17, 'l', 'n')
    case TextMismatch => (12, 'x', 'a')
    case RevisionMismatch => (16, 'v', 'M')
    case SecureTarget => (12, 'c', 'r')
    case SecureIsUnknown => (13, 'c', 'k')
    case CompositionActive => (17, 'm', 'i')
    case CompositionIsUnknown => (18, 'm', 'i')
    case UnsupportedSession => (18, 's', 't')
    case SessionIsUnknown => (14, 's', 'n')
    case CapabilityMismatch => (18, 'p', 't')
    case RequestIdInvalid => (16, 'q', 'd')
    case RequestIdReuse => (14, 'q', 'd')
    case EditTransactionRefused => (22, 'i', 's')
    case RevisionOverflow => (16, 'v', 'O')
  }

  lemma MarkOfName(r: RejectReason)
    ensures var name := ReasonName(r);
      |name| >= 12 && Mark(r) == (|name|, name[2], name[8])
  {
  }

  lemma MarksDiffer(r: RejectReason, q: RejectReason)
    requires Mark(r) == Mark(q)
    ensures r == q
  {
  }

  lemma MarkIsAscii(r: RejectReason)
    ensures Mark(r).1 as int < 0x80 && Mark(r).2 as int < 0x80
  {
  }

  lemma NamesDiffer(r: RejectReason, q: RejectReason)
    requires Ascii(ReasonName(r)) == Ascii(ReasonName(q))
    ensures r == q
  {
    MarkOfName(r);
    MarkOfName(q);
    MarkIsAscii(r);
    MarkIsAscii(q);
    hide ReasonName, Mark;
    var a, b := ReasonName(r), ReasonName(q);
    assert Ascii(a)[2] == Ascii(b)[2] && Ascii(a)[8] == Ascii(b)[8];
    assert Mark(r) == Mark(q);
    MarksDiffer(r, q);
  }

  lemma {:induction false} NamedReasonFound(r: RejectReason, reasons: seq<RejectReason>)
    requires r in reasons
    ensures ReasonNamed(Ascii(ReasonName(r)), reasons) == r
  {
    hide ReasonName, Ascii;
    if Ascii(ReasonName(r)) == Ascii(ReasonName(reasons[0])) {
      NamesDiffer(r, reasons[0]);
    } else {
      NamedReasonFound(r, reasons[1..]);
    }
  }

  lemma {:induction false} UnnamedReasonIsTextMismatch(reasons: seq<RejectReason>)
    requires TextMismatch !in reasons
    ensures ReasonNamed(Ascii(ReasonName(TextMismatch)), reasons) == TextMismatch
  {
    hide ReasonName, Ascii;
    if reasons != [] {
      assert reasons[0] in reasons;
      if Ascii(ReasonName(TextMismatch)) == Ascii(ReasonName(reasons[0])) {
        NamesDiffer(TextMismatch, reasons[0]);
      } else {
        UnnamedReasonIsTextMismatch(reasons[1..]);
      }
    }
  }

  lemma ReasonRoundTrip(r: RejectReason)
    ensures ReasonNamed(Ascii(ReasonName(r)), NAMED_REASONS) == r
  {
    if r.TextMismatch? {
      UnnamedReasonIsTextMismatch(NAMED_REASONS);
    } else {
      AllReasonsNamed(r);
      NamedReasonFound(r, NAMED_REASONS);
    }
  }

  lemma AllReasonsNamed(r: RejectReason)
    ensures r in NAMED_REASONS <==> !r.TextMismatch?
  {
  }

  lemma RevisionRoundTrip(n: u64)
    ensures ParseU64(Decimal(n)) == Some(n)
  {
    DecimalRoundTrip(n);
  }

  /** What a duplicate is answered is what was recorded. */
  lemma OutcomeRoundTrip(o: MutationOutcome)
    ensures DecodeOutcome(EncodeOutcome(o)) == o
  {
    hide ReasonName, ReasonNamed, Decimal, ParseU64;
    var applied, rejected, lost := Ascii("applied:"), Ascii("rejected:"), Ascii("indeterminate:");
    match o {
      case Applied(revision) =>
        RevisionRoundTrip(revision);
        assert (applied + Decimal(revision))[8..] == Decimal(revision);
      case Rejected(reason) =>
        ReasonRoundTrip(reason);
        var text := rejected + Ascii(ReasonName(reason));
        assert text[9..] == Ascii(ReasonName(reason));
        assert text[0] != applied[0];
      case Indeterminate(reason) =>
        var name := Ascii(LostName(reason));
        assert (lost + name)[14..] == name;
        assert name[0] == (if reason.EditOutcomeLost? then 0x45 else 0x41);
        assert Ascii("EditOutcomeLost")[0] == 0x45;
      case BlockedPendingReconciliation =>
        assert Ascii("blocked")[0] != applied[0] && Ascii("blocked")[0] != rejected[0];
    }
  }

  // ---------------------------------------------------------------------
  // Submitting, reconciling, acknowledging
  // ---------------------------------------------------------------------

  function LogicalTarget(uri: seq<Unit>, expected: seq<Unit>): seq<Unit>
  {
    uri + [0] + expected
  }

  predicate BlockedTarget(h: Harness, target: seq<Unit>)
  {
    target in h.targets && h.targets[target] != Reconciled(true)
  }

  function Submit(h: Harness, r: MutationRequest): (Harness, MutationOutcome)
  {
    if r.requestId == [] then (h, Rejected(RequestIdInvalid)) else
    match Classify(h.ledger, r.requestId, Canonical(r))
    case Duplicate(recorded) => (h, DecodeOutcome(recorded))
    case Conflict => (h, Rejected(RequestIdReuse))
    case Fresh =>
      var target := LogicalTarget(r.uri, r.expectedText);
      if BlockedTarget(h, target) then (h, BlockedPendingReconciliation) else
      var (host, outcome) := ValidateAndMutate(h.host, r);
      var targets := if outcome.Indeterminate? then h.targets[target := AwaitingReconciliation] else h.targets;
      var ledger := Record(h.ledger, r.requestId, Canonical(r), EncodeOutcome(outcome), false).0;
      (Harness(host, ledger, targets), outcome)
  }

  function ReconcileTarget(h: Harness, uri: Str, expected: Str, replacement: Str, start: nat, end: nat)
    : (Harness, Option<Verdict>)
  {
    var target := LogicalTarget(uri, expected);
    if target !in h.targets || h.targets[target] != AwaitingReconciliation then (h, None) else
    var live := Slice(h.host.text, start, end);
    var verdict := if live == replacement then AppliedAcknowledged
                   else if live == expected then NotApplied else ConflictHumanReview;
    (h.(targets := h.targets[target := Reconciled(false)]), Some(verdict))
  }

  function OwnerAck(h: Harness, uri: Str, expected: Str): (Harness, bool)
  {
    var target := LogicalTarget(uri, expected);
    if target in h.targets && h.targets[target].Reconciled?
    then (h.(targets := h.targets[target := Reconciled(true)]), true)
    else (h, false)
  }

  // ---------------------------------------------------------------------
  // What the canonical form tells apart
  // ---------------------------------------------------------------------

  predicate FreeOfSeparator(fields: seq<seq<Unit>>)
  {
    forall i :: 0 <= i < |fields| ==> 1 !in fields[i]
  }

  lemma FirstFieldNoShorter(a: seq<Unit>, b: seq<Unit>, x: seq<Unit>, y: seq<Unit>)
    requires 1 !in b && a + [1] + x == b + [1] + y
    ensures |b| <= |a|
  {
    assert (a + [1] + x)[|a|] == 1;
    assert forall i :: 0 <= i < |b| ==> (b + [1] + y)[i] == b[i];
  }

  lemma FirstFieldEnds(a: seq<Unit>, b: seq<Unit>, x: seq<Unit>, y: seq<Unit>)
    requires 1 !in a && 1 !in b
    requires a + [1] + x == b + [1] + y
    ensures a == b && x == y
  {
    FirstFieldNoShorter(a, b, x, y);
    FirstFieldNoShorter(b, a, y, x);
    var s, t := a + [1] + x, b + [1] + y;
    assert a == s[..|a|] && b == t[..|b|];
    assert x == s[|a| + 1..] && y == t[|b| + 1..];
  }

  lemma {:induction false} JoinInjective(a: seq<seq<Unit>>, b: seq<seq<Unit>>)
    requires |a| == |b| && FreeOfSeparator(a) && FreeOfSeparator(b)
    requires Join(a) == Join(b)
    ensures a == b
  {
    if |a| > 1 {
      FirstFieldEnds(a[0], b[0], Join(a[1..]), Join(b[1..]));
      JoinInjective(a[1..], b[1..]);
      assert a == [a[0]] + a[1..] && b == [b[0]] + b[1..];
    }
  }

  lemma {:induction false} DecimalHasNoSeparator(n: nat)
    ensures 1 !in Decimal(n)
  {
    if n >= 10 {
      DecimalHasNoSeparator(n / 10);
    }
  }

  lemma CompositionNames(c: Composition, d: Composition)
    ensures 1 !in Ascii(CompositionName(c))
    ensures Ascii(CompositionName(c)) == Ascii(CompositionName(d)) ==> c == d
  {
    assert Ascii(CompositionName(c))[0] == if c.Inactive? then 0x49 else if c.Active? then 0x41 else 0x55;
    assert Ascii(CompositionName(d))[0] == if d.Inactive? then 0x49 else if d.Active? then 0x41 else 0x55;
  }

  /** No text field of the request contains U+0001. */
  predicate Separable(r: MutationRequest)
  {
    FreeOfSeparator([r.protocolId, r.hostId, r.sessionId, r.requestId, r.uri, r.expectedText, r.replacement])
  }

  lemma SeparableFields(r: MutationRequest)
    requires Separable(r)
    ensures FreeOfSeparator(Fields(r))
  {
    hide Decimal, Ascii, CompositionName;
    var texts := [r.protocolId, r.hostId, r.sessionId, r.requestId, r.uri, r.expectedText, r.replacement];
    assert forall i :: 0 <= i < |texts| ==> 1 !in texts[i];
    assert 1 !in texts[0] && 1 !in texts[1] && 1 !in texts[2] && 1 !in texts[3] && 1 !in texts[4]
           && 1 !in texts[5] && 1 !in texts[6];
    DecimalHasNoSeparator(r.epoch);
    DecimalHasNoSeparator(r.editorId);
    DecimalHasNoSeparator(r.revision);
    DecimalHasNoSeparator(r.rangeStart);
    DecimalHasNoSeparator(r.rangeEnd);
    DecimalHasNoSeparator(r.caret);
    DecimalHasNoSeparator(r.capabilities as int);
    CompositionNames(r.composition, r.composition);
  }

  lemma FieldsInjective(r: MutationRequest, q: MutationRequest)
    requires Fields(r) == Fields(q)
    ensures r == q
  {
    hide Decimal, Ascii, CompositionName;
    var a, b := Fields(r), Fields(q);
    assert forall i :: 0 <= i < 15 ==> a[i] == b[i];
    assert a[0] == b[0] && a[1] == b[1] && a[2] == b[2] && a[3] == b[3] && a[4] == b[4] && a[5] == b[5] && a[6] == b[6];
    assert a[7] == b[7] && a[8] == b[8] && a[9] == b[9] && a[10] == b[10] && a[11] == b[11] && a[12] == b[12];
    assert a[13] == b[13] && a[14] == b[14];
    DecimalInjective(r.epoch, q.epoch);
    DecimalInjective(r.editorId, q.editorId);
    DecimalInjective(r.revision, q.revision);
    DecimalInjective(r.rangeStart, q.rangeStart);
    DecimalInjective(r.rangeEnd, q.rangeEnd);
    DecimalInjective(r.caret, q.caret);
    DecimalInjective(r.capabilities as int, q.capabilities as int);
    CompositionNames(r.composition, q.composition);
    SameByte(r.capabilities, q.capabilities);
  }

  lemma SameByte(a: byte, b: byte)
    requires a as int == b as int
    ensures a == b
  {
    IntOfByte(a);
    IntOfByte(b);
  }

  /** A join holds a separator between any two fields, and those inside the fields. */
  lemma {:induction false} SeparatorsInJoin(fields: seq<seq<Unit>>)
    requires fields != []
    ensures multiset(Join(fields))[1] >= |fields| - 1
    ensures multiset(Join(fields))[1] == |fields| - 1 <==> FreeOfSeparator(fields)
  {
    var first, rest := fields[0], fields[1..];
    assert fields == [first] + rest;
    assert 1 in multiset(first) <==> 1 in first;
    if rest != [] {
      SeparatorsInJoin(rest);
      assert multiset(Join(fields)) == multiset(first) + multiset([1]) + multiset(Join(rest));
      assert FreeOfSeparator(fields) <==> 1 !in first && FreeOfSeparator(rest);
    }
  }

  /**
   * Duplicate against conflict is request equality as long as no text field
   * of the recorded request contains U+0001, the separator.
   */
  lemma CanonicalTellsApart(r: MutationRequest, q: MutationRequest)
    requires Separable(r)
    ensures Canonical(r) == Canonical(q) <==> r == q
  {
    hide Separable, FreeOfSeparator, Join, Fields;
    if Canonical(r) == Canonical(q) {
      SeparableFields(r);
      SeparatorsInJoin(Fields(r));
      SeparatorsInJoin(Fields(q));
      JoinInjective(Fields(r), Fields(q));
      FieldsInjective(r, q);
    }
  }

  lemma {:induction false} JoinPrefix(head: seq<seq<Unit>>, a: seq<seq<Unit>>, b: seq<seq<Unit>>)
    requires a != [] && b != [] && Join(a) == Join(b)
    ensures Join(head + a) == Join(head + b)
  {
    if head == [] {
      assert head + a == a && head + b == b;
    } else {
      JoinPrefix(head[1..], a, b);
      assert (head + a)[1..] == head[1..] + a && (head + b)[1..] == head[1..] + b;
    }
  }

  /** Two fields with a separator inside can be cut in two in another place. */
  lemma OtherCut(x: Str, y: Str) returns (x2: Str, y2: Str)
    requires 1 in x || 1 in y
    ensures x2 + [1] + y2 == x + [1] + y && (x2 != x || y2 != y)
  {
    hide WellFormed;
    if 1 in x {
      var i :| 0 <= i < |x| && x[i] == 1;
      CutAround(x, i);
      Joined(x[i + 1..], y);
      x2, y2 := x[..i], x[i + 1..] + [1] + y;
      assert x == x[..i] + [1] + x[i + 1..];
    } else {
      var i :| 0 <= i < |y| && y[i] == 1;
      CutAround(y, i);
      Joined(x, y[..i]);
      x2, y2 := x + [1] + y[..i], y[i + 1..];
      assert y == y[..i] + [1] + y[i + 1..];
    }
  }

  lemma CutAround(s: Str, i: nat)
    requires i < |s| && s[i] == 1
    ensures WellFormed(s[..i]) && WellFormed(s[i + 1..])
  {
    hide WellFormed;
    CutIff(s, i);
    CutIff(s, i + 1);
  }

  lemma Joined(a: seq<Unit>, b: seq<Unit>)
    requires WellFormed(a) && WellFormed(b)
    ensures WellFormed(a + [1] + b)
  {
    assert WellFormed([1]) by { assert [1][1..] == []; }
    hide WellFormed;
    ConcatWellFormed(a, [1]);
    ConcatWellFormed(a + [1], b);
  }

  lemma OtherCutSameJoin(f: seq<seq<Unit>>, g: seq<seq<Unit>>, i: nat)
    requires |f| == |g| && i + 2 < |f| && f[i] + [1] + f[i + 1] == g[i] + [1] + g[i + 1]
    requires forall j :: 0 <= j < |f| && j != i && j != i + 1 ==> f[j] == g[j]
    ensures Join(f) == Join(g)
  {
    var tail := f[i + 2..];
    assert tail == g[i + 2..] && f[..i] == g[..i];
    JoinTwo(f[i], f[i + 1], tail);
    JoinTwo(g[i], g[i + 1], tail);
    hide Join;
    AroundPair(f, i);
    AroundPair(g, i);
    JoinPrefix(f[..i], [f[i], f[i + 1]] + tail, [g[i], g[i + 1]] + tail);
  }

  lemma AroundPair(f: seq<seq<Unit>>, i: nat)
    requires i + 2 < |f|
    ensures f == f[..i] + ([f[i], f[i + 1]] + f[i + 2..])
  {
  }

  lemma JoinTwo(x: seq<Unit>, y: seq<Unit>, tail: seq<seq<Unit>>)
    requires tail != []
    ensures Join([x, y] + tail) == (x + [1] + y) + [1] + Join(tail)
  {
    assert ([x, y] + tail)[1..] == [y] + tail && ([y] + tail)[1..] == tail;
    assert Join([y] + tail) == y + [1] + Join(tail);
  }

  lemma MovedToHost(r: MutationRequest, x: Str, y: Str)
    requires x + [1] + y == r.protocolId + [1] + r.hostId
    ensures Canonical(r.(protocolId := x, hostId := y)) == Canonical(r)
  {
    hide Decimal, Ascii, CompositionName, Join, WellFormed;
    OtherCutSameJoin(Fields(r), Fields(r.(protocolId := x, hostId := y)), 0);
  }

  lemma MovedToSession(r: MutationRequest, x: Str, y: Str)
    requires x + [1] + y == r.hostId + [1] + r.sessionId
    ensures Canonical(r.(hostId := x, sessionId := y)) == Canonical(r)
  {
    hide Decimal, Ascii, CompositionName, Join, WellFormed;
    OtherCutSameJoin(Fields(r), Fields(r.(hostId := x, sessionId := y)), 1);
  }

  lemma MovedToUri(r: MutationRequest, x: Str, y: Str)
    requires x + [1] + y == r.requestId + [1] + r.uri
    ensures Canonical(r.(requestId := x, uri := y)) == Canonical(r)
  {
    hide Decimal, Ascii, CompositionName, Join, WellFormed;
    OtherCutSameJoin(Fields(r), Fields(r.(requestId := x, uri := y)), 3);
  }

  lemma MovedToReplacement(r: MutationRequest, x: Str, y: Str)
    requires x + [1] + y == r.expectedText + [1] + r.replacement
    ensures Canonical(r.(expectedText := x, replacement := y)) == Canonical(r)
  {
    hide Decimal, Ascii, CompositionName, Join, WellFormed;
    OtherCutSameJoin(Fields(r), Fields(r.(expectedText := x, replacement := y)), 10);
  }

  /** The fields where a moved separator leaves the request id alone. */
  predicate SeparatorOutsideIds(r: MutationRequest)
  {
    1 in r.protocolId || 1 in r.hostId || 1 in r.sessionId || 1 in r.expectedText || 1 in r.replacement
  }

  /**
   * With the separator inside any text field another request has the same
   * canonical form: under the same request id, so that the ledger takes it for
   * a duplicate, unless only the request id or the URI contains it.
   */
  lemma SeparatorConfusesFields(r: MutationRequest) returns (q: MutationRequest)
    requires !Separable(r)
    ensures q != r && Canonical(q) == Canonical(r)
    ensures SeparatorOutsideIds(r) ==> q.requestId == r.requestId
  {
    hide Canonical, WellFormed, Separable;
    if 1 in r.protocolId || 1 in r.hostId {
      var x, y := OtherCut(r.protocolId, r.hostId);
      q := r.(protocolId := x, hostId := y);
      MovedToHost(r, x, y);
    } else if 1 in r.sessionId {
      var x, y := OtherCut(r.hostId, r.sessionId);
      q := r.(hostId := x, sessionId := y);
      MovedToSession(r, x, y);
    } else if 1 in r.expectedText || 1 in r.replacement {
      var x, y := OtherCut(r.expectedText, r.replacement);
      q := r.(expectedText := x, replacement := y);
      MovedToReplacement(r, x, y);
    } else {
      SeparatorInIds(r);
      var x, y := OtherCut(r.requestId, r.uri);
      q := r.(requestId := x, uri := y);
      MovedToUri(r, x, y);
    }
  }

  lemma SeparatorInIds(r: MutationRequest)
    requires !Separable(r) && !SeparatorOutsideIds(r)
    ensures 1 in r.requestId || 1 in r.uri
  {
    var texts := [r.protocolId, r.hostId, r.sessionId, r.requestId, r.uri, r.expectedText, r.replacement];
    var i :| 0 <= i < |texts| && 1 in texts[i];
  }

  /** Exactly the requests without the separator in a text field are told apart from all others. */
  lemma CanonicalNamesRequestIff(r: MutationRequest)
    ensures Separable(r) <==> forall q :: Canonical(q) == Canonical(r) ==> q == r
  {
    hide Separable, Canonical;
    if Separable(r) {
      forall q | Canonical(q) == Canonical(r)
        ensures q == r
      {
        CanonicalTellsApart(r, q);
      }
    } else {
      var q := SeparatorConfusesFields(r);
    }
  }

  // ---------------------------------------------------------------------
  // The objects
  // ---------------------------------------------------------------------

  class HarnessHost {
    var facts: HostFacts
    var version: u64
    var text: Str

    constructor (host: Host)
      ensures State() == host
    {
      facts, version, text := host.facts, host.version, host.text;
    }

    function State(): Host
      reads this
    {
      Host(facts, version, text)
    }

    /** All or nothing: a result that is not well-formed leaves the text alone. */
    method ReplaceUtf16(start: nat, end: nat, replacement: Str) returns (replaced: bool)
      modifies `text
      ensures replaced == Replace(old(text), start, end, replacement).Some?
      ensures text == if replaced then Replace(old(text), start, end, replacement).value else old(text)
    {
      if start > end || end > |text| {
        return false;
      }
      var next := text[..start];
      next := next + replacement;
      next := next + text[end..];
      if WellFormed(next) {
        text := next;
        return true;
      }
      return false;
    }

    method InjectChange(change: Option<Change>)
      modifies `text, `version
      ensures State() == Inject(old(State()), change)
    {
      match change {
        case None =>
        case Some(Change(start, end, replacement)) =>
          var replaced := ReplaceUtf16(start, end, replacement);
          if replaced {
            version := Bumped(version);
          }
      }
    }
  }

  class MutationHarness {
    const host: HarnessHost
    const ledger: BoundedRequestLedger<seq<Unit>>
    var targets: map<seq<Unit>, TargetState>

    constructor (host: HarnessHost)
      ensures this.host == host && fresh(ledger)
      ensures ledger.State() == EmptyLedger(LEDGER_CAPACITY) && targets == map[]
    {
      this.host := host;
      ledger := new BoundedRequestLedger(LEDGER_CAPACITY);
      targets := map[];
    }

    function State(): Harness
      reads this, host, ledger
    {
      Harness(host.State(), ledger.State(), targets)
    }

    method Transact(request: MutationRequest) returns (outcome: MutationOutcome)
      modifies host
      ensures (host.State(), outcome) == Transaction(old(host.State()), request)
    {
      hide Slice, WellFormed;
      var revisionBefore: int := host.version;
      var prefix := Slice(host.text, 0, request.rangeStart);
      var suffix := Slice(host.text, request.rangeEnd, |host.text|);
      host.InjectChange(host.facts.preTransaction);
      if Slice(host.text, request.rangeStart, request.rangeEnd) != request.expectedText {
        return if host.version != revisionBefore then Indeterminate(AmbiguousCommit) else Rejected(TextMismatch);
      }
      if host.facts.mode.Refuse? {
        return Rejected(EditTransactionRefused);
      }
      if host.facts.mode.Lost? {
        return Indeterminate(EditOutcomeLost);
      }
      var replaced := host.ReplaceUtf16(request.rangeStart, request.rangeEnd, request.replacement);
      if !replaced {
        return Rejected(RangeMismatch);
      }
      host.version := Bumped(host.version);
      host.InjectChange(host.facts.postCommit);
      if host.version == revisionBefore + 1 && host.text == prefix + request.replacement + suffix {
        return if host.facts.mode.LostAfterCommit? then Indeterminate(EditOutcomeLost) else Applied(host.version);
      }
      return Indeterminate(AmbiguousCommit);
    }

    method SubmitRequest(request: MutationRequest) returns (outcome: MutationOutcome)
      modifies this, host, ledger
      ensures (State(), outcome) == Submit(old(State()), request)
    {
      hide Transaction, Refusal, Canonical, EncodeOutcome, DecodeOutcome, Record;
      if request.requestId == [] {
        return Rejected(RequestIdInvalid);
      }
      var canonical := Canonical(request);
      match Classify(ledger.State(), request.requestId, canonical) {
        case Duplicate(recorded) => return DecodeOutcome(recorded);
        case Conflict => return Rejected(RequestIdReuse);
        case Fresh =>
      }
      var target := LogicalTarget(request.uri, request.expectedText);
      if target in targets && targets[target] != Reconciled(true) {
        return BlockedPendingReconciliation;
      }
      var refusal := Refusal(host.State(), request);
      match refusal {
        case Some(reason) => outcome := Rejected(reason);
        case None => outcome := Transact(request);
      }
      if outcome.Indeterminate? {
        targets := targets[target := AwaitingReconciliation];
      }
      var _ := ledger.RecordInner(request.requestId, canonical, EncodeOutcome(outcome), false);
    }

    method Reconcile(uri: Str, expected: Str, replacement: Str, start: nat, end: nat) returns (verdict: Option<Verdict>)
      modifies this
      ensures (State(), verdict) == ReconcileTarget(old(State()), uri, expected, replacement, start, end)
    {
      hide Slice;
      var target := LogicalTarget(uri, expected);
      if target !in targets || targets[target] != AwaitingReconciliation {
        return None;
      }
      var live := Slice(host.text, start, end);
      if live == replacement {
        verdict := Some(AppliedAcknowledged);
      } else if live == expected {
        verdict := Some(NotApplied);
      } else {
        verdict := Some(ConflictHumanReview);
      }
      targets := targets[target := Reconciled(false)];
    }

    method Acknowledge(uri: Str, expected: Str) returns (accepted: bool)
      modifies this
      ensures (State(), accepted) == OwnerAck(old(State()), uri, expected)
    {
      var target := LogicalTarget(uri, expected);
      if target in targets && targets[target].Reconciled? {
        targets := targets[target := Reconciled(true)];
        return true;
      }
      return false;
    }
  }

  // ---------------------------------------------------------------------
  // An eligible request completes, and only an eligible one
  // ---------------------------------------------------------------------

  /** The request describes the host as it is and every safety condition holds. */
  predicate Eligible(host: Host, r: MutationRequest)
  {
    var f := host.facts;
    && r.protocolId == MutationProtocolId() && r.hostId == f.hostId && r.sessionId == f.sessionId
    && r.uri == f.uri && r.epoch == f.epoch && r.editorId == f.editorId
    && r.caret == f.caret && r.rangeEnd == r.caret && f.selectionSpan == 0
    && r.revision == host.version < MAX_U64
    && f.secure.KnownNonSecure? && f.sessionState.SupportedLocal?
    && f.composition.Inactive? && r.composition.Inactive?
    && f.capabilities & COMPOSITION_PROOF != 0 && r.capabilities == f.capabilities
    && r.rangeStart <= r.rangeEnd <= |host.text|
    && !SplitsSurrogate(host.text, r.rangeStart) && !SplitsSurrogate(host.text, r.rangeEnd)
    && host.text[r.rangeStart..r.rangeEnd] == r.expectedText
  }

  /** At non-splitting ends a lossy slice is the slice itself. */
  lemma SliceIsExact(text: Str, start: nat, end: nat)
    requires start <= end <= |text|
    requires !SplitsSurrogate(text, start) && !SplitsSurrogate(text, end)
    ensures Slice(text, start, end) == text[start..end]
  {
    hide WellFormed, Lossy;
    CutIff(text, end);
    var left := text[..end];
    assert left[start..] == text[start..end];
    if start < end {
      assert !SplitsSurrogate(left, start);
    } else {
      assert !SplitsSurrogate(left, start);
    }
    CutIff(left, start);
    LossyIsExactIff(text[start..end]);
  }

  lemma EligibleIffNoRefusal(host: Host, r: MutationRequest)
    ensures Refusal(host, r).None? <==> Eligible(host, r)
  {
    hide Slice, WellFormed;
    if r.rangeStart <= r.rangeEnd <= |host.text|
       && !SplitsSurrogate(host.text, r.rangeStart) && !SplitsSurrogate(host.text, r.rangeEnd) {
      SliceIsExact(host.text, r.rangeStart, r.rangeEnd);
    }
  }

  predicate NoRaces(host: Host)
  {
    host.facts.preTransaction.None? && host.facts.postCommit.None?
  }

  function Spliced(host: Host, r: MutationRequest): seq<Unit>
    requires r.rangeStart <= r.rangeEnd <= |host.text|
  {
    host.text[..r.rangeStart] + r.replacement + host.text[r.rangeEnd..]
  }

  /** Without races an eligible request is committed exactly, whatever happens to the answer. */
  lemma TransactionWithoutRaces(host: Host, r: MutationRequest)
    requires Eligible(host, r) && NoRaces(host)
    ensures WellFormed(Spliced(host, r))
    ensures Transaction(host, r) == match host.facts.mode
      case Normal => (host.(text := Spliced(host, r), version := host.version + 1), Applied(host.version + 1))
      case LostAfterCommit =>
        (host.(text := Spliced(host, r), version := host.version + 1), Indeterminate(EditOutcomeLost))
      case Refuse => (host, Rejected(EditTransactionRefused))
      case Lost => (host, Indeterminate(EditOutcomeLost))
  {
    hide WellFormed, Slice;
    SpliceWellFormed(host.text, r.rangeStart, r.rangeEnd, r.replacement);
    SliceIsExact(host.text, r.rangeStart, r.rangeEnd);
    SliceIsExact(host.text, 0, r.rangeStart);
    SliceIsExact(host.text, r.rangeEnd, |host.text|);
    assert host.text[0..r.rangeStart] == host.text[..r.rangeStart];
    assert host.text[r.rangeEnd..|host.text|] == host.text[r.rangeEnd..];
  }

  /** The transaction's re-read, after the first race, finds the expected text. */
  predicate Found(host: Host, r: MutationRequest)
  {
    Slice(Inject(host, host.facts.preTransaction).text, r.rangeStart, r.rangeEnd) == r.expectedText
  }

  /** The replacement fits into the text the first race left. */
  predicate Fits(host: Host, r: MutationRequest)
  {
    var raced := Inject(host, host.facts.preTransaction).text;
    r.rangeStart <= r.rangeEnd <= |raced| && WellFormed(raced[..r.rangeStart] + r.replacement + raced[r.rangeEnd..])
  }

  /** The host as a commit of the request alone leaves it. */
  function CleanCommit(host: Host, r: MutationRequest): Host
    requires Eligible(host, r)
  {
    hide WellFormed;
    SpliceWellFormed(host.text, r.rangeStart, r.rangeEnd, r.replacement);
    host.(text := Spliced(host, r), version := host.version + 1)
  }

  /** The change replaces something, and so moves the version. */
  predicate Happens(host: Host, change: Option<Change>)
  {
    change.Some? && change.value.start <= change.value.end <= |host.text|
    && WellFormed(host.text[..change.value.start] + change.value.text + host.text[change.value.end..])
  }

  lemma InjectIff(host: Host, change: Option<Change>)
    ensures if Happens(host, change)
            then Inject(host, change)
                 == host.(text := host.text[..change.value.start] + change.value.text + host.text[change.value.end..],
                          version := if host.version < MAX_U64 then host.version + 1 else MAX_U64)
            else Inject(host, change) == host
  {
    hide WellFormed;
  }

  lemma EligibleSlices(host: Host, r: MutationRequest)
    requires Eligible(host, r)
    ensures Slice(host.text, 0, r.rangeStart) == host.text[..r.rangeStart]
    ensures Slice(host.text, r.rangeEnd, |host.text|) == host.text[r.rangeEnd..]
    ensures Slice(host.text, r.rangeStart, r.rangeEnd) == r.expectedText
  {
    hide WellFormed, Slice;
    SliceIsExact(host.text, r.rangeStart, r.rangeEnd);
    SliceIsExact(host.text, 0, r.rangeStart);
    SliceIsExact(host.text, r.rangeEnd, |host.text|);
    assert host.text[0..r.rangeStart] == host.text[..r.rangeStart];
    assert host.text[r.rangeEnd..|host.text|] == host.text[r.rangeEnd..];
  }

  /**
   * The whole account of an eligible request under any two races. If the first
   * race moved the expected text the outcome is ambiguous, never a rejection.
   * If the replacement goes through, the outcome is `Applied` exactly in
   * normal mode when the host ends as a commit of this request alone would
   * leave it; if it ends otherwise the commit is ambiguous.
   */
  lemma TransactionUnderRaces(host: Host, r: MutationRequest)
    requires Eligible(host, r)
    ensures var (after, outcome) := Transaction(host, r);
      var raced, clean := Inject(host, host.facts.preTransaction), CleanCommit(host, r);
      if !Found(host, r) then
        after == raced && after.version != host.version && outcome == Indeterminate(AmbiguousCommit)
      else if host.facts.mode.Refuse? then after == raced && outcome == Rejected(EditTransactionRefused)
      else if host.facts.mode.Lost? then after == raced && outcome == Indeterminate(EditOutcomeLost)
      else if !Fits(host, r) then
        after == raced && after.version != host.version && outcome == Rejected(RangeMismatch)
      else
        && after == Inject(raced.(text := raced.text[..r.rangeStart] + r.replacement + raced.text[r.rangeEnd..],
                                  version := if raced.version < MAX_U64 then raced.version + 1 else MAX_U64),
                           host.facts.postCommit)
        && (outcome == Applied(host.version + 1) <==> host.facts.mode.Normal? && after == clean)
        && (outcome == Indeterminate(EditOutcomeLost) <==> host.facts.mode.LostAfterCommit? && after == clean)
        && (outcome == Indeterminate(AmbiguousCommit) <==> after != clean)
  {
    hide Transaction, Eligible, CleanCommit, Found, Fits, Inject;
    if Found(host, r) && Fits(host, r) && !host.facts.mode.Refuse? && !host.facts.mode.Lost? {
      CommitGoesThrough(host, r);
    } else {
      CommitStops(host, r);
    }
  }

  lemma CommitStops(host: Host, r: MutationRequest)
    requires Eligible(host, r)
    requires !Found(host, r) || host.facts.mode.Refuse? || host.facts.mode.Lost? || !Fits(host, r)
    ensures var (after, outcome) := Transaction(host, r);
      && after == Inject(host, host.facts.preTransaction)
      && (if !Found(host, r) then after.version != host.version && outcome == Indeterminate(AmbiguousCommit)
          else if host.facts.mode.Refuse? then outcome == Rejected(EditTransactionRefused)
          else if host.facts.mode.Lost? then outcome == Indeterminate(EditOutcomeLost)
          else after.version != host.version && outcome == Rejected(RangeMismatch))
  {
    EligibleSlices(host, r);
    InjectIff(host, host.facts.preTransaction);
    InjectKeepsFacts(host, host.facts.preTransaction);
    EligibleFits(host, r);
    hide WellFormed, Slice, Inject, Happens, Spliced;
  }

  /** Undisturbed, the replacement of an eligible request fits. */
  lemma EligibleFits(host: Host, r: MutationRequest)
    requires Eligible(host, r)
    ensures Inject(host, host.facts.preTransaction) == host ==> Fits(host, r)
    ensures WellFormed(Spliced(host, r))
  {
    hide WellFormed, Inject;
    SpliceWellFormed(host.text, r.rangeStart, r.rangeEnd, r.replacement);
  }

  lemma CommitGoesThrough(host: Host, r: MutationRequest)
    requires Eligible(host, r) && Found(host, r) && Fits(host, r)
    requires host.facts.mode.Normal? || host.facts.mode.LostAfterCommit?
    ensures var (after, outcome) := Transaction(host, r);
      var raced, clean := Inject(host, host.facts.preTransaction), CleanCommit(host, r);
      && WellFormed(raced.text[..r.rangeStart] + r.replacement + raced.text[r.rangeEnd..])
      && after == Inject(raced.(text := raced.text[..r.rangeStart] + r.replacement + raced.text[r.rangeEnd..],
                                version := if raced.version < MAX_U64 then raced.version + 1 else MAX_U64),
                         host.facts.postCommit)
      && (outcome == Applied(host.version + 1) <==> host.facts.mode.Normal? && after == clean)
      && (outcome == Indeterminate(EditOutcomeLost) <==> host.facts.mode.LostAfterCommit? && after == clean)
      && (outcome == Indeterminate(AmbiguousCommit) <==> after != clean)
  {
    hide WellFormed, Slice, Inject, Eligible;
    EligibleSlices(host, r);
    InjectKeepsFacts(host, host.facts.preTransaction);
    InjectKeepsFacts(Committed(host, r).value, host.facts.postCommit);
    EligibleVersion(host, r);
  }

  lemma EligibleVersion(host: Host, r: MutationRequest)
    requires Eligible(host, r)
    ensures host.version < MAX_U64
  {
    hide WellFormed, SplitsSurrogate;
  }

  lemma InjectKeepsFacts(host: Host, change: Option<Change>)
    ensures Inject(host, change).facts == host.facts
  {
    hide WellFormed;
  }

  /** A race happened, before the replacement or after it. */
  predicate Disturbed(host: Host, r: MutationRequest)
  {
    || Happens(host, host.facts.preTransaction)
    || (Committed(host, r).Some? && Happens(Committed(host, r).value, host.facts.postCommit))
  }

  /**
   * A disturbed commit is ambiguous, except at the last version: there the
   * version stays at the maximum, and the text alone decides.
   */
  lemma DisturbedCommit(host: Host, r: MutationRequest)
    requires Eligible(host, r) && Found(host, r) && Fits(host, r)
    requires host.facts.mode.Normal? || host.facts.mode.LostAfterCommit?
    ensures var (after, outcome) := Transaction(host, r);
      && (!Disturbed(host, r) ==> after == CleanCommit(host, r))
      && (Disturbed(host, r) ==>
            (outcome == Indeterminate(AmbiguousCommit)
             <==> host.version + 1 < MAX_U64 || after.text != Spliced(host, r)))
  {
    CommitGoesThrough(host, r);
    InjectIff(host, host.facts.preTransaction);
    InjectKeepsFacts(host, host.facts.preTransaction);
    var raced := Inject(host, host.facts.preTransaction);
    hide Inject, Transaction, Slice, WellFormed, Spliced;
    InjectIff(Committed(host, r).value, host.facts.postCommit);
    InjectKeepsFacts(Committed(host, r).value, host.facts.postCommit);
    if !Disturbed(host, r) {
      CommittedClean(host, r);
    }
    hide Happens;
  }

  lemma CommittedClean(host: Host, r: MutationRequest)
    requires Eligible(host, r) && Committed(host, r).Some? && Inject(host, host.facts.preTransaction) == host
    ensures Committed(host, r).value == CleanCommit(host, r)
  {
    hide Slice, WellFormed, Inject;
  }

  /** At the last version a race that writes nothing goes unnoticed. */
  lemma SaturatedRaceIsApplied(host: Host, r: MutationRequest)
    requires Eligible(host, r) && host.version == MAX_U64 - 1 && host.facts.mode.Normal?
    requires host.facts.preTransaction.None? && host.facts.postCommit == Some(Change(0, 0, []))
    ensures Disturbed(host, r) && Transaction(host, r) == (CleanCommit(host, r), Applied(MAX_U64))
  {
    EligibleFits(host, r);
    EligibleSlices(host, r);
    CommitGoesThrough(host, r);
    var clean := CleanCommit(host, r);
    assert Committed(host, r) == Some(clean) by { CommittedClean(host, r); }
    assert clean.text[..0] + [] + clean.text[0..] == clean.text;
    InjectIff(clean, host.facts.postCommit);
    hide Transaction, Slice, WellFormed, Inject;
  }

  /**
   * A race that makes the very edit leaves the host as the request would, and
   * yet the answer is ambiguous: the end state alone does not tell `Applied`.
   */
  lemma EditByRaceIsAmbiguous(host: Host, r: MutationRequest)
    requires Eligible(host, r) && host.facts.mode.Normal?
    requires host.facts.preTransaction == Some(Change(r.rangeStart, r.rangeEnd, r.replacement))
    requires |r.replacement| == |r.expectedText| && r.replacement != r.expectedText
    ensures Transaction(host, r) == (CleanCommit(host, r), Indeterminate(AmbiguousCommit))
  {
    RaceEdits(host, r);
    hide *;
    CommitStops(host, r);
  }

  lemma RaceEdits(host: Host, r: MutationRequest)
    requires Eligible(host, r)
    requires host.facts.preTransaction == Some(Change(r.rangeStart, r.rangeEnd, r.replacement))
    requires |r.replacement| == |r.expectedText| && r.replacement != r.expectedText
    ensures Inject(host, host.facts.preTransaction) == CleanCommit(host, r) && !Found(host, r)
  {
    var clean := CleanCommit(host, r);
    InjectIff(host, host.facts.preTransaction);
    CutIff(host.text, r.rangeStart);
    CutIff(host.text, r.rangeEnd);
    assert host.version < MAX_U64;
    hide Inject, WellFormed, Slice;
    SpliceSlices(clean.text, host.text[..r.rangeStart], r.replacement, host.text[r.rangeEnd..]);
  }

  /** The middle of a text of three well-formed parts is read exactly. */
  lemma SpliceSlices(text: Str, prefix: seq<Unit>, middle: seq<Unit>, suffix: seq<Unit>)
    requires text == prefix + middle + suffix && WellFormed(prefix) && WellFormed(middle) && WellFormed(suffix)
    ensures Slice(text, |prefix|, |prefix| + |middle|) == middle
  {
    hide WellFormed, Lossy;
    assert text[|prefix|..|prefix| + |middle|] == middle;
    LossyIsExactIff(middle);
  }

  /** A submitted request that reaches the host blocks its target exactly when its outcome is indeterminate. */
  lemma IndeterminateBlocks(h: Harness, r: MutationRequest)
    requires Reaches(h, r)
    ensures var (next, outcome) := Submit(h, r);
      && (outcome.Indeterminate? <==> BlockedTarget(next, LogicalTarget(r.uri, r.expectedText)))
      && (Eligible(h.host, r) ==> (next.host, outcome) == Transaction(h.host, r))
  {
    hide Transaction, Canonical, EncodeOutcome, DecodeOutcome, Record, Eligible, Refusal;
    EligibleIffNoRefusal(h.host, r);
  }

  /** The request reaches the host: its id is new, non-empty, and its target is not blocked. */
  predicate Reaches(h: Harness, r: MutationRequest)
  {
    && r.requestId != [] && r.requestId !in h.ledger.entries
    && !BlockedTarget(h, LogicalTarget(r.uri, r.expectedText))
  }

  /**
   * Without races and in normal mode a submitted request is applied exactly
   * when it reaches the host and is eligible; then the text is prefix,
   * replacement and suffix and the version one higher, and otherwise the host
   * is untouched.
   */
  lemma AppliedIffEligible(h: Harness, r: MutationRequest)
    requires NoRaces(h.host) && h.host.facts.mode.Normal?
    ensures var (next, outcome) := Submit(h, r);
      if Reaches(h, r) && Eligible(h.host, r)
      then outcome == Applied(h.host.version + 1) && next.host.version == h.host.version + 1
           && next.host.text == Spliced(h.host, r) && next.host.facts == h.host.facts
      else next.host == h.host && (Reaches(h, r) ==> outcome.Rejected?)
  {
    hide Refusal, Transaction, Eligible, Canonical, MutationProtocolId, EncodeOutcome, DecodeOutcome, Record;
    EligibleIffNoRefusal(h.host, r);
    if Eligible(h.host, r) {
      TransactionWithoutRaces(h.host, r);
    }
  }

  /** A request that does not reach the host never changes it, races or not. */
  lemma UnreachedChangesNothing(h: Harness, r: MutationRequest)
    requires !Reaches(h, r)
    ensures Submit(h, r).0 == h
  {
    hide Canonical, DecodeOutcome;
  }

  /** The ledger takes one more entry: it has room or an entry that is not pinned. */
  predicate TakesEntry(l: Ledger<seq<Unit>>)
  {
    |l.order| < l.capacity || exists id :: id in l.entries && !Pinned(l, id)
  }

  /** Unless the ledger is full of pinned entries, an exact retry gets the same outcome and changes nothing. */
  lemma RetryIsReplayed(h: Harness, r: MutationRequest)
    requires Reaches(h, r) && LedgerInv(h.ledger) && TakesEntry(h.ledger)
    ensures var (next, outcome) := Submit(h, r);
      Submit(next, r) == (next, outcome)
  {
    hide ValidateAndMutate, Canonical, EncodeOutcome, DecodeOutcome, LedgerInv;
    var (host, outcome) := ValidateAndMutate(h.host, r);
    OutcomeRoundTrip(outcome);
    RecordSpec(h.ledger, r.requestId, Canonical(r), EncodeOutcome(outcome), false);
  }

  /**
   * Exactly then: a full ledger of pinned entries records nothing, and the
   * retry is processed afresh, as a submit against the host the first one
   * left, or blocked if that one was indeterminate.
   */
  lemma RetryIsRememberedIff(h: Harness, r: MutationRequest)
    requires Reaches(h, r) && LedgerInv(h.ledger)
    ensures var (next, outcome) := Submit(h, r);
      && (r.requestId in next.ledger.entries <==> TakesEntry(h.ledger))
      && (!TakesEntry(h.ledger) ==>
            && next.ledger == h.ledger
            && (if outcome.Indeterminate? then Submit(next, r) == (next, BlockedPendingReconciliation)
                else Reaches(next, r) && Submit(next, r).0.host == ValidateAndMutate(next.host, r).0
                     && Submit(next, r).1 == ValidateAndMutate(next.host, r).1))
  {
    hide ValidateAndMutate, Canonical, EncodeOutcome, DecodeOutcome, LedgerInv;
    var (host, outcome) := ValidateAndMutate(h.host, r);
    RecordSpec(h.ledger, r.requestId, Canonical(r), EncodeOutcome(outcome), false);
    LedgerFull(h.ledger);
    hide Record;
  }

  lemma LedgerFull(l: Ledger<seq<Unit>>)
    requires LedgerInv(l)
    ensures |l.order| <= l.capacity
  {
  }

  // ---------------------------------------------------------------------
  // Runs
  // ---------------------------------------------------------------------

  datatype Event =
    | Submitting(request: MutationRequest)
    | Reconciling(uri: Str, expected: Str, replacement: Str, start: nat, end: nat)
    | Acknowledging(uri: Str, expected: Str)
    | HostEdit(host: Host)

  function Step(h: Harness, e: Event): Harness
  {
    match e
    case Submitting(r) => Submit(h, r).0
    case Reconciling(uri, expected, replacement, start, end) =>
      ReconcileTarget(h, uri, expected, replacement, start, end).0
    case Acknowledging(uri, expected) => OwnerAck(h, uri, expected).0
    case HostEdit(host) => h.(host := host)
  }

  /** The harness after the first `n` events. */
  function After(h: Harness, events: seq<Event>, n: nat): Harness
    requires n <= |events|
  {
    if n == 0 then h else Step(After(h, events, n - 1), events[n - 1])
  }

  predicate IsReconciliation(e: Event, target: seq<Unit>)
  {
    e.Reconciling? && LogicalTarget(e.uri, e.expected) == target
  }

  predicate IsAcknowledgement(e: Event, target: seq<Unit>)
  {
    e.Acknowledging? && LogicalTarget(e.uri, e.expected) == target
  }

  /** One step takes a blocked target at most one stage further. */
  lemma TargetStages(h: Harness, e: Event, target: seq<Unit>)
    requires BlockedTarget(h, target)
    ensures target in Step(h, e).targets
    ensures h.targets[target].AwaitingReconciliation? ==>
              Step(h, e).targets[target]
              == (if IsReconciliation(e, target) then Reconciled(false) else AwaitingReconciliation)
    ensures h.targets[target].Reconciled? ==>
              Step(h, e).targets[target]
              == (if IsAcknowledgement(e, target) then Reconciled(true) else Reconciled(false))
  {
    hide ValidateAndMutate, Canonical, EncodeOutcome, DecodeOutcome, Record, Slice;
  }

  /**
   * After an indeterminate outcome, a submit for the same URI and expected
   * text changes the host only once a reconciliation and, later, an owner
   * acknowledgement of that target have happened.
   */
  lemma {:induction false} UnblockedOnlyAfterBoth(h: Harness, events: seq<Event>, n: nat, target: seq<Unit>)
    requires n <= |events|
    requires target in h.targets && h.targets[target].AwaitingReconciliation?
    ensures var now := After(h, events, n);
      && target in now.targets
      && (now.targets[target].AwaitingReconciliation?
          || exists i :: 0 <= i < n && IsReconciliation(events[i], target))
      && (!BlockedTarget(now, target)
          ==> exists i, j :: 0 <= i < j < n && IsReconciliation(events[i], target)
                             && IsAcknowledgement(events[j], target))
    decreases n
  {
    hide Step, IsReconciliation, IsAcknowledgement;
    if n > 0 {
      UnblockedOnlyAfterBoth(h, events, n - 1, target);
      var before := After(h, events, n - 1);
      if BlockedTarget(before, target) {
        TargetStages(before, events[n - 1], target);
      } else {
        var i, j :| 0 <= i < j < n - 1 && IsReconciliation(events[i], target) && IsAcknowledgement(events[j], target);
        StaysKnown(before, events[n - 1], target);
      }
    }
  }

  lemma StaysKnown(h: Harness, e: Event, target: seq<Unit>)
    requires target in h.targets
    ensures target in Step(h, e).targets
  {
    hide ValidateAndMutate, Canonical, EncodeOutcome, DecodeOutcome, Record, Slice;
  }

  lemma IndeterminateBlocksUntilBoth(h: Harness, r: MutationRequest, events: seq<Event>, later: MutationRequest)
    requires Submit(h, r).1.Indeterminate? && Reaches(h, r)
    requires later.uri == r.uri && later.expectedText == r.expectedText
    requires var now := After(Submit(h, r).0, events, |events|);
      Submit(now, later).0.host != now.host
    ensures var target := LogicalTarget(r.uri, r.expectedText);
      exists i, j :: 0 <= i < j < |events| && IsReconciliation(events[i], target)
                     && IsAcknowledgement(events[j], target)
  {
    var start, target := Submit(h, r).0, LogicalTarget(r.uri, r.expectedText);
    var now := After(start, events, |events|);
    assert target in start.targets && start.targets[target].AwaitingReconciliation? by {
      hide ValidateAndMutate, Canonical, EncodeOutcome, DecodeOutcome, Record;
    }
    UnblockedOnlyAfterBoth(start, events, |events|, target);
    hide Submit, IsReconciliation, IsAcknowledgement, After;
    if BlockedTarget(now, target) {
      UnreachedChangesNothing(now, later);
    }
  }

  // ---------------------------------------------------------------------
  // No request is committed twice
  // ---------------------------------------------------------------------

  /** The submit reaches the point where the host's text is replaced. */
  predicate Commits(h: Harness, r: MutationRequest)
  {
    Reaches(h, r) && Refusal(h.host, r).None? && Committed(h.host, r).Some?
  }

  lemma InjectGrows(host: Host, change: Option<Change>)
    ensures host.version <= Inject(host, change).version
  {
    hide Replace;
  }

  lemma CommitGrows(host: Host, r: MutationRequest)
    requires Refusal(host, r).None?
    ensures host.version <= Transaction(host, r).0.version
    ensures Committed(host, r).Some? ==> r.revision < Transaction(host, r).0.version
    ensures r.revision == host.version
  {
    hide Slice, Replace, Inject, WellFormed;
    InjectGrows(host, host.facts.preTransaction);
    if Committed(host, r).Some? {
      InjectGrows(Committed(host, r).value, host.facts.postCommit);
    }
  }

  /** The environment never lowers the host version. */
  predicate VersionsGrow(h: Harness, e: Event)
  {
    e.HostEdit? ==> h.host.version <= e.host.version
  }

  lemma StepGrows(h: Harness, e: Event)
    requires VersionsGrow(h, e)
    ensures h.host.version <= Step(h, e).host.version
    ensures e.Submitting? && Commits(h, e.request) ==> e.request.revision < Step(h, e).host.version
  {
    hide Refusal, Transaction, Canonical, EncodeOutcome, DecodeOutcome, Record, Slice, Committed;
    if e.Submitting? && Refusal(h.host, e.request).None? {
      CommitGrows(h.host, e.request);
    }
  }

  predicate RunVersionsGrow(h: Harness, events: seq<Event>)
  {
    forall k :: 0 <= k < |events| ==> VersionsGrow(After(h, events, k), events[k])
  }

  lemma SubmitGrows(h: Harness, events: seq<Event>, i: nat)
    requires i < |events| && RunVersionsGrow(h, events)
    ensures After(h, events, i).host.version <= After(h, events, i + 1).host.version
    ensures events[i].Submitting? && Commits(After(h, events, i), events[i].request)
            ==> events[i].request.revision < After(h, events, i + 1).host.version
  {
    hide Step, Commits;
    StepGrows(After(h, events, i), events[i]);
  }

  lemma {:induction false} RunGrows(h: Harness, events: seq<Event>, m: nat, n: nat)
    requires m <= n <= |events|
    requires RunVersionsGrow(h, events)
    ensures After(h, events, m).host.version <= After(h, events, n).host.version
    decreases n
  {
    hide After, RunVersionsGrow, Commits;
    if m < n {
      RunGrows(h, events, m, n - 1);
      SubmitGrows(h, events, n - 1);
    }
  }

  /**
   * Over every run, whatever the ledger still remembers, two different
   * submits never commit requests of the same revision; so no request is
   * committed by two transactions.
   */
  lemma NeverCommittedTwice(h: Harness, events: seq<Event>, i: nat, j: nat)
    requires i < j < |events| && events[i].Submitting? && events[j].Submitting?
    requires RunVersionsGrow(h, events)
    requires Commits(After(h, events, i), events[i].request) && Commits(After(h, events, j), events[j].request)
    ensures events[i].request.revision < events[j].request.revision
  {
    hide After, Step, RunVersionsGrow, Refusal, Committed, Transaction, Reaches;
    SubmitGrows(h, events, i);
    RunGrows(h, events, i + 1, j);
    CommitGrows(After(h, events, j).host, events[j].request);
  }

  // ---------------------------------------------------------------------
  // Reasons and verdicts
  // ---------------------------------------------------------------------

  /** The eligibility conditions in the order they are checked. */
  function Checks(host: Host, r: MutationRequest): (checks: seq<Check<RejectReason>>)
    ensures |checks| == 18
  {
    var f := host.facts;
    var inside := r.rangeStart <= r.rangeEnd <= |host.text|
                  && !SplitsSurrogate(host.text, r.rangeStart) && !SplitsSurrogate(host.text, r.rangeEnd);
    [Check(r.protocolId == Ascii("zonkey.mutation-harness/1"), ProtocolMismatch),
     Check(r.hostId == f.hostId, HostIdentityMismatch),
     Check(r.sessionId == f.sessionId, SessionMismatch),
     Check((r.uri, r.epoch, r.editorId) == (f.uri, f.epoch, f.editorId), TargetIdentityMismatch),
     Check(f.caret == r.caret == r.rangeEnd, CaretMismatch),
     Check(f.selectionSpan == 0, SelectionNotEmpty),
     Check(inside, RangeMismatch),
     Check(inside && host.text[r.rangeStart..r.rangeEnd] == r.expectedText, TextMismatch),
     Check(r.revision == host.version, RevisionMismatch),
     Check(r.revision < 0xFFFF_FFFF_FFFF_FFFF, RevisionOverflow),
     Check(!f.secure.Secure?, SecureTarget),
     Check(f.secure.KnownNonSecure?, SecureIsUnknown),
     Check(!f.sessionState.UnsupportedRemote?, UnsupportedSession),
     Check(f.sessionState.SupportedLocal?, SessionIsUnknown),
     Check(!f.composition.Active?, CompositionActive),
     Check(f.composition.Inactive? && f.capabilities & 0x10 != 0, CompositionIsUnknown),
     Check(r.composition.Inactive?, CompositionActive),
     Check(r.capabilities == f.capabilities, CapabilityMismatch)]
  }

  /** The reason of a rejection is that of the first failing condition. */
  lemma RefusalIsFirstFailure(host: Host, r: MutationRequest)
    ensures Refusal(host, r) == FirstFailure(Checks(host, r))
  {
    hide WellFormed, SplitsSurrogate, FirstFailure, Slice, Ascii;
    var place := FirstFailurePlace(Checks(host, r));
    if r.rangeStart <= r.rangeEnd <= |host.text|
       && !SplitsSurrogate(host.text, r.rangeStart) && !SplitsSurrogate(host.text, r.rangeEnd) {
      SliceIsExact(host.text, r.rangeStart, r.rangeEnd);
    }
  }

  /** Reading a range: its length is that of the part inside the text, and a cut half of a pair reads as U+FFFD. */
  lemma SliceClamps(text: Str, start: nat, end: nat)
    ensures start >= |text| || end <= start ==> Slice(text, start, end) == []
    ensures start <= end <= |text| ==> |Slice(text, start, end)| == end - start
    ensures start <= |text| < end ==> Slice(text, start, end) == Slice(text, start, |text|)
    ensures start <= end <= |text| && !SplitsSurrogate(text, start) && !SplitsSurrogate(text, end)
            ==> Slice(text, start, end) == text[start..end]
    ensures start <= end <= |text| && Slice(text, start, end) != text[start..end] ==> 0xFFFD in Slice(text, start, end)
  {
    hide WellFormed, Lossy;
    if start <= end <= |text| {
      LossyIsExactIff(text[start..end]);
      LossyMarks(text[start..end]);
      if !SplitsSurrogate(text, start) && !SplitsSurrogate(text, end) {
        SliceIsExact(text, start, end);
      }
    }
    if start >= |text| || end <= start {
      var from := Least(start, |text|);
      assert text[from..from] == [];
      assert Lossy([]) == [] by { LossyIsExactIff([]); }
    }
  }

  lemma {:induction false} LossyMarks(s: seq<Unit>)
    ensures Lossy(s) != s ==> 0xFFFD in Lossy(s)
  {
    if s != [] {
      if IsHigh(s[0]) && |s| >= 2 && IsLow(s[1]) {
        LossyMarks(s[2..]);
        assert s == [s[0], s[1]] + s[2..];
      } else {
        LossyMarks(s[1..]);
        assert s == [s[0]] + s[1..];
      }
    }
  }

  /** Reconciling an awaiting target compares the live range with the replacement first, then with the old text. */
  lemma VerdictOfLiveRange(h: Harness, uri: Str, expected: Str, replacement: Str, start: nat, end: nat)
    requires LogicalTarget(uri, expected) in h.targets
    requires h.targets[LogicalTarget(uri, expected)].AwaitingReconciliation?
    requires start <= end <= |h.host.text|
    requires !SplitsSurrogate(h.host.text, start) && !SplitsSurrogate(h.host.text, end)
    ensures var (next, verdict) := ReconcileTarget(h, uri, expected, replacement, start, end);
      var live := h.host.text[start..end];
      && (verdict == Some(AppliedAcknowledged) <==> live == replacement)
      && (verdict == Some(NotApplied) <==> live == expected && live != replacement)
      && (verdict == Some(ConflictHumanReview) <==> live != expected && live != replacement)
      && next == h.(targets := h.targets[LogicalTarget(uri, expected) := Reconciled(false)])
  {
    SliceIsExact(h.host.text, start, end);
    hide Slice, WellFormed;
  }

  /** After a lost commit the reconciliation of the replaced range finds it applied, after a lost edit not. */
  lemma LostOutcomeIsReconciled(h: Harness, r: MutationRequest)
    requires Reaches(h, r) && Eligible(h.host, r) && NoRaces(h.host) && r.replacement != r.expectedText
    requires h.host.facts.mode.Lost? || h.host.facts.mode.LostAfterCommit?
    ensures var next := Submit(h, r).0;
      var end := if h.host.facts.mode.Lost? then r.rangeEnd else r.rangeStart + |r.replacement|;
      ReconcileTarget(next, r.uri, r.expectedText, r.replacement, r.rangeStart, end).1
      == Some(if h.host.facts.mode.Lost? then NotApplied else AppliedAcknowledged)
  {
    IndeterminateBlocks(h, r);
    TransactionWithoutRaces(h.host, r);
    hide Transaction, Canonical, EncodeOutcome, Record, Refusal, Eligible;
    LiveAfterCommit(h.host, r);
    assert Submit(h, r).0.targets[LogicalTarget(r.uri, r.expectedText)].AwaitingReconciliation? by {
      EligibleIffNoRefusal(h.host, r);
    }
  }

  lemma LiveAfterCommit(host: Host, r: MutationRequest)
    requires Eligible(host, r)
    ensures Slice(host.text, r.rangeStart, r.rangeEnd) == r.expectedText
    ensures WellFormed(Spliced(host, r))
    ensures Slice(Spliced(host, r), r.rangeStart, r.rangeStart + |r.replacement|) == r.replacement
  {
    EligibleSlices(host, r);
    EligibleFits(host, r);
    CutIff(host.text, r.rangeStart);
    CutIff(host.text, r.rangeEnd);
    hide WellFormed, Slice;
    SpliceSlices(Spliced(host, r), host.text[..r.rangeStart], r.replacement, host.text[r.rangeEnd..]);
  }

  // ---------------------------------------------------------------------
  // One blocked target leaves the others open
  // ---------------------------------------------------------------------

  /** For URIs without NUL a logical target is one pair of URI and expected text. */
  lemma TargetNamesPair(uri: Str, expected: Str, otherUri: Str, other: Str)
    requires 0 !in uri && 0 !in otherUri
    ensures LogicalTarget(uri, expected) == LogicalTarget(otherUri, other) <==> uri == otherUri && expected == other
  {
    hide WellFormed;
    if LogicalTarget(uri, expected) == LogicalTarget(otherUri, other) {
      CutAtNul(uri, expected, otherUri, other);
    }
  }

  lemma CutAtNul(a: seq<Unit>, x: seq<Unit>, b: seq<Unit>, y: seq<Unit>)
    requires 0 !in a && 0 !in b && LogicalTarget(a, x) == LogicalTarget(b, y)
    ensures a == b && x == y
  {
    FirstNul(a, x, b, y);
    FirstNul(b, y, a, x);
    var joined := LogicalTarget(a, x);
    assert a == joined[..|a|] && b == joined[..|b|];
    assert x == joined[|a| + 1..] && y == joined[|b| + 1..];
  }

  lemma FirstNul(a: seq<Unit>, x: seq<Unit>, b: seq<Unit>, y: seq<Unit>)
    requires 0 !in b && LogicalTarget(a, x) == LogicalTarget(b, y)
    ensures |b| <= |a|
  {
    assert LogicalTarget(a, x)[|a|] == 0;
  }

  /** With NUL in a URI two pairs share one target. */
  lemma NulConfusesTargets(uri: Str, expected: Str, otherUri: Str, other: Str)
    requires uri == [0x61, 0, 0x62] && expected == [0x63] && otherUri == [0x61] && other == [0x62, 0, 0x63]
    ensures LogicalTarget(uri, expected) == LogicalTarget(otherUri, other)
  {
  }

  /** After an indeterminate outcome exactly the requests for the same pair stop reaching the host. */
  lemma OtherTargetsStayOpen(h: Harness, r: MutationRequest, q: MutationRequest)
    requires LedgerInv(h.ledger) && Reaches(h, r) && Submit(h, r).1.Indeterminate?
    requires Reaches(h, q) && q.requestId != r.requestId && 0 !in r.uri && 0 !in q.uri
    ensures Reaches(Submit(h, r).0, q) <==> q.uri != r.uri || q.expectedText != r.expectedText
  {
    TargetNamesPair(r.uri, r.expectedText, q.uri, q.expectedText);
    var (host, outcome) := ValidateAndMutate(h.host, r);
    RecordSpec(h.ledger, r.requestId, Canonical(r), EncodeOutcome(outcome), false);
    hide ValidateAndMutate, Canonical, EncodeOutcome, DecodeOutcome, LedgerInv, Record, LogicalTarget;
  }

  // ---------------------------------------------------------------------
  // Answers to requests that do not reach the host
  // ---------------------------------------------------------------------

  /** After an indeterminate outcome a new request for the same pair is answered as blocked, and changes nothing. */
  lemma BlockedIsAnswered(h: Harness, r: MutationRequest, q: MutationRequest)
    requires LedgerInv(h.ledger) && Reaches(h, r) && Submit(h, r).1.Indeterminate?
    requires q.uri == r.uri && q.expectedText == r.expectedText
    requires q.requestId != [] && q.requestId != r.requestId && q.requestId !in h.ledger.entries
    ensures var next := Submit(h, r).0;
      Submit(next, q) == (next, BlockedPendingReconciliation)
  {
    var (host, outcome) := ValidateAndMutate(h.host, r);
    RecordSpec(h.ledger, r.requestId, Canonical(r), EncodeOutcome(outcome), false);
    hide ValidateAndMutate, Canonical, EncodeOutcome, DecodeOutcome, LedgerInv, Record, LogicalTarget;
  }

  /** A recorded id with another request is answered as a reuse, and an empty id as invalid; both change nothing. */
  lemma ReuseIsAnswered(h: Harness, r: MutationRequest, q: MutationRequest)
    requires LedgerInv(h.ledger) && Reaches(h, r) && TakesEntry(h.ledger) && Separable(r)
    requires q.requestId == r.requestId && q != r
    ensures var next := Submit(h, r).0;
      && Submit(next, q) == (next, Rejected(RequestIdReuse))
      && Submit(next, q.(requestId := [])) == (next, Rejected(RequestIdInvalid))
  {
    var (host, outcome) := ValidateAndMutate(h.host, r);
    RecordSpec(h.ledger, r.requestId, Canonical(r), EncodeOutcome(outcome), false);
    if Canonical(q) == Canonical(r) {
      CanonicalTellsApart(r, q);
    }
    hide ValidateAndMutate, Canonical, EncodeOutcome, DecodeOutcome, LedgerInv, Separable, WellFormed;
  }
}
