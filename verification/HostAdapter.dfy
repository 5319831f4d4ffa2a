/**
 * The editor host adapter: evidence snapshots, compare-and-replace with an
 * edit transaction whose outcome the environment decides, and a bounded
 * first-in-first-out ledger of results.
 */
module HostAdapter {
  import opened Wrappers
  import opened Utf16
  import opened Printing
  import opened CanonicalJson
  import opened HostRequests

  const UNIT_SCHEMA_UTF16 := 2
  const MAX_REVISION := 0x7FFF_FFFF
  const MAX_SAFE_INTEGER := 0x1F_FFFF_FFFF_FFFF

  /** What the adapter reads of the active editor and its document. */
  datatype View = View(
    uri: JsString,
    epoch: int,
    editorId: int,
    visibleCount: int,
    version: int,
    text: JsString,
    selectionCount: int,
    selectionStart: int,
    selectionEnd: int,
    secure: SecureState)

  datatype Binding = Binding(
    hostId: JsString,
    sessionId: JsString,
    session: SessionState,
    composition: CompositionState,
    capabilities: Capabilities,
    editor: Option<View>)

  datatype Snapshot = Snapshot(
    protocolId: JsString,
    hostId: JsString,
    sessionId: JsString,
    identity: TargetIdentity,
    revision: int,
    range: TextRange,
    expectedText: JsString,
    replacement: JsString,
    caret: int,
    selection: Selection,
    secure: SecureState,
    composition: CompositionState,
    session: SessionState,
    capabilities: Capabilities)

  datatype RefusalReason =
    | NoActiveEditor
    | MultiSelection
    | ManyEditors
    | SelectionNotCollapsed
    | RangeInvalid
    | CandidateMismatch

  datatype RejectReason =
    | MalformedRequest
    | ProtocolMismatch
    | AuthenticationFailed
    | HostIdentityMismatch
    | SessionMismatch
    | TargetIdentityMismatch
    | MultipleEditors
    | RevisionMismatch
    | TextMismatch
    | RangeMismatch
    | UnitMismatch
    | CaretMismatch
    | SelectionNotEmpty
    | SecureTarget
    | SecureIsUnknown
    | CompositionActive
    | CompositionIsUnknown
    | UnsupportedSession
    | SessionIsUnknown
    | CapabilityMismatch
    | RequestIdReuse
    | RevisionOverflow
    | EditTransactionRefused

  datatype IndeterminateReason = EditOutcomeLost | AmbiguousCommit

  datatype HostResult =
    | Applied(newRevision: int)
    | Rejected(reason: RejectReason)
    | Indeterminate(lost: IndeterminateReason)

  /** How the awaited edit promise settles. */
  datatype Answer = Threw | Refused | Accepted

  /**
   * What the environment does during one call: the text the transaction
   * callback reads, the answer, and the document when the call ends.
   */
  datatype Edit = Edit(immediate: JsString, answer: Answer, versionAfter: int, textAfter: JsString)

  datatype Entry = Entry(canonical: seq<Unit>, result: HostResult)

  datatype Ledger = Ledger(capacity: nat, order: seq<JsString>, entries: map<JsString, Entry>)

  // ---------------------------------------------------------------------
  // Snapshots
  // ---------------------------------------------------------------------

  function HostProtocolId(): JsString
  {
    Ascii("zonkey.vscode-host/1")
  }

  predicate Splits(text: JsString, index: int)
  {
    0 < index && SplitsSurrogate(text, index)
  }

  function LiveIdentity(view: View): TargetIdentity
  {
    TargetIdentity(view.uri, view.epoch, view.editorId)
  }

  function CaptureSnapshot(b: Binding, expected: JsString, replacement: JsString): Result<Snapshot, RefusalReason>
  {
    if expected == [] || replacement == [] then Failure(RangeInvalid)
    else if b.editor.None? then Failure(NoActiveEditor) else
    var view := b.editor.value;
    if view.visibleCount > 1 then Failure(ManyEditors)
    else if view.selectionCount != 1 then Failure(MultiSelection)
    else if view.selectionStart != view.selectionEnd then Failure(SelectionNotCollapsed) else
    var caret := view.selectionEnd;
    if caret > |view.text| || Splits(view.text, caret) || |expected| > caret then Failure(RangeInvalid) else
    var start := caret - |expected|;
    if Splits(view.text, start) then Failure(RangeInvalid)
    else if view.text[start..caret] != expected then Failure(CandidateMismatch)
    else Success(Snapshot(
      HostProtocolId(), b.hostId, b.sessionId, LiveIdentity(view), view.version,
      TextRange(UNIT_SCHEMA_UTF16, start, caret), expected, replacement, caret, Empty,
      view.secure, b.composition, b.session, b.capabilities))
  }

  function RequestFromSnapshot(s: Snapshot, id: JsString): Request
  {
    Request(s.protocolId, true, s.hostId, s.sessionId, id, s.identity, s.revision, s.range, s.expectedText,
            s.replacement, s.caret, s.selection, s.secure, s.composition, s.session, s.capabilities)
  }

  // ---------------------------------------------------------------------
  // Compare and replace
  // ---------------------------------------------------------------------

  predicate IsSafeInteger(n: int)
  {
    -MAX_SAFE_INTEGER <= n <= MAX_SAFE_INTEGER
  }

  predicate RangeIsBad(text: JsString, start: int, end: int)
  {
    !IsSafeInteger(start) || !IsSafeInteger(end) || start < 0 || start > end || end > |text|
    || Splits(text, start) || Splits(text, end)
  }

  /** The checks in their fixed order; `None` when the edit transaction may start. */
  function Refusal(b: Binding, r: Request): Option<RejectReason>
  {
    if b.editor.None? then Some(TargetIdentityMismatch) else
    var view := b.editor.value;
    var start, end := r.expectedRange.start, r.expectedRange.end;
    if view.visibleCount > 1 then Some(MultipleEditors)
    else if r.protocolId != HostProtocolId() then Some(ProtocolMismatch)
    else if !r.authenticated then Some(AuthenticationFailed)
    else if r.hostId != b.hostId then Some(HostIdentityMismatch)
    else if r.sessionId != b.sessionId then Some(SessionMismatch)
    else if Canonical(IdentityJson(r.identity)) != Canonical(IdentityJson(LiveIdentity(view))) then
      Some(TargetIdentityMismatch)
    else if Canonical(CapabilitiesJson(r.capabilities)) != Canonical(CapabilitiesJson(b.capabilities)) then
      Some(CapabilityMismatch)
    else if r.expectedRange.unitSchema != UNIT_SCHEMA_UTF16 then Some(UnitMismatch)
    else if !IsSafeInteger(r.revision) || r.revision < 0 || r.revision >= MAX_REVISION then Some(RevisionOverflow)
    else if view.version != r.revision then Some(RevisionMismatch)
    else if RangeIsBad(view.text, start, end) then Some(RangeMismatch)
    else if r.caret != view.selectionEnd || end != r.caret then Some(CaretMismatch)
    else if !r.selection.Empty? || view.selectionStart != view.selectionEnd then Some(SelectionNotEmpty)
    else if r.secure != view.secure || view.secure.Secure? then Some(SecureTarget)
    else if view.secure.SecureUnknown? then Some(SecureIsUnknown)
    else if r.composition != b.composition || b.composition.Active? then Some(CompositionActive)
    else if b.composition.CompositionUnknown? then Some(CompositionIsUnknown)
    else if r.session != b.session then Some(SessionMismatch)
    else if b.session.UnsupportedRemote? then Some(UnsupportedSession)
    else if b.session.SessionUnknown? then Some(SessionIsUnknown)
    else if view.text[start..end] != r.expectedText then Some(TextMismatch)
    else None
  }

  /** A slice whose ends are clamped to the text. */
  function Slice(text: JsString, start: nat, end: nat): JsString
    requires start <= end
  {
    text[Least(start, |text|)..Least(end, |text|)]
  }

  function Spliced(text: JsString, r: Request): JsString
    requires 0 <= r.expectedRange.start <= r.expectedRange.end <= |text|
  {
    text[..r.expectedRange.start] + r.replacement + text[r.expectedRange.end..]
  }

  function Commit(view: View, r: Request, edit: Edit): HostResult
    requires 0 <= r.expectedRange.start <= r.expectedRange.end <= |view.text|
  {
    var queued := Slice(edit.immediate, r.expectedRange.start, r.expectedRange.end) == r.expectedText;
    match edit.answer
    case Threw => Indeterminate(EditOutcomeLost)
    case Refused => Rejected(EditTransactionRefused)
    case Accepted =>
      if !queued then
        if edit.versionAfter == view.version then Rejected(TextMismatch) else Indeterminate(AmbiguousCommit)
      else if edit.versionAfter != view.version + 1 || edit.textAfter != Spliced(view.text, r) then
        Indeterminate(AmbiguousCommit)
      else Applied(edit.versionAfter)
  }

  function ValidateAndApply(b: Binding, r: Request, edit: Edit): HostResult
  {
    match Refusal(b, r)
    case Some(reason) => Rejected(reason)
    case None => Commit(b.editor.value, r, edit)
  }

  // ---------------------------------------------------------------------
  // The ledger
  // ---------------------------------------------------------------------

  /** The newest ids that leave room for one more. */
  function Kept(order: seq<JsString>, capacity: nat): (kept: seq<JsString>)
    requires 0 < capacity
    ensures |kept| < capacity
  {
    if |order| < capacity then order else order[|order| - capacity + 1..]
  }

  function Remember(l: Ledger, id: JsString, entry: Entry): Ledger
    requires 0 < l.capacity
  {
    if id in l.entries then l else
    var kept := Kept(l.order, l.capacity);
    l.(order := kept + [id], entries := (map k | k in l.entries && k in kept :: l.entries[k])[id := entry])
  }

  function Apply(l: Ledger, b: Binding, r: Request, edit: Edit): (Ledger, HostResult)
    requires 0 < l.capacity
  {
    if r.requestId == [] then (l, Rejected(MalformedRequest)) else
    var canonical := Canonical(RequestJson(r));
    if r.requestId in l.entries then
      (l, if l.entries[r.requestId].canonical == canonical then l.entries[r.requestId].result
          else Rejected(RequestIdReuse))
    else
      var result := ValidateAndApply(b, r, edit);
      (Remember(l, r.requestId, Entry(canonical, result)), result)
  }

  predicate NoRepeats(order: seq<JsString>)
  {
    forall i, j :: 0 <= i < j < |order| ==> order[i] != order[j]
  }

  /** The insertion-ordered map: each id once, within capacity. */
  predicate LedgerInv(l: Ledger)
  {
    && 0 < l.capacity && |l.order| <= l.capacity && NoRepeats(l.order)
    && (forall id :: id in l.entries ==> id in l.order)
    && (forall i :: 0 <= i < |l.order| ==> l.order[i] in l.entries)
  }

  function EmptyLedger(capacity: nat): Ledger
  {
    Ledger(capacity, [], map[])
  }

  /** The part of the map that belongs to a run of the order. */
  predicate Restricts(part: map<JsString, Entry>, order: seq<JsString>, entries: map<JsString, Entry>)
  {
    && (forall id :: id in part ==> id in order && id in entries && part[id] == entries[id])
    && (forall i :: 0 <= i < |order| ==> order[i] in part)
  }

  lemma DropOldest(order: seq<JsString>, part: map<JsString, Entry>, entries: map<JsString, Entry>)
    requires order != [] && NoRepeats(order) && Restricts(part, order, entries)
    ensures NoRepeats(order[1..]) && Restricts(part - {order[0]}, order[1..], entries)
  {
    assert order == [order[0]] + order[1..];
  }

  lemma Trimmed(l: Ledger, gone: nat, part: map<JsString, Entry>, id: JsString, entry: Entry)
    requires 0 < l.capacity && id !in l.entries
    requires gone <= |l.order| && (gone == 0 || |l.order| - gone == l.capacity - 1) && |l.order| - gone < l.capacity
    requires Restricts(part, l.order[gone..], l.entries)
    ensures Ledger(l.capacity, l.order[gone..] + [id], part[id := entry]) == Remember(l, id, entry)
  {
    assert l.order[gone..] == Kept(l.order, l.capacity);
  }

  lemma AlreadyRemembered(l: Ledger, id: JsString, entry: Entry)
    requires 0 < l.capacity && id in l.entries
    ensures Remember(l, id, entry) == l
  {
  }

  lemma InvParts(l: Ledger)
    requires LedgerInv(l)
    ensures 0 < l.capacity && |l.order| <= l.capacity && NoRepeats(l.order)
    ensures Restricts(l.entries, l.order, l.entries)
  {
  }

  lemma KeptInv(l: Ledger)
    requires LedgerInv(l)
    ensures NoRepeats(Kept(l.order, l.capacity))
    ensures forall i :: 0 <= i < |Kept(l.order, l.capacity)| ==> Kept(l.order, l.capacity)[i] in l.entries
  {
    var kept := Kept(l.order, l.capacity);
    assert forall i :: 0 <= i < |kept| ==> kept[i] == l.order[|l.order| - |kept| + i];
  }

  lemma RememberKeeps(l: Ledger, id: JsString, entry: Entry)
    requires LedgerInv(l)
    ensures LedgerInv(Remember(l, id, entry)) && Remember(l, id, entry).capacity == l.capacity
  {
    KeptInv(l);
    hide Kept;
  }

  class VsCodeHostAdapter {
    const capacity: nat
    var order: seq<JsString>
    var entries: map<JsString, Entry>

    function State(): Ledger
      reads this
    {
      Ledger(capacity, order, entries)
    }

    constructor (capacity: nat)
      requires 0 < capacity
      ensures State() == EmptyLedger(capacity) && LedgerInv(State())
    {
      this.capacity := capacity;
      order, entries := [], map[];
    }

    method Record(id: JsString, entry: Entry)
      requires LedgerInv(State())
      modifies this
      ensures LedgerInv(State()) && State() == Remember(old(State()), id, entry)
    {
      hide LedgerInv, NoRepeats, Restricts, Remember, Kept;
      RememberKeeps(State(), id, entry);
      InvParts(State());
      if id in entries {
        AlreadyRemembered(State(), id, entry);
        return;
      }
      ghost var gone := 0;
      while |order| >= capacity
        invariant gone <= |old(order)| && order == old(order)[gone..]
        invariant gone == 0 || |order| == capacity - 1
        invariant NoRepeats(order) && Restricts(entries, order, old(entries))
      {
        var oldest := order[0];
        DropOldest(order, entries, old(entries));
        order := order[1..];
        entries := entries - {oldest};
        gone := gone + 1;
      }
      Trimmed(old(State()), gone, entries, id, entry);
      order := order + [id];
      entries := entries[id := entry];
    }

    method ApplyRequest(live: Binding, request: Request, edit: Edit) returns (result: HostResult)
      requires LedgerInv(State())
      modifies this
      ensures LedgerInv(State()) && (State(), result) == Apply(old(State()), live, request, edit)
    {
      if request.requestId == [] {
        return Rejected(MalformedRequest);
      }
      var canonical := Canonical(RequestJson(request));
      if request.requestId in entries {
        var recorded := entries[request.requestId];
        return if recorded.canonical == canonical then recorded.result else Rejected(RequestIdReuse);
      }
      result := ValidateAndApply(live, request, edit);
      Record(request.requestId, Entry(canonical, result));
    }

    method InvalidateSession()
      modifies this
      ensures State() == EmptyLedger(capacity)
    {
      order, entries := [], map[];
    }
  }

  // ---------------------------------------------------------------------
  // One call
  // ---------------------------------------------------------------------

  /** The transaction of this request may start: every check passes, told by equality. */
  predicate Admissible(b: Binding, r: Request)
  {
    && b.editor.Some?
    && var view := b.editor.value;
       var start, end := r.expectedRange.start, r.expectedRange.end;
    && view.visibleCount <= 1
    && r.protocolId == HostProtocolId() && r.authenticated
    && r.hostId == b.hostId && r.sessionId == b.sessionId
    && r.identity == LiveIdentity(view) && r.capabilities == b.capabilities
    && r.expectedRange.unitSchema == UNIT_SCHEMA_UTF16
    && 0 <= r.revision == view.version < MAX_REVISION
    && !RangeIsBad(view.text, start, end) && view.text[start..end] == r.expectedText
    && r.caret == end == view.selectionStart == view.selectionEnd && r.selection.Empty?
    && r.secure == view.secure == KnownNonSecure
    && r.composition == b.composition == Inactive
    && r.session == b.session == SupportedLocal
  }

  lemma AdmissibleIffNoRefusal(b: Binding, r: Request)
    ensures Refusal(b, r).None? <==> Admissible(b, r)
  {
    hide Canonical, IdentityJson, CapabilitiesJson, Splits, HostProtocolId;
    if b.editor.Some? {
      SameTextIffSameIdentity(r.identity, LiveIdentity(b.editor.value));
      SameTextIffSameCapabilities(r.capabilities, b.capabilities);
    }
  }

  /** `Applied` means the text was found as expected and replaced exactly, and stays well-formed. */
  lemma AppliedIsExactSplice(b: Binding, r: Request, edit: Edit)
    requires ValidateAndApply(b, r, edit).Applied?
    ensures Admissible(b, r) && edit.answer.Accepted?
    ensures edit.versionAfter == r.revision + 1 == ValidateAndApply(b, r, edit).newRevision
    ensures edit.textAfter == Spliced(b.editor.value.text, r)
    ensures WellFormed(b.editor.value.text) && WellFormed(r.replacement)
            ==> WellFormed(edit.textAfter) && WellFormed(r.expectedText)
  {
    AdmissibleIffNoRefusal(b, r);
    hide Refusal, WellFormed, Slice, HostProtocolId;
    var text, start, end := b.editor.value.text, r.expectedRange.start, r.expectedRange.end;
    if WellFormed(text) && WellFormed(r.replacement) {
      SpliceWellFormed(text, start, end, r.replacement);
      CutIff(text, end);
      assert text[..end][start..] == text[start..end];
      if start < end {
        CutIff(text[..end], start);
      } else {
        CutIff(text[..end], start);
      }
    }
  }

  /** The environment lets the transaction through undisturbed. */
  predicate Undisturbed(view: View, r: Request, edit: Edit)
    requires 0 <= r.expectedRange.start <= r.expectedRange.end <= |view.text|
  {
    && edit.immediate == view.text && edit.answer.Accepted?
    && edit.versionAfter == view.version + 1 && edit.textAfter == Spliced(view.text, r)
  }

  /** The states a snapshot only records as evidence and the apply path enforces. */
  predicate SafeEvidence(b: Binding)
    requires b.editor.Some?
  {
    && b.editor.value.secure.KnownNonSecure? && b.composition.Inactive? && b.session.SupportedLocal?
    && 0 <= b.editor.value.version < MAX_REVISION
  }

  lemma SnapshotRequestShape(b: Binding, expected: JsString, replacement: JsString, id: JsString)
    requires CaptureSnapshot(b, expected, replacement).Success?
    requires |b.editor.value.text| <= MAX_SAFE_INTEGER
    ensures var r := RequestFromSnapshot(CaptureSnapshot(b, expected, replacement).value, id);
      && (Admissible(b, r) <==> SafeEvidence(b))
      && r.requestId == id
      && 0 <= r.expectedRange.start <= r.expectedRange.end <= |b.editor.value.text|
      && Spliced(b.editor.value.text, r)
         == b.editor.value.text[..r.caret - |expected|] + replacement + b.editor.value.text[r.caret..]
  {
    hide HostProtocolId, SplitsSurrogate;
  }

  lemma UndisturbedIsApplied(l: Ledger, b: Binding, r: Request, edit: Edit)
    requires 0 < l.capacity && r.requestId != [] && r.requestId !in l.entries
    requires Admissible(b, r) && Undisturbed(b.editor.value, r, edit)
    ensures Apply(l, b, r, edit).1 == Applied(b.editor.value.version + 1)
  {
    AdmissibleIffNoRefusal(b, r);
    hide Refusal, Remember, Canonical, RequestJson, HostProtocolId;
  }

  /**
   * A request built from a snapshot of an unchanged host is admitted exactly
   * when the recorded evidence is safe, and then completes if undisturbed.
   */
  lemma SnapshotRequestCompletes(l: Ledger, b: Binding, expected: JsString, replacement: JsString, id: JsString)
    requires 0 < l.capacity && id != [] && id !in l.entries
    requires CaptureSnapshot(b, expected, replacement).Success?
    requires |b.editor.value.text| <= MAX_SAFE_INTEGER
    ensures var r := RequestFromSnapshot(CaptureSnapshot(b, expected, replacement).value, id);
      && (Admissible(b, r) <==> SafeEvidence(b))
      && 0 <= r.expectedRange.start <= r.expectedRange.end <= |b.editor.value.text|
      && Spliced(b.editor.value.text, r)
         == b.editor.value.text[..r.caret - |expected|] + replacement + b.editor.value.text[r.caret..]
      && (forall edit :: SafeEvidence(b) && Undisturbed(b.editor.value, r, edit)
            ==> Apply(l, b, r, edit).1 == Applied(b.editor.value.version + 1))
  {
    hide Admissible, SafeEvidence, Undisturbed, Apply, Spliced, RequestFromSnapshot;
    var r := RequestFromSnapshot(CaptureSnapshot(b, expected, replacement).value, id);
    SnapshotRequestShape(b, expected, replacement, id);
    forall edit | SafeEvidence(b) && Undisturbed(b.editor.value, r, edit)
      ensures Apply(l, b, r, edit).1 == Applied(b.editor.value.version + 1)
    {
      UndisturbedIsApplied(l, b, r, edit);
    }
  }

  // ---------------------------------------------------------------------
  // Runs
  // ---------------------------------------------------------------------

  datatype Event = Applying(live: Binding, request: Request, edit: Edit) | Invalidating

  function Step(l: Ledger, e: Event): (next: Ledger)
    requires 0 < l.capacity
    ensures next.capacity == l.capacity
  {
    match e
    case Applying(live, request, edit) => Apply(l, live, request, edit).0
    case Invalidating => EmptyLedger(l.capacity)
  }

  /** The ledger after the first `n` calls. */
  function After(l: Ledger, events: seq<Event>, n: nat): (next: Ledger)
    requires n <= |events| && 0 < l.capacity
    ensures next.capacity == l.capacity
  {
    if n == 0 then l else Step(After(l, events, n - 1), events[n - 1])
  }

  /** The call gets past the ledger and the checks: an edit transaction runs. */
  predicate Transacts(l: Ledger, e: Event)
  {
    e.Applying? && e.request.requestId != [] && e.request.requestId !in l.entries && Refusal(e.live, e.request).None?
  }

  function ResultOf(l: Ledger, e: Event): HostResult
    requires 0 < l.capacity && e.Applying?
  {
    Apply(l, e.live, e.request, e.edit).1
  }

  predicate SameDocument(a: Event, b: Event)
  {
    && a.Applying? && b.Applying? && a.live.editor.Some? && b.live.editor.Some?
    && a.live.editor.value.uri == b.live.editor.value.uri && a.live.editor.value.epoch == b.live.editor.value.epoch
  }

  /** What the host guarantees: the version of one document instance never goes back. */
  predicate NeverGoesBack(events: seq<Event>)
  {
    forall i, j :: 0 <= i < j < |events| && SameDocument(events[i], events[j])
      ==> events[i].edit.versionAfter <= events[j].live.editor.value.version
  }

  /**
   * Whatever the capacity and however often the session is invalidated, after
   * the transaction that applied a request no later one runs for it.
   */
  lemma AppliedByOneTransaction(l: Ledger, events: seq<Event>, i: nat, j: nat)
    requires 0 < l.capacity && i < j < |events| && NeverGoesBack(events)
    requires Transacts(After(l, events, i), events[i]) && ResultOf(After(l, events, i), events[i]).Applied?
    requires events[j].Applying? && events[j].request == events[i].request
    ensures !Transacts(After(l, events, j), events[j])
  {
    hide After, Refusal, Admissible, Remember, Canonical, RequestJson, Commit, NeverGoesBack;
    var first, second := events[i], events[j];
    AppliedIsExactSplice(first.live, first.request, first.edit);
    AdmissibleIffNoRefusal(second.live, second.request);
    AdmissibleDocument(first);
    AdmissibleDocument(second);
    if Transacts(After(l, events, j), second) {
      VersionsInOrder(events, i, j);
    }
  }

  lemma AdmissibleDocument(e: Event)
    requires e.Applying?
    ensures Admissible(e.live, e.request) ==>
              e.live.editor.Some? && LiveIdentity(e.live.editor.value) == e.request.identity
              && e.live.editor.value.version == e.request.revision
  {
  }

  lemma VersionsInOrder(events: seq<Event>, i: nat, j: nat)
    requires i < j < |events| && NeverGoesBack(events) && SameDocument(events[i], events[j])
    ensures events[i].edit.versionAfter <= events[j].live.editor.value.version
  {
  }

  // ---------------------------------------------------------------------
  // The ledger is the recent history
  // ---------------------------------------------------------------------

  datatype Recorded = Recorded(request: Request, result: HostResult)

  /** The calls that were recorded since the last invalidation. */
  function History(capacity: nat, events: seq<Event>, n: nat): seq<Recorded>
    requires n <= |events| && 0 < capacity
  {
    if n == 0 || events[n - 1].Invalidating? then [] else
    var before, e := After(EmptyLedger(capacity), events, n - 1), events[n - 1];
    if e.request.requestId != [] && e.request.requestId !in before.entries
    then History(capacity, events, n - 1) + [Recorded(e.request, ResultOf(before, e))]
    else History(capacity, events, n - 1)
  }

  predicate HoldsAt(l: Ledger, history: seq<Recorded>, i: nat)
    requires |l.order| <= |history| && i < |l.order|
  {
    var r := history[|history| - |l.order| + i];
    && l.order[i] == r.request.requestId && l.order[i] in l.entries
    && l.entries[l.order[i]] == Entry(Canonical(RequestJson(r.request)), r.result)
  }

  /** The ledger holds exactly the newest records, oldest first. */
  predicate IsRecent(l: Ledger, history: seq<Recorded>)
  {
    && LedgerInv(l) && |l.order| == Least(|history|, l.capacity)
    && forall i :: 0 <= i < |l.order| ==> HoldsAt(l, history, i)
  }

  /** Remembering keeps the newest ids with their entries and adds the new one at the end. */
  lemma RememberedAt(l: Ledger, id: JsString, entry: Entry, i: nat)
    requires LedgerInv(l) && id !in l.entries && i <= |Kept(l.order, l.capacity)|
    ensures var next, kept := Remember(l, id, entry), |Kept(l.order, l.capacity)|;
      && i < |next.order| == kept + 1 && next.order[i] in next.entries
      && (i == kept ==> next.order[i] == id && next.entries[id] == entry)
      && (i < kept ==>
            var k := |l.order| - kept + i;
            next.order[i] == l.order[k] && l.order[k] in l.entries && next.entries[l.order[k]] == l.entries[l.order[k]])
  {
    var kept := Kept(l.order, l.capacity);
    if i < |kept| {
      KeptAt(l, i);
    }
    hide NoRepeats, Kept, LedgerInv;
  }

  lemma KeptAt(l: Ledger, i: nat)
    requires LedgerInv(l) && i < |Kept(l.order, l.capacity)|
    ensures var kept := Kept(l.order, l.capacity);
      && |kept| <= |l.order| && kept[i] == l.order[|l.order| - |kept| + i]
      && kept[i] in kept && kept[i] in l.entries
  {
    hide NoRepeats;
  }

  /** Every entry kept or added stands at its place in the history. */
  lemma RememberHoldsAt(l: Ledger, history: seq<Recorded>, r: Recorded, i: nat)
    requires IsRecent(l, history) && r.request.requestId !in l.entries
    requires i <= |Kept(l.order, l.capacity)|
    ensures var next := Remember(l, r.request.requestId, Entry(Canonical(RequestJson(r.request)), r.result));
      i < |next.order| <= |history| + 1 && HoldsAt(next, history + [r], i)
  {
    hide LedgerInv, NoRepeats, Canonical, RequestJson, Remember;
    RememberedAt(l, r.request.requestId, Entry(Canonical(RequestJson(r.request)), r.result), i);
    if i < |Kept(l.order, l.capacity)| {
      assert HoldsAt(l, history, |l.order| - |Kept(l.order, l.capacity)| + i);
    }
  }

  lemma RememberRecent(l: Ledger, history: seq<Recorded>, r: Recorded)
    requires IsRecent(l, history) && r.request.requestId !in l.entries
    ensures IsRecent(Remember(l, r.request.requestId, Entry(Canonical(RequestJson(r.request)), r.result)),
                     history + [r])
  {
    hide LedgerInv, NoRepeats, Canonical, RequestJson, HoldsAt, Restricts;
    InvParts(l);
    var id, entry := r.request.requestId, Entry(Canonical(RequestJson(r.request)), r.result);
    RememberKeeps(l, id, entry);
    var next, kept := Remember(l, id, entry), Kept(l.order, l.capacity);
    assert |next.order| == |kept| + 1;
    RememberHoldsAt(l, history, r, 0);
    forall i | 0 <= i < |next.order|
      ensures HoldsAt(next, history + [r], i)
    {
      RememberHoldsAt(l, history, r, i);
    }
    hide Remember;
    RecentFrom(l, history, next, r);
  }

  lemma RecentAt(l: Ledger, history: seq<Recorded>, i: nat)
    requires IsRecent(l, history) && i < |l.order|
    ensures |l.order| <= |history| && HoldsAt(l, history, i)
  {
  }

  lemma RecentFrom(l: Ledger, history: seq<Recorded>, next: Ledger, r: Recorded)
    requires IsRecent(l, history) && LedgerInv(next) && next.capacity == l.capacity
    requires |next.order| == |Kept(l.order, l.capacity)| + 1
    requires |next.order| <= |history| + 1 && forall i :: 0 <= i < |next.order| ==> HoldsAt(next, history + [r], i)
    ensures IsRecent(next, history + [r])
  {
    hide NoRepeats, HoldsAt;
  }

  /** Over every run, the ledger is the last `capacity` recorded calls. */
  lemma {:induction false} LedgerIsRecent(capacity: nat, events: seq<Event>, n: nat)
    requires n <= |events| && 0 < capacity
    ensures IsRecent(After(EmptyLedger(capacity), events, n), History(capacity, events, n))
    decreases n
  {
    hide Remember, ValidateAndApply, Canonical, RequestJson, LedgerInv;
    if n == 0 || events[n - 1].Invalidating? {
      EmptyIsRecent(capacity);
    } else {
      LedgerIsRecent(capacity, events, n - 1);
      hide IsRecent;
      var before, e := After(EmptyLedger(capacity), events, n - 1), events[n - 1];
      if e.request.requestId != [] && e.request.requestId !in before.entries {
        RememberRecent(before, History(capacity, events, n - 1), Recorded(e.request, ResultOf(before, e)));
      }
    }
  }

  lemma EmptyIsRecent(capacity: nat)
    requires 0 < capacity
    ensures IsRecent(EmptyLedger(capacity), [])
  {
  }

  /**
   * A later call with the id of one of the last `capacity` recorded calls
   * runs no transaction: the same request gets its recorded result, any other
   * one is refused as a reuse of the id.
   */
  lemma RecentIsReplayed(capacity: nat, events: seq<Event>, n: nat, k: nat, live: Binding, r: Request, edit: Edit)
    requires n <= |events| && 0 < capacity
    requires var history := History(capacity, events, n);
      k < |history| && |history| <= k + capacity && history[k].request.requestId == r.requestId != []
    ensures var l, record := After(EmptyLedger(capacity), events, n), History(capacity, events, n)[k];
      Apply(l, live, r, edit) == (l, if record.request == r then record.result else Rejected(RequestIdReuse))
  {
    hide After, History, Canonical, RequestJson, IsRecent, ValidateAndApply, Remember;
    var l, history := After(EmptyLedger(capacity), events, n), History(capacity, events, n);
    LedgerIsRecent(capacity, events, n);
    RecentLength(l, history);
    RecentAt(l, history, k - (|history| - |l.order|));
    SameTextIffSameRequest(history[k].request, r);
  }

  lemma RecentLength(l: Ledger, history: seq<Recorded>)
    requires IsRecent(l, history)
    ensures |l.order| == Least(|history|, l.capacity)
  {
  }

  // ---------------------------------------------------------------------
  // Every outcome of a call
  // ---------------------------------------------------------------------

  /** The callback of the edit reads the expected text where the request says. */
  predicate Queues(r: Request, edit: Edit)
    requires 0 <= r.expectedRange.start <= r.expectedRange.end
  {
    var start, end := r.expectedRange.start, r.expectedRange.end;
    r.expectedText == [] || (end <= |edit.immediate| && edit.immediate[start..end] == r.expectedText)
  }

  /** The document ends as the exact splice, one version later. */
  predicate ExactlyEdited(view: View, r: Request, edit: Edit)
    requires 0 <= r.expectedRange.start <= r.expectedRange.end <= |view.text|
  {
    edit.versionAfter == view.version + 1 && edit.textAfter == Spliced(view.text, r)
  }

  lemma SliceFinds(text: JsString, start: nat, end: nat, expected: JsString)
    requires start <= end && |expected| == end - start
    ensures Slice(text, start, end) == expected <==> expected == [] || (end <= |text| && text[start..end] == expected)
  {
  }

  /**
   * The whole account of an admissible call, for every behaviour of the edit:
   * which outcome it has, and with which reason.
   */
  lemma OutcomeOfEdit(b: Binding, r: Request, edit: Edit)
    requires Admissible(b, r)
    ensures var view, result := b.editor.value, ValidateAndApply(b, r, edit);
      && (result == Rejected(EditTransactionRefused) <==> edit.answer.Refused?)
      && (result == Rejected(TextMismatch)
          <==> edit.answer.Accepted? && !Queues(r, edit) && edit.versionAfter == view.version)
      && (result == Indeterminate(EditOutcomeLost) <==> edit.answer.Threw?)
      && (result == Indeterminate(AmbiguousCommit)
          <==> edit.answer.Accepted?
               && (if Queues(r, edit) then !ExactlyEdited(view, r, edit) else edit.versionAfter != view.version))
      && (result == Applied(r.revision + 1)
          <==> edit.answer.Accepted? && Queues(r, edit) && ExactlyEdited(view, r, edit))
      && (result.Rejected? ==> result.reason.EditTransactionRefused? || result.reason.TextMismatch?)
  {
    AdmissibleIffNoRefusal(b, r);
    SliceFinds(edit.immediate, r.expectedRange.start, r.expectedRange.end, r.expectedText);
    hide Refusal, Slice, HostProtocolId, Canonical, Splits;
  }

  /** A document the call has moved is never answered with a rejection, unless the host itself refused. */
  lemma MovedIsNotRejected(b: Binding, r: Request, edit: Edit)
    requires Admissible(b, r) && !edit.answer.Refused?
    requires edit.versionAfter != b.editor.value.version || Queues(r, edit)
    ensures !ValidateAndApply(b, r, edit).Rejected?
  {
    OutcomeOfEdit(b, r, edit);
    hide Admissible, Queues;
  }

  /** A fresh call is recorded with its outcome, which an identical retry is answered with. */
  lemma OutcomeIsRecorded(l: Ledger, b: Binding, r: Request, edit: Edit, later: Binding, laterEdit: Edit)
    requires LedgerInv(l) && r.requestId != [] && r.requestId !in l.entries
    ensures var (next, result) := Apply(l, b, r, edit);
      result == ValidateAndApply(b, r, edit) && Apply(next, later, r, laterEdit) == (next, result)
  {
    hide ValidateAndApply, Canonical, RequestJson, Kept;
  }

  // ---------------------------------------------------------------------
  // Reasons, in order
  // ---------------------------------------------------------------------

  /** The conditions on who asks for which document, in the order they are checked. */
  function IdentityChecks(b: Binding, view: View, r: Request): (checks: seq<Check<RejectReason>>)
    ensures |checks| == 10
  {
    [Check(view.visibleCount <= 1, MultipleEditors),
     Check(r.protocolId == Ascii("zonkey.vscode-host/1"), ProtocolMismatch),
     Check(r.authenticated, AuthenticationFailed),
     Check(r.hostId == b.hostId, HostIdentityMismatch),
     Check(r.sessionId == b.sessionId, SessionMismatch),
     Check(r.identity == TargetIdentity(view.uri, view.epoch, view.editorId), TargetIdentityMismatch),
     Check(r.capabilities == b.capabilities, CapabilityMismatch),
     Check(r.expectedRange.unitSchema == 2, UnitMismatch),
     Check(0 <= r.revision < 2147483647, RevisionOverflow),
     Check(r.revision == view.version, RevisionMismatch)]
  }

  /** Then the conditions on range, caret, states and text. */
  function StateChecks(b: Binding, view: View, r: Request): (checks: seq<Check<RejectReason>>)
    ensures |checks| == 11
  {
    var start, end := r.expectedRange.start, r.expectedRange.end;
    var inside := 0 <= start <= end <= |view.text| && end <= 9007199254740991
                  && !SplitsSurrogate(view.text, start) && !SplitsSurrogate(view.text, end);
    [Check(inside, RangeMismatch),
     Check(r.caret == end == view.selectionEnd, CaretMismatch),
     Check(r.selection.Empty? && view.selectionStart == view.selectionEnd, SelectionNotEmpty),
     Check(r.secure == view.secure && !view.secure.Secure?, SecureTarget),
     Check(view.secure.KnownNonSecure?, SecureIsUnknown),
     Check(r.composition == b.composition && !b.composition.Active?, CompositionActive),
     Check(b.composition.Inactive?, CompositionIsUnknown),
     Check(r.session == b.session, SessionMismatch),
     Check(!b.session.UnsupportedRemote?, UnsupportedSession),
     Check(b.session.SupportedLocal?, SessionIsUnknown),
     Check(inside && view.text[start..end] == r.expectedText, TextMismatch)]
  }

  /** The reason of a rejected call is that of the first failing condition. */
  lemma RefusalIsFirstFailure(b: Binding, r: Request)
    ensures Refusal(b, r)
         == if b.editor.None? then Some(TargetIdentityMismatch)
            else FirstFailure(IdentityChecks(b, b.editor.value, r) + StateChecks(b, b.editor.value, r))
  {
    hide FirstFailure, Refusal, IdentityChecks, StateChecks;
    if b.editor.Some? {
      FirstFailureInTwo(IdentityChecks(b, b.editor.value, r), StateChecks(b, b.editor.value, r));
      if FirstFailure(IdentityChecks(b, b.editor.value, r)).Some? {
        RefusedForIdentity(b, r);
      } else {
        RefusedForState(b, r);
      }
    } else {
      assert Refusal(b, r) == Some(TargetIdentityMismatch) by { NoEditor(b, r); }
    }
  }

  lemma NoEditor(b: Binding, r: Request)
    requires b.editor.None?
    ensures Refusal(b, r) == Some(TargetIdentityMismatch)
  {
  }

  lemma RefusedForIdentity(b: Binding, r: Request)
    requires b.editor.Some? && FirstFailure(IdentityChecks(b, b.editor.value, r)).Some?
    ensures Refusal(b, r) == FirstFailure(IdentityChecks(b, b.editor.value, r))
  {
    hide Canonical, IdentityJson, CapabilitiesJson, SplitsSurrogate, Ascii, FirstFailure, RangeIsBad;
    var place := FirstFailurePlace(IdentityChecks(b, b.editor.value, r));
    SameTextIffSameIdentity(r.identity, LiveIdentity(b.editor.value));
    SameTextIffSameCapabilities(r.capabilities, b.capabilities);
  }

  lemma RefusedForState(b: Binding, r: Request)
    requires b.editor.Some? && FirstFailure(IdentityChecks(b, b.editor.value, r)).None?
    ensures Refusal(b, r) == FirstFailure(StateChecks(b, b.editor.value, r))
  {
    hide Canonical, IdentityJson, CapabilitiesJson, SplitsSurrogate, Ascii, FirstFailure;
    var before := FirstFailurePlace(IdentityChecks(b, b.editor.value, r));
    hide IdentityChecks;
    var place := FirstFailurePlace(StateChecks(b, b.editor.value, r));
    SameTextIffSameIdentity(r.identity, LiveIdentity(b.editor.value));
    SameTextIffSameCapabilities(r.capabilities, b.capabilities);
    NoSplitAtStart(b.editor.value.text);
  }

  lemma NoSplitAtStart(text: JsString)
    ensures !SplitsSurrogate(text, 0)
  {
  }

  /** The conditions of a snapshot, in the order they are checked. */
  function CaptureChecks(b: Binding, expected: JsString, replacement: JsString): (checks: seq<Check<RefusalReason>>)
    ensures |checks| == 7
  {
    var open := b.editor.Some?;
    var caret := if open then b.editor.value.selectionEnd else 0;
    var fits := open && |expected| <= caret <= |b.editor.value.text|;
    [Check(expected != [] && replacement != [], RangeInvalid),
     Check(open, NoActiveEditor),
     Check(open && b.editor.value.visibleCount <= 1, ManyEditors),
     Check(open && b.editor.value.selectionCount == 1, MultiSelection),
     Check(open && b.editor.value.selectionStart == caret, SelectionNotCollapsed),
     Check(fits && !SplitsSurrogate(b.editor.value.text, caret)
           && !SplitsSurrogate(b.editor.value.text, caret - |expected|), RangeInvalid),
     Check(fits && b.editor.value.text[caret - |expected|..caret] == expected, CandidateMismatch)]
  }

  /** A snapshot is refused for the first failing condition, and else taken of the text before the caret. */
  lemma CaptureIsFirstFailure(b: Binding, expected: JsString, replacement: JsString)
    ensures match CaptureSnapshot(b, expected, replacement)
      case Failure(reason) => FirstFailure(CaptureChecks(b, expected, replacement)) == Some(reason)
      case Success(s) => FirstFailure(CaptureChecks(b, expected, replacement)) == None
  {
    hide SplitsSurrogate, HostProtocolId, FirstFailure;
    var place := FirstFailurePlace(CaptureChecks(b, expected, replacement));
    if b.editor.Some? {
      NoSplitAtStart(b.editor.value.text);
    }
  }

  /** A new call is malformed exactly if its request id is empty, and is then not recorded. */
  lemma MalformedIffNoId(l: Ledger, b: Binding, r: Request, edit: Edit)
    requires 0 < l.capacity && r.requestId !in l.entries
    ensures Apply(l, b, r, edit).1 == Rejected(MalformedRequest) <==> r.requestId == []
    ensures r.requestId == [] ==> Apply(l, b, r, edit).0 == l
  {
    hide Canonical, RequestJson, IdentityJson, CapabilitiesJson, Remember;
  }
}
