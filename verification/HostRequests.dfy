/** The requests of the editor host contract and their canonical text. */
module HostRequests {
  import opened Utf16
  import opened Printing
  import opened CanonicalJson

  type JsString = seq<Unit>

  datatype SecureState = KnownNonSecure | Secure | SecureUnknown
  datatype CompositionState = Inactive | Active | CompositionUnknown
  datatype SessionState = SupportedLocal | UnsupportedRemote | SessionUnknown

  datatype Selection = Empty | Range(start: int, end: int)

  datatype TargetIdentity = TargetIdentity(uri: JsString, epoch: int, editorId: int)
  datatype TextRange = TextRange(unitSchema: int, start: int, end: int)
  datatype Capabilities = Capabilities(flags: int, unitSchema: int)

  datatype Request = Request(
    protocolId: JsString,
    authenticated: bool,
    hostId: JsString,
    sessionId: JsString,
    requestId: JsString,
    identity: TargetIdentity,
    revision: int,
    expectedRange: TextRange,
    expectedText: JsString,
    replacement: JsString,
    caret: int,
    selection: Selection,
    secure: SecureState,
    composition: CompositionState,
    session: SessionState,
    capabilities: Capabilities)

  // ---------------------------------------------------------------------
  // Property names
  // ---------------------------------------------------------------------

  datatype Name =
    | ProtocolId | Authenticated | HostId | SessionId | RequestId | Identity | Revision | ExpectedRange
    | ExpectedText | Replacement | Caret | SelectionKey | SecureKey | CompositionKey | SessionKey | CapabilitiesKey
    | DocumentUri | DocumentEpoch | EditorId | UnitSchema | Start | End | Flags | Kind

  function NameText(name: Name): string
  {
    match name
    case ProtocolId => "protocol_id"
    case Authenticated => "authenticated"
    case HostId => "host_id"
    case SessionId => "session_id"
    case RequestId => "request_id"
    case Identity => "identity"
    case Revision => "revision"
    case ExpectedRange => "expected_range"
    case ExpectedText => "expected_text"
    case Replacement => "replacement"
    case Caret => "caret"
    case SelectionKey => "selection"
    case SecureKey => "secure"
    case CompositionKey => "composition"
    case SessionKey => "session"
    case CapabilitiesKey => "capabilities"
    case DocumentUri => "document_uri"
    case DocumentEpoch => "document_epoch"
    case EditorId => "editor_id"
    case UnitSchema => "unit_schema"
    case Start => "start"
    case End => "end"
    case Flags => "flags"
    case Kind => "kind"
  }

  /** Length and first letter tell the names apart. */
  function NameMark(name: Name): (nat, char)
  {
    match name
    case ProtocolId => (11, 'p')
    case Authenticated => (13, 'a')
    case HostId => (7, 'h')
    case SessionId => (10, 's')
    case RequestId => (10, 'r')
    case Identity => (8, 'i')
    case Revision => (8, 'r')
    case ExpectedRange => (14, 'e')
    case ExpectedText => (13, 'e')
    case Replacement => (11, 'r')
    case Caret => (5, 'c')
    case SelectionKey => (9, 's')
    case SecureKey => (6, 's')
    case CompositionKey => (11, 'c')
    case SessionKey => (7, 's')
    case CapabilitiesKey => (12, 'c')
    case DocumentUri => (12, 'd')
    case DocumentEpoch => (14, 'd')
    case EditorId => (9, 'e')
    case UnitSchema => (11, 'u')
    case Start => (5, 's')
    case End => (3, 'e')
    case Flags => (5, 'f')
    case Kind => (4, 'k')
  }

  lemma MarkOfName(name: Name)
    ensures |NameText(name)| > 0 && NameMark(name) == (|NameText(name)|, NameText(name)[0])
    ensures NameMark(name).1 as int < 0x80
  {
  }

  lemma MarksDiffer(a: Name, b: Name)
    requires NameMark(a) == NameMark(b)
    ensures a == b
  {
  }

  function Key(name: Name): JsString
  {
    Ascii(NameText(name))
  }

  lemma KeysDiffer(a: Name, b: Name)
    requires Key(a) == Key(b)
    ensures a == b
  {
    MarkOfName(a);
    MarkOfName(b);
    hide NameText, NameMark;
    assert Key(a)[0] == Key(b)[0];
    MarksDiffer(a, b);
  }

  // ---------------------------------------------------------------------
  // Objects as runtime values
  // ---------------------------------------------------------------------

  function Fields(names: seq<Name>, values: seq<Json>): (fields: seq<Field>)
    requires |names| == |values|
    ensures |fields| == |names|
    ensures forall i :: 0 <= i < |names| ==> fields[i] == Field(Key(names[i]), values[i])
  {
    seq(|names|, i requires 0 <= i < |names| => Field(Key(names[i]), values[i]))
  }

  function Integer(n: int): Json
  {
    Number(if n < 0 then [0x2D] + Decimal(-n) else Decimal(n))
  }

  function SecureText(s: SecureState): JsString
  {
    match s
    case KnownNonSecure => Ascii("KnownNonSecure")
    case Secure => Ascii("Secure")
    case SecureUnknown => Ascii("Unknown")
  }

  function CompositionText(c: CompositionState): JsString
  {
    match c
    case Inactive => Ascii("Inactive")
    case Active => Ascii("Active")
    case CompositionUnknown => Ascii("Unknown")
  }

  function SessionText(s: SessionState): JsString
  {
    match s
    case SupportedLocal => Ascii("SupportedLocal")
    case UnsupportedRemote => Ascii("UnsupportedRemote")
    case SessionUnknown => Ascii("Unknown")
  }

  const IDENTITY_NAMES: seq<Name> := [DocumentUri, DocumentEpoch, EditorId]
  const RANGE_NAMES: seq<Name> := [UnitSchema, Start, End]
  const CAPABILITIES_NAMES: seq<Name> := [Flags, UnitSchema]
  const EMPTY_NAMES: seq<Name> := [Kind]
  const SELECTED_NAMES: seq<Name> := [Kind, Start, End]
  const REQUEST_NAMES: seq<Name> := [
    ProtocolId, Authenticated, HostId, SessionId, RequestId, Identity, Revision, ExpectedRange, ExpectedText,
    Replacement, Caret, SelectionKey, SecureKey, CompositionKey, SessionKey, CapabilitiesKey
  ]

  function IdentityValues(i: TargetIdentity): seq<Json>
  {
    [String(i.uri), Integer(i.epoch), Integer(i.editorId)]
  }

  function IdentityJson(i: TargetIdentity): Json
  {
    Object(Fields(IDENTITY_NAMES, IdentityValues(i)))
  }

  function RangeValues(r: TextRange): seq<Json>
  {
    [Integer(r.unitSchema), Integer(r.start), Integer(r.end)]
  }

  function RangeJson(r: TextRange): Json
  {
    Object(Fields(RANGE_NAMES, RangeValues(r)))
  }

  function CapabilitiesValues(c: Capabilities): seq<Json>
  {
    [Integer(c.flags), Integer(c.unitSchema)]
  }

  function CapabilitiesJson(c: Capabilities): Json
  {
    Object(Fields(CAPABILITIES_NAMES, CapabilitiesValues(c)))
  }

  function SelectionJson(s: Selection): Json
  {
    match s
    case Empty => Object(Fields(EMPTY_NAMES, [String(Ascii("Empty"))]))
    case Range(start, end) => Object(Fields(SELECTED_NAMES, [String(Ascii("Range")), Integer(start), Integer(end)]))
  }

  function RequestValues(r: Request): (values: seq<Json>)
    ensures |values| == 16
  {
    [String(r.protocolId), Boolean(r.authenticated), String(r.hostId), String(r.sessionId), String(r.requestId),
     IdentityJson(r.identity), Integer(r.revision), RangeJson(r.expectedRange), String(r.expectedText),
     String(r.replacement), Integer(r.caret), SelectionJson(r.selection), String(SecureText(r.secure)),
     String(CompositionText(r.composition)), String(SessionText(r.session)), CapabilitiesJson(r.capabilities)]
  }

  function RequestJson(r: Request): Json
  {
    Object(Fields(REQUEST_NAMES, RequestValues(r)))
  }

  // ---------------------------------------------------------------------
  // Equal texts exactly for equal requests
  // ---------------------------------------------------------------------

  predicate Distinct(names: seq<Name>)
  {
    forall i, j :: 0 <= i < j < |names| ==> names[i] != names[j]
  }

  predicate AllJson(values: seq<Json>)
  {
    forall i :: 0 <= i < |values| ==> IsJson(values[i])
  }

  lemma {:induction false} FieldsAreDistinct(names: seq<Name>, fields: seq<Field>)
    requires Distinct(names) && |fields| == |names|
    requires forall i :: 0 <= i < |names| ==> fields[i].key == Key(names[i])
    ensures DistinctKeys(fields)
  {
    hide Key;
    if fields != [] {
      FieldsAreDistinct(names[1..], fields[1..]);
      if HasKey(fields[1..], fields[0].key) {
        var f :| f in fields[1..] && f.key == fields[0].key;
        var i :| 0 <= i < |fields| - 1 && fields[1..][i] == f;
        KeysDiffer(names[0], names[i + 1]);
      }
    }
  }

  lemma RecordIsJson(names: seq<Name>, values: seq<Json>)
    requires Distinct(names) && |names| == |values| && AllJson(values)
    ensures IsJson(Object(Fields(names, values)))
  {
    hide DistinctKeys, Key;
    FieldsAreDistinct(names, Fields(names, values));
  }

  lemma {:induction false} FieldDenoted(fields: seq<Field>, i: nat)
    requires DistinctKeys(fields) && i < |fields| && forall j :: 0 <= j < |fields| ==> IsJson(fields[j].value)
    ensures fields[i].key in DenoteFields(fields)
    ensures DenoteFields(fields)[fields[i].key] == Denote(fields[i].value)
  {
    hide Denote;
    var first, rest := fields[0], fields[1..];
    assert IsJson(first.value);
    if i > 0 {
      assert fields[i] == rest[i - 1] && fields[i] in rest;
      FieldDenoted(rest, i - 1);
      assert first.key != fields[i].key;
    }
  }

  /** Records over the same names mean the same exactly when their values do, one by one. */
  lemma SameRecord(names: seq<Name>, a: seq<Json>, b: seq<Json>)
    requires Distinct(names) && |names| == |a| == |b| && AllJson(a) && AllJson(b)
    requires Denote(Object(Fields(names, a))) == Denote(Object(Fields(names, b)))
    ensures forall i :: 0 <= i < |names| ==> Denote(a[i]) == Denote(b[i])
  {
    hide IsJson, DistinctKeys, Key;
    var fa, fb := Fields(names, a), Fields(names, b);
    assert DenoteFields(fa) == DenoteFields(fb);
    FieldsAreDistinct(names, fa);
    FieldsAreDistinct(names, fb);
    hide DenoteFields, Denote, Fields;
    forall i | 0 <= i < |names|
      ensures Denote(a[i]) == Denote(b[i])
    {
      FieldDenoted(fa, i);
      FieldDenoted(fb, i);
    }
  }

  lemma {:induction false} DecimalIsNumeral(n: nat)
    ensures IsNumeral(Decimal(n)) && Decimal(n)[0] != 0x2D
  {
    if n >= 10 {
      DecimalIsNumeral(n / 10);
    }
  }

  lemma IntegerIsJson(n: int)
    ensures IsJson(Integer(n))
  {
    DecimalIsNumeral(if n < 0 then -n else n);
  }

  lemma IntegerInjective(m: int, n: int)
    requires Denote(Integer(m)) == Denote(Integer(n))
    ensures m == n
  {
    DecimalIsNumeral(if m < 0 then -m else m);
    DecimalIsNumeral(if n < 0 then -n else n);
    hide Decimal, IsNumeral;
    if m < 0 && n < 0 {
      assert ([0x2D] + Decimal(-m))[1..] == Decimal(-m) && ([0x2D] + Decimal(-n))[1..] == Decimal(-n);
      DecimalInjective(-m, -n);
    } else if m >= 0 && n >= 0 {
      DecimalInjective(m, n);
    }
  }

  lemma IdentityIsJson(i: TargetIdentity)
    ensures AllJson(IdentityValues(i)) && IsJson(IdentityJson(i))
  {
    hide Integer;
    IntegerIsJson(i.epoch);
    IntegerIsJson(i.editorId);
    RecordIsJson(IDENTITY_NAMES, IdentityValues(i));
  }

  lemma IdentityInjective(i: TargetIdentity, j: TargetIdentity)
    requires Denote(IdentityJson(i)) == Denote(IdentityJson(j))
    ensures i == j
  {
    hide Integer, IsJson, Fields, DenoteFields;
    IdentityIsJson(i);
    IdentityIsJson(j);
    var a, b := IdentityValues(i), IdentityValues(j);
    SameRecord(IDENTITY_NAMES, a, b);
    assert Denote(a[0]) == Denote(b[0]) && Denote(a[1]) == Denote(b[1]) && Denote(a[2]) == Denote(b[2]);
    IntegerInjective(i.epoch, j.epoch);
    IntegerInjective(i.editorId, j.editorId);
  }

  lemma RangeIsJson(r: TextRange)
    ensures AllJson(RangeValues(r)) && IsJson(RangeJson(r))
  {
    hide Integer;
    IntegerIsJson(r.unitSchema);
    IntegerIsJson(r.start);
    IntegerIsJson(r.end);
    RecordIsJson(RANGE_NAMES, RangeValues(r));
  }

  lemma RangeInjective(r: TextRange, q: TextRange)
    requires Denote(RangeJson(r)) == Denote(RangeJson(q))
    ensures r == q
  {
    hide Integer, IsJson, Fields, DenoteFields;
    RangeIsJson(r);
    RangeIsJson(q);
    var a, b := RangeValues(r), RangeValues(q);
    SameRecord(RANGE_NAMES, a, b);
    assert Denote(a[0]) == Denote(b[0]) && Denote(a[1]) == Denote(b[1]) && Denote(a[2]) == Denote(b[2]);
    IntegerInjective(r.unitSchema, q.unitSchema);
    IntegerInjective(r.start, q.start);
    IntegerInjective(r.end, q.end);
  }

  lemma CapabilitiesAreJson(c: Capabilities)
    ensures AllJson(CapabilitiesValues(c)) && IsJson(CapabilitiesJson(c))
  {
    hide Integer;
    IntegerIsJson(c.flags);
    IntegerIsJson(c.unitSchema);
    RecordIsJson(CAPABILITIES_NAMES, CapabilitiesValues(c));
  }

  lemma CapabilitiesInjective(c: Capabilities, d: Capabilities)
    requires Denote(CapabilitiesJson(c)) == Denote(CapabilitiesJson(d))
    ensures c == d
  {
    hide Integer, IsJson, Fields, DenoteFields;
    CapabilitiesAreJson(c);
    CapabilitiesAreJson(d);
    var a, b := CapabilitiesValues(c), CapabilitiesValues(d);
    SameRecord(CAPABILITIES_NAMES, a, b);
    assert Denote(a[0]) == Denote(b[0]) && Denote(a[1]) == Denote(b[1]);
    IntegerInjective(c.flags, d.flags);
    IntegerInjective(c.unitSchema, d.unitSchema);
  }

  lemma StateTexts()
    ensures forall s, t :: SecureText(s) == SecureText(t) ==> s == t
    ensures forall s, t :: CompositionText(s) == CompositionText(t) ==> s == t
    ensures forall s, t :: SessionText(s) == SessionText(t) ==> s == t
    ensures Ascii("Empty") != Ascii("Range")
  {
    forall s: SecureState
      ensures SecureText(s)[0] == if s.KnownNonSecure? then 0x4B else if s.Secure? then 0x53 else 0x55
    {
    }
    forall s: CompositionState
      ensures CompositionText(s)[0] == if s.Inactive? then 0x49 else if s.Active? then 0x41 else 0x55
    {
    }
    forall s: SessionState
      ensures |SessionText(s)| == if s.SupportedLocal? then 14 else if s.UnsupportedRemote? then 17 else 7
    {
    }
    assert Ascii("Empty")[0] == 0x45 && Ascii("Range")[0] == 0x52;
  }

  function SelectionNames(s: Selection): seq<Name>
  {
    if s.Empty? then EMPTY_NAMES else SELECTED_NAMES
  }

  function SelectionValues(s: Selection): (values: seq<Json>)
    ensures |values| == |SelectionNames(s)|
  {
    match s
    case Empty => [String(Ascii("Empty"))]
    case Range(start, end) => [String(Ascii("Range")), Integer(start), Integer(end)]
  }

  lemma SelectionIsJson(s: Selection)
    ensures AllJson(SelectionValues(s)) && IsJson(SelectionJson(s))
    ensures Distinct(SelectionNames(s)) && SelectionJson(s) == Object(Fields(SelectionNames(s), SelectionValues(s)))
  {
    hide Integer;
    if s.Range? {
      IntegerIsJson(s.start);
      IntegerIsJson(s.end);
    }
    RecordIsJson(SelectionNames(s), SelectionValues(s));
  }

  lemma SelectionKind(s: Selection)
    ensures Key(Kind) in DenoteFields(Fields(SelectionNames(s), SelectionValues(s)))
    ensures DenoteFields(Fields(SelectionNames(s), SelectionValues(s)))[Key(Kind)]
            == Text(if s.Empty? then Ascii("Empty") else Ascii("Range"))
  {
    SelectionIsJson(s);
    hide Integer, IsJson, Key, DenoteFields;
    var fields := Fields(SelectionNames(s), SelectionValues(s));
    FieldsAreDistinct(SelectionNames(s), fields);
    FieldDenoted(fields, 0);
  }

  lemma SelectionInjective(s: Selection, t: Selection)
    requires Denote(SelectionJson(s)) == Denote(SelectionJson(t))
    ensures s == t
  {
    SelectionKind(s);
    SelectionKind(t);
    SelectionIsJson(s);
    SelectionIsJson(t);
    StateTexts();
    hide Integer, IsJson, Fields, DenoteFields, Key;
    assert s.Empty? <==> t.Empty?;
    if s.Range? && t.Range? {
      var a, b := SelectionValues(s), SelectionValues(t);
      SameRecord(SELECTED_NAMES, a, b);
      assert Denote(a[1]) == Denote(b[1]) && Denote(a[2]) == Denote(b[2]);
      IntegerInjective(s.start, t.start);
      IntegerInjective(s.end, t.end);
    }
  }

  /** Where a name stands in a request; names of nested objects do not matter. */
  ghost function Position(name: Name): nat
  {
    match name
    case ProtocolId => 0
    case Authenticated => 1
    case HostId => 2
    case SessionId => 3
    case RequestId => 4
    case Identity => 5
    case Revision => 6
    case ExpectedRange => 7
    case ExpectedText => 8
    case Replacement => 9
    case Caret => 10
    case SelectionKey => 11
    case SecureKey => 12
    case CompositionKey => 13
    case SessionKey => 14
    case _ => 15
  }

  lemma RequestNamesDistinct()
    ensures Distinct(REQUEST_NAMES) && |REQUEST_NAMES| == 16
  {
    assert forall i :: 0 <= i < 16 ==> Position(REQUEST_NAMES[i]) == i;
  }

  lemma RequestValuesAreJson(r: Request)
    ensures AllJson(RequestValues(r))
  {
    hide Integer, IdentityJson, RangeJson, SelectionJson, CapabilitiesJson;
    IntegerIsJson(r.revision);
    IntegerIsJson(r.caret);
    IdentityIsJson(r.identity);
    RangeIsJson(r.expectedRange);
    SelectionIsJson(r.selection);
    CapabilitiesAreJson(r.capabilities);
  }

  lemma RequestIsJson(r: Request)
    ensures AllJson(RequestValues(r)) && IsJson(RequestJson(r))
  {
    hide AllJson, IsJson, RequestValues, Fields, Distinct;
    RequestNamesDistinct();
    RequestValuesAreJson(r);
    RecordIsJson(REQUEST_NAMES, RequestValues(r));
  }

  lemma RequestValuesInjective(r: Request, q: Request)
    requires forall i :: 0 <= i < 16 ==> Denote(RequestValues(r)[i]) == Denote(RequestValues(q)[i])
    ensures r == q
  {
    hide Integer, IdentityJson, RangeJson, SelectionJson, CapabilitiesJson, SecureText, CompositionText, SessionText;
    var a, b := RequestValues(r), RequestValues(q);
    assert Denote(a[0]) == Denote(b[0]) && Denote(a[1]) == Denote(b[1]) && Denote(a[2]) == Denote(b[2])
           && Denote(a[3]) == Denote(b[3]) && Denote(a[4]) == Denote(b[4]) && Denote(a[5]) == Denote(b[5])
           && Denote(a[6]) == Denote(b[6]) && Denote(a[7]) == Denote(b[7]) && Denote(a[8]) == Denote(b[8])
           && Denote(a[9]) == Denote(b[9]) && Denote(a[10]) == Denote(b[10]) && Denote(a[11]) == Denote(b[11])
           && Denote(a[12]) == Denote(b[12]) && Denote(a[13]) == Denote(b[13]) && Denote(a[14]) == Denote(b[14])
           && Denote(a[15]) == Denote(b[15]);
    IdentityInjective(r.identity, q.identity);
    IntegerInjective(r.revision, q.revision);
    RangeInjective(r.expectedRange, q.expectedRange);
    IntegerInjective(r.caret, q.caret);
    SelectionInjective(r.selection, q.selection);
    CapabilitiesInjective(r.capabilities, q.capabilities);
    StateTexts();
  }

  /** Telling duplicates from conflicts by canonical text is telling them by equality. */
  lemma SameTextIffSameRequest(r: Request, q: Request)
    ensures Canonical(RequestJson(r)) == Canonical(RequestJson(q)) <==> r == q
  {
    RequestNamesDistinct();
    RequestIsJson(r);
    RequestIsJson(q);
    hide Canonical, RequestValues, IsJson, Fields, Distinct, DenoteFields;
    CanonicalIffSameValue(RequestJson(r), RequestJson(q));
    if Canonical(RequestJson(r)) == Canonical(RequestJson(q)) {
      SameRecord(REQUEST_NAMES, RequestValues(r), RequestValues(q));
      RequestValuesInjective(r, q);
    }
  }

  lemma SameTextIffSameIdentity(i: TargetIdentity, j: TargetIdentity)
    ensures Canonical(IdentityJson(i)) == Canonical(IdentityJson(j)) <==> i == j
  {
    IdentityIsJson(i);
    IdentityIsJson(j);
    hide Canonical, IdentityJson;
    CanonicalIffSameValue(IdentityJson(i), IdentityJson(j));
    if Denote(IdentityJson(i)) == Denote(IdentityJson(j)) {
      IdentityInjective(i, j);
    }
  }

  lemma SameTextIffSameCapabilities(c: Capabilities, d: Capabilities)
    ensures Canonical(CapabilitiesJson(c)) == Canonical(CapabilitiesJson(d)) <==> c == d
  {
    CapabilitiesAreJson(c);
    CapabilitiesAreJson(d);
    hide Canonical, CapabilitiesJson;
    CanonicalIffSameValue(CapabilitiesJson(c), CapabilitiesJson(d));
    if Denote(CapabilitiesJson(c)) == Denote(CapabilitiesJson(d)) {
      CapabilitiesInjective(c, d);
    }
  }
}
