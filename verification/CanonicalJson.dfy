/**
 * The deterministic JSON text used to compare requests: object keys sorted,
 * `undefined` fields dropped. Two values have the same text exactly when they
 * are the same value, objects being read as maps.
 */
module CanonicalJson {
  import opened Utf16

  /** A runtime value; a number is given by the text it prints as. */
  datatype Json =
    | Undefined
    | Null
    | Boolean(truth: bool)
    | Number(numeral: seq<Unit>)
    | String(units: seq<Unit>)
    | Array(items: seq<Json>)
    | Object(fields: seq<Field>)

  datatype Field = Field(key: seq<Unit>, value: Json)

  // ---------------------------------------------------------------------
  // Strings
  // ---------------------------------------------------------------------

  const QUOTE: Unit := 0x22
  const BACKSLASH: Unit := 0x5C
  const COMMA: Unit := 0x2C
  const COLON: Unit := 0x3A

  function HexDigit(n: nat): (digit: Unit)
    requires n < 16
    ensures 0x30 <= digit <= 0x39 || 0x61 <= digit <= 0x66
  {
    if n < 10 then 0x30 + n else 0x57 + n
  }

  function HexValue(digit: Unit): nat
  {
    if 0x30 <= digit <= 0x39 then digit - 0x30 else if 0x61 <= digit <= 0x66 then digit - 0x57 else 0
  }

  function UnicodeEscape(u: Unit): (text: seq<Unit>)
    ensures |text| == 6 && text[0] == BACKSLASH && text[1] == 0x75
  {
    [BACKSLASH, 0x75, HexDigit(u / 4096), HexDigit(u / 256 % 16), HexDigit(u / 16 % 16), HexDigit(u % 16)]
  }

  /** The letter after the backslash in a two-unit escape, or zero. */
  function ShortEscape(u: Unit): Unit
  {
    if u == QUOTE then QUOTE
    else if u == BACKSLASH then BACKSLASH
    else if u == 0x08 then 0x62
    else if u == 0x0C then 0x66
    else if u == 0x0A then 0x6E
    else if u == 0x0D then 0x72
    else if u == 0x09 then 0x74
    else 0
  }

  function ShortUnescape(letter: Unit): Unit
  {
    if letter == 0x62 then 0x08
    else if letter == 0x66 then 0x0C
    else if letter == 0x6E then 0x0A
    else if letter == 0x72 then 0x0D
    else if letter == 0x74 then 0x09
    else letter
  }

  /** How one unit that is not part of a surrogate pair is written. */
  function Piece(u: Unit): (text: seq<Unit>)
    ensures text != []
  {
    if ShortEscape(u) != 0 then [BACKSLASH, ShortEscape(u)]
    else if u < 0x20 || IsHigh(u) || IsLow(u) then UnicodeEscape(u)
    else [u]
  }

  /** How many units the first written piece stands for: two for a surrogate pair. */
  function Lead(s: seq<Unit>): (n: nat)
    requires s != []
    ensures 1 <= n <= |s| && n <= 2
  {
    if IsHigh(s[0]) && |s| >= 2 && IsLow(s[1]) then 2 else 1
  }

  function FirstPiece(s: seq<Unit>): (text: seq<Unit>)
    requires s != []
    ensures text != []
  {
    if Lead(s) == 2 then s[..2] else Piece(s[0])
  }

  function Body(s: seq<Unit>): seq<Unit>
  {
    if s == [] then [] else FirstPiece(s) + Body(s[Lead(s)..])
  }

  function Quote(s: seq<Unit>): seq<Unit>
  {
    [QUOTE] + Body(s) + [QUOTE]
  }

  /** Reading one piece back: the units it stands for and its length. */
  function ReadPiece(text: seq<Unit>): (seq<Unit>, nat)
    requires text != []
  {
    if text[0] == BACKSLASH && |text| >= 6 && text[1] == 0x75 then
      var code := HexValue(text[2]) * 4096 + HexValue(text[3]) * 256 + HexValue(text[4]) * 16 + HexValue(text[5]);
      ([code % 0x1_0000], 6)
    else if text[0] == BACKSLASH && |text| >= 2 then ([ShortUnescape(text[1])], 2)
    else if IsHigh(text[0]) && |text| >= 2 then (text[..2], 2)
    else (text[..1], 1)
  }

  lemma HexRoundTrip(n: nat)
    requires n < 16
    ensures HexValue(HexDigit(n)) == n
  {
  }

  lemma HexDigits(u: Unit)
    ensures u / 4096 * 4096 + u / 256 % 16 * 256 + u / 16 % 16 * 16 + u % 16 == u
  {
    assert u / 256 == 16 * (u / 4096) + u / 256 % 16;
    assert u / 16 == 16 * (u / 256) + u / 16 % 16;
  }

  lemma ReadUnicodeEscape(u: Unit, rest: seq<Unit>)
    ensures ReadPiece(UnicodeEscape(u) + rest) == ([u], 6)
  {
    hide HexValue, HexDigit;
    var text := UnicodeEscape(u) + rest;
    assert text[..6] == UnicodeEscape(u);
    HexRoundTrip(u / 4096);
    HexRoundTrip(u / 256 % 16);
    HexRoundTrip(u / 16 % 16);
    HexRoundTrip(u % 16);
    HexDigits(u);
  }

  lemma ReadFirstPiece(s: seq<Unit>, rest: seq<Unit>)
    requires s != []
    ensures ReadPiece(FirstPiece(s) + rest) == (s[..Lead(s)], |FirstPiece(s)|)
    ensures FirstPiece(s)[0] != QUOTE
  {
    hide UnicodeEscape;
    var u, text := s[0], FirstPiece(s) + rest;
    if Lead(s) == 1 && ShortEscape(u) == 0 && (u < 0x20 || IsHigh(u) || IsLow(u)) {
      ReadUnicodeEscape(u, rest);
    }
    assert s[..1] == [s[0]];
    assert Lead(s) == 2 ==> text[..2] == s[..2];
  }

  /** A quoted string says itself where it ends. */
  lemma {:induction false} BodyDelimited(s: seq<Unit>, t: seq<Unit>, x: seq<Unit>, y: seq<Unit>)
    requires Body(s) + [QUOTE] + x == Body(t) + [QUOTE] + y
    ensures s == t && x == y
    decreases |s| + |t|
  {
    hide FirstPiece, Lead, ReadPiece;
    var whole := Body(s) + [QUOTE] + x;
    if s != [] {
      var sRest := Body(s[Lead(s)..]) + [QUOTE] + x;
      assert whole == FirstPiece(s) + sRest;
      ReadFirstPiece(s, sRest);
      assert whole[0] == FirstPiece(s)[0];
    }
    if t != [] {
      var tRest := Body(t[Lead(t)..]) + [QUOTE] + y;
      assert Body(t) + [QUOTE] + y == FirstPiece(t) + tRest;
      ReadFirstPiece(t, tRest);
      assert whole[0] == FirstPiece(t)[0];
    }
    if s != [] && t != [] {
      StepBoth(s, t, x, y, whole);
      BodyDelimited(s[Lead(s)..], t[Lead(t)..], x, y);
      assert s == s[..Lead(s)] + s[Lead(s)..] && t == t[..Lead(t)] + t[Lead(t)..];
    } else {
      assert x == whole[1..] && y == whole[1..];
    }
  }

  lemma StepBoth(s: seq<Unit>, t: seq<Unit>, x: seq<Unit>, y: seq<Unit>, whole: seq<Unit>)
    requires s != [] && t != []
    requires whole == Body(s) + [QUOTE] + x == Body(t) + [QUOTE] + y
    ensures s[..Lead(s)] == t[..Lead(t)]
    ensures Body(s[Lead(s)..]) + [QUOTE] + x == Body(t[Lead(t)..]) + [QUOTE] + y
  {
    hide FirstPiece, Lead, ReadPiece;
    var sRest, tRest := Body(s[Lead(s)..]) + [QUOTE] + x, Body(t[Lead(t)..]) + [QUOTE] + y;
    assert whole == FirstPiece(s) + sRest && whole == FirstPiece(t) + tRest;
    ReadFirstPiece(s, sRest);
    ReadFirstPiece(t, tRest);
    assert sRest == whole[|FirstPiece(s)|..] && tRest == whole[|FirstPiece(t)|..];
  }

  lemma QuoteDelimited(s: seq<Unit>, t: seq<Unit>, x: seq<Unit>, y: seq<Unit>)
    requires Quote(s) + x == Quote(t) + y
    ensures s == t && x == y
  {
    hide Body;
    assert Body(s) + [QUOTE] + x == (Quote(s) + x)[1..];
    assert Body(t) + [QUOTE] + y == (Quote(t) + y)[1..];
    BodyDelimited(s, t, x, y);
  }

  // ---------------------------------------------------------------------
  // The canonical text
  // ---------------------------------------------------------------------

  /** Comparing strings unit by unit. */
  predicate Less(a: seq<Unit>, b: seq<Unit>)
  {
    b != [] && (a == [] || a[0] < b[0] || (a[0] == b[0] && Less(a[1..], b[1..])))
  }

  /** The fields that are not `undefined`. */
  function Defined(fields: seq<Field>): (kept: seq<Field>)
    ensures forall f :: f in kept ==> f in fields
  {
    if fields == [] then []
    else if fields[0].value.Undefined? then Defined(fields[1..])
    else [fields[0]] + Defined(fields[1..])
  }

  function Insert(f: Field, sorted: seq<Field>): (r: seq<Field>)
    ensures forall g :: g in r <==> g == f || g in sorted
    ensures |r| == |sorted| + 1
  {
    if sorted == [] || !Less(sorted[0].key, f.key) then [f] + sorted
    else [sorted[0]] + Insert(f, sorted[1..])
  }

  function Sorted(fields: seq<Field>): (r: seq<Field>)
    ensures forall g :: g in r <==> g in fields
    ensures |r| == |fields|
  {
    if fields == [] then [] else Insert(fields[0], Sorted(fields[1..]))
  }

  /** What follows a printed element: a comma and the others, or nothing. */
  function Joined(first: seq<Unit>, rest: seq<Unit>, last: bool): seq<Unit>
  {
    if last then first else first + [COMMA] + rest
  }

  function Literal(truth: bool): seq<Unit>
  {
    if truth then [0x74, 0x72, 0x75, 0x65] else [0x66, 0x61, 0x6C, 0x73, 0x65]
  }

  /** An `undefined` array item joins as nothing. */
  function Canonical(v: Json): seq<Unit>
    decreases v
  {
    match v
    case Undefined => []
    case Null => [0x6E, 0x75, 0x6C, 0x6C]
    case Boolean(truth) => Literal(truth)
    case Number(numeral) => numeral
    case String(units) => Quote(units)
    case Array(items) => [0x5B] + CanonicalItems(items) + [0x5D]
    case Object(fields) => [0x7B] + CanonicalEntries(Sorted(Defined(fields)), fields) + [0x7D]
  }

  function CanonicalItems(items: seq<Json>): seq<Unit>
    decreases items
  {
    if items == [] then []
    else Joined(Canonical(items[0]), CanonicalItems(items[1..]), |items| == 1)
  }

  function CanonicalEntries(entries: seq<Field>, ghost fields: seq<Field>): seq<Unit>
    requires forall f :: f in entries ==> f in fields
    decreases fields, |entries|
  {
    if entries == [] then [] else
    assert entries[0] in fields;
    Joined(Quote(entries[0].key) + [COLON] + Canonical(entries[0].value),
           CanonicalEntries(entries[1..], fields), |entries| == 1)
  }

  // ---------------------------------------------------------------------
  // The value a runtime value stands for
  // ---------------------------------------------------------------------

  datatype Value =
    | NoValue
    | NullValue
    | Truth(truth: bool)
    | Numeral(numeral: seq<Unit>)
    | Text(units: seq<Unit>)
    | List(items: seq<Value>)
    | Record(fields: map<seq<Unit>, Value>)

  function Denote(v: Json): Value
    decreases v
  {
    match v
    case Undefined => NoValue
    case Null => NullValue
    case Boolean(truth) => Truth(truth)
    case Number(numeral) => Numeral(numeral)
    case String(units) => Text(units)
    case Array(items) => List(DenoteItems(items))
    case Object(fields) => Record(DenoteFields(fields))
  }

  function DenoteItems(items: seq<Json>): (r: seq<Value>)
    ensures |r| == |items|
    decreases items
  {
    if items == [] then [] else [Denote(items[0])] + DenoteItems(items[1..])
  }

  function DenoteFields(fields: seq<Field>): map<seq<Unit>, Value>
    decreases fields
  {
    if fields == [] then map[]
    else if fields[0].value.Undefined? then DenoteFields(fields[1..])
    else DenoteFields(fields[1..])[fields[0].key := Denote(fields[0].value)]
  }

  predicate HasKey(fields: seq<Field>, key: seq<Unit>)
  {
    exists f :: f in fields && f.key == key
  }

  predicate DistinctKeys(fields: seq<Field>)
  {
    fields == [] || (!HasKey(fields[1..], fields[0].key) && DistinctKeys(fields[1..]))
  }

  predicate IsNumeral(text: seq<Unit>)
  {
    && text != [] && (text[0] == 0x2D || 0x30 <= text[0] <= 0x39)
    && forall i :: 0 <= i < |text| ==> NumberUnit(text[i])
  }

  /** Digits, sign, point and exponent mark. */
  predicate NumberUnit(u: Unit)
  {
    0x30 <= u <= 0x39 || u == 0x2D || u == 0x2B || u == 0x2E || u == 0x65
  }

  /** A JSON value: keys are distinct and `undefined` stands only in object fields. */
  predicate IsJson(v: Json)
    decreases v
  {
    match v
    case Undefined => false
    case Number(numeral) => IsNumeral(numeral)
    case Array(items) => forall i :: 0 <= i < |items| ==> IsJson(items[i])
    case Object(fields) =>
      && DistinctKeys(fields)
      && forall i :: 0 <= i < |fields| ==> fields[i].value.Undefined? || IsJson(fields[i].value)
    case _ => true
  }

  // ---------------------------------------------------------------------
  // The order of keys
  // ---------------------------------------------------------------------

  lemma {:induction false} LessTotal(a: seq<Unit>, b: seq<Unit>)
    ensures Less(a, b) || Less(b, a) || a == b
  {
    if a != [] && b != [] && a[0] == b[0] {
      LessTotal(a[1..], b[1..]);
      assert a == [a[0]] + a[1..] && b == [b[0]] + b[1..];
    }
  }

  lemma {:induction false} LessAsymmetric(a: seq<Unit>, b: seq<Unit>)
    requires Less(a, b)
    ensures !Less(b, a) && a != b
  {
    if a != [] && a[0] == b[0] {
      LessAsymmetric(a[1..], b[1..]);
    }
  }

  lemma {:induction false} LessTransitive(a: seq<Unit>, b: seq<Unit>, c: seq<Unit>)
    requires Less(a, b) && Less(b, c)
    ensures Less(a, c)
  {
    if a != [] && a[0] == b[0] == c[0] {
      LessTransitive(a[1..], b[1..], c[1..]);
    }
  }

  /** Every key after the first is greater, and so on down the list. */
  predicate StrictlySorted(fields: seq<Field>)
  {
    fields == []
    || ((forall f :: f in fields[1..] ==> Less(fields[0].key, f.key)) && StrictlySorted(fields[1..]))
  }

  lemma {:induction false} InsertSorts(f: Field, sorted: seq<Field>)
    requires StrictlySorted(sorted) && !HasKey(sorted, f.key)
    ensures StrictlySorted(Insert(f, sorted))
  {
    if sorted != [] {
      var g := sorted[0];
      assert g in sorted;
      if Less(g.key, f.key) {
        InsertSorts(f, sorted[1..]);
        assert Insert(f, sorted)[1..] == Insert(f, sorted[1..]);
      } else {
        LessTotal(g.key, f.key);
        forall h | h in sorted[1..]
          ensures Less(f.key, h.key)
        {
          LessTransitive(f.key, g.key, h.key);
        }
        assert ([f] + sorted)[1..] == sorted;
      }
    }
  }

  lemma {:induction false} SortedSorts(fields: seq<Field>)
    requires DistinctKeys(fields)
    ensures StrictlySorted(Sorted(fields))
  {
    if fields != [] {
      SortedSorts(fields[1..]);
      InsertSorts(fields[0], Sorted(fields[1..]));
    }
  }

  // ---------------------------------------------------------------------
  // Normal forms: sorted, nothing undefined
  // ---------------------------------------------------------------------

  ghost function Normal(v: Json): Json
    decreases v
  {
    match v
    case Array(items) => Array(NormalItems(items))
    case Object(fields) => Object(Sorted(NormalFields(fields)))
    case _ => v
  }

  ghost function NormalItems(items: seq<Json>): (r: seq<Json>)
    ensures |r| == |items|
    decreases items
  {
    if items == [] then [] else [Normal(items[0])] + NormalItems(items[1..])
  }

  ghost function NormalFields(fields: seq<Field>): seq<Field>
    decreases fields
  {
    if fields == [] then []
    else if fields[0].value.Undefined? then NormalFields(fields[1..])
    else [Field(fields[0].key, Normal(fields[0].value))] + NormalFields(fields[1..])
  }

  predicate NormalForm(v: Json)
    decreases v
  {
    match v
    case Undefined => false
    case Number(numeral) => IsNumeral(numeral)
    case Array(items) => forall i :: 0 <= i < |items| ==> NormalForm(items[i])
    case Object(fields) => StrictlySorted(fields) && NormalValues(fields)
    case _ => true
  }

  predicate NormalValues(fields: seq<Field>)
    decreases fields
  {
    forall i :: 0 <= i < |fields| ==> NormalForm(fields[i].value)
  }

  predicate JsonFields(fields: seq<Field>)
  {
    forall i :: 0 <= i < |fields| ==> fields[i].value.Undefined? || IsJson(fields[i].value)
  }

  lemma {:induction false} NormalIsNormal(v: Json)
    requires IsJson(v)
    ensures NormalForm(Normal(v))
    decreases v
  {
    hide IsNumeral, StrictlySorted, DistinctKeys;
    match v {
      case Array(items) => NormalItemsAreNormal(items);
      case Object(fields) =>
        NormalFieldsAreNormal(fields);
        SortedSorts(NormalFields(fields));
      case _ =>
    }
  }

  lemma {:induction false} NormalItemsAreNormal(items: seq<Json>)
    requires forall i :: 0 <= i < |items| ==> IsJson(items[i])
    ensures forall i :: 0 <= i < |items| ==> NormalForm(NormalItems(items)[i])
    decreases items
  {
    hide NormalForm, IsJson;
    if items != [] {
      NormalIsNormal(items[0]);
      NormalItemsAreNormal(items[1..]);
    }
  }

  lemma {:induction false} NormalFieldsAreNormal(fields: seq<Field>)
    requires DistinctKeys(fields) && JsonFields(fields)
    ensures DistinctKeys(NormalFields(fields))
    ensures forall f :: f in NormalFields(fields) ==> NormalForm(f.value) && HasKey(fields, f.key)
    decreases fields
  {
    hide NormalForm, IsJson;
    if fields != [] {
      var first, rest := fields[0], fields[1..];
      NormalFieldsAreNormal(rest);
      if !first.value.Undefined? {
        NormalIsNormal(first.value);
        assert NormalFields(fields)[1..] == NormalFields(rest);
      }
      forall f | f in NormalFields(fields)
        ensures NormalForm(f.value) && HasKey(fields, f.key)
      {
        if f in NormalFields(rest) {
          var g :| g in rest && g.key == f.key;
          assert g in fields;
        } else {
          assert first in fields;
        }
      }
    }
  }

  // ---------------------------------------------------------------------
  // Normalizing keeps the meaning
  // ---------------------------------------------------------------------

  lemma KeyElsewhere(fields: seq<Field>, key: seq<Unit>)
    requires fields != [] && !HasKey(fields, key)
    ensures fields[0].key != key && !HasKey(fields[1..], key)
  {
    assert fields[0] in fields;
    assert forall f :: f in fields[1..] ==> f in fields;
  }

  lemma {:induction false} DenoteInsert(f: Field, sorted: seq<Field>)
    requires !f.value.Undefined? && !HasKey(sorted, f.key)
    ensures DenoteFields(Insert(f, sorted)) == DenoteFields(sorted)[f.key := Denote(f.value)]
  {
    hide Denote, HasKey, Less;
    if sorted != [] && Less(sorted[0].key, f.key) {
      KeyElsewhere(sorted, f.key);
      DenoteInsert(f, sorted[1..]);
      assert Insert(f, sorted)[1..] == Insert(f, sorted[1..]);
    } else {
      assert ([f] + sorted)[1..] == sorted;
    }
  }

  lemma {:induction false} DenoteSorted(fields: seq<Field>)
    requires DistinctKeys(fields) && forall f :: f in fields ==> !f.value.Undefined?
    ensures DenoteFields(Sorted(fields)) == DenoteFields(fields)
  {
    hide Denote;
    if fields != [] {
      DenoteSorted(fields[1..]);
      DenoteInsert(fields[0], Sorted(fields[1..]));
    }
  }

  lemma {:induction false} DenoteNormal(v: Json)
    requires IsJson(v)
    ensures Denote(Normal(v)) == Denote(v)
    decreases v
  {
    hide DistinctKeys, Sorted;
    match v {
      case Array(items) => DenoteNormalItems(items);
      case Object(fields) =>
        DenoteNormalFields(fields);
        NormalFieldsAreNormal(fields);
        DenoteSorted(NormalFields(fields));
      case _ =>
    }
  }

  lemma {:induction false} DenoteNormalItems(items: seq<Json>)
    requires forall i :: 0 <= i < |items| ==> IsJson(items[i])
    ensures DenoteItems(NormalItems(items)) == DenoteItems(items)
    decreases items
  {
    hide IsJson, Denote, Normal;
    if items != [] {
      DenoteNormal(items[0]);
      DenoteNormalItems(items[1..]);
      assert NormalItems(items)[1..] == NormalItems(items[1..]);
    }
  }

  lemma {:induction false} DenoteNormalFields(fields: seq<Field>)
    requires JsonFields(fields)
    ensures DenoteFields(NormalFields(fields)) == DenoteFields(fields)
    decreases fields
  {
    hide IsJson, Denote;
    if fields != [] {
      DenoteNormalFields(fields[1..]);
      if !fields[0].value.Undefined? {
        DenoteNormal(fields[0].value);
        assert NormalFields(fields)[1..] == NormalFields(fields[1..]);
      }
    }
  }

  // ---------------------------------------------------------------------
  // A normal form is determined by its meaning
  // ---------------------------------------------------------------------

  lemma {:induction false} DenotedKeys(fields: seq<Field>, key: seq<Unit>)
    requires NormalValues(fields)
    ensures key in DenoteFields(fields) <==> HasKey(fields, key)
    decreases |fields|
  {
    hide Denote, NormalForm;
    if fields != [] {
      assert NormalForm(fields[0].value);
      NormalIsDefined(fields[0].value);
      assert forall i :: 0 <= i < |fields| - 1 ==> fields[1..][i] == fields[i + 1];
      DenotedKeys(fields[1..], key);
      assert fields == [fields[0]] + fields[1..];
    }
  }

  lemma NormalIsDefined(v: Json)
    requires NormalForm(v)
    ensures !v.Undefined?
  {
  }

  lemma {:induction false} NormalUnique(v: Json, w: Json)
    requires NormalForm(v) && NormalForm(w) && Denote(v) == Denote(w)
    ensures v == w
    decreases v
  {
    hide IsNumeral, StrictlySorted;
    match v {
      case Array(items) => NormalItemsUnique(items, w.items);
      case Object(fields) => NormalFieldsUnique(fields, w.fields);
      case _ =>
    }
  }

  lemma {:induction false} NormalItemsUnique(a: seq<Json>, b: seq<Json>)
    requires forall i :: 0 <= i < |a| ==> NormalForm(a[i])
    requires forall i :: 0 <= i < |b| ==> NormalForm(b[i])
    requires DenoteItems(a) == DenoteItems(b)
    ensures a == b
    decreases a
  {
    hide NormalForm, Denote;
    assert |DenoteItems(a)| == |DenoteItems(b)|;
    if a != [] {
      assert DenoteItems(a)[0] == Denote(a[0]) && DenoteItems(b)[0] == Denote(b[0]);
      assert DenoteItems(a)[1..] == DenoteItems(a[1..]) && DenoteItems(b)[1..] == DenoteItems(b[1..]);
      NormalUnique(a[0], b[0]);
      NormalItemsUnique(a[1..], b[1..]);
      assert a == [a[0]] + a[1..] && b == [b[0]] + b[1..];
    }
  }

  lemma NoKeys(key: seq<Unit>)
    ensures !HasKey([], key)
  {
  }

  /** The first key of a sorted list is the least one of the map. */
  lemma FirstKeysAgree(a: seq<Field>, b: seq<Field>)
    requires a != [] && b != [] && StrictlySorted(a) && StrictlySorted(b)
    requires HasKey(b, a[0].key) && HasKey(a, b[0].key)
    ensures a[0].key == b[0].key
  {
    var f :| f in b && f.key == a[0].key;
    var g :| g in a && g.key == b[0].key;
    assert b == [b[0]] + b[1..] && a == [a[0]] + a[1..];
    if a[0].key != b[0].key {
      LessAsymmetric(b[0].key, a[0].key);
    }
  }

  lemma FirstKeyOnce(a: seq<Field>)
    requires a != [] && StrictlySorted(a) && NormalValues(a)
    ensures StrictlySorted(a[1..]) && NormalValues(a[1..]) && NormalForm(a[0].value)
    ensures a[0].key in DenoteFields(a) && DenoteFields(a)[a[0].key] == Denote(a[0].value)
    ensures DenoteFields(a[1..]) == DenoteFields(a) - {a[0].key}
  {
    hide Denote, NormalForm;
    NormalIsDefined(a[0].value);
    DenotedKeys(a[1..], a[0].key);
    if HasKey(a[1..], a[0].key) {
      LessAsymmetric(a[0].key, a[0].key);
    }
  }

  lemma {:induction false} NormalFieldsUnique(a: seq<Field>, b: seq<Field>)
    requires StrictlySorted(a) && StrictlySorted(b) && NormalValues(a) && NormalValues(b)
    requires DenoteFields(a) == DenoteFields(b)
    ensures a == b
    decreases a
  {
    hide NormalForm, Denote, StrictlySorted, NormalValues, HasKey;
    if a != [] {
      FirstKeyOnce(a);
      DenotedKeys(b, a[0].key);
      NoKeys(a[0].key);
    }
    if b != [] {
      FirstKeyOnce(b);
      DenotedKeys(a, b[0].key);
      NoKeys(b[0].key);
    }
    if a != [] && b != [] {
      FirstKeysAgree(a, b);
      NormalUnique(a[0].value, b[0].value);
      NormalFieldsUnique(a[1..], b[1..]);
      assert a == [a[0]] + a[1..] && b == [b[0]] + b[1..];
    }
  }

  // ---------------------------------------------------------------------
  // The text is that of the normal form, printed in order
  // ---------------------------------------------------------------------

  ghost function Print(v: Json): seq<Unit>
    decreases v
  {
    match v
    case Array(items) => [0x5B] + PrintItems(items) + [0x5D]
    case Object(fields) => [0x7B] + PrintFields(fields) + [0x7D]
    case _ => Canonical(v)
  }

  ghost function PrintItems(items: seq<Json>): seq<Unit>
    decreases items
  {
    if items == [] then [] else Joined(Print(items[0]), PrintItems(items[1..]), |items| == 1)
  }

  ghost function PrintField(f: Field): seq<Unit>
    decreases f
  {
    Quote(f.key) + [COLON] + Print(f.value)
  }

  ghost function PrintFields(fields: seq<Field>): seq<Unit>
    decreases fields
  {
    if fields == [] then [] else Joined(PrintField(fields[0]), PrintFields(fields[1..]), |fields| == 1)
  }

  predicate AllDefined(fields: seq<Field>)
  {
    forall f :: f in fields ==> !f.value.Undefined?
  }

  lemma {:induction false} DefinedAreDefined(fields: seq<Field>)
    ensures AllDefined(Defined(fields))
    ensures NormalFields(Defined(fields)) == NormalFields(fields)
  {
    hide Normal;
    if fields != [] {
      DefinedAreDefined(fields[1..]);
      if !fields[0].value.Undefined? {
        assert Defined(fields)[1..] == Defined(fields[1..]);
      }
    }
  }

  lemma {:induction false} NormalInsert(f: Field, sorted: seq<Field>)
    requires !f.value.Undefined? && AllDefined(sorted)
    ensures NormalFields(Insert(f, sorted)) == Insert(Field(f.key, Normal(f.value)), NormalFields(sorted))
  {
    hide Normal, Less;
    if sorted != [] {
      assert sorted[0] in sorted;
      if Less(sorted[0].key, f.key) {
        assert forall g :: g in sorted[1..] ==> g in sorted;
        NormalInsert(f, sorted[1..]);
        assert Insert(f, sorted)[1..] == Insert(f, sorted[1..]);
        assert NormalFields(sorted)[1..] == NormalFields(sorted[1..]);
      } else {
        assert ([f] + sorted)[1..] == sorted;
      }
    }
  }

  lemma {:induction false} NormalSorted(fields: seq<Field>)
    requires AllDefined(fields)
    ensures NormalFields(Sorted(fields)) == Sorted(NormalFields(fields))
  {
    hide Normal, Insert;
    if fields != [] {
      assert fields[0] in fields && forall g :: g in fields[1..] ==> g in fields;
      NormalSorted(fields[1..]);
      NormalInsert(fields[0], Sorted(fields[1..]));
      assert NormalFields(fields)[1..] == NormalFields(fields[1..]);
    }
  }

  lemma {:induction false} CanonicalIsPrint(v: Json)
    ensures Canonical(v) == Print(Normal(v))
    decreases v
  {
    hide Quote, Sorted, Defined, NormalFields;
    match v {
      case Array(items) => CanonicalItemsArePrinted(items);
      case Object(fields) =>
        DefinedAreDefined(fields);
        NormalSorted(Defined(fields));
        CanonicalEntriesArePrinted(Sorted(Defined(fields)), fields);
      case _ =>
    }
  }

  lemma {:induction false} CanonicalItemsArePrinted(items: seq<Json>)
    ensures CanonicalItems(items) == PrintItems(NormalItems(items))
    decreases items
  {
    hide Canonical, Print, Normal, Joined;
    if items != [] {
      CanonicalIsPrint(items[0]);
      CanonicalItemsArePrinted(items[1..]);
      assert NormalItems(items)[1..] == NormalItems(items[1..]);
    }
  }

  lemma {:induction false} CanonicalEntriesArePrinted(entries: seq<Field>, fields: seq<Field>)
    requires AllDefined(entries) && forall f :: f in entries ==> f in fields
    ensures CanonicalEntries(entries, fields) == PrintFields(NormalFields(entries))
    decreases fields, |entries|
  {
    hide Canonical, Print, Normal, Joined, Quote;
    if entries != [] {
      assert entries[0] in entries && entries[0] in fields;
      CanonicalIsPrint(entries[0].value);
      assert forall g :: g in entries[1..] ==> g in entries;
      CanonicalEntriesArePrinted(entries[1..], fields);
      var printed := NormalFields(entries);
      assert printed[1..] == NormalFields(entries[1..]) && |printed| >= 1;
      NormalKeepsLength(entries);
    }
  }

  lemma {:induction false} NormalKeepsLength(fields: seq<Field>)
    requires AllDefined(fields)
    ensures |NormalFields(fields)| == |fields|
  {
    hide Normal;
    if fields != [] {
      assert fields[0] in fields && forall g :: g in fields[1..] ==> g in fields;
      NormalKeepsLength(fields[1..]);
    }
  }

  // ---------------------------------------------------------------------
  // Printing is injective and says itself where it ends
  // ---------------------------------------------------------------------

  /** What may follow a value inside a text: nothing, or a comma or a closer. */
  predicate Follows(rest: seq<Unit>)
  {
    rest == [] || rest[0] == COMMA || rest[0] == 0x5D || rest[0] == 0x7D
  }

  function Kind(v: Json): nat
  {
    match v
    case Undefined => 0
    case Null => 1
    case Boolean(truth) => if truth then 2 else 3
    case Number(_) => 4
    case String(_) => 5
    case Array(_) => 6
    case Object(_) => 7
  }

  function KindOfUnit(u: Unit): nat
  {
    if u == 0x6E then 1
    else if u == 0x74 then 2
    else if u == 0x66 then 3
    else if u == 0x2D || 0x30 <= u <= 0x39 then 4
    else if u == QUOTE then 5
    else if u == 0x5B then 6
    else if u == 0x7B then 7
    else 0
  }

  lemma FirstUnitTellsKind(v: Json)
    requires NormalForm(v)
    ensures Print(v) != [] && KindOfUnit(Print(v)[0]) == Kind(v) != 0
  {
    hide Body;
  }

  lemma NumeralNoShorter(a: seq<Unit>, b: seq<Unit>, x: seq<Unit>, y: seq<Unit>)
    requires IsNumeral(b) && Follows(x) && a + x == b + y
    ensures |b| <= |a|
  {
    assert x != [] ==> (a + x)[|a|] == x[0];
    assert forall i :: 0 <= i < |b| ==> (b + y)[i] == b[i] && NumberUnit(b[i]);
  }

  lemma NumeralDelimited(a: seq<Unit>, b: seq<Unit>, x: seq<Unit>, y: seq<Unit>)
    requires IsNumeral(a) && IsNumeral(b) && Follows(x) && Follows(y) && a + x == b + y
    ensures a == b && x == y
  {
    NumeralNoShorter(a, b, x, y);
    NumeralNoShorter(b, a, y, x);
    assert a == (a + x)[..|a|] && b == (b + y)[..|b|];
    assert x == (a + x)[|a|..] && y == (b + y)[|b|..];
  }

  lemma {:induction false} PrintDelimited(v: Json, w: Json, x: seq<Unit>, y: seq<Unit>)
    requires NormalForm(v) && NormalForm(w) && Follows(x) && Follows(y)
    requires Print(v) + x == Print(w) + y
    ensures v == w && x == y
    decreases v, 1
  {
    FirstUnitTellsKind(v);
    FirstUnitTellsKind(w);
    SameKind(v, w, x, y);
    hide Print, Kind, KindOfUnit, NormalForm, Follows, NormalValues;
    NormalParts(v);
    NormalParts(w);
    match v {
      case Number(a) => NumeralDelimited(a, w.numeral, x, y);
      case String(a) => QuoteDelimited(a, w.units, x, y);
      case Array(a) =>
        Unwrap(v, x);
        Unwrap(w, y);
        ItemsDelimited(a, w.items, x, y);
      case Object(a) =>
        Unwrap(v, x);
        Unwrap(w, y);
        FieldsDelimited(a, w.fields, x, y);
      case Undefined =>
      case Null | Boolean(_) =>
        assert v == w;
        assert x == (Print(v) + x)[|Print(v)|..] && y == (Print(w) + y)[|Print(w)|..];
    }
  }

  lemma Unwrap(v: Json, x: seq<Unit>)
    ensures v.Array? ==> (Print(v) + x)[1..] == PrintItems(v.items) + ([0x5D] + x)
    ensures v.Object? ==> (Print(v) + x)[1..] == PrintFields(v.fields) + ([0x7D] + x)
  {
    hide PrintItems, PrintFields, Canonical;
  }

  lemma SameKind(v: Json, w: Json, x: seq<Unit>, y: seq<Unit>)
    requires Print(v) != [] && Print(w) != [] && Print(v) + x == Print(w) + y
    requires KindOfUnit(Print(v)[0]) == Kind(v) && KindOfUnit(Print(w)[0]) == Kind(w)
    ensures Kind(v) == Kind(w)
    ensures v.Null? <==> w.Null?
    ensures v.Boolean? <==> w.Boolean?
    ensures v.Boolean? ==> v == w
    ensures v.Number? <==> w.Number?
    ensures v.String? <==> w.String?
    ensures v.Array? <==> w.Array?
    ensures v.Object? <==> w.Object?
  {
    hide Print, KindOfUnit;
    assert Print(v)[0] == (Print(v) + x)[0] && Print(w)[0] == (Print(w) + y)[0];
  }

  lemma NormalParts(v: Json)
    requires NormalForm(v)
    ensures !v.Undefined?
    ensures v.Number? ==> IsNumeral(v.numeral) && Print(v) == v.numeral
    ensures v.String? ==> Print(v) == Quote(v.units)
    ensures v.Array? ==> forall i :: 0 <= i < |v.items| ==> NormalForm(v.items[i])
    ensures v.Object? ==> NormalValues(v.fields)
  {
  }

  /** The text after the first of several printed elements. */
  ghost function Continue(rest: seq<Unit>, last: bool, closer: Unit, x: seq<Unit>): seq<Unit>
  {
    if last then [closer] + x else [COMMA] + rest + [closer] + x
  }

  lemma ContinueTellsLast(p: seq<Unit>, q: seq<Unit>, lastP: bool, lastQ: bool, closer: Unit,
                          x: seq<Unit>, y: seq<Unit>)
    requires closer == 0x5D || closer == 0x7D
    requires Continue(p, lastP, closer, x) == Continue(q, lastQ, closer, y)
    ensures lastP == lastQ
    ensures lastP ==> x == y
    ensures !lastP ==> p + ([closer] + x) == q + ([closer] + y)
  {
    var a, b := Continue(p, lastP, closer, x), Continue(q, lastQ, closer, y);
    assert a[0] == (if lastP then closer else COMMA) && b[0] == (if lastQ then closer else COMMA);
    assert a[1..] == if lastP then x else p + ([closer] + x);
    assert b[1..] == if lastQ then y else q + ([closer] + y);
  }

  lemma {:induction false} ItemsDelimited(a: seq<Json>, b: seq<Json>, x: seq<Unit>, y: seq<Unit>)
    requires forall i :: 0 <= i < |a| ==> NormalForm(a[i])
    requires forall i :: 0 <= i < |b| ==> NormalForm(b[i])
    requires PrintItems(a) + ([0x5D] + x) == PrintItems(b) + ([0x5D] + y)
    ensures a == b && x == y
    decreases a, 0
  {
    hide NormalForm, Print, Kind;
    var whole := PrintItems(a) + ([0x5D] + x);
    if a != [] {
      FirstUnitTellsKind(a[0]);
      assert whole == Print(a[0]) + Continue(PrintItems(a[1..]), |a| == 1, 0x5D, x);
      assert whole[0] == Print(a[0])[0];
    }
    if b != [] {
      FirstUnitTellsKind(b[0]);
      assert whole == Print(b[0]) + Continue(PrintItems(b[1..]), |b| == 1, 0x5D, y);
      assert whole[0] == Print(b[0])[0];
    }
    if a != [] && b != [] {
      PrintDelimited(a[0], b[0], Continue(PrintItems(a[1..]), |a| == 1, 0x5D, x),
                     Continue(PrintItems(b[1..]), |b| == 1, 0x5D, y));
      ContinueTellsLast(PrintItems(a[1..]), PrintItems(b[1..]), |a| == 1, |b| == 1, 0x5D, x, y);
      if |a| != 1 {
        ItemsDelimited(a[1..], b[1..], x, y);
      }
      assert a == [a[0]] + a[1..] && b == [b[0]] + b[1..];
    } else {
      assert x == whole[1..] && y == whole[1..];
    }
  }

  lemma {:induction false} FieldDelimited(f: Field, g: Field, x: seq<Unit>, y: seq<Unit>)
    requires NormalForm(f.value) && NormalForm(g.value) && Follows(x) && Follows(y)
    requires PrintField(f) + x == PrintField(g) + y
    ensures f == g && x == y
    decreases f, 0
  {
    hide NormalForm, Print, Quote, Follows;
    var s, t := Print(f.value) + x, Print(g.value) + y;
    assert PrintField(f) + x == Quote(f.key) + ([COLON] + s);
    assert PrintField(g) + y == Quote(g.key) + ([COLON] + t);
    QuoteDelimited(f.key, g.key, [COLON] + s, [COLON] + t);
    assert s == ([COLON] + s)[1..] && t == ([COLON] + t)[1..];
    PrintDelimited(f.value, g.value, x, y);
  }

  lemma {:induction false} FieldsDelimited(a: seq<Field>, b: seq<Field>, x: seq<Unit>, y: seq<Unit>)
    requires NormalValues(a) && NormalValues(b)
    requires PrintFields(a) + ([0x7D] + x) == PrintFields(b) + ([0x7D] + y)
    ensures a == b && x == y
    decreases a, 0
  {
    hide NormalForm, Print, Quote, PrintField;
    var whole := PrintFields(a) + ([0x7D] + x);
    if a != [] {
      FieldStarts(a[0]);
      assert whole == PrintField(a[0]) + Continue(PrintFields(a[1..]), |a| == 1, 0x7D, x);
      assert whole[0] == PrintField(a[0])[0];
    }
    if b != [] {
      FieldStarts(b[0]);
      assert whole == PrintField(b[0]) + Continue(PrintFields(b[1..]), |b| == 1, 0x7D, y);
      assert whole[0] == PrintField(b[0])[0];
    }
    if a != [] && b != [] {
      FieldDelimited(a[0], b[0], Continue(PrintFields(a[1..]), |a| == 1, 0x7D, x),
                     Continue(PrintFields(b[1..]), |b| == 1, 0x7D, y));
      ContinueTellsLast(PrintFields(a[1..]), PrintFields(b[1..]), |a| == 1, |b| == 1, 0x7D, x, y);
      if |a| != 1 {
        FieldsDelimited(a[1..], b[1..], x, y);
      }
      assert a == [a[0]] + a[1..] && b == [b[0]] + b[1..];
    } else {
      assert x == whole[1..] && y == whole[1..];
    }
  }

  lemma FieldStarts(f: Field)
    ensures PrintField(f) != [] && PrintField(f)[0] == QUOTE
  {
    hide Body, Print;
  }

  // ---------------------------------------------------------------------
  // The theorem
  // ---------------------------------------------------------------------

  /**
   * Same text exactly when same value: insertion order and `undefined` fields
   * do not matter, and nothing else is lost.
   */
  lemma CanonicalIffSameValue(v: Json, w: Json)
    requires IsJson(v) && IsJson(w)
    ensures Canonical(v) == Canonical(w) <==> Denote(v) == Denote(w)
  {
    hide IsJson, NormalForm, Denote, Normal, Canonical, Print;
    CanonicalIsPrint(v);
    CanonicalIsPrint(w);
    NormalIsNormal(v);
    NormalIsNormal(w);
    DenoteNormal(v);
    DenoteNormal(w);
    if Canonical(v) == Canonical(w) {
      assert Print(Normal(v)) + [] == Print(Normal(v)) && Print(Normal(w)) + [] == Print(Normal(w));
      PrintDelimited(Normal(v), Normal(w), [], []);
    }
    if Denote(v) == Denote(w) {
      NormalUnique(Normal(v), Normal(w));
    }
  }

  /** No value text is a proper prefix of another up to what may follow it. */
  lemma CanonicalIsDelimited(v: Json, w: Json, x: seq<Unit>, y: seq<Unit>)
    requires IsJson(v) && IsJson(w) && Follows(x) && Follows(y)
    requires Canonical(v) + x == Canonical(w) + y
    ensures Denote(v) == Denote(w) && x == y
  {
    hide IsJson, NormalForm, Denote, Normal, Canonical, Print, Follows;
    CanonicalIsPrint(v);
    CanonicalIsPrint(w);
    NormalIsNormal(v);
    NormalIsNormal(w);
    DenoteNormal(v);
    DenoteNormal(w);
    PrintDelimited(Normal(v), Normal(w), x, y);
  }

  lemma PrintsSomething(v: Json)
    ensures IsJson(v) ==> Canonical(v) != []
  {
    hide CanonicalItems, CanonicalEntries, Body;
  }

  /**
   * Outside JSON values it is not injective: of all arrays of JSON values and
   * `undefined` items, exactly the array of one `undefined` prints as the
   * empty array does.
   */
  lemma UndefinedItemCollides(items: seq<Json>)
    requires forall i :: 0 <= i < |items| ==> items[i].Undefined? || IsJson(items[i])
    ensures Canonical(Array(items)) == Canonical(Array([])) <==> items == [] || items == [Undefined]
    ensures Denote(Array([Undefined])) != Denote(Array([]))
  {
    assert CanonicalItems([Undefined]) == [];
    assert DenoteItems([Undefined]) == [NoValue] && DenoteItems([]) == [];
    if items != [] {
      PrintsSomething(items[0]);
      hide IsJson, Canonical;
      assert |items| == 1 ==> items == [items[0]];
      assert CanonicalItems(items) == [] <==> |items| == 1 && Canonical(items[0]) == [];
    }
    BracketsTellApart(CanonicalItems(items), []);
  }

  lemma BracketsTellApart(a: seq<Unit>, b: seq<Unit>)
    ensures [0x5B] + a + [0x5D] == [0x5B] + b + [0x5D] <==> a == b
  {
    var s, t := [0x5B] + a + [0x5D], [0x5B] + b + [0x5D];
    if s == t {
      assert a == s[1..|s| - 1] && b == t[1..|t| - 1];
    }
  }
}
