/**
 * The canonical text in characters: the literals, the punctuation, the order
 * of the keys and the escapes.
 */
module JsonTexts {
  import opened Utf16
  import opened Printing
  import opened CanonicalJson

  lemma LiteralTexts()
    ensures Canonical(Null) == Ascii("null")
    ensures Canonical(Boolean(true)) == Ascii("true")
    ensures Canonical(Boolean(false)) == Ascii("false")
  {
  }

  // ---------------------------------------------------------------------
  // Arrays and objects
  // ---------------------------------------------------------------------

  /** The texts, with commas between them. */
  function Listed(texts: seq<seq<Unit>>): seq<Unit>
  {
    if texts == [] then []
    else if |texts| == 1 then texts[0]
    else Listed(texts[..|texts| - 1]) + Ascii(",") + texts[|texts| - 1]
  }

  lemma {:induction false} ListedFromFront(texts: seq<seq<Unit>>)
    requires |texts| >= 2
    ensures Listed(texts) == texts[0] + [COMMA] + Listed(texts[1..])
  {
    var init, last := texts[..|texts| - 1], texts[|texts| - 1];
    assert Ascii(",") == [COMMA];
    if |texts| > 2 {
      ListedFromFront(init);
      assert texts[1..][..|texts| - 2] == init[1..];
      assert Listed(texts[1..]) == Listed(init[1..]) + [COMMA] + last;
    } else {
      assert init == [texts[0]] && texts[1..] == [last];
    }
  }

  lemma ArrayText(items: seq<Json>, texts: seq<seq<Unit>>)
    requires |texts| == |items| && forall i :: 0 <= i < |items| ==> texts[i] == Canonical(items[i])
    ensures Canonical(Array(items)) == Ascii("[") + Listed(texts) + Ascii("]")
  {
    ItemsText(items, texts);
    assert Ascii("[") == [0x5B] && Ascii("]") == [0x5D];
  }

  lemma {:induction false} ItemsText(items: seq<Json>, texts: seq<seq<Unit>>)
    requires |texts| == |items| && forall i :: 0 <= i < |items| ==> texts[i] == Canonical(items[i])
    ensures CanonicalItems(items) == Listed(texts)
  {
    hide Canonical;
    if |items| > 1 {
      ItemsText(items[1..], texts[1..]);
      ListedFromFront(texts);
    }
  }

  /** Keys come in order, each with its value behind a colon; `undefined` fields are left out. */
  lemma ObjectText(fields: seq<Field>, texts: seq<seq<Unit>>)
    requires var entries := Sorted(Defined(fields));
      && |texts| == |entries|
      && forall i :: 0 <= i < |entries| ==>
           texts[i] == Quote(entries[i].key) + Ascii(":") + Canonical(entries[i].value)
    ensures Canonical(Object(fields)) == Ascii("{") + Listed(texts) + Ascii("}")
  {
    hide *;
    ObjectParts(fields);
    DefinedAreFields(fields);
    EntriesText(Sorted(Defined(fields)), fields, texts);
  }

  lemma DefinedAreFields(fields: seq<Field>)
    ensures forall f :: f in Sorted(Defined(fields)) ==> f in fields
  {
    hide *;
  }

  lemma ObjectParts(fields: seq<Field>)
    requires forall f :: f in Sorted(Defined(fields)) ==> f in fields
    ensures Canonical(Object(fields)) == Ascii("{") + CanonicalEntries(Sorted(Defined(fields)), fields) + Ascii("}")
  {
    hide Sorted, Defined, CanonicalEntries;
    assert Ascii("{") == [0x7B] && Ascii("}") == [0x7D];
  }

  lemma {:induction false} EntriesText(entries: seq<Field>, fields: seq<Field>, texts: seq<seq<Unit>>)
    requires forall f :: f in entries ==> f in fields
    requires |texts| == |entries| && forall i :: 0 <= i < |entries| ==>
      texts[i] == Quote(entries[i].key) + Ascii(":") + Canonical(entries[i].value)
    ensures CanonicalEntries(entries, fields) == Listed(texts)
    decreases |entries|
  {
    hide Canonical, Quote;
    assert Ascii(":") == [COLON];
    if |entries| > 0 {
      assert texts[0] == Quote(entries[0].key) + [COLON] + Canonical(entries[0].value);
    }
    if |entries| > 1 {
      EntriesText(entries[1..], fields, texts[1..]);
      ListedFromFront(texts);
    }
  }

  /** The strings agree up to `n`, where the first has ended or holds the smaller unit. */
  predicate PrecedesAt(a: seq<Unit>, b: seq<Unit>, n: nat)
  {
    n <= |a| && n < |b| && a[..n] == b[..n] && (n == |a| || a[n] < b[n])
  }

  lemma {:induction false} LessIffPrecedes(a: seq<Unit>, b: seq<Unit>)
    ensures Less(a, b) <==> exists n: nat :: PrecedesAt(a, b, n)
  {
    if a == [] || b == [] || a[0] != b[0] {
      if Less(a, b) {
        assert PrecedesAt(a, b, 0);
      }
      if n: nat :| PrecedesAt(a, b, n) && n > 0 {
        assert a[..n][0] == b[..n][0];
      }
    } else {
      LessIffPrecedes(a[1..], b[1..]);
      if n: nat :| PrecedesAt(a[1..], b[1..], n) {
        assert a[..n + 1] == [a[0]] + a[1..][..n] && b[..n + 1] == [b[0]] + b[1..][..n];
        assert PrecedesAt(a, b, n + 1);
      }
      if n: nat :| PrecedesAt(a, b, n) {
        assert a[1..][..n - 1] == a[..n][1..] && b[1..][..n - 1] == b[..n][1..];
        assert PrecedesAt(a[1..], b[1..], n - 1);
      }
    }
  }

  // ---------------------------------------------------------------------
  // Strings
  // ---------------------------------------------------------------------

  /** A unit by itself, as section 7 of RFC 8259 lets it be written. */
  lemma UnitText(u: Unit)
    ensures u == 0x22 ==> Body([u]) == Ascii("\\\"")
    ensures u == 0x5C ==> Body([u]) == Ascii("\\\\")
    ensures u == 0x08 ==> Body([u]) == Ascii("\\b")
    ensures u == 0x0C ==> Body([u]) == Ascii("\\f")
    ensures u == 0x0A ==> Body([u]) == Ascii("\\n")
    ensures u == 0x0D ==> Body([u]) == Ascii("\\r")
    ensures u == 0x09 ==> Body([u]) == Ascii("\\t")
    ensures (u < 0x20 && u != 0x08 && !(0x09 <= u <= 0x0A) && !(0x0C <= u <= 0x0D)) || 0xD800 <= u < 0xE000
      ==> Body([u]) == Ascii("\\u") + [Hex(u / 4096), Hex(u / 256 % 16), Hex(u / 16 % 16), Hex(u % 16)]
    ensures u >= 0x20 && u != 0x22 && u != 0x5C && !(0xD800 <= u < 0xE000) ==> Body([u]) == [u]
  {
    BodyOfOne(u);
    hide Body;
    if ShortEscape(u) == 0 && (u < 0x20 || 0xD800 <= u < 0xE000) {
      EscapedText(u);
    }
  }

  lemma BodyOfOne(u: Unit)
    ensures Body([u]) == Piece(u)
  {
    hide Piece;
    assert [u][1..] == [] && Body([]) == [];
    assert Piece(u) + [] == Piece(u);
  }

  lemma EscapedText(u: Unit)
    ensures UnicodeEscape(u) == Ascii("\\u") + [Hex(u / 4096), Hex(u / 256 % 16), Hex(u / 16 % 16), Hex(u % 16)]
  {
    hide Hex, HexDigit;
    HexIsHexDigit(u / 4096);
    HexIsHexDigit(u / 256 % 16);
    HexIsHexDigit(u / 16 % 16);
    HexIsHexDigit(u % 16);
    assert Ascii("\\u") == [BACKSLASH, 0x75];
  }

  function Hex(n: nat): Unit
    requires n < 16
  {
    "0123456789abcdef"[n] as int
  }

  lemma HexIsHexDigit(n: nat)
    requires n < 16
    ensures Hex(n) == HexDigit(n)
  {
  }

  /** A surrogate pair is written as it is. */
  lemma PairText(high: Unit, low: Unit)
    requires IsHigh(high) && IsLow(low)
    ensures Body([high, low]) == [high, low]
  {
    assert Body([]) == [] && [high, low][2..] == [] && [high, low][..2] == [high, low];
  }

  /** Texts are written one after the other, unless a pair straddles them. */
  lemma {:induction false} BodyConcat(s: seq<Unit>, t: seq<Unit>)
    requires s == [] || t == [] || !(IsHigh(s[|s| - 1]) && IsLow(t[0]))
    ensures Body(s + t) == Body(s) + Body(t)
    decreases |s|
  {
    hide *;
    if s == [] {
      NoBody();
      assert s + t == t && Body(s) + Body(t) == Body(t);
    } else {
      FirstOfConcat(s, t);
      BodyBegins(s);
      BodyBegins(s + t);
      var rest := s[Lead(s)..];
      BodyConcat(rest, t);
      assert FirstPiece(s) + (Body(rest) + Body(t)) == (FirstPiece(s) + Body(rest)) + Body(t);
    }
  }

  lemma NoBody()
    ensures Body([]) == []
  {
  }

  lemma BodyBegins(s: seq<Unit>)
    requires s != []
    ensures Body(s) == FirstPiece(s) + Body(s[Lead(s)..])
  {
    hide FirstPiece, Lead;
  }

  lemma FirstOfConcat(s: seq<Unit>, t: seq<Unit>)
    requires s != [] && (t == [] || !(IsHigh(s[|s| - 1]) && IsLow(t[0])))
    ensures Lead(s + t) == Lead(s) && FirstPiece(s + t) == FirstPiece(s)
    ensures (s + t)[Lead(s)..] == s[Lead(s)..] + t
    ensures var rest := s[Lead(s)..]; rest == [] || rest[|rest| - 1] == s[|s| - 1]
  {
    hide Piece;
    var first := Lead(s);
    assert (s + t)[0] == s[0] && (|s| >= 2 ==> (s + t)[1] == s[1]);
    if first == 2 {
      assert (s + t)[..2] == s[..2];
    }
  }

  /** The text in quotation marks. */
  lemma QuotedText(s: seq<Unit>)
    ensures Canonical(String(s)) == Ascii("\"") + Body(s) + Ascii("\"")
  {
    assert Ascii("\"") == [QUOTE];
  }
}
