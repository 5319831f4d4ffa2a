/**
 * Telex composition: a left fold over ASCII keys that rewrites the end of its
 * output, with undo for repeated keys.
 */
module Telex {
  import opened Wrappers

  datatype Tone = Flat | Grave | Acute | Hook | Tilde | Dot

  datatype Shape = A | Abreve | Acirc | E | Ecirc | I | O | Ocirc | Ohorn | U | Uhorn | Y

  // ---------------------------------------------------------------------
  // The vowel table
  // ---------------------------------------------------------------------

  function EncodeVowel(shape: Shape, tone: Tone): char
  {
    match shape
    case A =>
      (match tone
       case Flat => 'a' case Grave => 'à' case Acute => 'á' case Hook => 'ả' case Tilde => 'ã' case Dot => 'ạ')
    case Abreve =>
      (match tone
       case Flat => 'ă' case Grave => 'ằ' case Acute => 'ắ' case Hook => 'ẳ' case Tilde => 'ẵ' case Dot => 'ặ')
    case Acirc =>
      (match tone
       case Flat => 'â' case Grave => 'ầ' case Acute => 'ấ' case Hook => 'ẩ' case Tilde => 'ẫ' case Dot => 'ậ')
    case E =>
      (match tone
       case Flat => 'e' case Grave => 'è' case Acute => 'é' case Hook => 'ẻ' case Tilde => 'ẽ' case Dot => 'ẹ')
    case Ecirc =>
      (match tone
       case Flat => 'ê' case Grave => 'ề' case Acute => 'ế' case Hook => 'ể' case Tilde => 'ễ' case Dot => 'ệ')
    case I =>
      (match tone
       case Flat => 'i' case Grave => 'ì' case Acute => 'í' case Hook => 'ỉ' case Tilde => 'ĩ' case Dot => 'ị')
    case O =>
      (match tone
       case Flat => 'o' case Grave => 'ò' case Acute => 'ó' case Hook => 'ỏ' case Tilde => 'õ' case Dot => 'ọ')
    case Ocirc =>
      (match tone
       case Flat => 'ô' case Grave => 'ồ' case Acute => 'ố' case Hook => 'ổ' case Tilde => 'ỗ' case Dot => 'ộ')
    case Ohorn =>
      (match tone
       case Flat => 'ơ' case Grave => 'ờ' case Acute => 'ớ' case Hook => 'ở' case Tilde => 'ỡ' case Dot => 'ợ')
    case U =>
      (match tone
       case Flat => 'u' case Grave => 'ù' case Acute => 'ú' case Hook => 'ủ' case Tilde => 'ũ' case Dot => 'ụ')
    case Uhorn =>
      (match tone
       case Flat => 'ư' case Grave => 'ừ' case Acute => 'ứ' case Hook => 'ử' case Tilde => 'ữ' case Dot => 'ự')
    case Y =>
      (match tone
       case Flat => 'y' case Grave => 'ỳ' case Acute => 'ý' case Hook => 'ỷ' case Tilde => 'ỹ' case Dot => 'ỵ')
  }

  /** The table searched by code point. */
  function DecodeVowel(c: char): Option<(Shape, Tone)>
  {
    match c as int
    // aàáảãạ
    case 0x61 => Some((A, Flat)) case 0xE0 => Some((A, Grave)) case 0xE1 => Some((A, Acute))
    case 0x1EA3 => Some((A, Hook)) case 0xE3 => Some((A, Tilde)) case 0x1EA1 => Some((A, Dot))
    // ăằắẳẵặ
    case 0x103 => Some((Abreve, Flat)) case 0x1EB1 => Some((Abreve, Grave)) case 0x1EAF => Some((Abreve, Acute))
    case 0x1EB3 => Some((Abreve, Hook)) case 0x1EB5 => Some((Abreve, Tilde)) case 0x1EB7 => Some((Abreve, Dot))
    // âầấẩẫậ
    case 0xE2 => Some((Acirc, Flat)) case 0x1EA7 => Some((Acirc, Grave)) case 0x1EA5 => Some((Acirc, Acute))
    case 0x1EA9 => Some((Acirc, Hook)) case 0x1EAB => Some((Acirc, Tilde)) case 0x1EAD => Some((Acirc, Dot))
    // eèéẻẽẹ
    case 0x65 => Some((E, Flat)) case 0xE8 => Some((E, Grave)) case 0xE9 => Some((E, Acute))
    case 0x1EBB => Some((E, Hook)) case 0x1EBD => Some((E, Tilde)) case 0x1EB9 => Some((E, Dot))
    // êềếểễệ
    case 0xEA => Some((Ecirc, Flat)) case 0x1EC1 => Some((Ecirc, Grave)) case 0x1EBF => Some((Ecirc, Acute))
    case 0x1EC3 => Some((Ecirc, Hook)) case 0x1EC5 => Some((Ecirc, Tilde)) case 0x1EC7 => Some((Ecirc, Dot))
    // iìíỉĩị
    case 0x69 => Some((I, Flat)) case 0xEC => Some((I, Grave)) case 0xED => Some((I, Acute))
    case 0x1EC9 => Some((I, Hook)) case 0x129 => Some((I, Tilde)) case 0x1ECB => Some((I, Dot))
    // oòóỏõọ
    case 0x6F => Some((O, Flat)) case 0xF2 => Some((O, Grave)) case 0xF3 => Some((O, Acute))
    case 0x1ECF => Some((O, Hook)) case 0xF5 => Some((O, Tilde)) case 0x1ECD => Some((O, Dot))
    // ôồốổỗộ
    case 0xF4 => Some((Ocirc, Flat)) case 0x1ED3 => Some((Ocirc, Grave)) case 0x1ED1 => Some((Ocirc, Acute))
    case 0x1ED5 => Some((Ocirc, Hook)) case 0x1ED7 => Some((Ocirc, Tilde)) case 0x1ED9 => Some((Ocirc, Dot))
    // ơờớởỡợ
    case 0x1A1 => Some((Ohorn, Flat)) case 0x1EDD => Some((Ohorn, Grave)) case 0x1EDB => Some((Ohorn, Acute))
    case 0x1EDF => Some((Ohorn, Hook)) case 0x1EE1 => Some((Ohorn, Tilde)) case 0x1EE3 => Some((Ohorn, Dot))
    // uùúủũụ
    case 0x75 => Some((U, Flat)) case 0xF9 => Some((U, Grave)) case 0xFA => Some((U, Acute))
    case 0x1EE7 => Some((U, Hook)) case 0x169 => Some((U, Tilde)) case 0x1EE5 => Some((U, Dot))
    // ưừứửữự
    case 0x1B0 => Some((Uhorn, Flat)) case 0x1EEB => Some((Uhorn, Grave)) case 0x1EE9 => Some((Uhorn, Acute))
    case 0x1EED => Some((Uhorn, Hook)) case 0x1EEF => Some((Uhorn, Tilde)) case 0x1EF1 => Some((Uhorn, Dot))
    // yỳýỷỹỵ
    case 0x79 => Some((Y, Flat)) case 0x1EF3 => Some((Y, Grave)) case 0xFD => Some((Y, Acute))
    case 0x1EF7 => Some((Y, Hook)) case 0x1EF9 => Some((Y, Tilde)) case 0x1EF5 => Some((Y, Dot))
    case _ => None
  }

  lemma FrontVowelRoundTrip(shape: Shape, tone: Tone)
    requires shape.A? || shape.Abreve? || shape.Acirc? || shape.E? || shape.Ecirc? || shape.I?
    ensures DecodeVowel(EncodeVowel(shape, tone)) == Some((shape, tone))
  {
  }

  lemma RoundVowelRoundTrip(shape: Shape, tone: Tone)
    requires shape.O? || shape.Ocirc? || shape.Ohorn?
    ensures DecodeVowel(EncodeVowel(shape, tone)) == Some((shape, tone))
  {
  }

  lemma CloseVowelRoundTrip(shape: Shape, tone: Tone)
    requires shape.U? || shape.Uhorn? || shape.Y?
    ensures DecodeVowel(EncodeVowel(shape, tone)) == Some((shape, tone))
  {
  }

  /** Every entry of the table is found where it stands. */
  lemma VowelRoundTrip(shape: Shape, tone: Tone)
    ensures DecodeVowel(EncodeVowel(shape, tone)) == Some((shape, tone))
  {
    hide DecodeVowel, EncodeVowel;
    match shape {
      case A | Abreve | Acirc | E | Ecirc | I => FrontVowelRoundTrip(shape, tone);
      case O | Ocirc | Ohorn => RoundVowelRoundTrip(shape, tone);
      case U | Uhorn | Y => CloseVowelRoundTrip(shape, tone);
    }
  }

  /** Nothing outside the table decodes. */
  lemma VowelTableIsExact(c: char)
    ensures DecodeVowel(c).Some? ==> EncodeVowel(DecodeVowel(c).value.0, DecodeVowel(c).value.1) == c
  {
  }

  /** What the keys with a meaning decode to as letters. */
  function KeyShape(key: char): Option<Shape>
  {
    match key
    case 'a' => Some(A)
    case 'e' => Some(E)
    case 'o' => Some(O)
    case 'u' => Some(U)
    case _ => None
  }

  lemma VowelLetter(key: char)
    requires key in ['a', 'e', 'o', 'u']
    ensures KeyShape(key).Some? && DecodeVowel(key) == Some((KeyShape(key).value, Flat))
  {
  }

  lemma ConsonantLetter(key: char)
    requires key in ['d', 'w', 'f', 's', 'r', 'x', 'j']
    ensures DecodeVowel(key).None?
  {
  }

  lemma StrokedLetter()
    ensures DecodeVowel('đ').None?
  {
  }

  // ---------------------------------------------------------------------
  // One key
  // ---------------------------------------------------------------------

  datatype Transition = Replace(shape: Shape) | Undo(shape: Shape)

  function ShapeTransition(key: char, shape: Shape): Option<Transition>
  {
    match (key, shape)
    case ('a', A) => Some(Replace(Acirc))
    case ('a', Acirc) => Some(Undo(A))
    case ('w', Abreve) => Some(Undo(A))
    case ('e', E) => Some(Replace(Ecirc))
    case ('e', Ecirc) => Some(Undo(E))
    case ('o', O) => Some(Replace(Ocirc))
    case ('o', Ocirc) => Some(Undo(O))
    case ('w', Ohorn) => Some(Undo(O))
    case ('w', A) => Some(Replace(Abreve))
    case ('w', O) => Some(Replace(Ohorn))
    case ('w', U) => Some(Replace(Uhorn))
    case ('w', Uhorn) => Some(Undo(U))
    case _ => None
  }

  function ToneOf(key: char): Option<Tone>
  {
    match key
    case 'f' => Some(Grave)
    case 's' => Some(Acute)
    case 'r' => Some(Hook)
    case 'x' => Some(Tilde)
    case 'j' => Some(Dot)
    case _ => None
  }

  function ReplaceLast(text: string, c: char): (r: string)
    requires text != []
    ensures |r| == |text|
  {
    text[..|text| - 1] + [c]
  }

  /** The new output and whether the key was taken. */
  function ShapeKey(output: string, key: char): (string, bool)
  {
    if output == [] then (output, false) else
    var last := output[|output| - 1];
    if key == 'd' && last == 'd' then (ReplaceLast(output, 'đ'), true)
    else if key == 'd' && last == 'đ' then (ReplaceLast(output, 'd') + ['d'], true)
    else
      match DecodeVowel(last)
      case None => (output, false)
      case Some((shape, tone)) =>
        match ShapeTransition(key, shape)
        case None => (output, false)
        case Some(Replace(next)) => (ReplaceLast(output, EncodeVowel(next, tone)), true)
        case Some(Undo(next)) => (ReplaceLast(output, EncodeVowel(next, tone)) + [key], true)
  }

  function LastVowel(text: string): (index: Option<nat>)
    ensures index.Some? ==> index.value < |text| && DecodeVowel(text[index.value]).Some?
  {
    if text == [] then None
    else if DecodeVowel(text[|text| - 1]).Some? then Some(|text| - 1)
    else LastVowel(text[..|text| - 1])
  }

  /** A repeated tone clears the vowel and is not taken. */
  function ToneKey(output: string, key: char): (string, bool)
  {
    match (ToneOf(key), LastVowel(output))
    case (Some(requested), Some(index)) =>
      var (shape, current) := DecodeVowel(output[index]).value;
      if current == requested then (output[index := EncodeVowel(shape, Flat)], false)
      else (output[index := EncodeVowel(shape, requested)], true)
    case _ => (output, false)
  }

  function Press(output: string, key: char): string
  {
    var (shaped, taken) := ShapeKey(output, key);
    if taken then shaped else
    var (toned, handled) := ToneKey(shaped, key);
    if handled then toned else toned + [key]
  }

  predicate IsAscii(c: char)
  {
    c as int < 0x80
  }

  predicate AllAscii(raw: string)
  {
    forall i :: 0 <= i < |raw| ==> IsAscii(raw[i])
  }

  function PressAll(output: string, keys: string): string
  {
    if keys == [] then output else Press(PressAll(output, keys[..|keys| - 1]), keys[|keys| - 1])
  }

  function FirstNonAscii(raw: string): (index: Option<nat>)
    ensures index.Some? ==> index.value < |raw|
    ensures index.None? <==> AllAscii(raw)
  {
    if raw == [] then None
    else if !IsAscii(raw[0]) then Some(0)
    else
      match FirstNonAscii(raw[1..])
      case None => None
      case Some(i) => Some(i + 1)
  }

  /** Composing stops at the first key that is not ASCII. */
  function Compose(raw: string): Result<string, char>
  {
    match FirstNonAscii(raw)
    case None => Success(PressAll([], raw))
    case Some(index) => Failure(raw[index])
  }

  // ---------------------------------------------------------------------
  // The composing loop
  // ---------------------------------------------------------------------

  class Output {
    var text: string

    constructor ()
      ensures text == []
    {
      text := [];
    }

    method TryShapeTransform(key: char) returns (taken: bool)
      modifies this
      ensures (text, taken) == ShapeKey(old(text), key)
    {
      hide DecodeVowel, EncodeVowel, ShapeTransition;
      if text == [] {
        return false;
      }
      var last := text[|text| - 1];
      if key == 'd' {
        if last == 'd' {
          text := text[|text| - 1 := 'đ'];
          assert text == ReplaceLast(old(text), 'đ');
          return true;
        }
        if last == 'đ' {
          text := text[|text| - 1 := 'd'];
          assert text == ReplaceLast(old(text), 'd');
          text := text + ['d'];
          return true;
        }
      }
      var vowel := DecodeVowel(last);
      if vowel.None? {
        return false;
      }
      var (shape, tone) := vowel.value;
      var transition := ShapeTransition(key, shape);
      match transition {
        case None => return false;
        case Some(Replace(next)) =>
          text := text[|text| - 1 := EncodeVowel(next, tone)];
          assert text == ReplaceLast(old(text), EncodeVowel(next, tone));
        case Some(Undo(next)) =>
          text := text[|text| - 1 := EncodeVowel(next, tone)];
          assert text == ReplaceLast(old(text), EncodeVowel(next, tone));
          text := text + [key];
      }
      return true;
    }

    method TryTone(key: char) returns (taken: bool)
      modifies this
      ensures (text, taken) == ToneKey(old(text), key)
    {
      hide DecodeVowel, EncodeVowel, LastVowel;
      var requested, index := ToneOf(key), LastVowel(text);
      if requested.None? || index.None? {
        return false;
      }
      var (shape, current) := DecodeVowel(text[index.value]).value;
      if current == requested.value {
        text := text[index.value := EncodeVowel(shape, Flat)];
        return false;
      }
      text := text[index.value := EncodeVowel(shape, requested.value)];
      return true;
    }
  }

  method ComposeKeys(raw: string) returns (r: Result<string, char>)
    ensures r == Compose(raw)
  {
    hide ShapeKey, ToneKey;
    var output := new Output();
    var i := 0;
    while i < |raw|
      invariant i <= |raw| && AllAscii(raw[..i]) && output.text == PressAll([], raw[..i])
    {
      var key := raw[i];
      if !IsAscii(key) {
        FirstNonAsciiAt(raw, i);
        return Failure(key);
      }
      assert raw[..i + 1][..i] == raw[..i];
      var taken := output.TryShapeTransform(key);
      if !taken {
        taken := output.TryTone(key);
        if !taken {
          output.text := output.text + [key];
        }
      }
      i := i + 1;
    }
    assert raw[..i] == raw;
    return Success(output.text);
  }

  lemma {:induction false} FirstNonAsciiAt(raw: string, i: nat)
    requires i < |raw| && AllAscii(raw[..i]) && !IsAscii(raw[i])
    ensures FirstNonAscii(raw) == Some(i)
  {
    if i > 0 {
      assert raw[0] == raw[..i][0] && raw[1..][..i - 1] == raw[..i][1..];
      FirstNonAsciiAt(raw[1..], i - 1);
    }
  }

  // ---------------------------------------------------------------------
  // The output never shrinks and never outgrows the keys
  // ---------------------------------------------------------------------

  lemma PressLength(output: string, key: char)
    ensures |output| <= |Press(output, key)| <= |output| + 1
    ensures Press(output, key) != []
  {
    hide DecodeVowel, EncodeVowel, ShapeTransition, LastVowel;
  }

  lemma {:induction false} PressAllLength(output: string, keys: string)
    ensures |output| <= |PressAll(output, keys)| <= |output| + |keys|
    ensures keys != [] ==> PressAll(output, keys) != []
  {
    hide Press;
    if keys != [] {
      PressAllLength(output, keys[..|keys| - 1]);
      PressLength(PressAll(output, keys[..|keys| - 1]), keys[|keys| - 1]);
    }
  }

  lemma {:induction false} PressAllAppend(output: string, first: string, second: string)
    ensures PressAll(output, first + second) == PressAll(PressAll(output, first), second)
  {
    hide Press;
    if second == [] {
      assert first + second == first;
    } else {
      var n := |second| - 1;
      assert (first + second)[..|first| + n] == first + second[..n];
      PressAllAppend(output, first, second[..n]);
    }
  }

  /** One key more never shortens the rendered text; a non-empty token renders non-empty. */
  lemma ComposeLength(raw: string, more: string)
    requires AllAscii(raw + more)
    ensures AllAscii(raw) && Compose(raw).Success? && Compose(raw + more).Success?
    ensures |Compose(raw).value| <= |Compose(raw + more).value| <= |Compose(raw).value| + |more|
    ensures |Compose(raw).value| <= |raw|
    ensures raw != [] ==> Compose(raw).value != []
  {
    hide Press;
    assert forall i :: 0 <= i < |raw| ==> (raw + more)[i] == raw[i];
    PressAllAppend([], raw, more);
    PressAllLength([], raw);
    PressAllLength(PressAll([], raw), more);
  }

  // ---------------------------------------------------------------------
  // Which raw text stays as it is
  // ---------------------------------------------------------------------

  /** The key has something to act on in an ASCII text. */
  predicate Acts(prefix: string, key: char)
  {
    || (prefix != [] && key == 'd' && prefix[|prefix| - 1] == 'd')
    || (prefix != [] && DecodeVowel(prefix[|prefix| - 1]).Some?
        && ShapeTransition(key, DecodeVowel(prefix[|prefix| - 1]).value.0).Some?)
    || (ToneOf(key).Some? && LastVowel(prefix).Some?)
  }

  lemma AsciiVowel(c: char)
    requires IsAscii(c) && DecodeVowel(c).Some?
    ensures var (shape, tone) := DecodeVowel(c).value;
      tone.Flat? && (shape.A? || shape.E? || shape.I? || shape.O? || shape.U? || shape.Y?)
  {
  }

  lemma AsciiIsNotStroked(c: char)
    requires IsAscii(c)
    ensures c != 'đ'
  {
  }

  lemma PressOnAscii(prefix: string, key: char)
    requires AllAscii(prefix)
    ensures !Acts(prefix, key) ==> Press(prefix, key) == prefix + [key]
    ensures Acts(prefix, key) ==> |Press(prefix, key)| == |prefix|
  {
    hide DecodeVowel, EncodeVowel, LastVowel;
    if prefix != [] {
      var last := prefix[|prefix| - 1];
      AsciiIsNotStroked(last);
      if DecodeVowel(last).Some? {
        AsciiVowel(last);
      }
    }
    if LastVowel(prefix).Some? {
      AsciiVowel(prefix[LastVowel(prefix).value]);
    }
  }

  predicate InertTo(raw: string, n: nat)
    requires n <= |raw|
  {
    forall i :: 0 <= i < n ==> !Acts(raw[..i], raw[i])
  }

  lemma {:induction false} InertPrefix(raw: string, n: nat)
    requires AllAscii(raw) && n <= |raw|
    ensures if InertTo(raw, n) then PressAll([], raw[..n]) == raw[..n] else |PressAll([], raw[..n])| < n
    decreases n
  {
    hide Press, Acts;
    if n > 0 {
      var before := raw[..n - 1];
      InertPrefix(raw, n - 1);
      assert raw[..n][..n - 1] == before && raw[..n] == before + [raw[n - 1]];
      if InertTo(raw, n - 1) {
        PressOnAscii(before, raw[n - 1]);
      } else {
        PressLength(PressAll([], before), raw[n - 1]);
      }
    }
  }

  /** Raw text renders as itself exactly when no key finds anything to act on before it. */
  lemma UnchangedIffInert(raw: string)
    requires AllAscii(raw)
    ensures Compose(raw) == Success(raw) <==> InertTo(raw, |raw|)
  {
    hide PressAll, InertTo;
    InertPrefix(raw, |raw|);
    assert raw[..|raw|] == raw;
  }

  // ---------------------------------------------------------------------
  // Repeated tone keys
  // ---------------------------------------------------------------------

  function Repeat(key: char, n: nat): (keys: string)
    ensures |keys| == n
    ensures forall i :: 0 <= i < n ==> keys[i] == key
  {
    seq(n, i => key)
  }

  lemma {:induction false} LastVowelIs(text: string, index: nat)
    requires index < |text| && DecodeVowel(text[index]).Some?
    requires forall i :: index < i < |text| ==> DecodeVowel(text[i]).None?
    ensures LastVowel(text) == Some(index)
  {
    hide DecodeVowel;
    if index < |text| - 1 {
      LastVowelIs(text[..|text| - 1], index);
    }
  }

  lemma {:induction false} AfterLastVowel(text: string)
    requires LastVowel(text).Some?
    ensures forall i :: LastVowel(text).value < i < |text| ==> DecodeVowel(text[i]).None?
  {
    hide DecodeVowel;
    if DecodeVowel(text[|text| - 1]).None? {
      AfterLastVowel(text[..|text| - 1]);
    }
  }

  lemma ToneKeyShapesNothing(output: string, key: char)
    requires ToneOf(key).Some?
    ensures ShapeKey(output, key) == (output, false)
  {
    hide DecodeVowel, EncodeVowel;
  }

  /** A tone key after a vowel and letters that are not vowels. */
  lemma PressTone(stem: string, shape: Shape, tone: Tone, tail: string, key: char)
    requires ToneOf(key).Some? && forall i :: 0 <= i < |tail| ==> DecodeVowel(tail[i]).None?
    ensures Press(stem + [EncodeVowel(shape, tone)] + tail, key)
            == if tone == ToneOf(key).value then stem + [EncodeVowel(shape, Flat)] + tail + [key]
               else stem + [EncodeVowel(shape, ToneOf(key).value)] + tail
  {
    hide DecodeVowel, EncodeVowel, ShapeKey;
    var text := stem + [EncodeVowel(shape, tone)] + tail;
    VowelRoundTrip(shape, tone);
    ToneKeyShapesNothing(text, key);
    assert forall i :: |stem| < i < |text| ==> text[i] == tail[i - |stem| - 1];
    LastVowelIs(text, |stem|);
  }

  /** The text with the last vowel in the given tone, followed by some keys. */
  function Toned(output: string, tone: Tone, key: char, keys: nat): string
    requires LastVowel(output).Some?
  {
    var index := LastVowel(output).value;
    output[index := EncodeVowel(DecodeVowel(output[index]).value.0, tone)] + Repeat(key, keys)
  }

  lemma PressToned(output: string, tone: Tone, key: char, keys: nat)
    requires LastVowel(output).Some? && ToneOf(key).Some?
    ensures Press(Toned(output, tone, key, keys), key)
            == if tone == ToneOf(key).value then Toned(output, Flat, key, keys + 1)
               else Toned(output, ToneOf(key).value, key, keys)
  {
    hide DecodeVowel, EncodeVowel, Press, Toned;
    var index := LastVowel(output).value;
    var stem, tail := output[..index], output[index + 1..] + Repeat(key, keys);
    AfterLastVowel(output);
    ConsonantLetter(key);
    forall i | 0 <= i < |tail|
      ensures DecodeVowel(tail[i]).None?
    {
      assert tail[i] == if i < |output| - index - 1 then output[index + 1 + i] else key;
    }
    TonedParts(output, tone, key, keys);
    TonedParts(output, ToneOf(key).value, key, keys);
    TonedParts(output, Flat, key, keys + 1);
    PressTone(stem, DecodeVowel(output[index]).value.0, tone, tail, key);
    assert tail + [key] == output[index + 1..] + Repeat(key, keys + 1);
  }

  lemma TonedParts(output: string, tone: Tone, key: char, keys: nat)
    requires LastVowel(output).Some?
    ensures var index := LastVowel(output).value;
      Toned(output, tone, key, keys)
      == output[..index] + [EncodeVowel(DecodeVowel(output[index]).value.0, tone)]
         + (output[index + 1..] + Repeat(key, keys))
  {
    hide DecodeVowel, EncodeVowel, LastVowel;
  }

  /**
   * n presses of one tone key after a last vowel in another tone: for odd n
   * the vowel takes the tone and (n-1)/2 keys trail, for even n it has no tone
   * and n/2 keys trail.
   */
  lemma {:induction false} TonePresses(output: string, key: char, n: nat)
    requires LastVowel(output).Some? && ToneOf(key).Some? && 0 < n
    requires DecodeVowel(output[LastVowel(output).value]).value.1 != ToneOf(key).value
    ensures PressAll(output, Repeat(key, n))
            == if n % 2 == 1 then Toned(output, ToneOf(key).value, key, (n - 1) / 2)
               else Toned(output, Flat, key, n / 2)
    decreases n
  {
    hide DecodeVowel, EncodeVowel, Press, Toned;
    assert Repeat(key, n)[..n - 1] == Repeat(key, n - 1);
    if n == 1 {
      OwnTone(output, key);
      PressToned(output, DecodeVowel(output[LastVowel(output).value]).value.1, key, 0);
    } else {
      TonePresses(output, key, n - 1);
      PressToned(output, if n % 2 == 0 then ToneOf(key).value else Flat, key, (n - 1) / 2);
    }
  }

  lemma OwnTone(output: string, key: char)
    requires LastVowel(output).Some?
    ensures Toned(output, DecodeVowel(output[LastVowel(output).value]).value.1, key, 0) == output
  {
    hide DecodeVowel, EncodeVowel;
    var index := LastVowel(output).value;
    VowelTableIsExact(output[index]);
  }

  // ---------------------------------------------------------------------
  // Shape keys and tone keys
  // ---------------------------------------------------------------------

  /** On a final vowel: what a shape key with a transition does. */
  lemma PressShape(stem: string, shape: Shape, tone: Tone, key: char)
    requires ShapeTransition(key, shape).Some?
    ensures Press(stem + [EncodeVowel(shape, tone)], key)
            == match ShapeTransition(key, shape).value
               case Replace(next) => stem + [EncodeVowel(next, tone)]
               case Undo(next) => stem + [EncodeVowel(next, tone)] + [key]
  {
    VowelRoundTrip(shape, tone);
    StrokedLetter();
    ConsonantLetter('d');
    hide DecodeVowel, EncodeVowel;
    var text := stem + [EncodeVowel(shape, tone)];
    assert text[..|text| - 1] == stem;
  }

  /** A key that finds neither a shape to change nor is a tone key is appended. */
  lemma PressPlain(output: string, key: char)
    requires ToneOf(key).None? && output != []
    requires key == 'd' ==> output[|output| - 1] != 'd' && output[|output| - 1] != 'đ'
    requires DecodeVowel(output[|output| - 1]).None?
    ensures Press(output, key) == output + [key]
  {
    hide DecodeVowel;
  }

  lemma ShapeKeys(key: char, shape: Shape)
    requires ShapeTransition(key, shape).Some?
    ensures ToneOf(key).None? && key != 'd'
    ensures key == 'w' || key == 'a' || key == 'e' || key == 'o'
    ensures ShapeTransition(key, shape).value.shape != shape
    ensures ShapeTransition(key, shape).value.Undo? && key != 'w'
        ==> KeyShape(key) == Some(ShapeTransition(key, shape).value.shape)
  {
  }

  lemma ToneKeys(key: char)
    requires ToneOf(key).Some?
    ensures !ToneOf(key).value.Flat? && key != 'd' && key != 'w'
    ensures key in ['d', 'w', 'f', 's', 'r', 'x', 'j']
  {
  }

  lemma ToneThenShape(stem: string, shape: Shape, tone: Tone, shapeKey: char, toneKey: char)
    requires ShapeTransition(shapeKey, shape).Some? && ToneOf(toneKey).Some?
    ensures var requested := ToneOf(toneKey).value;
      Press(Press(stem + [EncodeVowel(shape, tone)], toneKey), shapeKey)
      == if tone == requested then stem + [EncodeVowel(shape, Flat)] + [toneKey] + [shapeKey]
         else match ShapeTransition(shapeKey, shape).value
           case Replace(next) => stem + [EncodeVowel(next, requested)]
           case Undo(next) => stem + [EncodeVowel(next, requested)] + [shapeKey]
  {
    ShapeKeys(shapeKey, shape);
    ToneKeys(toneKey);
    ConsonantLetter(toneKey);
    hide DecodeVowel, EncodeVowel, Press, ShapeTransition;
    var text := stem + [EncodeVowel(shape, tone)];
    assert text + [] == text;
    PressTone(stem, shape, tone, [], toneKey);
    assert stem + [EncodeVowel(shape, Flat)] + [] == stem + [EncodeVowel(shape, Flat)];
    var requested := ToneOf(toneKey).value;
    assert stem + [EncodeVowel(shape, requested)] + [] == stem + [EncodeVowel(shape, requested)];
    if tone == requested {
      PressPlain(stem + [EncodeVowel(shape, Flat)] + [toneKey], shapeKey);
    } else {
      PressShape(stem, shape, requested, shapeKey);
    }
  }

  lemma ShapeThenTone(stem: string, shape: Shape, tone: Tone, shapeKey: char, toneKey: char)
    requires ShapeTransition(shapeKey, shape).Some? && ToneOf(toneKey).Some?
    ensures var requested := ToneOf(toneKey).value;
      var after := Press(Press(stem + [EncodeVowel(shape, tone)], shapeKey), toneKey);
      match ShapeTransition(shapeKey, shape).value
      case Replace(next) =>
        after == (if tone == requested then stem + [EncodeVowel(next, Flat)] + [toneKey]
                  else stem + [EncodeVowel(next, requested)])
      case Undo(next) =>
        after == (if shapeKey != 'w' then stem + [EncodeVowel(next, tone)] + [EncodeVowel(next, requested)]
                  else if tone == requested then stem + [EncodeVowel(next, Flat)] + [shapeKey] + [toneKey]
                  else stem + [EncodeVowel(next, requested)] + [shapeKey])
  {
    ShapeKeys(shapeKey, shape);
    ToneKeys(toneKey);
    PressShape(stem, shape, tone, shapeKey);
    ConsonantLetter('w');
    hide DecodeVowel, EncodeVowel, Press, ShapeTransition, ToneOf;
    var next := ShapeTransition(shapeKey, shape).value.shape;
    var changed := stem + [EncodeVowel(next, tone)];
    if ShapeTransition(shapeKey, shape).value.Replace? {
      assert changed + [] == changed;
      PressTone(stem, next, tone, [], toneKey);
    } else if shapeKey == 'w' {
      PressTone(stem, next, tone, ['w'], toneKey);
    } else {
      UndoneLetter(shapeKey, next);
      assert changed + [shapeKey] + [] == changed + [shapeKey];
      PressTone(changed, next, Flat, [], toneKey);
    }
  }

  lemma UndoneLetter(key: char, shape: Shape)
    requires KeyShape(key) == Some(shape)
    ensures EncodeVowel(shape, Flat) == key
  {
    VowelLetter(key);
    VowelTableIsExact(key);
    hide DecodeVowel, EncodeVowel;
  }

  /**
   * On a final vowel a shape key and a tone key commute exactly when the tone
   * changes and the shape key replaces, or undoes by the consonant `w`.
   */
  lemma ShapeAndToneCommuteIff(stem: string, shape: Shape, tone: Tone, shapeKey: char, toneKey: char)
    requires ShapeTransition(shapeKey, shape).Some? && ToneOf(toneKey).Some?
    ensures var text := stem + [EncodeVowel(shape, tone)];
      Press(Press(text, shapeKey), toneKey) == Press(Press(text, toneKey), shapeKey)
      <==> (tone != ToneOf(toneKey).value && (ShapeTransition(shapeKey, shape).value.Replace? || shapeKey == 'w'))
  {
    ShapeKeys(shapeKey, shape);
    ToneKeys(toneKey);
    ToneThenShape(stem, shape, tone, shapeKey, toneKey);
    ShapeThenTone(stem, shape, tone, shapeKey, toneKey);
    hide DecodeVowel, EncodeVowel, Press, ShapeTransition, ToneOf, KeyShape;
    var requested, transition := ToneOf(toneKey).value, ShapeTransition(shapeKey, shape).value;
    EncodingsDiffer(transition.shape, shape, Flat, Flat);
    EncodingsDiffer(transition.shape, transition.shape, Flat, requested);
    var text := stem + [EncodeVowel(shape, tone)];
    var left, right := Press(Press(text, shapeKey), toneKey), Press(Press(text, toneKey), shapeKey);
    if tone == requested && transition.Undo? && shapeKey == 'w' {
      assert left[|stem|] == EncodeVowel(transition.shape, Flat) && right[|stem|] == EncodeVowel(shape, Flat);
    } else if tone == requested {
      assert |left| != |right|;
    } else if transition.Undo? && shapeKey != 'w' {
      assert left[|stem|] == EncodeVowel(transition.shape, tone);
      assert right[|stem|] == EncodeVowel(transition.shape, requested);
      EncodingsDiffer(transition.shape, transition.shape, tone, requested);
    }
  }

  lemma EncodingsDiffer(s: Shape, t: Shape, m: Tone, n: Tone)
    ensures EncodeVowel(s, m) == EncodeVowel(t, n) ==> s == t && m == n
  {
    hide DecodeVowel, EncodeVowel;
    VowelRoundTrip(s, m);
    VowelRoundTrip(t, n);
  }

  // ---------------------------------------------------------------------
  // Doubled letters
  // ---------------------------------------------------------------------

  /** The letters that double into a marked one and back. */
  function Marked(key: char): Option<char>
  {
    match key
    case 'a' => Some('â')
    case 'e' => Some('ê')
    case 'o' => Some('ô')
    case 'd' => Some('đ')
    case _ => None
  }

  lemma MarkedLetters(key: char)
    requires Marked(key).Some?
    ensures key == 'd' || (KeyShape(key).Some? && ShapeTransition(key, KeyShape(key).value).Some?)
    ensures key != 'd' ==>
              var transition := ShapeTransition(key, KeyShape(key).value).value;
              transition.Replace? && EncodeVowel(KeyShape(key).value, Flat) == key
              && EncodeVowel(transition.shape, Flat) == Marked(key).value
              && ShapeTransition(key, transition.shape) == Some(Undo(KeyShape(key).value))
  {
  }

  lemma PressDoubled(stem: string, key: char)
    requires Marked(key).Some?
    ensures Press(stem + [key], key) == stem + [Marked(key).value]
    ensures Press(stem + [Marked(key).value], key) == stem + [key] + [key]
  {
    MarkedLetters(key);
    hide EncodeVowel, DecodeVowel;
    if key == 'd' {
      assert (stem + ['d'])[..|stem|] == stem && (stem + ['đ'])[..|stem|] == stem;
    } else {
      var shape := KeyShape(key).value;
      var marked := ShapeTransition(key, shape).value.shape;
      PressShape(stem, shape, Flat, key);
      PressShape(stem, marked, Flat, key);
    }
  }

  /**
   * n presses of a doubling letter where its first press is plain: the marked
   * letter appears at every even press and is undone by the next.
   */
  lemma {:induction false} DoubledPresses(output: string, key: char, n: nat)
    requires Marked(key).Some? && Press(output, key) == output + [key] && 0 < n
    ensures PressAll(output, Repeat(key, n))
            == if n % 2 == 1 then output + Repeat(key, (n + 1) / 2)
               else output + Repeat(key, n / 2 - 1) + [Marked(key).value]
    decreases n
  {
    hide Press, Marked;
    assert Repeat(key, n)[..n - 1] == Repeat(key, n - 1);
    if n == 1 {
      assert Repeat(key, 1) == [key];
    } else {
      DoubledPresses(output, key, n - 1);
      var m := if n % 2 == 0 then n / 2 - 1 else (n - 1) / 2 - 1;
      var stem := output + Repeat(key, m);
      PressDoubled(stem, key);
      assert output + Repeat(key, m + 1) == stem + [key];
      assert output + Repeat(key, m + 2) == stem + [key] + [key];
    }
  }

  lemma FirstPress(key: char)
    ensures Press([], key) == [] + [key]
    ensures Marked(key).Some? ==> IsAscii(key)
  {
    var empty: string := [];
    assert ShapeKey(empty, key) == (empty, false) && LastVowel(empty).None?;
  }

  /** From nothing: a, â, aa, aâ, aaa and so on. */
  lemma RepeatedLetter(key: char, n: nat)
    requires Marked(key).Some? && 0 < n
    ensures Compose(Repeat(key, n))
            == Success(if n % 2 == 1 then Repeat(key, (n + 1) / 2) else Repeat(key, n / 2 - 1) + [Marked(key).value])
  {
    hide Press, PressAll, Marked;
    FirstPress(key);
    DoubledPresses([], key, n);
    if n % 2 == 1 {
      assert [] + Repeat(key, (n + 1) / 2) == Repeat(key, (n + 1) / 2);
    } else {
      assert [] + Repeat(key, n / 2 - 1) == Repeat(key, n / 2 - 1);
    }
  }

  // ---------------------------------------------------------------------
  // What the keys type, in characters
  // ---------------------------------------------------------------------

  /** One row per vowel: without tone, grave, acute, hook, tilde, dot. */
  const VOWEL_ROWS: seq<string> := [
    "aàáảãạ", "ăằắẳẵặ", "âầấẩẫậ", "eèéẻẽẹ", "êềếểễệ", "iìíỉĩị",
    "oòóỏõọ", "ôồốổỗộ", "ơờớởỡợ", "uùúủũụ", "ưừứửữự", "yỳýỷỹỵ"
  ]

  /** The keys of the five tones, in the order of the rows. */
  const TONE_KEYS: string := "fsrxj"

  const SHAPES: seq<Shape> := [A, Abreve, Acirc, E, Ecirc, I, O, Ocirc, Ohorn, U, Uhorn, Y]

  const TONES: seq<Tone> := [Flat, Grave, Acute, Hook, Tilde, Dot]

  lemma RowLengths()
    ensures |VOWEL_ROWS| == |SHAPES| == 12 && |TONES| == 6 && |TONE_KEYS| == 5
    ensures forall row :: 0 <= row < 12 ==> |VOWEL_ROWS[row]| == 6
  {
  }

  lemma FrontRows(row: nat, column: nat)
    requires row < 6 && column < 6
    ensures |VOWEL_ROWS[row]| == 6 && VOWEL_ROWS[row][column] == EncodeVowel(SHAPES[row], TONES[column])
  {
  }

  lemma BackRows(row: nat, column: nat)
    requires 6 <= row < 12 && column < 6
    ensures |VOWEL_ROWS[row]| == 6 && VOWEL_ROWS[row][column] == EncodeVowel(SHAPES[row], TONES[column])
  {
  }

  lemma RowEntry(row: nat, column: nat)
    requires row < 12 && column < 6
    ensures |VOWEL_ROWS[row]| == 6 && VOWEL_ROWS[row][column] == EncodeVowel(SHAPES[row], TONES[column])
  {
    hide EncodeVowel;
    if row < 6 {
      FrontRows(row, column);
    } else {
      BackRows(row, column);
    }
  }

  function RowOf(shape: Shape): (row: nat)
    ensures row < 12 && SHAPES[row] == shape
  {
    match shape
    case A => 0 case Abreve => 1 case Acirc => 2 case E => 3 case Ecirc => 4 case I => 5
    case O => 6 case Ocirc => 7 case Ohorn => 8 case U => 9 case Uhorn => 10 case Y => 11
  }

  function ColumnOf(tone: Tone): (column: nat)
    ensures column < 6 && TONES[column] == tone
  {
    match tone
    case Flat => 0 case Grave => 1 case Acute => 2 case Hook => 3 case Tilde => 4 case Dot => 5
  }

  predicate InRow(c: char, row: nat)
  {
    row < |VOWEL_ROWS| && c in VOWEL_ROWS[row]
  }

  predicate IsVowel(c: char)
  {
    exists row :: 0 <= row < |VOWEL_ROWS| && InRow(c, row)
  }

  /** The vowels are exactly the characters of the rows, and decode to row and column. */
  lemma RowsAreVowels(row: nat, column: nat)
    requires row < 12 && column < 6
    ensures |VOWEL_ROWS[row]| == 6 && DecodeVowel(VOWEL_ROWS[row][column]) == Some((SHAPES[row], TONES[column]))
  {
    RowEntry(row, column);
    VowelRoundTrip(SHAPES[row], TONES[column]);
  }

  lemma InRowIff(c: char, row: nat)
    requires row < 12
    ensures InRow(c, row) <==> DecodeVowel(c).Some? && RowOf(DecodeVowel(c).value.0) == row
  {
    hide DecodeVowel, EncodeVowel;
    if DecodeVowel(c).Some? {
      var (shape, tone) := DecodeVowel(c).value;
      VowelTableIsExact(c);
      RowEntry(RowOf(shape), ColumnOf(tone));
    }
    if InRow(c, row) {
      RowLengths();
      var column :| 0 <= column < |VOWEL_ROWS[row]| && VOWEL_ROWS[row][column] == c;
      RowsAreVowels(row, column);
      RowOfShapes(row);
    }
  }

  lemma RowOfShapes(row: nat)
    requires row < 12
    ensures RowOf(SHAPES[row]) == row
  {
  }

  lemma VowelIffDecodes(c: char)
    ensures IsVowel(c) <==> DecodeVowel(c).Some?
  {
    hide DecodeVowel, InRow;
    RowLengths();
    if DecodeVowel(c).Some? {
      InRowIff(c, RowOf(DecodeVowel(c).value.0));
    }
    if row :| 0 <= row < |VOWEL_ROWS| && InRow(c, row) {
      InRowBound(c, row);
      InRowIff(c, row);
    }
  }

  lemma InRowBound(c: char, row: nat)
    requires InRow(c, row)
    ensures row < 12
  {
  }

  lemma ToneKeyOf(i: nat)
    requires i < 5
    ensures |TONE_KEYS| == 5 && ToneOf(TONE_KEYS[i]) == Some(TONES[i + 1])
  {
  }

  lemma ToneKeysOnly(key: char)
    ensures ToneOf(key).Some? <==> key in TONE_KEYS
  {
  }

  /**
   * The i-th tone key gives the last vowel the i-th marked letter of its row,
   * and pressed again takes the mark back and stays behind.
   */
  lemma ToneTyped(stem: string, row: nat, column: nat, tail: string, i: nat)
    requires row < 12 && column < 6 && i < 5 && column != i + 1
    requires forall j :: 0 <= j < |tail| ==> !IsVowel(tail[j])
    ensures |VOWEL_ROWS[row]| == 6 && |TONE_KEYS| == 5
    ensures var key, typed := TONE_KEYS[i], stem + [VOWEL_ROWS[row][i + 1]] + tail;
      && Press(stem + [VOWEL_ROWS[row][column]] + tail, key) == typed
      && Press(typed, key) == stem + [VOWEL_ROWS[row][0]] + tail + [key]
  {
    hide DecodeVowel, EncodeVowel, IsVowel, Press, ToneOf;
    forall j | 0 <= j < |tail|
      ensures DecodeVowel(tail[j]).None?
    {
      VowelIffDecodes(tail[j]);
    }
    RowEntry(row, column);
    RowEntry(row, i + 1);
    RowEntry(row, 0);
    ToneKeyOf(i);
    TonesDiffer(column, i + 1);
    PressTone(stem, SHAPES[row], TONES[column], tail, TONE_KEYS[i]);
    PressTone(stem, SHAPES[row], TONES[i + 1], tail, TONE_KEYS[i]);
  }

  lemma TonesDiffer(i: nat, j: nat)
    requires i < 6 && j < 6 && i != j
    ensures TONES[i] != TONES[j]
  {
  }

  /** Key, row and row it changes to: the marks of the letters, on every tone. */
  const MARKS: seq<(char, nat, nat)> := [('a', 0, 2), ('e', 3, 4), ('o', 6, 7), ('w', 0, 1), ('w', 6, 8), ('w', 9, 10)]

  lemma MarkTransitions(m: nat)
    requires m < 6
    ensures |MARKS| == 6 && MARKS[m].1 < 12 && MARKS[m].2 < 12
    ensures ShapeTransition(MARKS[m].0, SHAPES[MARKS[m].1]) == Some(Replace(SHAPES[MARKS[m].2]))
    ensures ShapeTransition(MARKS[m].0, SHAPES[MARKS[m].2]) == Some(Undo(SHAPES[MARKS[m].1]))
  {
  }

  /** A mark key changes the row of a final vowel and keeps its tone; on the marked row it undoes that and stays. */
  lemma MarkTyped(stem: string, m: nat, column: nat)
    requires m < 6 && column < 6
    ensures |MARKS| == 6 && MARKS[m].1 < 12 && MARKS[m].2 < 12
    ensures |VOWEL_ROWS[MARKS[m].1]| == 6 && |VOWEL_ROWS[MARKS[m].2]| == 6
    ensures var (key, plain, marked) := MARKS[m];
      && Press(stem + [VOWEL_ROWS[plain][column]], key) == stem + [VOWEL_ROWS[marked][column]]
      && Press(stem + [VOWEL_ROWS[marked][column]], key) == stem + [VOWEL_ROWS[plain][column]] + [key]
  {
    hide DecodeVowel, EncodeVowel, Press, ShapeTransition;
    MarkTransitions(m);
    var (key, plain, marked) := MARKS[m];
    RowEntry(plain, column);
    RowEntry(marked, column);
    PressShape(stem, SHAPES[plain], TONES[column], key);
    PressShape(stem, SHAPES[marked], TONES[column], key);
  }

  /** The key finds a vowel to tone, a final letter to mark or to undo, or a d to stroke. */
  predicate Finds(output: string, key: char)
  {
    || (key in TONE_KEYS && exists j :: 0 <= j < |output| && IsVowel(output[j]))
    || (output != []
        && var last := output[|output| - 1];
           || (key == 'd' && (last == 'd' || last == 'đ'))
           || exists m :: 0 <= m < |MARKS| && MARKS[m].0 == key && (InRow(last, MARKS[m].1) || InRow(last, MARKS[m].2)))
  }

  lemma TransitionIffMark(key: char, shape: Shape)
    ensures ShapeTransition(key, shape).Some?
      <==> exists m :: 0 <= m < |MARKS| && MARKS[m].0 == key
                       && (RowOf(shape) == MARKS[m].1 || RowOf(shape) == MARKS[m].2)
  {
    var m := match (key, shape)
      case ('a', A) => 0 case ('a', Acirc) => 0 case ('e', E) => 1 case ('e', Ecirc) => 1
      case ('o', O) => 2 case ('o', Ocirc) => 2 case ('w', A) => 3 case ('w', Abreve) => 3
      case ('w', O) => 4 case ('w', Ohorn) => 4 case ('w', U) => 5 case ('w', Uhorn) => 5
      case _ => 0;
    assert MARKS[m].0 == key && (RowOf(shape) == MARKS[m].1 || RowOf(shape) == MARKS[m].2)
      ==> ShapeTransition(key, shape).Some?;
  }

  lemma MarkFindsIff(c: char, key: char)
    ensures (exists m :: 0 <= m < |MARKS| && MARKS[m].0 == key && (InRow(c, MARKS[m].1) || InRow(c, MARKS[m].2)))
      <==> DecodeVowel(c).Some? && ShapeTransition(key, DecodeVowel(c).value.0).Some?
  {
    hide DecodeVowel, InRow, RowOf, ShapeTransition;
    forall m | 0 <= m < |MARKS|
      ensures MARKS[m].1 < 12 && MARKS[m].2 < 12
      ensures InRow(c, MARKS[m].1) <==> DecodeVowel(c).Some? && RowOf(DecodeVowel(c).value.0) == MARKS[m].1
      ensures InRow(c, MARKS[m].2) <==> DecodeVowel(c).Some? && RowOf(DecodeVowel(c).value.0) == MARKS[m].2
    {
      MarkTransitions(m);
      InRowIff(c, MARKS[m].1);
      InRowIff(c, MARKS[m].2);
    }
    if DecodeVowel(c).Some? {
      TransitionIffMark(key, DecodeVowel(c).value.0);
    }
  }

  lemma {:induction false} LastVowelIff(text: string)
    ensures LastVowel(text).Some? <==> exists j :: 0 <= j < |text| && IsVowel(text[j])
  {
    hide DecodeVowel, IsVowel;
    if text != [] {
      var n := |text| - 1;
      VowelIffDecodes(text[n]);
      LastVowelIff(text[..n]);
      if j :| 0 <= j < |text| && IsVowel(text[j]) {
        assert j < n ==> text[..n][j] == text[j];
      }
    }
  }

  /** A key stands for itself exactly when it finds nothing to act on. */
  lemma KeyIsPlainIff(output: string, key: char)
    ensures Press(output, key) == output + [key] <==> !Finds(output, key)
  {
    LastVowelIff(output);
    ToneKeysOnly(key);
    if output != [] {
      MarkFindsIff(output[|output| - 1], key);
    }
    hide IsVowel, InRow;
    if !Finds(output, key) {
      hide DecodeVowel, EncodeVowel, ShapeTransition, ToneOf, LastVowel;
    } else {
      FoundChanges(output, key);
    }
  }

  lemma FoundChanges(output: string, key: char)
    requires (ToneOf(key).Some? && LastVowel(output).Some?)
          || (output != [] && key == 'd' && (output[|output| - 1] == 'd' || output[|output| - 1] == 'đ'))
          || (output != [] && DecodeVowel(output[|output| - 1]).Some?
              && ShapeTransition(key, DecodeVowel(output[|output| - 1]).value.0).Some?)
    ensures Press(output, key) != output + [key]
  {
    if ToneOf(key).Some? && LastVowel(output).Some? {
      ToneChanges(output, key);
    } else if key == 'd' && (output[|output| - 1] == 'd' || output[|output| - 1] == 'đ') {
      StrokeChanges(output);
    } else {
      var last := output[|output| - 1];
      ShapeChanges(output[..|output| - 1], DecodeVowel(last).value.0, DecodeVowel(last).value.1, key);
      VowelTableIsExact(last);
      hide DecodeVowel, EncodeVowel, Press, ShapeTransition;
      assert output == output[..|output| - 1] + [last];
    }
  }

  lemma ToneChanges(output: string, key: char)
    requires ToneOf(key).Some? && LastVowel(output).Some?
    ensures Press(output, key) != output + [key]
  {
    hide DecodeVowel, EncodeVowel, Press, ToneOf;
    var index := LastVowel(output).value;
    var (shape, tone) := DecodeVowel(output[index]).value;
    hide LastVowel;
    OwnTone(output, key);
    PressToned(output, tone, key, 0);
    VowelTableIsExact(output[index]);
    ToneKeys(key);
    EncodingsDiffer(shape, shape, Flat, tone);
    if tone == ToneOf(key).value {
      assert Toned(output, Flat, key, 1)[index] == EncodeVowel(shape, Flat);
    } else {
      assert |Toned(output, ToneOf(key).value, key, 0)| == |output|;
    }
  }

  lemma StrokeChanges(output: string)
    requires output != [] && (output[|output| - 1] == 'd' || output[|output| - 1] == 'đ')
    ensures Press(output, 'd') != output + ['d']
  {
    hide DecodeVowel;
    var n := |output| - 1;
    if output[n] == 'd' {
      assert |Press(output, 'd')| == |output|;
    } else {
      assert Press(output, 'd')[n] == 'd';
    }
  }

  lemma ShapeChanges(stem: string, shape: Shape, tone: Tone, key: char)
    requires ShapeTransition(key, shape).Some?
    ensures Press(stem + [EncodeVowel(shape, tone)], key) != stem + [EncodeVowel(shape, tone)] + [key]
  {
    PressShape(stem, shape, tone, key);
    ShapeKeys(key, shape);
    EncodingsDiffer(ShapeTransition(key, shape).value.shape, shape, tone, tone);
    hide EncodeVowel, DecodeVowel, ShapeTransition, Press;
    var text := stem + [EncodeVowel(shape, tone)] + [key];
    assert text[|stem|] == EncodeVowel(shape, tone);
  }

  lemma {:induction false} FirstNonAsciiIs(raw: string)
    requires FirstNonAscii(raw).Some?
    ensures raw[FirstNonAscii(raw).value] as int >= 128
    ensures forall j :: 0 <= j < FirstNonAscii(raw).value ==> raw[j] as int < 128
  {
    if IsAscii(raw[0]) {
      FirstNonAsciiIs(raw[1..]);
      var i := FirstNonAscii(raw).value;
      assert forall j :: 1 <= j < i ==> raw[j] == raw[1..][j - 1];
    }
  }

  /** Composing fails exactly on a character above 127, and names the first one. */
  lemma ComposeFailsIff(raw: string)
    ensures Compose(raw).Failure? <==> exists i :: 0 <= i < |raw| && raw[i] as int >= 128
    ensures Compose(raw).Failure? ==>
              exists i :: 0 <= i < |raw| && raw[i] as int >= 128 && Compose(raw).error == raw[i]
                          && forall j :: 0 <= j < i ==> raw[j] as int < 128
  {
    hide PressAll, FirstNonAscii;
    if FirstNonAscii(raw).Some? {
      FirstNonAsciiIs(raw);
    }
  }
}
