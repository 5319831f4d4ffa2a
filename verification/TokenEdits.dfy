/**
 * Grapheme-level edit plans. Segmentation is a parameter; all that is used of
 * it is that the graphemes of a text concatenate to the text.
 */
module TokenEdits {

  type Segmenter = string -> seq<string>

  function Concat(parts: seq<string>): string
  {
    if parts == [] then "" else parts[0] + Concat(parts[1..])
  }

  ghost predicate Segments(graphemes: Segmenter)
  {
    forall text :: Concat(graphemes(text)) == text
  }

  /** Delete that many graphemes before the caret, then insert. */
  datatype EditPlan = EditPlan(deleteGraphemes: nat, insertText: string)

  /** The length of the longest common prefix. */
  function Common(a: seq<string>, b: seq<string>): (n: nat)
    ensures n <= |a| && n <= |b|
  {
    if a != [] && b != [] && a[0] == b[0] then 1 + Common(a[1..], b[1..]) else 0
  }

  function PlanBetween(graphemes: Segmenter, before: string, after: string): EditPlan
  {
    var a, b := graphemes(before), graphemes(after);
    EditPlan(|a| - Common(a, b), Concat(b[Common(a, b)..]))
  }

  function WithoutLast(graphemes: Segmenter, text: string, count: nat): string
  {
    var parts := graphemes(text);
    Concat(parts[..if count <= |parts| then |parts| - count else 0])
  }

  function Applied(graphemes: Segmenter, text: string, plan: EditPlan): string
  {
    WithoutLast(graphemes, text, plan.deleteGraphemes) + plan.insertText
  }

  lemma {:induction false} CommonIsLongest(a: seq<string>, b: seq<string>)
    ensures a[..Common(a, b)] == b[..Common(a, b)]
    ensures Common(a, b) < |a| && Common(a, b) < |b| ==> a[Common(a, b)] != b[Common(a, b)]
  {
    if a != [] && b != [] && a[0] == b[0] {
      CommonIsLongest(a[1..], b[1..]);
      var n := Common(a[1..], b[1..]);
      assert a[..n + 1] == [a[0]] + a[1..][..n] && b[..n + 1] == [b[0]] + b[1..][..n];
    }
  }

  lemma {:induction false} ConcatSplit(parts: seq<string>, n: nat)
    requires n <= |parts|
    ensures Concat(parts[..n]) + Concat(parts[n..]) == Concat(parts)
  {
    if n == 0 {
      assert parts[n..] == parts;
    } else {
      ConcatSplit(parts[1..], n - 1);
      assert parts[..n][1..] == parts[1..][..n - 1];
      assert parts[n..] == parts[1..][n - 1..];
    }
  }

  /** Replaying a plan on the text it was made for gives the other text. */
  lemma PlanReplays(graphemes: Segmenter, before: string, after: string)
    requires Segments(graphemes)
    ensures Applied(graphemes, before, PlanBetween(graphemes, before, after)) == after
  {
    var a, b := graphemes(before), graphemes(after);
    CommonIsLongest(a, b);
    ConcatSplit(b, Common(a, b));
  }

  /** A plan keeps every leading grapheme it can: the next ones differ. */
  lemma PlanKeepsCommonPrefix(graphemes: Segmenter, before: string, after: string)
    ensures var a, b, plan := graphemes(before), graphemes(after), PlanBetween(graphemes, before, after);
      var kept := |a| - plan.deleteGraphemes;
      && plan.deleteGraphemes <= |a| && kept <= |b| && a[..kept] == b[..kept]
      && (kept < |a| && kept < |b| ==> a[kept] != b[kept])
  {
    CommonIsLongest(graphemes(before), graphemes(after));
  }

  // ---------------------------------------------------------------------
  // Editing in place
  // ---------------------------------------------------------------------

  class VisibleText {
    var text: string

    constructor ()
      ensures text == ""
    {
      text := "";
    }

    method DeleteLastGraphemes(graphemes: Segmenter, count: nat) returns (removed: nat)
      modifies this
      ensures text == WithoutLast(graphemes, old(text), count)
      ensures removed == if count <= |graphemes(old(text))| then count else |graphemes(old(text))|
    {
      var parts := graphemes(text);
      var keep := if count <= |parts| then |parts| - count else 0;
      var rebuilt, i := "", 0;
      while i < keep
        invariant i <= keep && rebuilt + Concat(parts[i..keep]) == Concat(parts[..keep])
      {
        assert parts[i..keep][1..] == parts[i + 1..keep];
        rebuilt := rebuilt + parts[i];
        i := i + 1;
      }
      text := rebuilt;
      removed := |parts| - keep;
    }

    method ApplyEditPlan(graphemes: Segmenter, plan: EditPlan)
      modifies this
      ensures text == Applied(graphemes, old(text), plan)
    {
      var _ := DeleteLastGraphemes(graphemes, plan.deleteGraphemes);
      text := text + plan.insertText;
    }
  }

  class TokenState {
    var rawAscii: string
    var rendered: string

    constructor ()
      ensures rawAscii == "" && rendered == ""
    {
      rawAscii, rendered := "", "";
    }

    method PushRaw(character: char) returns (pushed: bool)
      modifies `rawAscii
      ensures pushed == ((character as int) < 0x80)
      ensures rawAscii == if pushed then old(rawAscii) + [character] else old(rawAscii)
    {
      pushed := (character as int) < 0x80;
      if pushed {
        rawAscii := rawAscii + [character];
      }
    }

    method PopRaw() returns (popped: bool)
      modifies `rawAscii
      ensures popped == (old(rawAscii) != "")
      ensures rawAscii == if popped then old(rawAscii)[..|old(rawAscii)| - 1] else old(rawAscii)
    {
      popped := rawAscii != "";
      if popped {
        rawAscii := rawAscii[..|rawAscii| - 1];
      }
    }

    method ReplaceRendered(graphemes: Segmenter, next: string) returns (plan: EditPlan)
      modifies `rendered
      ensures rendered == next && plan == PlanBetween(graphemes, old(rendered), next)
    {
      plan := PlanBetween(graphemes, rendered, next);
      rendered := next;
    }

    method Clear()
      modifies this
      ensures rawAscii == "" && rendered == ""
    {
      rawAscii, rendered := "", "";
    }
  }
}
