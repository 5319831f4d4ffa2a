/** The read-only boundary check of two sampled edit controls. */
module Boundary {
  import opened Wrappers
  import opened Utf16

  datatype SampleStatus = Available | Failed | TimedOut

  datatype ControlEvidence = ControlEvidence(identity: nat, supported: bool, secure: bool, style: nat)

  datatype Sample = Sample(text: seq<Unit>, start: nat, end: nat, control: ControlEvidence, status: SampleStatus)

  datatype Rejection =
    | SampleUnavailable
    | SamplesDisagree
    | IdentityChanged
    | StyleChanged
    | UnsupportedControl
    | SecureControl
    | SelectionNotEmpty
    | IndexOutOfBounds
    | InvalidRange
    | MalformedUtf16
    | SurrogateSplit
    | PrefixMismatch

  datatype Validation = BoundaryValidated | Rejected(reason: Rejection)

  function ValidateBoundary(first: Sample, second: Sample, expected: Str): Validation
  {
    if !first.status.Available? || !second.status.Available? then Rejected(SampleUnavailable)
    else if first.control.identity != second.control.identity then Rejected(IdentityChanged)
    else if first.control.style != second.control.style then Rejected(StyleChanged)
    else if first.control != second.control || first.text != second.text
         || first.start != second.start || first.end != second.end then Rejected(SamplesDisagree)
    else if !second.control.supported then Rejected(UnsupportedControl)
    else if second.control.secure then Rejected(SecureControl)
    else if second.start > |second.text| || second.end > |second.text| then Rejected(IndexOutOfBounds)
    else if second.start > second.end then Rejected(InvalidRange)
    else if second.start != second.end then Rejected(SelectionNotEmpty)
    else if !WellFormed(second.text) then Rejected(MalformedUtf16)
    else if SplitsSurrogate(second.text, second.start) || SplitsSurrogate(second.text, second.end) then
      Rejected(SurrogateSplit)
    else if |expected| > second.start
         || second.text[second.start - |expected|..second.start] != expected then Rejected(PrefixMismatch)
    else BoundaryValidated
  }

  /**
   * A validated candidate ends at the caret and starts at an index that the
   * check never looks at; that index does not split a surrogate pair either,
   * and any replacement string leaves the text well-formed and the rest of it
   * in place.
   */
  lemma ValidatedCandidateIsReplaceable(first: Sample, second: Sample, expected: Str, replacement: Str)
    requires ValidateBoundary(first, second, expected) == BoundaryValidated
    ensures first == second && second.start == second.end && |expected| <= second.start <= |second.text|
    ensures var left := second.start - |expected|;
      && !SplitsSurrogate(second.text, left)
      && second.text == second.text[..left] + expected + second.text[second.start..]
      && WellFormed(second.text[..left] + replacement + second.text[second.start..])
  {
    hide WellFormed;
    var text, left := second.text, second.start - |expected|;
    WellFormedIffPaired(expected);
    assert expected != [] ==> PairedAt(expected, 0) && expected[0] == text[left];
    SpliceWellFormed(text, left, second.start, replacement);
  }

  /** Exactly the samples the check accepts. */
  lemma ValidatedIff(first: Sample, second: Sample, expected: Str)
    ensures ValidateBoundary(first, second, expected) == BoundaryValidated
      <==> && first == second && first.status.Available?
           && first.control.supported && !first.control.secure
           && first.start == first.end && WellFormed(first.text)
           && |expected| <= first.start <= |first.text|
           && WellFormed(first.text[..first.start])
           && first.text[first.start - |expected|..first.start] == expected
  {
    hide WellFormed, SplitsSurrogate;
    if first.start <= |first.text| && WellFormed(first.text) {
      CutIff(first.text, first.start);
    }
  }

  /** The conditions in the order they are checked. */
  function Checks(first: Sample, second: Sample, expected: Str): (checks: seq<Check<Rejection>>)
    ensures |checks| == 12
  {
    var inside := second.start <= |second.text| && second.end <= |second.text|;
    [Check(first.status.Available? && second.status.Available?, SampleUnavailable),
     Check(first.control.identity == second.control.identity, IdentityChanged),
     Check(first.control.style == second.control.style, StyleChanged),
     Check(first.(status := second.status) == second, SamplesDisagree),
     Check(second.control.supported, UnsupportedControl),
     Check(!second.control.secure, SecureControl),
     Check(inside, IndexOutOfBounds),
     Check(second.start <= second.end, InvalidRange),
     Check(second.start == second.end, SelectionNotEmpty),
     Check(WellFormed(second.text), MalformedUtf16),
     Check(inside && WellFormed(second.text) && WellFormed(second.text[..second.start]), SurrogateSplit),
     Check(inside && |expected| <= second.start
           && second.text[second.start - |expected|..second.start] == expected, PrefixMismatch)]
  }

  /** The reason is that of the first failing condition. */
  lemma RejectionIsFirstFailure(first: Sample, second: Sample, expected: Str)
    ensures ValidateBoundary(first, second, expected)
         == match FirstFailure(Checks(first, second, expected))
            case None => BoundaryValidated
            case Some(reason) => Rejected(reason)
  {
    hide WellFormed, SplitsSurrogate, FirstFailure;
    var checks := Checks(first, second, expected);
    var place := FirstFailurePlace(checks);
    if second.start <= |second.text| && WellFormed(second.text) {
      CutIff(second.text, second.start);
    }
  }
}
