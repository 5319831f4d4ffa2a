/** Failure-compatible results shared by the models. */
module Wrappers {

  datatype Option<+T> = None | Some(value: T)

  datatype Result<+R, +E> = Success(value: R) | Failure(error: E) {

    predicate IsFailure() {
      Failure?
    }

    function PropagateFailure<U>(): Result<U, E>
      requires Failure?
    {
      Failure(error)
    }

    function Extract(): R
      requires Success?
    {
      value
    }
  }

  /** A condition of an ordered list of checks, and the reason for refusing where it fails. */
  datatype Check<+R> = Check(passes: bool, reason: R)

  /** The reason of the first check that fails, if one does. */
  function FirstFailure<R>(checks: seq<Check<R>>): Option<R>
  {
    if checks == [] then None
    else if !checks[0].passes then Some(checks[0].reason)
    else FirstFailure(checks[1..])
  }

  /** The place of the first failing check, or the end of the list. */
  lemma {:induction false} FirstFailureAt<R>(checks: seq<Check<R>>) returns (place: nat)
    ensures place <= |checks| && forall i :: 0 <= i < place ==> checks[i].passes
    ensures FirstFailure(checks) == if place == |checks| then None else Some(checks[place].reason)
    ensures place < |checks| ==> !checks[place].passes
  {
    if checks == [] || !checks[0].passes {
      place := 0;
    } else {
      var rest := FirstFailureAt(checks[1..]);
      place := rest + 1;
      assert forall i :: 1 <= i < |checks| ==> checks[i] == checks[1..][i - 1];
    }
  }

  /** The same for lists of up to 24 checks, with the earlier ones spelled out. */
  lemma FirstFailurePlace<R>(checks: seq<Check<R>>) returns (place: nat)
    requires |checks| <= 24
    ensures place <= |checks|
    ensures FirstFailure(checks) == if place == |checks| then None else Some(checks[place].reason)
    ensures place < |checks| ==> !checks[place].passes
    ensures (place > 0 ==> checks[0].passes) && (place > 1 ==> checks[1].passes)
    ensures (place > 2 ==> checks[2].passes) && (place > 3 ==> checks[3].passes)
    ensures (place > 4 ==> checks[4].passes) && (place > 5 ==> checks[5].passes)
    ensures (place > 6 ==> checks[6].passes) && (place > 7 ==> checks[7].passes)
    ensures (place > 8 ==> checks[8].passes) && (place > 9 ==> checks[9].passes)
    ensures (place > 10 ==> checks[10].passes) && (place > 11 ==> checks[11].passes)
    ensures (place > 12 ==> checks[12].passes) && (place > 13 ==> checks[13].passes)
    ensures (place > 14 ==> checks[14].passes) && (place > 15 ==> checks[15].passes)
    ensures (place > 16 ==> checks[16].passes) && (place > 17 ==> checks[17].passes)
    ensures (place > 18 ==> checks[18].passes) && (place > 19 ==> checks[19].passes)
    ensures (place > 20 ==> checks[20].passes) && (place > 21 ==> checks[21].passes)
    ensures (place > 22 ==> checks[22].passes) && (place > 23 ==> checks[23].passes)
  {
    place := FirstFailureAt(checks);
  }

  lemma FirstFailureOfOne<R>(passes: bool, reason: R)
    ensures FirstFailure([Check(passes, reason)]) == if passes then None else Some(reason)
  {
    assert FirstFailure<R>([]) == None;
    assert [Check(passes, reason)][1..] == [];
  }

  /** The checks of a second list matter only if those of the first all pass. */
  lemma {:induction false} FirstFailureInTwo<R>(first: seq<Check<R>>, second: seq<Check<R>>)
    ensures FirstFailure(first + second)
         == if FirstFailure(first).Some? then FirstFailure(first) else FirstFailure(second)
  {
    if first == [] {
      assert first + second == second;
    } else {
      assert (first + second)[1..] == first[1..] + second;
      FirstFailureInTwo(first[1..], second);
    }
  }
}
