/** UTF-16 text (section 2 of RFC 2781) and cutting it at code-unit indices. */
module Utf16 {

  type Unit = u: int | 0 <= u < 0x1_0000

  predicate IsHigh(u: Unit)
  {
    0xD800 <= u <= 0xDBFF
  }

  predicate IsLow(u: Unit)
  {
    0xDC00 <= u <= 0xDFFF
  }

  /** Decoding from the front never meets an unpaired surrogate. */
  predicate WellFormed(s: seq<Unit>)
  {
    s == []
    || (!IsHigh(s[0]) && !IsLow(s[0]) && WellFormed(s[1..]))
    || (|s| >= 2 && IsHigh(s[0]) && IsLow(s[1]) && WellFormed(s[2..]))
  }

  predicate PairedAt(s: seq<Unit>, i: nat)
    requires i < |s|
  {
    && (IsHigh(s[i]) ==> i + 1 < |s| && IsLow(s[i + 1]))
    && (IsLow(s[i]) ==> 0 < i && IsHigh(s[i - 1]))
  }

  /** The same by position: every surrogate has its other half next to it. */
  predicate Paired(s: seq<Unit>)
  {
    forall i :: 0 <= i < |s| ==> PairedAt(s, i)
  }

  predicate SplitsSurrogate(s: seq<Unit>, index: nat)
  {
    0 < index < |s| && IsHigh(s[index - 1]) && IsLow(s[index])
  }

  function Least(a: nat, b: nat): nat
  {
    if a <= b then a else b
  }

  /** The UTF-16 encoding of a string. */
  type Str = s: seq<Unit> | WellFormed(s) witness []

  lemma PairedTail(s: seq<Unit>, n: nat)
    requires (n == 1 <= |s| && !IsHigh(s[0]) && !IsLow(s[0])) || (n == 2 <= |s| && IsHigh(s[0]) && IsLow(s[1]))
    ensures Paired(s) <==> Paired(s[n..])
  {
    var rest := s[n..];
    if Paired(s) {
      forall i | 0 <= i < |rest|
        ensures PairedAt(rest, i)
      {
        assert PairedAt(s, i + n);
      }
    }
    if Paired(rest) {
      forall i | 0 <= i < |s|
        ensures PairedAt(s, i)
      {
        if i >= n {
          assert PairedAt(rest, i - n);
        }
      }
    }
  }

  lemma {:induction false} WellFormedIffPaired(s: seq<Unit>)
    ensures WellFormed(s) <==> Paired(s)
  {
    if s != [] {
      if !IsHigh(s[0]) && !IsLow(s[0]) {
        PairedTail(s, 1);
        WellFormedIffPaired(s[1..]);
      } else if |s| >= 2 && IsHigh(s[0]) && IsLow(s[1]) {
        PairedTail(s, 2);
        WellFormedIffPaired(s[2..]);
      } else {
        assert !PairedAt(s, 0);
      }
    }
  }

  lemma LeftOfCut(s: seq<Unit>, index: nat)
    requires Paired(s) && index <= |s|
    ensures Paired(s[..index]) <==> !SplitsSurrogate(s, index)
  {
    var left := s[..index];
    if SplitsSurrogate(s, index) {
      assert !PairedAt(left, index - 1);
    } else {
      forall i | 0 <= i < index
        ensures PairedAt(left, i)
      {
        assert PairedAt(s, i);
      }
    }
  }

  lemma RightOfCut(s: seq<Unit>, index: nat)
    requires Paired(s) && index <= |s|
    ensures Paired(s[index..]) <==> !SplitsSurrogate(s, index)
  {
    var right := s[index..];
    if SplitsSurrogate(s, index) {
      assert !PairedAt(right, 0);
    } else {
      forall i | 0 <= i < |right|
        ensures PairedAt(right, i)
      {
        assert PairedAt(s, index + i);
      }
    }
  }

  /** Cutting well-formed text leaves well-formed parts exactly at non-splitting indices. */
  lemma CutIff(s: seq<Unit>, index: nat)
    requires WellFormed(s) && index <= |s|
    ensures WellFormed(s[..index]) <==> !SplitsSurrogate(s, index)
    ensures WellFormed(s[index..]) <==> !SplitsSurrogate(s, index)
  {
    hide WellFormed, Paired;
    WellFormedIffPaired(s);
    WellFormedIffPaired(s[..index]);
    WellFormedIffPaired(s[index..]);
    LeftOfCut(s, index);
    RightOfCut(s, index);
  }

  lemma ConcatWellFormed(a: seq<Unit>, b: seq<Unit>)
    requires WellFormed(a) && WellFormed(b)
    ensures WellFormed(a + b)
  {
    hide WellFormed;
    WellFormedIffPaired(a);
    WellFormedIffPaired(b);
    WellFormedIffPaired(a + b);
    forall i | 0 <= i < |a + b|
      ensures PairedAt(a + b, i)
    {
      if i < |a| {
        assert PairedAt(a, i);
      } else {
        assert PairedAt(b, i - |a|);
      }
    }
  }

  /** Replacing a range with non-splitting ends by well-formed text keeps the text well-formed. */
  lemma SpliceWellFormed(s: seq<Unit>, start: nat, end: nat, replacement: seq<Unit>)
    requires WellFormed(s) && WellFormed(replacement) && start <= end <= |s|
    requires !SplitsSurrogate(s, start) && !SplitsSurrogate(s, end)
    ensures WellFormed(s[..start] + replacement + s[end..])
  {
    CutIff(s, start);
    CutIff(s, end);
    ConcatWellFormed(s[..start], replacement);
    ConcatWellFormed(s[..start] + replacement, s[end..]);
  }

  /** Lossy decoding and re-encoding: each unpaired surrogate becomes the replacement character. */
  function Lossy(s: seq<Unit>): (t: seq<Unit>)
  {
    if s == [] then []
    else if IsHigh(s[0]) && |s| >= 2 && IsLow(s[1]) then [s[0], s[1]] + Lossy(s[2..])
    else if IsHigh(s[0]) || IsLow(s[0]) then [0xFFFD] + Lossy(s[1..])
    else [s[0]] + Lossy(s[1..])
  }

  lemma {:induction false} LossyIsExactIff(s: seq<Unit>)
    ensures |Lossy(s)| == |s|
    ensures Lossy(s) == s <==> WellFormed(s)
    ensures WellFormed(Lossy(s))
  {
    if s != [] {
      if IsHigh(s[0]) && |s| >= 2 && IsLow(s[1]) {
        LossyIsExactIff(s[2..]);
        assert Lossy(s)[2..] == Lossy(s[2..]);
        assert s == [s[0], s[1]] + s[2..];
      } else {
        LossyIsExactIff(s[1..]);
        assert Lossy(s)[1..] == Lossy(s[1..]);
        assert s == [s[0]] + s[1..];
        assert !IsHigh(0xFFFD) && !IsLow(0xFFFD);
      }
    }
  }
}
