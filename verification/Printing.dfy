/** ASCII literals and decimal numbers as UTF-16 text. */
module Printing {
  import opened Wrappers
  import opened Utf16

  function Ascii(text: string): (units: seq<Unit>)
    ensures |units| == |text|
    ensures forall i :: 0 <= i < |text| ==> units[i] == text[i] as int % 0x1_0000
  {
    seq(|text|, i requires 0 <= i < |text| => text[i] as int % 0x1_0000)
  }

  function Decimal(n: nat): (digits: seq<Unit>)
    ensures digits != []
  {
    if n < 10 then [0x30 + n] else Decimal(n / 10) + [0x30 + n % 10]
  }

  /** The value of a non-empty digit string, or none. */
  function Digits(s: seq<Unit>): Option<nat>
  {
    if s == [] then None else
    var last := s[|s| - 1];
    if last < 0x30 || last > 0x39 then None
    else if |s| == 1 then Some(last - 0x30)
    else
      match Digits(s[..|s| - 1])
      case None => None
      case Some(n) => Some(10 * n + (last - 0x30))
  }

  lemma {:induction false} DecimalRoundTrip(n: nat)
    ensures Digits(Decimal(n)) == Some(n)
    ensures Decimal(n)[0] != 0x2B
  {
    if n >= 10 {
      DecimalRoundTrip(n / 10);
      var d := Decimal(n);
      assert d[..|d| - 1] == Decimal(n / 10);
    }
  }

  lemma DecimalInjective(m: nat, n: nat)
    requires Decimal(m) == Decimal(n)
    ensures m == n
  {
    DecimalRoundTrip(m);
    DecimalRoundTrip(n);
  }
}
