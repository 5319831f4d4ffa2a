/** Bytes, bounded machine integers, little-endian layout, UTF-8 and lowercase hex. */
module Bytes {

  type byte = bv8

  type u32 = x: int | 0 <= x < 0x1_0000_0000
  type u64 = x: int | 0 <= x < 0x1_0000_0000_0000_0000

  const MAX_U64: nat := 0xFFFF_FFFF_FFFF_FFFF

  /** The saturating increment. */
  function Bumped(n: u64): u64
  {
    if n == MAX_U64 then n else n + 1
  }

  /** The contents of a Rust `String`. */
  type Text = s: seq<byte> | ValidUtf8(s) witness []

  // ---------------------------------------------------------------------
  // Little-endian integers
  // ---------------------------------------------------------------------

  function LeBytes(n: nat, width: nat): (s: seq<byte>)
    ensures |s| == width
  {
    if width == 0 then [] else [(n % 256) as byte] + LeBytes(n / 256, width - 1)
  }

  function LeValue(s: seq<byte>): (n: nat)
  {
    if s == [] then 0 else s[0] as int + 256 * LeValue(s[1..])
  }

  function Pow256(k: nat): (p: nat)
    ensures 0 < p
  {
    if k == 0 then 1 else 256 * Pow256(k - 1)
  }

  lemma IntOfByte(b: byte)
    ensures 0 <= b as int < 256
    ensures ((b as int) as byte) == b
  {
  }

  lemma NextByte(b: byte)
    requires b != 255
    ensures (b + 1) as int == b as int + 1
  {
  }

  lemma {:induction false} ByteExists(n: nat) returns (b: byte)
    requires n < 256
    ensures b as int == n
  {
    b := 0;
    if n > 0 {
      var previous := ByteExists(n - 1);
      LastByte();
      NextByte(previous);
      b := previous + 1;
    }
  }

  lemma LastByte()
    ensures (255 as byte) as int == 255
  {
  }

  lemma ByteOfInt(n: nat)
    requires n < 256
    ensures (n as byte) as int == n
  {
    var b := ByteExists(n);
    IntOfByte(b);
  }

  lemma DigitSplit(digit: nat, rest: nat)
    requires digit < 256
    ensures (digit + 256 * rest) % 256 == digit
    ensures (digit + 256 * rest) / 256 == rest
  {
  }

  lemma {:induction false} LeValueBound(s: seq<byte>)
    ensures LeValue(s) < Pow256(|s|)
  {
    if s != [] {
      LeValueBound(s[1..]);
      IntOfByte(s[0]);
    }
  }

  lemma {:induction false} LeBytesOfValue(s: seq<byte>)
    ensures LeBytes(LeValue(s), |s|) == s
  {
    if s != [] {
      LeBytesOfValue(s[1..]);
      var digit, rest := s[0] as int, LeValue(s[1..]);
      assert LeValue(s) == digit + 256 * rest;
      IntOfByte(s[0]);
      DigitSplit(digit, rest);
      hide LeValue;
      assert LeBytes(digit + 256 * rest, |s|) == [s[0]] + LeBytes(rest, |s| - 1);
      assert s == [s[0]] + s[1..];
    }
  }

  lemma {:induction false} LeValueOfBytes(n: nat, width: nat)
    requires n < Pow256(width)
    ensures LeValue(LeBytes(n, width)) == n
  {
    if width > 0 {
      LeValueOfBytes(n / 256, width - 1);
      ByteOfInt(n % 256);
      assert LeBytes(n, width)[1..] == LeBytes(n / 256, width - 1);
    }
  }

  lemma Pow256Values()
    ensures Pow256(2) == 0x1_0000
    ensures Pow256(4) == 0x1_0000_0000
    ensures Pow256(8) == 0x1_0000_0000_0000_0000
  {
    assert Pow256(1) == 256;
    assert Pow256(3) == 256 * Pow256(2);
    assert Pow256(5) == 256 * Pow256(4);
    assert Pow256(6) == 256 * Pow256(5);
    assert Pow256(7) == 256 * Pow256(6);
  }

  // ---------------------------------------------------------------------
  // UTF-8 (section 4 of RFC 3629)
  // ---------------------------------------------------------------------

  predicate IsTail(b: byte)
  {
    0x80 <= b <= 0xBF
  }

  /** The length of the well-formed scalar at the front of `s`, or zero. */
  function ScalarLength(s: seq<byte>): (n: nat)
    ensures n <= |s|
  {
    if |s| >= 1 && s[0] <= 0x7F then 1
    else if |s| >= 2 && 0xC2 <= s[0] <= 0xDF && IsTail(s[1]) then 2
    else if |s| >= 3 && IsTail(s[1]) && IsTail(s[2])
            && ((s[0] == 0xE0 && 0xA0 <= s[1])
                || 0xE1 <= s[0] <= 0xEC
                || (s[0] == 0xED && s[1] <= 0x9F)
                || 0xEE <= s[0] <= 0xEF) then 3
    else if |s| >= 4 && IsTail(s[1]) && IsTail(s[2]) && IsTail(s[3])
            && ((s[0] == 0xF0 && 0x90 <= s[1])
                || 0xF1 <= s[0] <= 0xF3
                || (s[0] == 0xF4 && s[1] <= 0x8F)) then 4
    else 0
  }

  predicate ValidUtf8(s: seq<byte>)
  {
    s == [] || (ScalarLength(s) > 0 && ValidUtf8(s[ScalarLength(s)..]))
  }

  // ---------------------------------------------------------------------
  // Lowercase hex
  // ---------------------------------------------------------------------

  function HexDigit(n: byte): (d: byte)
    requires n < 16
  {
    if n < 10 then 0x30 + n else 0x57 + n
  }

  function Hex(s: seq<byte>): (h: seq<byte>)
    ensures |h| == 2 * |s|
  {
    if s == [] then [] else [HexDigit(s[0] >> 4), HexDigit(s[0] & 0xF)] + Hex(s[1..])
  }

  lemma HexDigitsInjective(a: byte, b: byte)
    requires HexDigit(a >> 4) == HexDigit(b >> 4) && HexDigit(a & 0xF) == HexDigit(b & 0xF)
    ensures a == b
  {
    assert a >> 4 == b >> 4 && a & 0xF == b & 0xF;
    assert a == ((a >> 4) << 4) | (a & 0xF);
    assert b == ((b >> 4) << 4) | (b & 0xF);
  }

  lemma {:induction false} HexInjective(s: seq<byte>, t: seq<byte>)
    requires |s| == |t| && Hex(s) == Hex(t)
    ensures s == t
  {
    hide HexDigit;
    if s != [] {
      assert Hex(s)[2..] == Hex(s[1..]) && Hex(t)[2..] == Hex(t[1..]);
      assert Hex(s)[0] == Hex(t)[0] && Hex(s)[1] == Hex(t)[1];
      HexDigitsInjective(s[0], t[0]);
      HexInjective(s[1..], t[1..]);
      assert s == [s[0]] + s[1..] && t == [t[0]] + t[1..];
    }
  }
}
