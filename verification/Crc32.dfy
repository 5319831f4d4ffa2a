/** The CRC-32 of section 8 of RFC 1952, and the errors it is certain to detect. */
module Crc32 {
  import opened Bytes

  /** One shift of the register: the loop body of the inner loop. */
  function BitStep(crc: bv32): bv32
  {
    (crc >> 1) ^ (if crc & 1 == 1 then 0xEDB8_8320 else 0)
  }

  function BitSteps(crc: bv32, n: nat): bv32
  {
    if n == 0 then crc else BitStep(BitSteps(crc, n - 1))
  }

  function FeedByte(crc: bv32, b: byte): bv32
  {
    BitSteps(crc ^ (b as bv32), 8)
  }

  /** The register after feeding `data`, one byte after the other. */
  function Feed(crc: bv32, data: seq<byte>): bv32
    decreases |data|
  {
    if data == [] then crc else Feed(FeedByte(crc, data[0]), data[1..])
  }

  function Complement(x: bv32): bv32
  {
    !x
  }

  function Checksum(data: seq<byte>): bv32
  {
    Complement(Feed(0xFFFF_FFFF, data))
  }

  /** The checksum as the codec computes it, bit by bit. */
  method ComputeChecksum(data: seq<byte>) returns (checksum: bv32)
    ensures checksum == Checksum(data)
  {
    var crc: bv32 := 0xFFFF_FFFF;
    for i := 0 to |data|
      invariant Feed(crc, data[i..]) == Feed(0xFFFF_FFFF, data)
    {
      ghost var before := crc;
      crc := crc ^ (data[i] as bv32);
      ghost var mixed := crc;
      for bit := 0 to 8
        invariant crc == BitSteps(mixed, bit)
      {
        var mask: bv32 := if crc & 1 != 0 then 0xFFFF_FFFF else 0;
        ghost var old_crc := crc;
        MaskedStep(crc);
        crc := (crc >> 1) ^ (0xEDB8_8320 & mask);
        assert crc == BitStep(old_crc);
      }
      assert crc == FeedByte(before, data[i]);
      assert data[i..][1..] == data[i + 1..];
    }
    assert data[|data|..] == [];
    checksum := !crc;
  }

  lemma MaskedStep(crc: bv32)
    ensures crc & 1 != 0 <==> crc & 1 == 1
    ensures (crc >> 1) ^ (0xEDB8_8320 & (if crc & 1 != 0 then 0xFFFF_FFFF else 0)) == BitStep(crc)
  {
    assert crc & 1 == 0 || crc & 1 == 1;
  }

  // ---------------------------------------------------------------------
  // The step is injective and linear
  // ---------------------------------------------------------------------

  lemma BitStepInjective(c: bv32, d: bv32)
    requires BitStep(c) == BitStep(d)
    ensures c == d
  {
  }

  lemma {:induction false} BitStepsInjective(c: bv32, d: bv32, n: nat)
    requires BitSteps(c, n) == BitSteps(d, n)
    ensures c == d
  {
    if n > 0 {
      BitStepInjective(BitSteps(c, n - 1), BitSteps(d, n - 1));
      BitStepsInjective(c, d, n - 1);
    }
  }

  lemma XorExchange(a: bv32, b: bv32, x: bv32, y: bv32)
    ensures (a ^ b) ^ (x ^ y) == (a ^ x) ^ (b ^ y)
  {
  }

  lemma ParityOfXor(c: bv32, d: bv32)
    ensures (c ^ d) & 1 == (c & 1) ^ (d & 1)
    ensures (c ^ d) >> 1 == (c >> 1) ^ (d >> 1)
  {
  }

  lemma ParityCases(c: bv32)
    ensures c & 1 == 0 || c & 1 == 1
  {
  }

  function Feedback(c: bv32): bv32
  {
    if c & 1 == 1 then 0xEDB8_8320 else 0
  }

  function Xor(a: bv32, b: bv32): bv32
  {
    a ^ b
  }

  lemma BitStepLinear(c: bv32, d: bv32)
    ensures BitStep(Xor(c, d)) == Xor(BitStep(c), BitStep(d))
  {
    ParityOfXor(c, d);
    ParityCases(c);
    ParityCases(d);
    assert Feedback(c ^ d) == Feedback(c) ^ Feedback(d);
    XorExchange(c >> 1, d >> 1, Feedback(c), Feedback(d));
  }

  lemma {:induction false} BitStepsLinear(c: bv32, d: bv32, n: nat)
    ensures BitSteps(Xor(c, d), n) == Xor(BitSteps(c, n), BitSteps(d, n))
  {
    hide BitStep, Xor;
    if n > 0 {
      BitStepsLinear(c, d, n - 1);
      BitStepLinear(BitSteps(c, n - 1), BitSteps(d, n - 1));
    }
  }

  lemma {:induction false} FeedInjective(c: bv32, d: bv32, data: seq<byte>)
    requires Feed(c, data) == Feed(d, data)
    ensures c == d
    decreases |data|
  {
    if data != [] {
      FeedInjective(FeedByte(c, data[0]), FeedByte(d, data[0]), data[1..]);
      BitStepsInjective(c ^ (data[0] as bv32), d ^ (data[0] as bv32), 8);
    }
  }

  lemma {:induction false} FeedAppend(c: bv32, left: seq<byte>, right: seq<byte>)
    ensures Feed(c, left + right) == Feed(Feed(c, left), right)
    decreases |left|
  {
    if left == [] {
      assert left + right == right;
    } else {
      FeedAppend(FeedByte(c, left[0]), left[1..], right);
      assert (left + right)[1..] == left[1..] + right;
    }
  }

  // ---------------------------------------------------------------------
  // Four bytes are one word: every burst inside 32 bits is detected
  // ---------------------------------------------------------------------

  function Eight(c: bv32): bv32
  {
    BitSteps(c, 8)
  }

  function Wide(b: byte): bv32
  {
    b as bv32
  }

  function Placed(b: byte, shift: bv32): bv32
    requires shift == 8 || shift == 16 || shift == 24
  {
    Wide(b) << shift
  }

  function WordOf(w: seq<byte>): bv32
    requires |w| == 4
  {
    Xor(Xor(Xor(Wide(w[0]), Placed(w[1], 8)), Placed(w[2], 16)), Placed(w[3], 24))
  }

  function Halve(x: bv32): bv32
  {
    x >> 1
  }

  predicate Even(x: bv32)
  {
    x & 1 == 0
  }

  lemma EvenStep(x: bv32)
    requires Even(x)
    ensures BitStep(x) == Halve(x)
  {
  }

  lemma ClearLowByte(x: bv32)
    requires x & 0xFF == 0
    ensures var y := Halve(Halve(Halve(Halve(x))));
      && Even(x) && Even(Halve(x)) && Even(Halve(Halve(x))) && Even(Halve(Halve(Halve(x))))
      && Even(y) && Even(Halve(y)) && Even(Halve(Halve(y))) && Even(Halve(Halve(Halve(y))))
      && Halve(Halve(Halve(Halve(y)))) == x >> 8
  {
  }

  lemma FourEven(x: bv32, n: nat)
    requires Even(BitSteps(x, n)) && Even(Halve(BitSteps(x, n)))
    requires Even(Halve(Halve(BitSteps(x, n)))) && Even(Halve(Halve(Halve(BitSteps(x, n)))))
    ensures BitSteps(x, n + 4) == Halve(Halve(Halve(Halve(BitSteps(x, n)))))
  {
    var y := BitSteps(x, n);
    EvenStep(y);
    EvenStep(Halve(y));
    EvenStep(Halve(Halve(y)));
    EvenStep(Halve(Halve(Halve(y))));
    hide BitStep, Halve, Even;
    assert BitSteps(x, n + 1) == Halve(y);
    assert BitSteps(x, n + 2) == Halve(Halve(y));
    assert BitSteps(x, n + 3) == Halve(Halve(Halve(y)));
  }

  /** Eight steps of a register whose low byte is clear only shift. */
  lemma EightShifts(x: bv32)
    requires x & 0xFF == 0
    ensures Eight(x) == x >> 8
  {
    ClearLowByte(x);
    hide BitStep, Halve, Even;
    FourEven(x, 0);
    FourEven(x, 4);
  }

  /** A later byte may be mixed in before the eight steps, one byte higher. */
  lemma Pull(c: bv32, x: bv32)
    requires x & 0xFF == 0
    ensures Xor(Eight(c), x >> 8) == Eight(Xor(c, x))
  {
    EightShifts(x);
    BitStepsLinear(c, x, 8);
  }

  lemma PlacedShifts(b: byte)
    ensures Placed(b, 8) & 0xFF == 0 && Placed(b, 16) & 0xFF == 0 && Placed(b, 24) & 0xFF == 0
    ensures Placed(b, 8) >> 8 == Wide(b) && Placed(b, 16) >> 8 == Placed(b, 8)
    ensures Placed(b, 24) >> 8 == Placed(b, 16)
  {
  }

  lemma PullSecond(c: bv32, b: byte)
    ensures Xor(Eight(c), Wide(b)) == Eight(Xor(c, Placed(b, 8)))
  {
    PlacedShifts(b);
    Pull(c, Placed(b, 8));
  }

  lemma PullThird(c: bv32, b: byte)
    ensures Xor(Eight(c), Placed(b, 8)) == Eight(Xor(c, Placed(b, 16)))
  {
    PlacedShifts(b);
    Pull(c, Placed(b, 16));
  }

  lemma PullFourth(c: bv32, b: byte)
    ensures Xor(Eight(c), Placed(b, 16)) == Eight(Xor(c, Placed(b, 24)))
  {
    PlacedShifts(b);
    Pull(c, Placed(b, 24));
  }

  lemma XorAssociative(c: bv32, x0: bv32, x1: bv32, x2: bv32, x3: bv32)
    ensures Xor(Xor(Xor(Xor(c, x0), x1), x2), x3) == Xor(c, Xor(Xor(Xor(x0, x1), x2), x3))
  {
  }

  lemma WordSum(c: bv32, w: seq<byte>)
    requires |w| == 4
    ensures Xor(Xor(Xor(Xor(c, Wide(w[0])), Placed(w[1], 8)), Placed(w[2], 16)), Placed(w[3], 24))
         == Xor(c, WordOf(w))
  {
    XorAssociative(c, Wide(w[0]), Placed(w[1], 8), Placed(w[2], 16), Placed(w[3], 24));
    hide Wide, Placed, Xor;
  }

  function Lane(x: bv32, shift: bv32): byte
    requires shift == 0 || shift == 8 || shift == 16 || shift == 24
  {
    ((x >> shift) & 0xFF) as byte
  }

  lemma Lanes(b0: byte, b1: byte, b2: byte, b3: byte)
    ensures var x := Xor(Xor(Xor(Wide(b0), Placed(b1, 8)), Placed(b2, 16)), Placed(b3, 24));
      Lane(x, 0) == b0 && Lane(x, 8) == b1 && Lane(x, 16) == b2 && Lane(x, 24) == b3
  {
  }

  lemma WordInjective(v: seq<byte>, w: seq<byte>)
    requires |v| == 4 && |w| == 4 && WordOf(v) == WordOf(w)
    ensures v == w
  {
    Lanes(v[0], v[1], v[2], v[3]);
    Lanes(w[0], w[1], w[2], w[3]);
    hide Wide, Placed, Lane, Xor;
  }

  lemma FeedByteIsEight(c: bv32, b: byte)
    ensures FeedByte(c, b) == Eight(Xor(c, Wide(b)))
  {
  }

  /** Feeding four bytes is feeding one 32-bit word. */
  lemma FeedWord(c: bv32, w: seq<byte>)
    requires |w| == 4
    ensures Feed(c, w) == Eight(Eight(Eight(Eight(Xor(c, WordOf(w))))))
  {
    hide FeedByte, Eight, Xor, Placed, Wide, WordOf;
    WordSum(c, w);
    var t0 := Xor(c, Wide(w[0]));
    var t1 := Xor(t0, Placed(w[1], 8));
    var t2 := Xor(t1, Placed(w[2], 16));
    FeedByteIsEight(c, w[0]);
    FeedByteIsEight(Eight(t0), w[1]);
    FeedByteIsEight(Eight(Eight(t1)), w[2]);
    FeedByteIsEight(Eight(Eight(Eight(t2))), w[3]);
    PullSecond(t0, w[1]);
    PullSecond(Eight(t1), w[2]);
    PullThird(t1, w[2]);
    PullSecond(Eight(Eight(t2)), w[3]);
    PullThird(Eight(t2), w[3]);
    PullFourth(t2, w[3]);
    assert w[1..][1..] == w[2..] && w[2..][1..] == w[3..] && w[3..][1..] == [];
    assert Feed(c, w) == Feed(FeedByte(c, w[0]), w[1..]);
    assert Feed(Eight(t0), w[1..]) == Feed(FeedByte(Eight(t0), w[1]), w[2..]);
    assert Feed(Eight(Eight(t1)), w[2..]) == Feed(FeedByte(Eight(Eight(t1)), w[2]), w[3..]);
    assert Feed(Eight(Eight(Eight(t2))), w[3..]) == FeedByte(Eight(Eight(Eight(t2))), w[3]);
  }

  lemma XorInjective(c: bv32, x: bv32, y: bv32)
    requires Xor(c, x) == Xor(c, y)
    ensures x == y
  {
    assert c ^ (c ^ x) == x && c ^ (c ^ y) == y;
  }

  lemma WindowInjective(c: bv32, v: seq<byte>, w: seq<byte>)
    requires |v| == |w| <= 4
    requires Feed(c, v) == Feed(c, w)
    ensures v == w
  {
    var pad := seq(4 - |v|, _ => 0 as byte);
    FeedAppend(c, v, pad);
    FeedAppend(c, w, pad);
    FeedWord(c, v + pad);
    FeedWord(c, w + pad);
    var x, y := Xor(c, WordOf(v + pad)), Xor(c, WordOf(w + pad));
    FourEightsInjective(x, y);
    XorInjective(c, WordOf(v + pad), WordOf(w + pad));
    WordInjective(v + pad, w + pad);
    assert v == (v + pad)[..|v|] && w == (w + pad)[..|w|];
  }

  lemma FeedParts(c: bv32, prefix: seq<byte>, v: seq<byte>, suffix: seq<byte>)
    ensures Feed(c, prefix + v + suffix) == Feed(Feed(Feed(c, prefix), v), suffix)
  {
    FeedAppend(c, prefix, v);
    FeedAppend(c, prefix + v, suffix);
  }

  lemma FeedBurst(c: bv32, prefix: seq<byte>, v: seq<byte>, w: seq<byte>, suffix: seq<byte>)
    requires |v| == |w| <= 4 && v != w
    ensures Feed(c, prefix + v + suffix) != Feed(c, prefix + w + suffix)
  {
    hide FeedByte, Feed;
    FeedParts(c, prefix, v, suffix);
    FeedParts(c, prefix, w, suffix);
    var start := Feed(c, prefix);
    if Feed(Feed(start, v), suffix) == Feed(Feed(start, w), suffix) {
      FeedInjective(Feed(start, v), Feed(start, w), suffix);
      WindowInjective(start, v, w);
    }
  }

  lemma ComplementTwice(x: bv32)
    ensures Complement(Complement(x)) == x
  {
  }

  /**
   * Two buffers of the same length that differ only inside four consecutive
   * bytes have different checksums. One changed byte is the case of a window
   * of length one.
   */
  lemma BurstDetected(prefix: seq<byte>, v: seq<byte>, w: seq<byte>, suffix: seq<byte>)
    requires |v| == |w| <= 4 && v != w
    ensures Checksum(prefix + v + suffix) != Checksum(prefix + w + suffix)
  {
    FeedBurst(0xFFFF_FFFF, prefix, v, w, suffix);
    ComplementTwice(Feed(0xFFFF_FFFF, prefix + v + suffix));
    ComplementTwice(Feed(0xFFFF_FFFF, prefix + w + suffix));
    hide Feed, Complement;
  }

  // ---------------------------------------------------------------------
  // Checking a trailer is checking the register after the whole file
  // ---------------------------------------------------------------------

  /** The checksum as four little-endian bytes. */
  function TrailerOf(checksum: bv32): (s: seq<byte>)
    ensures |s| == 4
  {
    [Lane(checksum, 0), Lane(checksum, 8), Lane(checksum, 16), Lane(checksum, 24)]
  }

  function Residue(): bv32
  {
    Eight(Eight(Eight(Eight(0xFFFF_FFFF))))
  }

  lemma WordOfTrailer(x: bv32)
    ensures WordOf(TrailerOf(x)) == x
  {
    LanesRebuild(x);
    hide Wide, Placed, Lane, Xor;
  }

  lemma LanesRebuild(x: bv32)
    ensures Xor(Xor(Xor(Wide(Lane(x, 0)), Placed(Lane(x, 8), 8)), Placed(Lane(x, 16), 16)), Placed(Lane(x, 24), 24))
        == x
  {
  }

  lemma ComplementSum(x: bv32)
    ensures Xor(x, Complement(x)) == 0xFFFF_FFFF
  {
  }

  lemma SumIsComplement(x: bv32, w: bv32)
    requires Xor(x, w) == 0xFFFF_FFFF
    ensures w == Complement(x)
  {
  }

  lemma TrailerCheckIsResidue(body: seq<byte>, stored: seq<byte>)
    requires |stored| == 4
    ensures TrailerOf(Checksum(body)) == stored <==> Feed(0xFFFF_FFFF, body + stored) == Residue()
  {
    hide Eight, Xor, WordOf, Feed, FeedByte, TrailerOf, Complement;
    var c := Feed(0xFFFF_FFFF, body);
    FeedAppend(0xFFFF_FFFF, body, stored);
    FeedWord(c, stored);
    WordOfTrailer(Complement(c));
    FourEightsInjective(Xor(c, WordOf(stored)), 0xFFFF_FFFF);
    if TrailerOf(Complement(c)) == stored {
      ComplementSum(c);
    }
    if Xor(c, WordOf(stored)) == 0xFFFF_FFFF {
      SumIsComplement(c, WordOf(stored));
      WordInjective(TrailerOf(Complement(c)), stored);
    }
  }

  lemma FourEightsInjective(x: bv32, y: bv32)
    ensures Eight(Eight(Eight(Eight(x)))) == Eight(Eight(Eight(Eight(y)))) <==> x == y
  {
    hide Eight;
    if Eight(Eight(Eight(Eight(x)))) == Eight(Eight(Eight(Eight(y)))) {
      EightInjective(Eight(Eight(Eight(x))), Eight(Eight(Eight(y))));
      EightInjective(Eight(Eight(x)), Eight(Eight(y)));
      EightInjective(Eight(x), Eight(y));
      EightInjective(x, y);
    }
  }

  lemma EightInjective(c: bv32, d: bv32)
    requires Eight(c) == Eight(d)
    ensures c == d
  {
    BitStepsInjective(c, d, 8);
  }

  // ---------------------------------------------------------------------
  // The published check value
  // ---------------------------------------------------------------------

  lemma EightSteps(crc: bv32)
    ensures BitSteps(crc, 8)
         == BitStep(BitStep(BitStep(BitStep(BitStep(BitStep(BitStep(BitStep(crc))))))))
  {
    assert BitSteps(crc, 8) == BitStep(BitSteps(crc, 7)) && BitSteps(crc, 7) == BitStep(BitSteps(crc, 6));
    assert BitSteps(crc, 6) == BitStep(BitSteps(crc, 5)) && BitSteps(crc, 5) == BitStep(BitSteps(crc, 4));
    assert BitSteps(crc, 4) == BitStep(BitSteps(crc, 3)) && BitSteps(crc, 3) == BitStep(BitSteps(crc, 2));
    assert BitSteps(crc, 2) == BitStep(BitSteps(crc, 1)) && BitSteps(crc, 1) == BitStep(BitSteps(crc, 0));
  }

  /** The digits one to nine. */
  const DIGITS: seq<byte> := [0x31, 0x32, 0x33, 0x34, 0x35, 0x36, 0x37, 0x38, 0x39]

  /** The register before and after each of them. */
  const REGISTERS: seq<bv32> := [
    0xffff_ffff, 0x7c23_1048, 0xb0ac_bb32, 0x77b7_9c2d, 0x641c_1f5c, 0x340a_c5e3,
    0xf68d_2c9e, 0xaffc_9660, 0x651f_2550, 0x340b_c6d9
  ]

  lemma FirstDigits()
    ensures FeedByte(0xffff_ffff, 0x31) == 0x7c23_1048
    ensures FeedByte(0x7c23_1048, 0x32) == 0xb0ac_bb32
    ensures FeedByte(0xb0ac_bb32, 0x33) == 0x77b7_9c2d
  {
    EightSteps(0xffff_ffce);
    EightSteps(0x7c23_107a);
    EightSteps(0xb0ac_bb01);
    hide BitSteps;
  }

  lemma MiddleDigits()
    ensures FeedByte(0x77b7_9c2d, 0x34) == 0x641c_1f5c
    ensures FeedByte(0x641c_1f5c, 0x35) == 0x340a_c5e3
    ensures FeedByte(0x340a_c5e3, 0x36) == 0xf68d_2c9e
  {
    EightSteps(0x77b7_9c19);
    EightSteps(0x641c_1f69);
    EightSteps(0x340a_c5d5);
    hide BitSteps;
  }

  lemma LastDigits()
    ensures FeedByte(0xf68d_2c9e, 0x37) == 0xaffc_9660
    ensures FeedByte(0xaffc_9660, 0x38) == 0x651f_2550
    ensures FeedByte(0x651f_2550, 0x39) == 0x340b_c6d9
  {
    EightSteps(0xf68d_2ca9);
    EightSteps(0xaffc_9658);
    EightSteps(0x651f_2569);
    hide BitSteps;
  }

  lemma DigitFed(i: nat)
    requires i < 9
    ensures |DIGITS| == 9 && |REGISTERS| == 10
    ensures FeedByte(REGISTERS[i], DIGITS[i]) == REGISTERS[i + 1]
  {
    hide FeedByte;
    FirstDigits();
    MiddleDigits();
    LastDigits();
  }

  lemma {:induction false} DigitsFed(i: nat)
    requires i <= 9
    ensures |DIGITS| == 9 && |REGISTERS| == 10
    ensures Feed(REGISTERS[i], DIGITS[i..]) == 0x340b_c6d9
    decreases 9 - i
  {
    hide FeedByte;
    if i < 9 {
      DigitFed(i);
      DigitsFed(i + 1);
      assert DIGITS[i..][1..] == DIGITS[i + 1..];
    }
  }

  /** The published check value of this checksum, written least byte first. */
  lemma CheckValue()
    ensures Checksum([0x31, 0x32, 0x33, 0x34, 0x35, 0x36, 0x37, 0x38, 0x39]) == 0xCBF4_3926
    ensures TrailerOf(0xCBF4_3926) == [0x26, 0x39, 0xF4, 0xCB]
  {
    hide Feed;
    DigitsFed(0);
    assert DIGITS[0..] == DIGITS && REGISTERS[0] == 0xFFFF_FFFF;
    assert Complement(0x340b_c6d9) == 0xCBF4_3926;
  }
}
