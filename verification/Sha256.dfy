/** SHA-256 (sections 4, 5.1.1 and 6.2 of FIPS 180-4) and the loops that compute it. */
module Sha256 {
  import opened Bytes

  const K: seq<bv32> := [
    0x428a_2f98, 0x7137_4491, 0xb5c0_fbcf, 0xe9b5_dba5, 0x3956_c25b, 0x59f1_11f1, 0x923f_82a4, 0xab1c_5ed5,
    0xd807_aa98, 0x1283_5b01, 0x2431_85be, 0x550c_7dc3, 0x72be_5d74, 0x80de_b1fe, 0x9bdc_06a7, 0xc19b_f174
  ] + [
    0xe49b_69c1, 0xefbe_4786, 0x0fc1_9dc6, 0x240c_a1cc, 0x2de9_2c6f, 0x4a74_84aa, 0x5cb0_a9dc, 0x76f9_88da,
    0x983e_5152, 0xa831_c66d, 0xb003_27c8, 0xbf59_7fc7, 0xc6e0_0bf3, 0xd5a7_9147, 0x06ca_6351, 0x1429_2967
  ] + [
    0x27b7_0a85, 0x2e1b_2138, 0x4d2c_6dfc, 0x5338_0d13, 0x650a_7354, 0x766a_0abb, 0x81c2_c92e, 0x9272_2c85,
    0xa2bf_e8a1, 0xa81a_664b, 0xc24b_8b70, 0xc76c_51a3, 0xd192_e819, 0xd699_0624, 0xf40e_3585, 0x106a_a070
  ] + [
    0x19a4_c116, 0x1e37_6c08, 0x2748_774c, 0x34b0_bcb5, 0x391c_0cb3, 0x4ed8_aa4a, 0x5b9c_ca4f, 0x682e_6ff3,
    0x748f_82ee, 0x78a5_636f, 0x84c8_7814, 0x8cc7_0208, 0x90be_fffa, 0xa450_6ceb, 0xbef9_a3f7, 0xc671_78f2
  ]

  // ---------------------------------------------------------------------
  // The standard's definition
  // ---------------------------------------------------------------------

  function RotR(x: bv32, n: bv32): bv32
    requires 0 < n < 32
  {
    (x >> n) | (x << (32 - n))
  }

  function SmallSigma0(x: bv32): bv32 { RotR(x, 7) ^ RotR(x, 18) ^ (x >> 3) }

  function SmallSigma1(x: bv32): bv32 { RotR(x, 17) ^ RotR(x, 19) ^ (x >> 10) }

  function BigSigma0(x: bv32): bv32 { RotR(x, 2) ^ RotR(x, 13) ^ RotR(x, 22) }

  function BigSigma1(x: bv32): bv32 { RotR(x, 6) ^ RotR(x, 11) ^ RotR(x, 25) }

  function Choose(x: bv32, y: bv32, z: bv32): bv32 { (x & y) ^ (!x & z) }

  function Majority(x: bv32, y: bv32, z: bv32): bv32 { (x & y) ^ (x & z) ^ (y & z) }

  function Add(x: bv32, y: bv32): bv32 { x + y }

  function BeWord(b0: byte, b1: byte, b2: byte, b3: byte): bv32
  {
    ((b0 as bv32) << 24) | ((b1 as bv32) << 16) | ((b2 as bv32) << 8) | (b3 as bv32)
  }

  function WordBytes(w: bv32): (s: seq<byte>)
    ensures |s| == 4
  {
    [((w >> 24) & 0xFF) as byte, ((w >> 16) & 0xFF) as byte, ((w >> 8) & 0xFF) as byte, (w & 0xFF) as byte]
  }

  function BeBytes(n: nat, width: nat): (s: seq<byte>)
    ensures |s| == width
  {
    if width == 0 then [] else BeBytes(n / 256, width - 1) + [(n % 256) as byte]
  }

  predicate FillsToLength(length: nat, zeros: nat)
  {
    (length + 1 + zeros) % 64 == 56
  }

  /** The least number of zero bytes that brings `length + 1` to 56 modulo 64. */
  function PadZeros(length: nat): (zeros: nat)
    ensures FillsToLength(length, zeros)
    ensures forall fewer: nat :: FillsToLength(length, fewer) ==> zeros <= fewer
  {
    (119 - length % 64) % 64
  }

  function Zeros(n: nat): (s: seq<byte>)
    ensures |s| == n
  {
    seq(n, _ => 0 as byte)
  }

  function Padded(message: seq<byte>): (padded: seq<byte>)
    ensures |padded| == |message| + 1 + PadZeros(|message|) + 8
    ensures message <= padded
  {
    message + [0x80] + Zeros(PadZeros(|message|)) + BeBytes(8 * |message|, 8)
  }

  lemma WholeBlocks(n: nat)
    requires n % 64 == 56
    ensures (n + 8) % 64 == 0
  {
  }

  lemma PaddedIsWholeBlocks(message: seq<byte>)
    ensures |Padded(message)| % 64 == 0
  {
    var zeros := PadZeros(|message|);
    hide PadZeros;
    assert FillsToLength(|message|, zeros);
    WholeBlocks(|message| + 1 + zeros);
  }

  type MessageBlock = b: seq<byte> | |b| == 64 witness Zeros(64)

  function ScheduleSum(s1: bv32, y: bv32, s0: bv32, x: bv32): bv32
  {
    s1 + y + s0 + x
  }

  /** The message schedule. */
  function W(block: MessageBlock, t: nat): bv32
  {
    if t < 16 then
      BeWord(block[4 * t], block[4 * t + 1], block[4 * t + 2], block[4 * t + 3])
    else
      ScheduleSum(SmallSigma1(W(block, t - 2)), W(block, t - 7), SmallSigma0(W(block, t - 15)), W(block, t - 16))
  }

  datatype Working = Working(a: bv32, b: bv32, c: bv32, d: bv32, e: bv32, f: bv32, g: bv32, h: bv32)

  function Temp1(s: Working, k: bv32, w: bv32): bv32
  {
    Add(Add(Add(Add(s.h, BigSigma1(s.e)), Choose(s.e, s.f, s.g)), k), w)
  }

  function Temp2(s: Working): bv32
  {
    Add(BigSigma0(s.a), Majority(s.a, s.b, s.c))
  }

  function Round(s: Working, k: bv32, w: bv32): Working
  {
    Working(Add(Temp1(s, k, w), Temp2(s)), s.a, s.b, s.c, Add(s.d, Temp1(s, k, w)), s.e, s.f, s.g)
  }

  function Rounds(s: Working, block: MessageBlock, t: nat): Working
    requires t <= 64
  {
    if t == 0 then s else Round(Rounds(s, block, t - 1), K[t - 1], W(block, t - 1))
  }

  function Sum(s: Working, t: Working): Working
  {
    Working(Add(s.a, t.a), Add(s.b, t.b), Add(s.c, t.c), Add(s.d, t.d),
            Add(s.e, t.e), Add(s.f, t.f), Add(s.g, t.g), Add(s.h, t.h))
  }

  function Compress(s: Working, block: MessageBlock): Working
  {
    Sum(s, Rounds(s, block, 64))
  }

  const INITIAL := Working(0x6a09_e667, 0xbb67_ae85, 0x3c6e_f372, 0xa54f_f53a,
                           0x510e_527f, 0x9b05_688c, 0x1f83_d9ab, 0x5be0_cd19)

  /** The hash value after the first `n` blocks. */
  function HashAfter(padded: seq<byte>, n: nat): Working
    requires 64 * n <= |padded|
  {
    if n == 0 then INITIAL else Compress(HashAfter(padded, n - 1), padded[64 * (n - 1)..64 * n])
  }

  function DigestBytes(s: Working): (d: seq<byte>)
    ensures |d| == 32
  {
    WordBytes(s.a) + WordBytes(s.b) + WordBytes(s.c) + WordBytes(s.d)
    + WordBytes(s.e) + WordBytes(s.f) + WordBytes(s.g) + WordBytes(s.h)
  }

  function Digest(message: seq<byte>): (d: seq<byte>)
    ensures |d| == 32
  {
    var padded := Padded(message);
    DigestBytes(HashAfter(padded, |padded| / 64))
  }

  // ---------------------------------------------------------------------
  // Padding is injective
  // ---------------------------------------------------------------------

  lemma {:induction false} BeBytesInjective(m: nat, n: nat, width: nat)
    requires m < Pow256(width) && n < Pow256(width)
    requires BeBytes(m, width) == BeBytes(n, width)
    ensures m == n
  {
    if width > 0 {
      var last := width - 1;
      assert BeBytes(m, width)[..last] == BeBytes(m / 256, last);
      assert BeBytes(n, width)[..last] == BeBytes(n / 256, last);
      BeBytesInjective(m / 256, n / 256, last);
      assert BeBytes(m, width)[last] == BeBytes(n, width)[last];
      ByteOfInt(m % 256);
      ByteOfInt(n % 256);
    }
  }

  /** Distinct messages under 2^61 bytes are padded to distinct messages. */
  lemma PaddingInjective(m: seq<byte>, n: seq<byte>)
    requires |m| < 0x2000_0000_0000_0000 && |n| < 0x2000_0000_0000_0000
    requires Padded(m) == Padded(n)
    ensures m == n
  {
    var p := Padded(m);
    assert p[|p| - 8..] == BeBytes(8 * |m|, 8);
    assert p[|p| - 8..] == BeBytes(8 * |n|, 8);
    Pow256Values();
    BeBytesInjective(8 * |m|, 8 * |n|, 8);
    assert m == p[..|m|] && n == p[..|n|];
  }

  // ---------------------------------------------------------------------
  // The implementation's loops
  // ---------------------------------------------------------------------

  /** The schedule terms added in the order of the implementation. */
  function AddedInOrder(x: bv32, s0: bv32, y: bv32, s1: bv32): bv32
  {
    x + s0 + y + s1
  }

  lemma AddReorders(x: bv32, s0: bv32, y: bv32, s1: bv32)
    ensures AddedInOrder(x, s0, y, s1) == ScheduleSum(s1, y, s0, x)
  {
  }

  method PadMessage(data: seq<byte>) returns (message: seq<byte>)
    ensures message == Padded(data)
  {
    message := data + [0x80];
    ghost var pushed := 0;
    hide PadZeros;
    while |message| % 64 != 56
      invariant pushed <= PadZeros(|data|)
      invariant |message| == |data| + 1 + pushed
      invariant message == data + [0x80] + Zeros(pushed)
      decreases PadZeros(|data|) - pushed
    {
      assert !FillsToLength(|data|, pushed);
      assert Zeros(pushed) + [0] == Zeros(pushed + 1);
      message := message + [0];
      pushed := pushed + 1;
    }
    assert FillsToLength(|data|, pushed);
    message := message + BeBytes(8 * |data|, 8);
  }

  method FillSchedule(block: MessageBlock, w: array<bv32>)
    requires w.Length == 64
    modifies w
    ensures forall t :: 0 <= t < 64 ==> w[t] == W(block, t)
  {
    for t := 0 to 16
      invariant forall u :: 0 <= u < t ==> w[u] == W(block, u)
    {
      w[t] := BeWord(block[4 * t], block[4 * t + 1], block[4 * t + 2], block[4 * t + 3]);
    }
    for t := 16 to 64
      invariant forall u :: 0 <= u < t ==> w[u] == W(block, u)
    {
      hide SmallSigma0, SmallSigma1, AddedInOrder, ScheduleSum;
      var s0 := SmallSigma0(w[t - 15]);
      var s1 := SmallSigma1(w[t - 2]);
      AddReorders(w[t - 16], s0, w[t - 7], s1);
      w[t] := AddedInOrder(w[t - 16], s0, w[t - 7], s1);
    }
  }

  method CompressBlock(state: Working, block: MessageBlock, w: array<bv32>) returns (next: Working)
    requires w.Length == 64
    requires forall t :: 0 <= t < 64 ==> w[t] == W(block, t)
    ensures next == Compress(state, block)
  {
    hide W, BigSigma0, BigSigma1, Choose, Majority, Add;
    var a, b, c, d := state.a, state.b, state.c, state.d;
    var e, f, g, h := state.e, state.f, state.g, state.h;
    for t := 0 to 64
      invariant Working(a, b, c, d, e, f, g, h) == Rounds(state, block, t)
    {
      var temp1 := Add(Add(Add(Add(h, BigSigma1(e)), Choose(e, f, g)), K[t]), w[t]);
      var temp2 := Add(BigSigma0(a), Majority(a, b, c));
      h := g;
      g := f;
      f := e;
      e := Add(d, temp1);
      d := c;
      c := b;
      b := a;
      a := Add(temp1, temp2);
    }
    next := Working(Add(state.a, a), Add(state.b, b), Add(state.c, c), Add(state.d, d),
                    Add(state.e, e), Add(state.f, f), Add(state.g, g), Add(state.h, h));
  }

  method ComputeDigest(data: seq<byte>) returns (digest: seq<byte>)
    ensures digest == Digest(data)
  {
    var message := PadMessage(data);
    PaddedIsWholeBlocks(data);
    hide Padded, PadZeros, Compress, DigestBytes;
    var state := INITIAL;
    var w := new bv32[64];
    for i := 0 to |message| / 64
      invariant state == HashAfter(message, i)
    {
      var block: MessageBlock := message[64 * i..64 * (i + 1)];
      FillSchedule(block, w);
      state := CompressBlock(state, block, w);
    }
    digest := DigestBytes(state);
  }

  // ---------------------------------------------------------------------
  // Salted token hashes
  // ---------------------------------------------------------------------

  type Salt = s: seq<byte> | |s| == 16 witness Zeros(16)
  type Hash = h: seq<byte> | |h| == 32 witness Zeros(32)

  function SaltedHash(salt: Salt, text: seq<byte>): (h: Hash)
  {
    Digest(salt + text)
  }
}
