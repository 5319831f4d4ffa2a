/**
 * The constants of SHA-256 by their definition, and the published digest of
 * one message, computed round by round.
 */
module Sha256Check {
  import opened Bytes
  import opened Sha256

  // ---------------------------------------------------------------------
  // The constants (sections 4.2.2 and 5.3.3 of FIPS 180-4)
  // ---------------------------------------------------------------------

  /** `bits` are the first 32 bits of the fractional part of the cube root of p. */
  predicate CubeRoot(p: nat, root: nat, bits: nat)
  {
    && root * root * root <= p * 0x1_0000_0000_0000_0000_0000_0000 < (root + 1) * (root + 1) * (root + 1)
    && root % 0x1_0000_0000 == bits
  }

  predicate SquareRoot(p: nat, root: nat, bits: nat)
  {
    && root * root <= p * 0x1_0000_0000_0000_0000 < (root + 1) * (root + 1)
    && root % 0x1_0000_0000 == bits
  }

  /** The round constants are the cube roots of the first sixty-four primes, here and below. */
  lemma CubeRoots0()
    ensures |K| == 64
    ensures CubeRoot(2, 0x1_428a_2f98, 0x428a_2f98) && K[0] == 0x428a_2f98
    ensures CubeRoot(3, 0x1_7137_4491, 0x7137_4491) && K[1] == 0x7137_4491
    ensures CubeRoot(5, 0x1_b5c0_fbcf, 0xb5c0_fbcf) && K[2] == 0xb5c0_fbcf
    ensures CubeRoot(7, 0x1_e9b5_dba5, 0xe9b5_dba5) && K[3] == 0xe9b5_dba5
    ensures CubeRoot(11, 0x2_3956_c25b, 0x3956_c25b) && K[4] == 0x3956_c25b
    ensures CubeRoot(13, 0x2_59f1_11f1, 0x59f1_11f1) && K[5] == 0x59f1_11f1
    ensures CubeRoot(17, 0x2_923f_82a4, 0x923f_82a4) && K[6] == 0x923f_82a4
    ensures CubeRoot(19, 0x2_ab1c_5ed5, 0xab1c_5ed5) && K[7] == 0xab1c_5ed5
  {
  }

  lemma CubeRoots1()
    ensures |K| == 64
    ensures CubeRoot(23, 0x2_d807_aa98, 0xd807_aa98) && K[8] == 0xd807_aa98
    ensures CubeRoot(29, 0x3_1283_5b01, 0x1283_5b01) && K[9] == 0x1283_5b01
    ensures CubeRoot(31, 0x3_2431_85be, 0x2431_85be) && K[10] == 0x2431_85be
    ensures CubeRoot(37, 0x3_550c_7dc3, 0x550c_7dc3) && K[11] == 0x550c_7dc3
    ensures CubeRoot(41, 0x3_72be_5d74, 0x72be_5d74) && K[12] == 0x72be_5d74
    ensures CubeRoot(43, 0x3_80de_b1fe, 0x80de_b1fe) && K[13] == 0x80de_b1fe
    ensures CubeRoot(47, 0x3_9bdc_06a7, 0x9bdc_06a7) && K[14] == 0x9bdc_06a7
    ensures CubeRoot(53, 0x3_c19b_f174, 0xc19b_f174) && K[15] == 0xc19b_f174
  {
  }

  lemma CubeRoots2()
    ensures |K| == 64
    ensures CubeRoot(59, 0x3_e49b_69c1, 0xe49b_69c1) && K[16] == 0xe49b_69c1
    ensures CubeRoot(61, 0x3_efbe_4786, 0xefbe_4786) && K[17] == 0xefbe_4786
    ensures CubeRoot(67, 0x4_0fc1_9dc6, 0xfc1_9dc6) && K[18] == 0xfc1_9dc6
    ensures CubeRoot(71, 0x4_240c_a1cc, 0x240c_a1cc) && K[19] == 0x240c_a1cc
    ensures CubeRoot(73, 0x4_2de9_2c6f, 0x2de9_2c6f) && K[20] == 0x2de9_2c6f
    ensures CubeRoot(79, 0x4_4a74_84aa, 0x4a74_84aa) && K[21] == 0x4a74_84aa
    ensures CubeRoot(83, 0x4_5cb0_a9dc, 0x5cb0_a9dc) && K[22] == 0x5cb0_a9dc
    ensures CubeRoot(89, 0x4_76f9_88da, 0x76f9_88da) && K[23] == 0x76f9_88da
  {
  }

  lemma CubeRoots3()
    ensures |K| == 64
    ensures CubeRoot(97, 0x4_983e_5152, 0x983e_5152) && K[24] == 0x983e_5152
    ensures CubeRoot(101, 0x4_a831_c66d, 0xa831_c66d) && K[25] == 0xa831_c66d
    ensures CubeRoot(103, 0x4_b003_27c8, 0xb003_27c8) && K[26] == 0xb003_27c8
    ensures CubeRoot(107, 0x4_bf59_7fc7, 0xbf59_7fc7) && K[27] == 0xbf59_7fc7
    ensures CubeRoot(109, 0x4_c6e0_0bf3, 0xc6e0_0bf3) && K[28] == 0xc6e0_0bf3
    ensures CubeRoot(113, 0x4_d5a7_9147, 0xd5a7_9147) && K[29] == 0xd5a7_9147
    ensures CubeRoot(127, 0x5_06ca_6351, 0x6ca_6351) && K[30] == 0x6ca_6351
    ensures CubeRoot(131, 0x5_1429_2967, 0x1429_2967) && K[31] == 0x1429_2967
  {
  }

  lemma CubeRoots4()
    ensures |K| == 64
    ensures CubeRoot(137, 0x5_27b7_0a85, 0x27b7_0a85) && K[32] == 0x27b7_0a85
    ensures CubeRoot(139, 0x5_2e1b_2138, 0x2e1b_2138) && K[33] == 0x2e1b_2138
    ensures CubeRoot(149, 0x5_4d2c_6dfc, 0x4d2c_6dfc) && K[34] == 0x4d2c_6dfc
    ensures CubeRoot(151, 0x5_5338_0d13, 0x5338_0d13) && K[35] == 0x5338_0d13
    ensures CubeRoot(157, 0x5_650a_7354, 0x650a_7354) && K[36] == 0x650a_7354
    ensures CubeRoot(163, 0x5_766a_0abb, 0x766a_0abb) && K[37] == 0x766a_0abb
    ensures CubeRoot(167, 0x5_81c2_c92e, 0x81c2_c92e) && K[38] == 0x81c2_c92e
    ensures CubeRoot(173, 0x5_9272_2c85, 0x9272_2c85) && K[39] == 0x9272_2c85
  {
  }

  lemma CubeRoots5()
    ensures |K| == 64
    ensures CubeRoot(179, 0x5_a2bf_e8a1, 0xa2bf_e8a1) && K[40] == 0xa2bf_e8a1
    ensures CubeRoot(181, 0x5_a81a_664b, 0xa81a_664b) && K[41] == 0xa81a_664b
    ensures CubeRoot(191, 0x5_c24b_8b70, 0xc24b_8b70) && K[42] == 0xc24b_8b70
    ensures CubeRoot(193, 0x5_c76c_51a3, 0xc76c_51a3) && K[43] == 0xc76c_51a3
    ensures CubeRoot(197, 0x5_d192_e819, 0xd192_e819) && K[44] == 0xd192_e819
    ensures CubeRoot(199, 0x5_d699_0624, 0xd699_0624) && K[45] == 0xd699_0624
    ensures CubeRoot(211, 0x5_f40e_3585, 0xf40e_3585) && K[46] == 0xf40e_3585
    ensures CubeRoot(223, 0x6_106a_a070, 0x106a_a070) && K[47] == 0x106a_a070
  {
  }

  lemma CubeRoots6()
    ensures |K| == 64
    ensures CubeRoot(227, 0x6_19a4_c116, 0x19a4_c116) && K[48] == 0x19a4_c116
    ensures CubeRoot(229, 0x6_1e37_6c08, 0x1e37_6c08) && K[49] == 0x1e37_6c08
    ensures CubeRoot(233, 0x6_2748_774c, 0x2748_774c) && K[50] == 0x2748_774c
    ensures CubeRoot(239, 0x6_34b0_bcb5, 0x34b0_bcb5) && K[51] == 0x34b0_bcb5
    ensures CubeRoot(241, 0x6_391c_0cb3, 0x391c_0cb3) && K[52] == 0x391c_0cb3
    ensures CubeRoot(251, 0x6_4ed8_aa4a, 0x4ed8_aa4a) && K[53] == 0x4ed8_aa4a
    ensures CubeRoot(257, 0x6_5b9c_ca4f, 0x5b9c_ca4f) && K[54] == 0x5b9c_ca4f
    ensures CubeRoot(263, 0x6_682e_6ff3, 0x682e_6ff3) && K[55] == 0x682e_6ff3
  {
  }

  lemma CubeRoots7()
    ensures |K| == 64
    ensures CubeRoot(269, 0x6_748f_82ee, 0x748f_82ee) && K[56] == 0x748f_82ee
    ensures CubeRoot(271, 0x6_78a5_636f, 0x78a5_636f) && K[57] == 0x78a5_636f
    ensures CubeRoot(277, 0x6_84c8_7814, 0x84c8_7814) && K[58] == 0x84c8_7814
    ensures CubeRoot(281, 0x6_8cc7_0208, 0x8cc7_0208) && K[59] == 0x8cc7_0208
    ensures CubeRoot(283, 0x6_90be_fffa, 0x90be_fffa) && K[60] == 0x90be_fffa
    ensures CubeRoot(293, 0x6_a450_6ceb, 0xa450_6ceb) && K[61] == 0xa450_6ceb
    ensures CubeRoot(307, 0x6_bef9_a3f7, 0xbef9_a3f7) && K[62] == 0xbef9_a3f7
    ensures CubeRoot(311, 0x6_c671_78f2, 0xc671_78f2) && K[63] == 0xc671_78f2
  {
  }

  /** The initial hash value is the square roots of the first eight primes. */
  lemma SquareRoots()
    ensures SquareRoot(2, 0x1_6a09_e667, 0x6a09_e667) && INITIAL.a == 0x6a09_e667
    ensures SquareRoot(3, 0x1_bb67_ae85, 0xbb67_ae85) && INITIAL.b == 0xbb67_ae85
    ensures SquareRoot(5, 0x2_3c6e_f372, 0x3c6e_f372) && INITIAL.c == 0x3c6e_f372
    ensures SquareRoot(7, 0x2_a54f_f53a, 0xa54f_f53a) && INITIAL.d == 0xa54f_f53a
    ensures SquareRoot(11, 0x3_510e_527f, 0x510e_527f) && INITIAL.e == 0x510e_527f
    ensures SquareRoot(13, 0x3_9b05_688c, 0x9b05_688c) && INITIAL.f == 0x9b05_688c
    ensures SquareRoot(17, 0x4_1f83_d9ab, 0x1f83_d9ab) && INITIAL.g == 0x1f83_d9ab
    ensures SquareRoot(19, 0x4_5be0_cd19, 0x5be0_cd19) && INITIAL.h == 0x5be0_cd19
  {
  }

  // ---------------------------------------------------------------------
  // The digest of "abc" (appendix B.1 of FIPS 180-2)
  // ---------------------------------------------------------------------

  const ABC: seq<byte> := [0x61, 0x62, 0x63]

  /** Its one padded block. */
  const BLOCK: MessageBlock := [0x61, 0x62, 0x63, 0x80] + Zeros(52) + [0, 0, 0, 0, 0, 0, 0, 0x18]

  lemma FirstWords(t: nat)
    requires t < 16
    ensures W(BLOCK, t) == if t == 0 then 0x6162_6380 else if t == 15 then 0x18 else 0
  {
  }

  lemma Words0()
    ensures W(BLOCK, 0) == 0x6162_6380 && W(BLOCK, 1) == 0 && W(BLOCK, 2) == 0 && W(BLOCK, 3) == 0
    ensures W(BLOCK, 4) == 0 && W(BLOCK, 5) == 0 && W(BLOCK, 6) == 0 && W(BLOCK, 7) == 0
    ensures W(BLOCK, 8) == 0 && W(BLOCK, 9) == 0 && W(BLOCK, 10) == 0 && W(BLOCK, 11) == 0
    ensures W(BLOCK, 12) == 0 && W(BLOCK, 13) == 0 && W(BLOCK, 14) == 0 && W(BLOCK, 15) == 0x18
  {
    hide W;
    FirstWords(0); FirstWords(1); FirstWords(2); FirstWords(3);
    FirstWords(4); FirstWords(5); FirstWords(6); FirstWords(7);
    FirstWords(8); FirstWords(9); FirstWords(10); FirstWords(11);
    FirstWords(12); FirstWords(13); FirstWords(14); FirstWords(15);
  }

  lemma NextWord(t: nat)
    requires 16 <= t < 64
    ensures W(BLOCK, t) == ScheduleSum(SmallSigma1(W(BLOCK, t - 2)), W(BLOCK, t - 7),
                                       SmallSigma0(W(BLOCK, t - 15)), W(BLOCK, t - 16))
  {
  }

  lemma Sums16()
    ensures ScheduleSum(SmallSigma1(0x0000_0000), 0x0000_0000, SmallSigma0(0x0000_0000), 0x6162_6380) == 0x6162_6380
    ensures ScheduleSum(SmallSigma1(0x0000_0018), 0x0000_0000, SmallSigma0(0x0000_0000), 0x0000_0000) == 0x000f_0000
    ensures ScheduleSum(SmallSigma1(0x6162_6380), 0x0000_0000, SmallSigma0(0x0000_0000), 0x0000_0000) == 0x7da8_6405
    ensures ScheduleSum(SmallSigma1(0x000f_0000), 0x0000_0000, SmallSigma0(0x0000_0000), 0x0000_0000) == 0x6000_03c6
    ensures ScheduleSum(SmallSigma1(0x7da8_6405), 0x0000_0000, SmallSigma0(0x0000_0000), 0x0000_0000) == 0x3e9d_7b78
    ensures ScheduleSum(SmallSigma1(0x6000_03c6), 0x0000_0000, SmallSigma0(0x0000_0000), 0x0000_0000) == 0x0183_fc00
    ensures ScheduleSum(SmallSigma1(0x3e9d_7b78), 0x0000_0018, SmallSigma0(0x0000_0000), 0x0000_0000) == 0x12dc_bfdb
    ensures ScheduleSum(SmallSigma1(0x0183_fc00), 0x6162_6380, SmallSigma0(0x0000_0000), 0x0000_0000) == 0xe2e2_c38e
    ensures ScheduleSum(SmallSigma1(0x12dc_bfdb), 0x000f_0000, SmallSigma0(0x0000_0000), 0x0000_0000) == 0xc821_5c1a
    ensures ScheduleSum(SmallSigma1(0xe2e2_c38e), 0x7da8_6405, SmallSigma0(0x0000_0000), 0x0000_0000) == 0xb736_79a2
    ensures ScheduleSum(SmallSigma1(0xc821_5c1a), 0x6000_03c6, SmallSigma0(0x0000_0000), 0x0000_0000) == 0xe5bc_3909
    ensures ScheduleSum(SmallSigma1(0xb736_79a2), 0x3e9d_7b78, SmallSigma0(0x0000_0000), 0x0000_0000) == 0x3266_3c5b
    ensures ScheduleSum(SmallSigma1(0xe5bc_3909), 0x0183_fc00, SmallSigma0(0x0000_0000), 0x0000_0000) == 0x9d20_9d67
    ensures ScheduleSum(SmallSigma1(0x3266_3c5b), 0x12dc_bfdb, SmallSigma0(0x0000_0000), 0x0000_0000) == 0xec87_26cb
    ensures ScheduleSum(SmallSigma1(0x9d20_9d67), 0xe2e2_c38e, SmallSigma0(0x0000_0018), 0x0000_0000) == 0x7021_38a4
    ensures ScheduleSum(SmallSigma1(0xec87_26cb), 0xc821_5c1a, SmallSigma0(0x6162_6380), 0x0000_0018) == 0xd3b7_973b
  {
  }

  lemma Words16()
    ensures W(BLOCK, 16) == 0x6162_6380 && W(BLOCK, 17) == 0x000f_0000
    ensures W(BLOCK, 18) == 0x7da8_6405 && W(BLOCK, 19) == 0x6000_03c6
    ensures W(BLOCK, 20) == 0x3e9d_7b78 && W(BLOCK, 21) == 0x0183_fc00
    ensures W(BLOCK, 22) == 0x12dc_bfdb && W(BLOCK, 23) == 0xe2e2_c38e
    ensures W(BLOCK, 24) == 0xc821_5c1a && W(BLOCK, 25) == 0xb736_79a2
    ensures W(BLOCK, 26) == 0xe5bc_3909 && W(BLOCK, 27) == 0x3266_3c5b
    ensures W(BLOCK, 28) == 0x9d20_9d67 && W(BLOCK, 29) == 0xec87_26cb
    ensures W(BLOCK, 30) == 0x7021_38a4 && W(BLOCK, 31) == 0xd3b7_973b
  {
    hide W, SmallSigma0, SmallSigma1, ScheduleSum;
    Words0();
    Sums16();
    NextWord(16); NextWord(17); NextWord(18); NextWord(19);
    NextWord(20); NextWord(21); NextWord(22); NextWord(23);
    NextWord(24); NextWord(25); NextWord(26); NextWord(27);
    NextWord(28); NextWord(29); NextWord(30); NextWord(31);
  }

  lemma Sums32()
    ensures ScheduleSum(SmallSigma1(0x7021_38a4), 0xb736_79a2, SmallSigma0(0x000f_0000), 0x6162_6380) == 0x93f5_997f
    ensures ScheduleSum(SmallSigma1(0xd3b7_973b), 0xe5bc_3909, SmallSigma0(0x7da8_6405), 0x000f_0000) == 0x3b68_ba73
    ensures ScheduleSum(SmallSigma1(0x93f5_997f), 0x3266_3c5b, SmallSigma0(0x6000_03c6), 0x7da8_6405) == 0xaff4_ffc1
    ensures ScheduleSum(SmallSigma1(0x3b68_ba73), 0x9d20_9d67, SmallSigma0(0x3e9d_7b78), 0x6000_03c6) == 0xf10a_5c62
    ensures ScheduleSum(SmallSigma1(0xaff4_ffc1), 0xec87_26cb, SmallSigma0(0x0183_fc00), 0x3e9d_7b78) == 0x0a8b_3996
    ensures ScheduleSum(SmallSigma1(0xf10a_5c62), 0x7021_38a4, SmallSigma0(0x12dc_bfdb), 0x0183_fc00) == 0x72af_830a
    ensures ScheduleSum(SmallSigma1(0x0a8b_3996), 0xd3b7_973b, SmallSigma0(0xe2e2_c38e), 0x12dc_bfdb) == 0x9409_e33e
    ensures ScheduleSum(SmallSigma1(0x72af_830a), 0x93f5_997f, SmallSigma0(0xc821_5c1a), 0xe2e2_c38e) == 0x2464_1522
    ensures ScheduleSum(SmallSigma1(0x9409_e33e), 0x3b68_ba73, SmallSigma0(0xb736_79a2), 0xc821_5c1a) == 0x9f47_bf94
    ensures ScheduleSum(SmallSigma1(0x2464_1522), 0xaff4_ffc1, SmallSigma0(0xe5bc_3909), 0xb736_79a2) == 0xf0a6_4f5a
    ensures ScheduleSum(SmallSigma1(0x9f47_bf94), 0xf10a_5c62, SmallSigma0(0x3266_3c5b), 0xe5bc_3909) == 0x3e24_6a79
    ensures ScheduleSum(SmallSigma1(0xf0a6_4f5a), 0x0a8b_3996, SmallSigma0(0x9d20_9d67), 0x3266_3c5b) == 0x2733_3ba3
    ensures ScheduleSum(SmallSigma1(0x3e24_6a79), 0x72af_830a, SmallSigma0(0xec87_26cb), 0x9d20_9d67) == 0x0c47_63f2
    ensures ScheduleSum(SmallSigma1(0x2733_3ba3), 0x9409_e33e, SmallSigma0(0x7021_38a4), 0xec87_26cb) == 0x840a_bf27
    ensures ScheduleSum(SmallSigma1(0x0c47_63f2), 0x2464_1522, SmallSigma0(0xd3b7_973b), 0x7021_38a4) == 0x7a29_0d5d
    ensures ScheduleSum(SmallSigma1(0x840a_bf27), 0x9f47_bf94, SmallSigma0(0x93f5_997f), 0xd3b7_973b) == 0x065c_43da
  {
  }

  lemma Words32()
    ensures W(BLOCK, 32) == 0x93f5_997f && W(BLOCK, 33) == 0x3b68_ba73
    ensures W(BLOCK, 34) == 0xaff4_ffc1 && W(BLOCK, 35) == 0xf10a_5c62
    ensures W(BLOCK, 36) == 0x0a8b_3996 && W(BLOCK, 37) == 0x72af_830a
    ensures W(BLOCK, 38) == 0x9409_e33e && W(BLOCK, 39) == 0x2464_1522
    ensures W(BLOCK, 40) == 0x9f47_bf94 && W(BLOCK, 41) == 0xf0a6_4f5a
    ensures W(BLOCK, 42) == 0x3e24_6a79 && W(BLOCK, 43) == 0x2733_3ba3
    ensures W(BLOCK, 44) == 0x0c47_63f2 && W(BLOCK, 45) == 0x840a_bf27
    ensures W(BLOCK, 46) == 0x7a29_0d5d && W(BLOCK, 47) == 0x065c_43da
  {
    hide W, SmallSigma0, SmallSigma1, ScheduleSum;
    Words16();
    Sums32();
    NextWord(32); NextWord(33); NextWord(34); NextWord(35);
    NextWord(36); NextWord(37); NextWord(38); NextWord(39);
    NextWord(40); NextWord(41); NextWord(42); NextWord(43);
    NextWord(44); NextWord(45); NextWord(46); NextWord(47);
  }

  lemma Sums48()
    ensures ScheduleSum(SmallSigma1(0x7a29_0d5d), 0xf0a6_4f5a, SmallSigma0(0x3b68_ba73), 0x93f5_997f) == 0xfb3e_89cb
    ensures ScheduleSum(SmallSigma1(0x065c_43da), 0x3e24_6a79, SmallSigma0(0xaff4_ffc1), 0x3b68_ba73) == 0xcc76_17db
    ensures ScheduleSum(SmallSigma1(0xfb3e_89cb), 0x2733_3ba3, SmallSigma0(0xf10a_5c62), 0xaff4_ffc1) == 0xb9e6_6c34
    ensures ScheduleSum(SmallSigma1(0xcc76_17db), 0x0c47_63f2, SmallSigma0(0x0a8b_3996), 0xf10a_5c62) == 0xa999_3667
    ensures ScheduleSum(SmallSigma1(0xb9e6_6c34), 0x840a_bf27, SmallSigma0(0x72af_830a), 0x0a8b_3996) == 0x84ba_dedd
    ensures ScheduleSum(SmallSigma1(0xa999_3667), 0x7a29_0d5d, SmallSigma0(0x9409_e33e), 0x72af_830a) == 0xc214_62bc
    ensures ScheduleSum(SmallSigma1(0x84ba_dedd), 0x065c_43da, SmallSigma0(0x2464_1522), 0x9409_e33e) == 0x1487_472c
    ensures ScheduleSum(SmallSigma1(0xc214_62bc), 0xfb3e_89cb, SmallSigma0(0x9f47_bf94), 0x2464_1522) == 0xb20f_7a99
    ensures ScheduleSum(SmallSigma1(0x1487_472c), 0xcc76_17db, SmallSigma0(0xf0a6_4f5a), 0x9f47_bf94) == 0xef57_b9cd
    ensures ScheduleSum(SmallSigma1(0xb20f_7a99), 0xb9e6_6c34, SmallSigma0(0x3e24_6a79), 0xf0a6_4f5a) == 0xebe6_b238
    ensures ScheduleSum(SmallSigma1(0xef57_b9cd), 0xa999_3667, SmallSigma0(0x2733_3ba3), 0x3e24_6a79) == 0x9fe3_095e
    ensures ScheduleSum(SmallSigma1(0xebe6_b238), 0x84ba_dedd, SmallSigma0(0x0c47_63f2), 0x2733_3ba3) == 0x78bc_8d4b
    ensures ScheduleSum(SmallSigma1(0x9fe3_095e), 0xc214_62bc, SmallSigma0(0x840a_bf27), 0x0c47_63f2) == 0xa43f_cf15
    ensures ScheduleSum(SmallSigma1(0x78bc_8d4b), 0x1487_472c, SmallSigma0(0x7a29_0d5d), 0x840a_bf27) == 0x668b_2ff8
    ensures ScheduleSum(SmallSigma1(0xa43f_cf15), 0xb20f_7a99, SmallSigma0(0x065c_43da), 0x7a29_0d5d) == 0xeeab_a2cc
    ensures ScheduleSum(SmallSigma1(0x668b_2ff8), 0xef57_b9cd, SmallSigma0(0xfb3e_89cb), 0x065c_43da) == 0x12b1_edeb
  {
  }

  lemma Words48()
    ensures W(BLOCK, 48) == 0xfb3e_89cb && W(BLOCK, 49) == 0xcc76_17db
    ensures W(BLOCK, 50) == 0xb9e6_6c34 && W(BLOCK, 51) == 0xa999_3667
    ensures W(BLOCK, 52) == 0x84ba_dedd && W(BLOCK, 53) == 0xc214_62bc
    ensures W(BLOCK, 54) == 0x1487_472c && W(BLOCK, 55) == 0xb20f_7a99
    ensures W(BLOCK, 56) == 0xef57_b9cd && W(BLOCK, 57) == 0xebe6_b238
    ensures W(BLOCK, 58) == 0x9fe3_095e && W(BLOCK, 59) == 0x78bc_8d4b
    ensures W(BLOCK, 60) == 0xa43f_cf15 && W(BLOCK, 61) == 0x668b_2ff8
    ensures W(BLOCK, 62) == 0xeeab_a2cc && W(BLOCK, 63) == 0x12b1_edeb
  {
    hide W, SmallSigma0, SmallSigma1, ScheduleSum;
    Words32();
    Sums48();
    NextWord(48); NextWord(49); NextWord(50); NextWord(51);
    NextWord(52); NextWord(53); NextWord(54); NextWord(55);
    NextWord(56); NextWord(57); NextWord(58); NextWord(59);
    NextWord(60); NextWord(61); NextWord(62); NextWord(63);
  }

  /** The working variables after one round: two are new, the others move on. */
  function Moved(s: Working, a: bv32, e: bv32): Working
  {
    Working(a, s.a, s.b, s.c, e, s.e, s.f, s.g)
  }

  lemma NextRound(t: nat)
    requires t < 64
    ensures Rounds(INITIAL, BLOCK, t + 1) == Round(Rounds(INITIAL, BLOCK, t), K[t], W(BLOCK, t))
  {
  }

  lemma NoRounds()
    ensures Rounds(INITIAL, BLOCK, 0) == INITIAL
  {
  }

  lemma Steps0()
    ensures var s0 := Working(0x6a09_e667, 0xbb67_ae85, 0x3c6e_f372, 0xa54f_f53a,
                              0x510e_527f, 0x9b05_688c, 0x1f83_d9ab, 0x5be0_cd19);
      var s1 := Moved(s0, 0x5d6a_ebcd, 0xfa2a_4622);
      var s2 := Moved(s1, 0x5a6a_d9ad, 0x78ce_7989);
      var s3 := Moved(s2, 0xc8c3_47a7, 0xf929_39eb);
      var s4 := Moved(s3, 0xd550_f666, 0x24e0_0850);
      var s5 := Moved(s4, 0x0440_9a6a, 0x43ad_a245);
      var s6 := Moved(s5, 0x2b42_09f5, 0x7142_60ad);
      var s7 := Moved(s6, 0xe503_0380, 0x9b27_a401);
      var s8 := Moved(s7, 0x85a0_7b5f, 0x0c65_7a79);
      && Round(s0, 0x428a_2f98, 0x6162_6380) == s1
      && Round(s1, 0x7137_4491, 0x0000_0000) == s2
      && Round(s2, 0xb5c0_fbcf, 0x0000_0000) == s3
      && Round(s3, 0xe9b5_dba5, 0x0000_0000) == s4
      && Round(s4, 0x3956_c25b, 0x0000_0000) == s5
      && Round(s5, 0x59f1_11f1, 0x0000_0000) == s6
      && Round(s6, 0x923f_82a4, 0x0000_0000) == s7
      && Round(s7, 0xab1c_5ed5, 0x0000_0000) == s8
      && s8 == Working(0x85a0_7b5f, 0xe503_0380, 0x2b42_09f5, 0x0440_9a6a,
                        0x0c65_7a79, 0x9b27_a401, 0x7142_60ad, 0x43ad_a245)
  {
  }

  lemma Rounds8()
    ensures Rounds(INITIAL, BLOCK, 8)
         == Working(0x85a0_7b5f, 0xe503_0380, 0x2b42_09f5, 0x0440_9a6a,
                    0x0c65_7a79, 0x9b27_a401, 0x7142_60ad, 0x43ad_a245)
  {
    hide Rounds, Round, W, CubeRoot, Moved;
    NoRounds();
    CubeRoots0();
    Words0();
    Steps0();
    NextRound(0); NextRound(1); NextRound(2); NextRound(3);
    NextRound(4); NextRound(5); NextRound(6); NextRound(7);
  }

  lemma Steps8()
    ensures var s0 := Working(0x85a0_7b5f, 0xe503_0380, 0x2b42_09f5, 0x0440_9a6a,
                              0x0c65_7a79, 0x9b27_a401, 0x7142_60ad, 0x43ad_a245);
      var s1 := Moved(s0, 0x8e04_ecb9, 0x32ca_2d8c);
      var s2 := Moved(s1, 0x8c87_346b, 0x1cc9_2596);
      var s3 := Moved(s2, 0x4798_a3f4, 0x436b_23e8);
      var s4 := Moved(s3, 0xf71f_c5a9, 0x816f_d6e9);
      var s5 := Moved(s4, 0x8791_2990, 0x1e57_8218);
      var s6 := Moved(s5, 0xd932_eb16, 0x745a_48de);
      var s7 := Moved(s6, 0xc064_5fde, 0x0b92_f20c);
      var s8 := Moved(s7, 0xb0fa_238e, 0x0759_0dcd);
      && Round(s0, 0xd807_aa98, 0x0000_0000) == s1
      && Round(s1, 0x1283_5b01, 0x0000_0000) == s2
      && Round(s2, 0x2431_85be, 0x0000_0000) == s3
      && Round(s3, 0x550c_7dc3, 0x0000_0000) == s4
      && Round(s4, 0x72be_5d74, 0x0000_0000) == s5
      && Round(s5, 0x80de_b1fe, 0x0000_0000) == s6
      && Round(s6, 0x9bdc_06a7, 0x0000_0000) == s7
      && Round(s7, 0xc19b_f174, 0x0000_0018) == s8
      && s8 == Working(0xb0fa_238e, 0xc064_5fde, 0xd932_eb16, 0x8791_2990,
                        0x0759_0dcd, 0x0b92_f20c, 0x745a_48de, 0x1e57_8218)
  {
  }

  lemma Rounds16()
    ensures Rounds(INITIAL, BLOCK, 16)
         == Working(0xb0fa_238e, 0xc064_5fde, 0xd932_eb16, 0x8791_2990,
                    0x0759_0dcd, 0x0b92_f20c, 0x745a_48de, 0x1e57_8218)
  {
    hide Rounds, Round, W, CubeRoot, Moved;
    CubeRoots1();
    Words0();
    Steps8();
    Rounds8();
    NextRound(8); NextRound(9); NextRound(10); NextRound(11);
    NextRound(12); NextRound(13); NextRound(14); NextRound(15);
  }

  lemma Steps16()
    ensures var s0 := Working(0xb0fa_238e, 0xc064_5fde, 0xd932_eb16, 0x8791_2990,
                              0x0759_0dcd, 0x0b92_f20c, 0x745a_48de, 0x1e57_8218);
      var s1 := Moved(s0, 0x21da_9a9b, 0x8034_229c);
      var s2 := Moved(s1, 0xc2fb_d9d1, 0x846e_e454);
      var s3 := Moved(s2, 0xfe77_7bbf, 0xcc89_9961);
      var s4 := Moved(s3, 0xe1f2_0c33, 0xb063_8179);
      var s5 := Moved(s4, 0x9dc6_8b63, 0x8ada_8930);
      var s6 := Moved(s5, 0xc260_6d6d, 0xe125_7970);
      var s7 := Moved(s6, 0xa7a3_623f, 0x49f5_114a);
      var s8 := Moved(s7, 0xc5d5_3d8d, 0xaa47_c347);
      && Round(s0, 0xe49b_69c1, 0x6162_6380) == s1
      && Round(s1, 0xefbe_4786, 0x000f_0000) == s2
      && Round(s2, 0x0fc1_9dc6, 0x7da8_6405) == s3
      && Round(s3, 0x240c_a1cc, 0x6000_03c6) == s4
      && Round(s4, 0x2de9_2c6f, 0x3e9d_7b78) == s5
      && Round(s5, 0x4a74_84aa, 0x0183_fc00) == s6
      && Round(s6, 0x5cb0_a9dc, 0x12dc_bfdb) == s7
      && Round(s7, 0x76f9_88da, 0xe2e2_c38e) == s8
      && s8 == Working(0xc5d5_3d8d, 0xa7a3_623f, 0xc260_6d6d, 0x9dc6_8b63,
                        0xaa47_c347, 0x49f5_114a, 0xe125_7970, 0x8ada_8930)
  {
  }

  lemma Rounds24()
    ensures Rounds(INITIAL, BLOCK, 24)
         == Working(0xc5d5_3d8d, 0xa7a3_623f, 0xc260_6d6d, 0x9dc6_8b63,
                    0xaa47_c347, 0x49f5_114a, 0xe125_7970, 0x8ada_8930)
  {
    hide Rounds, Round, W, CubeRoot, Moved;
    CubeRoots2();
    Words16();
    Steps16();
    Rounds16();
    NextRound(16); NextRound(17); NextRound(18); NextRound(19);
    NextRound(20); NextRound(21); NextRound(22); NextRound(23);
  }

  lemma Steps24()
    ensures var s0 := Working(0xc5d5_3d8d, 0xa7a3_623f, 0xc260_6d6d, 0x9dc6_8b63,
                              0xaa47_c347, 0x49f5_114a, 0xe125_7970, 0x8ada_8930);
      var s1 := Moved(s0, 0x1c2c_2838, 0x2823_ef91);
      var s2 := Moved(s1, 0xcde8_037d, 0x1438_3d8e);
      var s3 := Moved(s2, 0xb62e_c4bc, 0xc74c_6516);
      var s4 := Moved(s3, 0x77d3_7528, 0xedff_bff8);
      var s5 := Moved(s4, 0x3634_82c9, 0x6112_a3b7);
      var s6 := Moved(s5, 0xa006_0b30, 0xade7_9437);
      var s7 := Moved(s6, 0xea99_2a22, 0x0109_ab3a);
      var s8 := Moved(s7, 0x73b3_3bf5, 0xba59_1112);
      && Round(s0, 0x983e_5152, 0xc821_5c1a) == s1
      && Round(s1, 0xa831_c66d, 0xb736_79a2) == s2
      && Round(s2, 0xb003_27c8, 0xe5bc_3909) == s3
      && Round(s3, 0xbf59_7fc7, 0x3266_3c5b) == s4
      && Round(s4, 0xc6e0_0bf3, 0x9d20_9d67) == s5
      && Round(s5, 0xd5a7_9147, 0xec87_26cb) == s6
      && Round(s6, 0x06ca_6351, 0x7021_38a4) == s7
      && Round(s7, 0x1429_2967, 0xd3b7_973b) == s8
      && s8 == Working(0x73b3_3bf5, 0xea99_2a22, 0xa006_0b30, 0x3634_82c9,
                        0xba59_1112, 0x0109_ab3a, 0xade7_9437, 0x6112_a3b7)
  {
  }

  lemma Rounds32()
    ensures Rounds(INITIAL, BLOCK, 32)
         == Working(0x73b3_3bf5, 0xea99_2a22, 0xa006_0b30, 0x3634_82c9,
                    0xba59_1112, 0x0109_ab3a, 0xade7_9437, 0x6112_a3b7)
  {
    hide Rounds, Round, W, CubeRoot, Moved;
    CubeRoots3();
    Words16();
    Steps24();
    Rounds24();
    NextRound(24); NextRound(25); NextRound(26); NextRound(27);
    NextRound(28); NextRound(29); NextRound(30); NextRound(31);
  }

  lemma Steps32()
    ensures var s0 := Working(0x73b3_3bf5, 0xea99_2a22, 0xa006_0b30, 0x3634_82c9,
                              0xba59_1112, 0x0109_ab3a, 0xade7_9437, 0x6112_a3b7);
      var s1 := Moved(s0, 0x98e1_2507, 0x9cd9_f5f6);
      var s2 := Moved(s1, 0xfe60_4df5, 0x5924_9dd3);
      var s3 := Moved(s2, 0xa9a7_738c, 0x085f_3833);
      var s4 := Moved(s3, 0x65a0_cfe4, 0xf4b0_02d6);
      var s5 := Moved(s4, 0x41a6_5cb1, 0x0772_a26b);
      var s6 := Moved(s5, 0x34df_1604, 0xa507_a53d);
      var s7 := Moved(s6, 0x6dc5_7a8a, 0xf078_1bc8);
      var s8 := Moved(s7, 0x79ea_687a, 0x1efb_c0a0);
      && Round(s0, 0x27b7_0a85, 0x93f5_997f) == s1
      && Round(s1, 0x2e1b_2138, 0x3b68_ba73) == s2
      && Round(s2, 0x4d2c_6dfc, 0xaff4_ffc1) == s3
      && Round(s3, 0x5338_0d13, 0xf10a_5c62) == s4
      && Round(s4, 0x650a_7354, 0x0a8b_3996) == s5
      && Round(s5, 0x766a_0abb, 0x72af_830a) == s6
      && Round(s6, 0x81c2_c92e, 0x9409_e33e) == s7
      && Round(s7, 0x9272_2c85, 0x2464_1522) == s8
      && s8 == Working(0x79ea_687a, 0x6dc5_7a8a, 0x34df_1604, 0x41a6_5cb1,
                        0x1efb_c0a0, 0xf078_1bc8, 0xa507_a53d, 0x0772_a26b)
  {
  }

  lemma Rounds40()
    ensures Rounds(INITIAL, BLOCK, 40)
         == Working(0x79ea_687a, 0x6dc5_7a8a, 0x34df_1604, 0x41a6_5cb1,
                    0x1efb_c0a0, 0xf078_1bc8, 0xa507_a53d, 0x0772_a26b)
  {
    hide Rounds, Round, W, CubeRoot, Moved;
    CubeRoots4();
    Words32();
    Steps32();
    Rounds32();
    NextRound(32); NextRound(33); NextRound(34); NextRound(35);
    NextRound(36); NextRound(37); NextRound(38); NextRound(39);
  }

  lemma Steps40()
    ensures var s0 := Working(0x79ea_687a, 0x6dc5_7a8a, 0x34df_1604, 0x41a6_5cb1,
                              0x1efb_c0a0, 0xf078_1bc8, 0xa507_a53d, 0x0772_a26b);
      var s1 := Moved(s0, 0xd667_0766, 0x2635_2d63);
      var s2 := Moved(s1, 0xdf46_652f, 0x838b_2711);
      var s3 := Moved(s2, 0x17aa_0dfe, 0xdecd_4715);
      var s4 := Moved(s3, 0x9d4b_af93, 0xfda2_4c2e);
      var s5 := Moved(s4, 0x2662_8815, 0xa80f_11f0);
      var s6 := Moved(s5, 0x72ab_4b91, 0xb775_5da1);
      var s7 := Moved(s6, 0xa14c_14b0, 0xd57b_94a9);
      var s8 := Moved(s7, 0x4172_328d, 0xfecf_0bc6);
      && Round(s0, 0xa2bf_e8a1, 0x9f47_bf94) == s1
      && Round(s1, 0xa81a_664b, 0xf0a6_4f5a) == s2
      && Round(s2, 0xc24b_8b70, 0x3e24_6a79) == s3
      && Round(s3, 0xc76c_51a3, 0x2733_3ba3) == s4
      && Round(s4, 0xd192_e819, 0x0c47_63f2) == s5
      && Round(s5, 0xd699_0624, 0x840a_bf27) == s6
      && Round(s6, 0xf40e_3585, 0x7a29_0d5d) == s7
      && Round(s7, 0x106a_a070, 0x065c_43da) == s8
      && s8 == Working(0x4172_328d, 0xa14c_14b0, 0x72ab_4b91, 0x2662_8815,
                        0xfecf_0bc6, 0xd57b_94a9, 0xb775_5da1, 0xa80f_11f0)
  {
  }

  lemma Rounds48()
    ensures Rounds(INITIAL, BLOCK, 48)
         == Working(0x4172_328d, 0xa14c_14b0, 0x72ab_4b91, 0x2662_8815,
                    0xfecf_0bc6, 0xd57b_94a9, 0xb775_5da1, 0xa80f_11f0)
  {
    hide Rounds, Round, W, CubeRoot, Moved;
    CubeRoots5();
    Words32();
    Steps40();
    Rounds40();
    NextRound(40); NextRound(41); NextRound(42); NextRound(43);
    NextRound(44); NextRound(45); NextRound(46); NextRound(47);
  }

  lemma Steps48()
    ensures var s0 := Working(0x4172_328d, 0xa14c_14b0, 0x72ab_4b91, 0x2662_8815,
                              0xfecf_0bc6, 0xd57b_94a9, 0xb775_5da1, 0xa80f_11f0);
      var s1 := Moved(s0, 0x0575_7ceb, 0xbd71_4038);
      var s2 := Moved(s1, 0xf11b_faa8, 0x6e5c_390c);
      var s3 := Moved(s2, 0x7a05_08a1, 0x52f1_ccf7);
      var s4 := Moved(s3, 0x886e_7a22, 0x4923_1c1e);
      var s5 := Moved(s4, 0x101f_d28f, 0x529e_7d00);
      var s6 := Moved(s5, 0xf570_2fdb, 0x9f47_87c3);
      var s7 := Moved(s6, 0x3ec4_5cdb, 0xe50e_1b4f);
      var s8 := Moved(s7, 0x38cc_9913, 0x54cb_266b);
      && Round(s0, 0x19a4_c116, 0xfb3e_89cb) == s1
      && Round(s1, 0x1e37_6c08, 0xcc76_17db) == s2
      && Round(s2, 0x2748_774c, 0xb9e6_6c34) == s3
      && Round(s3, 0x34b0_bcb5, 0xa999_3667) == s4
      && Round(s4, 0x391c_0cb3, 0x84ba_dedd) == s5
      && Round(s5, 0x4ed8_aa4a, 0xc214_62bc) == s6
      && Round(s6, 0x5b9c_ca4f, 0x1487_472c) == s7
      && Round(s7, 0x682e_6ff3, 0xb20f_7a99) == s8
      && s8 == Working(0x38cc_9913, 0x3ec4_5cdb, 0xf570_2fdb, 0x101f_d28f,
                        0x54cb_266b, 0xe50e_1b4f, 0x9f47_87c3, 0x529e_7d00)
  {
  }

  lemma Rounds56()
    ensures Rounds(INITIAL, BLOCK, 56)
         == Working(0x38cc_9913, 0x3ec4_5cdb, 0xf570_2fdb, 0x101f_d28f,
                    0x54cb_266b, 0xe50e_1b4f, 0x9f47_87c3, 0x529e_7d00)
  {
    hide Rounds, Round, W, CubeRoot, Moved;
    CubeRoots6();
    Words48();
    Steps48();
    Rounds48();
    NextRound(48); NextRound(49); NextRound(50); NextRound(51);
    NextRound(52); NextRound(53); NextRound(54); NextRound(55);
  }

  lemma Steps56()
    ensures var s0 := Working(0x38cc_9913, 0x3ec4_5cdb, 0xf570_2fdb, 0x101f_d28f,
                              0x54cb_266b, 0xe50e_1b4f, 0x9f47_87c3, 0x529e_7d00);
      var s1 := Moved(s0, 0xfcd1_887b, 0x9b5e_906c);
      var s2 := Moved(s1, 0xc062_d46f, 0x7e44_008e);
      var s3 := Moved(s2, 0xffb7_0472, 0x6d83_bfc6);
      var s4 := Moved(s3, 0xb6ae_8fff, 0xb21b_ad3d);
      var s5 := Moved(s4, 0xb85e_2ce9, 0x961f_4894);
      var s6 := Moved(s5, 0x04d2_4d6c, 0x948d_25b6);
      var s7 := Moved(s6, 0xd39a_2165, 0xfb12_1210);
      var s8 := Moved(s7, 0x506e_3058, 0x5ef5_0f24);
      && Round(s0, 0x748f_82ee, 0xef57_b9cd) == s1
      && Round(s1, 0x78a5_636f, 0xebe6_b238) == s2
      && Round(s2, 0x84c8_7814, 0x9fe3_095e) == s3
      && Round(s3, 0x8cc7_0208, 0x78bc_8d4b) == s4
      && Round(s4, 0x90be_fffa, 0xa43f_cf15) == s5
      && Round(s5, 0xa450_6ceb, 0x668b_2ff8) == s6
      && Round(s6, 0xbef9_a3f7, 0xeeab_a2cc) == s7
      && Round(s7, 0xc671_78f2, 0x12b1_edeb) == s8
      && s8 == Working(0x506e_3058, 0xd39a_2165, 0x04d2_4d6c, 0xb85e_2ce9,
                        0x5ef5_0f24, 0xfb12_1210, 0x948d_25b6, 0x961f_4894)
  {
  }

  lemma Rounds64()
    ensures Rounds(INITIAL, BLOCK, 64)
         == Working(0x506e_3058, 0xd39a_2165, 0x04d2_4d6c, 0xb85e_2ce9,
                    0x5ef5_0f24, 0xfb12_1210, 0x948d_25b6, 0x961f_4894)
  {
    hide Rounds, Round, W, CubeRoot, Moved;
    CubeRoots7();
    Words48();
    Steps56();
    Rounds56();
    NextRound(56); NextRound(57); NextRound(58); NextRound(59);
    NextRound(60); NextRound(61); NextRound(62); NextRound(63);
  }

  lemma AbcIsOneBlock()
    ensures Padded(ABC) == BLOCK
  {
    assert PadZeros(3) == 52;
    LengthField();
  }

  lemma LengthField()
    ensures BeBytes(24, 8) == [0, 0, 0, 0, 0, 0, 0, 0x18]
  {
    assert BeBytes(0, 1) == [0] && BeBytes(0, 2) == [0, 0] && BeBytes(0, 3) == [0, 0, 0];
    assert BeBytes(0, 4) == [0, 0, 0, 0] && BeBytes(0, 5) == [0, 0, 0, 0, 0];
    assert BeBytes(0, 6) == [0, 0, 0, 0, 0, 0] && BeBytes(0, 7) == [0, 0, 0, 0, 0, 0, 0];
  }

  lemma HashedBlock()
    ensures Compress(INITIAL, BLOCK)
         == Working(0xba78_16bf, 0x8f01_cfea, 0x4141_40de, 0x5dae_2223,
                    0xb003_61a3, 0x9617_7a9c, 0xb410_ff61, 0xf200_15ad)
  {
    Rounds64();
    hide Rounds;
  }

  /** The published digest. */
  lemma DigestOfAbc()
    ensures Digest(ABC) == [
      0xBA, 0x78, 0x16, 0xBF, 0x8F, 0x01, 0xCF, 0xEA, 0x41, 0x41, 0x40, 0xDE, 0x5D, 0xAE, 0x22, 0x23,
      0xB0, 0x03, 0x61, 0xA3, 0x96, 0x17, 0x7A, 0x9C, 0xB4, 0x10, 0xFF, 0x61, 0xF2, 0x00, 0x15, 0xAD
    ]
  {
    AbcIsOneBlock();
    HashedBlock();
    hide Padded, Compress;
    assert BLOCK[64 * 0..64 * 1] == BLOCK;
    assert HashAfter(BLOCK, 1) == Compress(HashAfter(BLOCK, 0), BLOCK);
  }

  // ---------------------------------------------------------------------
  // Longer messages
  // ---------------------------------------------------------------------

  /** What is hashed after some blocks does not depend on what follows them. */
  lemma {:induction false} HashIgnoresRest(blocks: seq<byte>, rest: seq<byte>, n: nat)
    requires 64 * n <= |blocks|
    ensures HashAfter(blocks + rest, n) == HashAfter(blocks, n)
  {
    hide Compress;
    if n > 0 {
      HashIgnoresRest(blocks, rest, n - 1);
      assert (blocks + rest)[64 * (n - 1)..64 * n] == blocks[64 * (n - 1)..64 * n];
    }
  }

  /** Each block is compressed into the hash value of all the blocks before it. */
  lemma BlocksChain(blocks: seq<byte>, block: MessageBlock, rest: seq<byte>)
    requires |blocks| % 64 == 0
    ensures HashAfter(blocks + block + rest, |blocks| / 64 + 1) == Compress(HashAfter(blocks, |blocks| / 64), block)
  {
    hide Compress;
    var n := |blocks| / 64;
    HashIgnoresRest(blocks + block, rest, n + 1);
    HashIgnoresRest(blocks, block, n);
    assert (blocks + block)[64 * n..64 * (n + 1)] == block;
  }

  /** A salted hash is the digest of the salt followed by the text. */
  lemma SaltComesFirst(message: seq<byte>)
    requires |message| >= 16
    ensures SaltedHash(message[..16], message[16..]) == Digest(message)
  {
    hide Digest;
    assert message[..16] + message[16..] == message;
  }
}
