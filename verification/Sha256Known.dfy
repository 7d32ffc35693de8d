/** The known digest: SHA-256 of "abc", worked out from the definitions. It pins every constant, rotation
    and index of the specification to the standard's own example (FIPS 180-4, examples for SHA-256). */
module Sha256Known {
  import opened Foundation
  import opened Sha256

  const ABC: seq<bv8> := [0x61, 0x62, 0x63]

  /** The one block of the padded message. */
  function Block(): (r: seq<bv8>)
    ensures |r| == 64
  {
    Padded(ABC, 24)
  }

  lemma BlockBytes()
    ensures var b := Block(); b[0] == 0x61 && b[1] == 0x62 && b[2] == 0x63 && b[3] == 0x80 && b[63] == 24
    ensures forall i {:trigger Block()[i]} :: 4 <= i < 63 ==> Block()[i] == 0
  {
    BigEndianOf24();
    assert ZeroCount(3) == 52;
    assert Block() == (ABC + [0x80] + Zeros(52)) + [0, 0, 0, 0, 0, 0, 0, 24];
    var front := ABC + [0x80] + Zeros(52);
    forall i | 4 <= i < 63 ensures Block()[i] == 0 {
      assert i < 56 ==> front[i] == Zeros(52)[i - 4];
    }
  }

  lemma BigEndianOf24()
    ensures BigEndian64(24) == [0, 0, 0, 0, 0, 0, 0, 24]
  {
    hide ByteOf;
    forall i | 0 < i < 8 ensures ByteOf(24, i) == 0 {
      SmallDividedAway(24, i);
    }
    LowByte(24);
  }

  lemma LowByte(n: nat)
    requires n < 256
    ensures ByteOf(n, 0) == n as bv8
  {
  }

  lemma SmallDividedAway(n: nat, i: nat)
    requires n < 256 && 0 < i
    ensures ByteOf(n, i) == 0
  {
    assert Pow256(i) >= 256 by { BigPower(i); }
    Smaller(n, Pow256(i));
  }

  lemma BigPower(i: nat)
    requires 0 < i
    ensures Pow256(i) >= 256
  {
  }

  lemma Smaller(n: nat, p: nat)
    requires n < p
    ensures n / p == 0
  {
  }

  /** A word of the block's schedule. */
  function W(t: nat): bv32
    requires t < 64
  {
    Schedule(Block(), t)
  }

  lemma FirstWords()
    ensures W(0) == 0x61626380 && W(15) == 0x00000018
    ensures W(1) == W(2) == W(3) == W(4) == W(5) == 0
    ensures W(6) == W(7) == W(8) == W(9) == W(10) == 0
    ensures W(11) == W(12) == W(13) == W(14) == 0
  {
    hide Block, Schedule;
    BlockBytes();
    ScheduleStarts(0);
    ScheduleStarts(15);
    forall t | 1 <= t < 15 ensures W(t) == 0 {
      ScheduleStarts(t);
      ZeroWord(t);
    }
  }

  lemma ScheduleStarts(t: nat)
    requires t < 16
    ensures W(t) == WordAt(Block(), t)
  {
    hide Block, WordAt;
  }

  lemma ZeroWord(t: nat)
    requires 1 <= t < 15
    ensures WordAt(Block(), t) == 0
  {
    hide Block;
    BlockBytes();
    assert Block()[4 * t] == 0 && Block()[4 * t + 1] == 0 && Block()[4 * t + 2] == 0 && Block()[4 * t + 3] == 0;
  }

  lemma ScheduleIs(t: nat)
    requires 16 <= t < 64
    ensures W(t) ==
            Add4(SmallSigma1(W(t - 2)), W(t - 7), SmallSigma0(W(t - 15)), W(t - 16))
  {
    hide Block, SmallSigma0, SmallSigma1, Add4;
  }

  lemma WordsFrom16()
    ensures W(16) == 0x61626380 && W(17) == 0x000f0000 && W(18) == 0x7da86405 && W(19) == 0x600003c6
    ensures W(20) == 0x3e9d7b78 && W(21) == 0x0183fc00 && W(22) == 0x12dcbfdb && W(23) == 0xe2e2c38e
  {
    hide Block, W;
    FirstWords();
    ScheduleIs(16); ScheduleIs(17); ScheduleIs(18); ScheduleIs(19);
    ScheduleIs(20); ScheduleIs(21); ScheduleIs(22); ScheduleIs(23);
  }

  lemma WordsFrom24()
    ensures W(24) == 0xc8215c1a && W(25) == 0xb73679a2 && W(26) == 0xe5bc3909 && W(27) == 0x32663c5b
    ensures W(28) == 0x9d209d67 && W(29) == 0xec8726cb && W(30) == 0x702138a4 && W(31) == 0xd3b7973b
  {
    hide Block, W;
    FirstWords();
    WordsFrom16();
    ScheduleIs(24); ScheduleIs(25); ScheduleIs(26); ScheduleIs(27);
    ScheduleIs(28); ScheduleIs(29); ScheduleIs(30); ScheduleIs(31);
  }

  lemma WordsFrom32()
    ensures W(32) == 0x93f5997f && W(33) == 0x3b68ba73 && W(34) == 0xaff4ffc1 && W(35) == 0xf10a5c62
    ensures W(36) == 0x0a8b3996 && W(37) == 0x72af830a && W(38) == 0x9409e33e && W(39) == 0x24641522
  {
    hide Block, W;
    WordsFrom24();
    WordsFrom16();
    ScheduleIs(32); ScheduleIs(33); ScheduleIs(34); ScheduleIs(35);
    ScheduleIs(36); ScheduleIs(37); ScheduleIs(38); ScheduleIs(39);
  }

  lemma WordsFrom40()
    ensures W(40) == 0x9f47bf94 && W(41) == 0xf0a64f5a && W(42) == 0x3e246a79 && W(43) == 0x27333ba3
    ensures W(44) == 0x0c4763f2 && W(45) == 0x840abf27 && W(46) == 0x7a290d5d && W(47) == 0x065c43da
  {
    hide Block, W;
    WordsFrom32();
    WordsFrom24();
    ScheduleIs(40); ScheduleIs(41); ScheduleIs(42); ScheduleIs(43);
    ScheduleIs(44); ScheduleIs(45); ScheduleIs(46); ScheduleIs(47);
  }

  lemma WordsFrom48()
    ensures W(48) == 0xfb3e89cb && W(49) == 0xcc7617db && W(50) == 0xb9e66c34 && W(51) == 0xa9993667
    ensures W(52) == 0x84badedd && W(53) == 0xc21462bc && W(54) == 0x1487472c && W(55) == 0xb20f7a99
  {
    hide Block, W;
    WordsFrom40();
    WordsFrom32();
    ScheduleIs(48); ScheduleIs(49); ScheduleIs(50); ScheduleIs(51);
    ScheduleIs(52); ScheduleIs(53); ScheduleIs(54); ScheduleIs(55);
  }

  lemma WordsFrom56()
    ensures W(56) == 0xef57b9cd && W(57) == 0xebe6b238 && W(58) == 0x9fe3095e && W(59) == 0x78bc8d4b
    ensures W(60) == 0xa43fcf15 && W(61) == 0x668b2ff8 && W(62) == 0xeeaba2cc && W(63) == 0x12b1edeb
  {
    hide Block, W;
    WordsFrom48();
    WordsFrom40();
    ScheduleIs(56); ScheduleIs(57); ScheduleIs(58); ScheduleIs(59);
    ScheduleIs(60); ScheduleIs(61); ScheduleIs(62); ScheduleIs(63);
  }

  /** One round on known registers: `a` and `e` are the two that are new after it. */
  lemma Next(t: nat, h: Hash, k: bv32, w: bv32, a: bv32, e: bv32) returns (after: Hash)
    requires t < 64 && Rounds(Block(), INITIAL, t) == h && K[t] == k && W(t) == w
    requires Round(h, k, w) == Hash(a, h.a, h.b, h.c, e, h.e, h.f, h.g)
    ensures after == Hash(a, h.a, h.b, h.c, e, h.e, h.f, h.g) && Rounds(Block(), INITIAL, t + 1) == after
  {
    after := Round(h, k, w);
  }

  lemma KFrom0()
    ensures K[0] == 0x428a2f98 && K[1] == 0x71374491 && K[2] == 0xb5c0fbcf && K[3] == 0xe9b5dba5
    ensures K[4] == 0x3956c25b && K[5] == 0x59f111f1 && K[6] == 0x923f82a4 && K[7] == 0xab1c5ed5
  {
  }

  lemma RoundsTo8()
    ensures Rounds(Block(), INITIAL, 8) ==
            Hash(0x85a07b5f, 0xe5030380, 0x2b4209f5, 0x04409a6a, 0x0c657a79, 0x9b27a401, 0x714260ad, 0x43ada245)
  {
    hide Block, W, Rounds, K;
    KFrom0();
    FirstWords();
    NoRounds();
    var h := INITIAL;
    h := Next(0, h, 0x428a2f98, 0x61626380, 0x5d6aebcd, 0xfa2a4622);
    h := Next(1, h, 0x71374491, 0x00000000, 0x5a6ad9ad, 0x78ce7989);
    h := Next(2, h, 0xb5c0fbcf, 0x00000000, 0xc8c347a7, 0xf92939eb);
    h := Next(3, h, 0xe9b5dba5, 0x00000000, 0xd550f666, 0x24e00850);
    h := Next(4, h, 0x3956c25b, 0x00000000, 0x04409a6a, 0x43ada245);
    h := Next(5, h, 0x59f111f1, 0x00000000, 0x2b4209f5, 0x714260ad);
    h := Next(6, h, 0x923f82a4, 0x00000000, 0xe5030380, 0x9b27a401);
    h := Next(7, h, 0xab1c5ed5, 0x00000000, 0x85a07b5f, 0x0c657a79);
  }

  lemma NoRounds()
    ensures Rounds(Block(), INITIAL, 0) == INITIAL
  {
  }

  lemma KFrom8()
    ensures K[8] == 0xd807aa98 && K[9] == 0x12835b01 && K[10] == 0x243185be && K[11] == 0x550c7dc3
    ensures K[12] == 0x72be5d74 && K[13] == 0x80deb1fe && K[14] == 0x9bdc06a7 && K[15] == 0xc19bf174
  {
  }

  lemma RoundsTo16()
    ensures Rounds(Block(), INITIAL, 16) ==
            Hash(0xb0fa238e, 0xc0645fde, 0xd932eb16, 0x87912990, 0x07590dcd, 0x0b92f20c, 0x745a48de, 0x1e578218)
  {
    hide Block, W, Rounds, K;
    KFrom8();
    FirstWords();
    RoundsTo8();
    var h := Rounds(Block(), INITIAL, 8);
    h := Next(8, h, 0xd807aa98, 0x00000000, 0x8e04ecb9, 0x32ca2d8c);
    h := Next(9, h, 0x12835b01, 0x00000000, 0x8c87346b, 0x1cc92596);
    h := Next(10, h, 0x243185be, 0x00000000, 0x4798a3f4, 0x436b23e8);
    h := Next(11, h, 0x550c7dc3, 0x00000000, 0xf71fc5a9, 0x816fd6e9);
    h := Next(12, h, 0x72be5d74, 0x00000000, 0x87912990, 0x1e578218);
    h := Next(13, h, 0x80deb1fe, 0x00000000, 0xd932eb16, 0x745a48de);
    h := Next(14, h, 0x9bdc06a7, 0x00000000, 0xc0645fde, 0x0b92f20c);
    h := Next(15, h, 0xc19bf174, 0x00000018, 0xb0fa238e, 0x07590dcd);
  }

  lemma KFrom16()
    ensures K[16] == 0xe49b69c1 && K[17] == 0xefbe4786 && K[18] == 0x0fc19dc6 && K[19] == 0x240ca1cc
    ensures K[20] == 0x2de92c6f && K[21] == 0x4a7484aa && K[22] == 0x5cb0a9dc && K[23] == 0x76f988da
  {
  }

  lemma RoundsTo24()
    ensures Rounds(Block(), INITIAL, 24) ==
            Hash(0xc5d53d8d, 0xa7a3623f, 0xc2606d6d, 0x9dc68b63, 0xaa47c347, 0x49f5114a, 0xe1257970, 0x8ada8930)
  {
    hide Block, W, Rounds, K;
    KFrom16();
    WordsFrom16();
    RoundsTo16();
    var h := Rounds(Block(), INITIAL, 16);
    h := Next(16, h, 0xe49b69c1, 0x61626380, 0x21da9a9b, 0x8034229c);
    h := Next(17, h, 0xefbe4786, 0x000f0000, 0xc2fbd9d1, 0x846ee454);
    h := Next(18, h, 0x0fc19dc6, 0x7da86405, 0xfe777bbf, 0xcc899961);
    h := Next(19, h, 0x240ca1cc, 0x600003c6, 0xe1f20c33, 0xb0638179);
    h := Next(20, h, 0x2de92c6f, 0x3e9d7b78, 0x9dc68b63, 0x8ada8930);
    h := Next(21, h, 0x4a7484aa, 0x0183fc00, 0xc2606d6d, 0xe1257970);
    h := Next(22, h, 0x5cb0a9dc, 0x12dcbfdb, 0xa7a3623f, 0x49f5114a);
    h := Next(23, h, 0x76f988da, 0xe2e2c38e, 0xc5d53d8d, 0xaa47c347);
  }

  lemma KFrom24()
    ensures K[24] == 0x983e5152 && K[25] == 0xa831c66d && K[26] == 0xb00327c8 && K[27] == 0xbf597fc7
    ensures K[28] == 0xc6e00bf3 && K[29] == 0xd5a79147 && K[30] == 0x06ca6351 && K[31] == 0x14292967
  {
  }

  lemma RoundsTo32()
    ensures Rounds(Block(), INITIAL, 32) ==
            Hash(0x73b33bf5, 0xea992a22, 0xa0060b30, 0x363482c9, 0xba591112, 0x0109ab3a, 0xade79437, 0x6112a3b7)
  {
    hide Block, W, Rounds, K;
    KFrom24();
    WordsFrom24();
    RoundsTo24();
    var h := Rounds(Block(), INITIAL, 24);
    h := Next(24, h, 0x983e5152, 0xc8215c1a, 0x1c2c2838, 0x2823ef91);
    h := Next(25, h, 0xa831c66d, 0xb73679a2, 0xcde8037d, 0x14383d8e);
    h := Next(26, h, 0xb00327c8, 0xe5bc3909, 0xb62ec4bc, 0xc74c6516);
    h := Next(27, h, 0xbf597fc7, 0x32663c5b, 0x77d37528, 0xedffbff8);
    h := Next(28, h, 0xc6e00bf3, 0x9d209d67, 0x363482c9, 0x6112a3b7);
    h := Next(29, h, 0xd5a79147, 0xec8726cb, 0xa0060b30, 0xade79437);
    h := Next(30, h, 0x06ca6351, 0x702138a4, 0xea992a22, 0x0109ab3a);
    h := Next(31, h, 0x14292967, 0xd3b7973b, 0x73b33bf5, 0xba591112);
  }

  lemma KFrom32()
    ensures K[32] == 0x27b70a85 && K[33] == 0x2e1b2138 && K[34] == 0x4d2c6dfc && K[35] == 0x53380d13
    ensures K[36] == 0x650a7354 && K[37] == 0x766a0abb && K[38] == 0x81c2c92e && K[39] == 0x92722c85
  {
  }

  lemma RoundsTo40()
    ensures Rounds(Block(), INITIAL, 40) ==
            Hash(0x79ea687a, 0x6dc57a8a, 0x34df1604, 0x41a65cb1, 0x1efbc0a0, 0xf0781bc8, 0xa507a53d, 0x0772a26b)
  {
    hide Block, W, Rounds, K;
    KFrom32();
    WordsFrom32();
    RoundsTo32();
    var h := Rounds(Block(), INITIAL, 32);
    h := Next(32, h, 0x27b70a85, 0x93f5997f, 0x98e12507, 0x9cd9f5f6);
    h := Next(33, h, 0x2e1b2138, 0x3b68ba73, 0xfe604df5, 0x59249dd3);
    h := Next(34, h, 0x4d2c6dfc, 0xaff4ffc1, 0xa9a7738c, 0x085f3833);
    h := Next(35, h, 0x53380d13, 0xf10a5c62, 0x65a0cfe4, 0xf4b002d6);
    h := Next(36, h, 0x650a7354, 0x0a8b3996, 0x41a65cb1, 0x0772a26b);
    h := Next(37, h, 0x766a0abb, 0x72af830a, 0x34df1604, 0xa507a53d);
    h := Next(38, h, 0x81c2c92e, 0x9409e33e, 0x6dc57a8a, 0xf0781bc8);
    h := Next(39, h, 0x92722c85, 0x24641522, 0x79ea687a, 0x1efbc0a0);
  }

  lemma KFrom40()
    ensures K[40] == 0xa2bfe8a1 && K[41] == 0xa81a664b && K[42] == 0xc24b8b70 && K[43] == 0xc76c51a3
    ensures K[44] == 0xd192e819 && K[45] == 0xd6990624 && K[46] == 0xf40e3585 && K[47] == 0x106aa070
  {
  }

  lemma RoundsTo48()
    ensures Rounds(Block(), INITIAL, 48) ==
            Hash(0x4172328d, 0xa14c14b0, 0x72ab4b91, 0x26628815, 0xfecf0bc6, 0xd57b94a9, 0xb7755da1, 0xa80f11f0)
  {
    hide Block, W, Rounds, K;
    KFrom40();
    WordsFrom40();
    RoundsTo40();
    var h := Rounds(Block(), INITIAL, 40);
    h := Next(40, h, 0xa2bfe8a1, 0x9f47bf94, 0xd6670766, 0x26352d63);
    h := Next(41, h, 0xa81a664b, 0xf0a64f5a, 0xdf46652f, 0x838b2711);
    h := Next(42, h, 0xc24b8b70, 0x3e246a79, 0x17aa0dfe, 0xdecd4715);
    h := Next(43, h, 0xc76c51a3, 0x27333ba3, 0x9d4baf93, 0xfda24c2e);
    h := Next(44, h, 0xd192e819, 0x0c4763f2, 0x26628815, 0xa80f11f0);
    h := Next(45, h, 0xd6990624, 0x840abf27, 0x72ab4b91, 0xb7755da1);
    h := Next(46, h, 0xf40e3585, 0x7a290d5d, 0xa14c14b0, 0xd57b94a9);
    h := Next(47, h, 0x106aa070, 0x065c43da, 0x4172328d, 0xfecf0bc6);
  }

  lemma KFrom48()
    ensures K[48] == 0x19a4c116 && K[49] == 0x1e376c08 && K[50] == 0x2748774c && K[51] == 0x34b0bcb5
    ensures K[52] == 0x391c0cb3 && K[53] == 0x4ed8aa4a && K[54] == 0x5b9cca4f && K[55] == 0x682e6ff3
  {
  }

  lemma RoundsTo56()
    ensures Rounds(Block(), INITIAL, 56) ==
            Hash(0x38cc9913, 0x3ec45cdb, 0xf5702fdb, 0x101fd28f, 0x54cb266b, 0xe50e1b4f, 0x9f4787c3, 0x529e7d00)
  {
    hide Block, W, Rounds, K;
    KFrom48();
    WordsFrom48();
    RoundsTo48();
    var h := Rounds(Block(), INITIAL, 48);
    h := Next(48, h, 0x19a4c116, 0xfb3e89cb, 0x05757ceb, 0xbd714038);
    h := Next(49, h, 0x1e376c08, 0xcc7617db, 0xf11bfaa8, 0x6e5c390c);
    h := Next(50, h, 0x2748774c, 0xb9e66c34, 0x7a0508a1, 0x52f1ccf7);
    h := Next(51, h, 0x34b0bcb5, 0xa9993667, 0x886e7a22, 0x49231c1e);
    h := Next(52, h, 0x391c0cb3, 0x84badedd, 0x101fd28f, 0x529e7d00);
    h := Next(53, h, 0x4ed8aa4a, 0xc21462bc, 0xf5702fdb, 0x9f4787c3);
    h := Next(54, h, 0x5b9cca4f, 0x1487472c, 0x3ec45cdb, 0xe50e1b4f);
    h := Next(55, h, 0x682e6ff3, 0xb20f7a99, 0x38cc9913, 0x54cb266b);
  }

  lemma KFrom56()
    ensures K[56] == 0x748f82ee && K[57] == 0x78a5636f && K[58] == 0x84c87814 && K[59] == 0x8cc70208
    ensures K[60] == 0x90befffa && K[61] == 0xa4506ceb && K[62] == 0xbef9a3f7 && K[63] == 0xc67178f2
  {
  }

  lemma RoundsTo64()
    ensures Rounds(Block(), INITIAL, 64) ==
            Hash(0x506e3058, 0xd39a2165, 0x04d24d6c, 0xb85e2ce9, 0x5ef50f24, 0xfb121210, 0x948d25b6, 0x961f4894)
  {
    hide Block, W, Rounds, K;
    KFrom56();
    WordsFrom56();
    RoundsTo56();
    var h := Rounds(Block(), INITIAL, 56);
    h := Next(56, h, 0x748f82ee, 0xef57b9cd, 0xfcd1887b, 0x9b5e906c);
    h := Next(57, h, 0x78a5636f, 0xebe6b238, 0xc062d46f, 0x7e44008e);
    h := Next(58, h, 0x84c87814, 0x9fe3095e, 0xffb70472, 0x6d83bfc6);
    h := Next(59, h, 0x8cc70208, 0x78bc8d4b, 0xb6ae8fff, 0xb21bad3d);
    h := Next(60, h, 0x90befffa, 0xa43fcf15, 0xb85e2ce9, 0x961f4894);
    h := Next(61, h, 0xa4506ceb, 0x668b2ff8, 0x04d24d6c, 0x948d25b6);
    h := Next(62, h, 0xbef9a3f7, 0xeeaba2cc, 0xd39a2165, 0xfb121210);
    h := Next(63, h, 0xc67178f2, 0x12b1edeb, 0x506e3058, 0x5ef50f24);
  }

  lemma CompressedIs()
    ensures Process(Block()) == Hash(0xba7816bf, 0x8f01cfea, 0x414140de, 0x5dae2223, 0xb00361a3, 0x96177a9c, 0xb410ff61, 0xf20015ad)
  {
    hide Block, Rounds;
    RoundsTo64();
    NothingProcessed();
    assert Block()[..|Block()| - 64] == [] && Block()[|Block()| - 64..] == Block();
  }

  lemma NothingProcessed()
    ensures Process([]) == INITIAL
  {
  }

  /** The digest of "abc". */
  lemma DigestOfAbc()
    ensures Digest(ABC) == [0xba, 0x78, 0x16, 0xbf, 0x8f, 0x01, 0xcf, 0xea,
                            0x41, 0x41, 0x40, 0xde, 0x5d, 0xae, 0x22, 0x23,
                            0xb0, 0x03, 0x61, 0xa3, 0x96, 0x17, 0x7a, 0x9c,
                            0xb4, 0x10, 0xff, 0x61, 0xf2, 0x00, 0x15, 0xad]
  {
    hide Process, Padded;
    CompressedIs();
    assert 8 * |ABC| == 24;
  }
}
