/** The digest of FIPS 180-2, appendix B.1, computed round by round. */
module Sha256Example {
  import opened BlockHash
  import opened Sha256

  const ABC: seq<bv8> := [0x61, 0x62, 0x63]

  lemma AbcPadding()
    ensures Padding(3) == [0x80] + Zeros(59) + [24]
  {
    hide BigEndian;
    ShortLength(24, 7);
    ZerosJoin(52, 7);
  }

  lemma {:induction false} ShortLength(v: nat, n: nat)
    requires v < 256
    ensures BigEndian(v, n + 1) == Zeros(n) + [v as bv8]
  {
    if n > 0 {
      ShortLength(0, n - 1);
      assert Zeros(n - 1) + [0] == Zeros(n);
    } else {
      assert BigEndian(v / 256, 0) == [] == Zeros(0);
    }
  }

  /** Word t of the schedule. */
  ghost predicate Word(block: seq<bv8>, t: nat, w: bv32) {
    |block| == 64 && t < 64 && Schedule(block, t) == w
  }

  /** The one padded block of the message. */
  ghost predicate IsBlock(block: seq<bv8>) {
    block == ABC + Padding(3)
  }

  lemma FirstWords(block: seq<bv8>)
    requires IsBlock(block)
    ensures Word(block, 0, 0x61626380) && Word(block, 1, 0) && Word(block, 2, 0) && Word(block, 3, 0)
    ensures Word(block, 4, 0) && Word(block, 5, 0) && Word(block, 6, 0) && Word(block, 7, 0)
    ensures Word(block, 8, 0) && Word(block, 9, 0) && Word(block, 10, 0) && Word(block, 11, 0)
    ensures Word(block, 12, 0) && Word(block, 13, 0) && Word(block, 14, 0) && Word(block, 15, 24)
  {
    AbcPadding();
    hide Padding;
  }

  lemma NextWord(block: seq<bv8>, t: nat, w2: bv32, w7: bv32, w15: bv32, w16: bv32, w: bv32)
    requires 16 <= t < 64 && Word(block, t - 2, w2) && Word(block, t - 7, w7)
    requires Word(block, t - 15, w15) && Word(block, t - 16, w16)
    requires Expand(w2, w7, w15, w16) == w
    ensures Word(block, t, w)
  {
    hide Expand;
  }

  /** The eight working variables before round t. */
  ghost predicate At(block: seq<bv8>, t: nat,
                     a: bv32, b: bv32, c: bv32, d: bv32, e: bv32, f: bv32, g: bv32, h: bv32) {
    |block| == 64 && t <= 64 && Rounds(SHA256_H0, block, t) == [a, b, c, d, e, f, g, h]
  }

  /** Round t makes n of a and m of d. */
  lemma Take(block: seq<bv8>, t: nat,
             a: bv32, b: bv32, c: bv32, d: bv32, e: bv32, f: bv32, g: bv32, h: bv32,
             k: bv32, w: bv32, n: bv32, m: bv32)
    requires t < 64 && At(block, t, a, b, c, d, e, f, g, h) && KOf(t) == k && Word(block, t, w)
    requires Plus(T1(e, f, g, h, k, w), T2(a, b, c)) == n && Plus(d, T1(e, f, g, h, k, w)) == m
    ensures At(block, t + 1, n, a, b, c, m, e, f, g)
  {
    hide KOf, T1, T2, Plus, Schedule;
  }

  lemma Constants0()
    ensures KOf(0) == 0x428a2f98 && KOf(1) == 0x71374491 && KOf(2) == 0xb5c0fbcf && KOf(3) == 0xe9b5dba5
    ensures KOf(4) == 0x3956c25b && KOf(5) == 0x59f111f1 && KOf(6) == 0x923f82a4 && KOf(7) == 0xab1c5ed5
    ensures KOf(8) == 0xd807aa98 && KOf(9) == 0x12835b01 && KOf(10) == 0x243185be && KOf(11) == 0x550c7dc3
    ensures KOf(12) == 0x72be5d74 && KOf(13) == 0x80deb1fe && KOf(14) == 0x9bdc06a7 && KOf(15) == 0xc19bf174
  {
  }

  lemma Rounds0(block: seq<bv8>)
    requires IsBlock(block)
    requires At(block, 0, 0x6a09e667, 0xbb67ae85, 0x3c6ef372, 0xa54ff53a,
                 0x510e527f, 0x9b05688c, 0x1f83d9ab, 0x5be0cd19)
    ensures At(block, 16, 0xb0fa238e, 0xc0645fde, 0xd932eb16, 0x87912990,
                0x7590dcd, 0xb92f20c, 0x745a48de, 0x1e578218)
  {
    hide At, Word, IsBlock, KOf;
    FirstWords(block);
    Constants0();
    Take(block, 0, 0x6a09e667, 0xbb67ae85, 0x3c6ef372, 0xa54ff53a, 0x510e527f, 0x9b05688c, 0x1f83d9ab, 0x5be0cd19,
         0x428a2f98, 0x61626380, 0x5d6aebcd, 0xfa2a4622);
    Take(block, 1, 0x5d6aebcd, 0x6a09e667, 0xbb67ae85, 0x3c6ef372, 0xfa2a4622, 0x510e527f, 0x9b05688c, 0x1f83d9ab,
         0x71374491, 0x0, 0x5a6ad9ad, 0x78ce7989);
    Take(block, 2, 0x5a6ad9ad, 0x5d6aebcd, 0x6a09e667, 0xbb67ae85, 0x78ce7989, 0xfa2a4622, 0x510e527f, 0x9b05688c,
         0xb5c0fbcf, 0x0, 0xc8c347a7, 0xf92939eb);
    Take(block, 3, 0xc8c347a7, 0x5a6ad9ad, 0x5d6aebcd, 0x6a09e667, 0xf92939eb, 0x78ce7989, 0xfa2a4622, 0x510e527f,
         0xe9b5dba5, 0x0, 0xd550f666, 0x24e00850);
    Take(block, 4, 0xd550f666, 0xc8c347a7, 0x5a6ad9ad, 0x5d6aebcd, 0x24e00850, 0xf92939eb, 0x78ce7989, 0xfa2a4622,
         0x3956c25b, 0x0, 0x4409a6a, 0x43ada245);
    Take(block, 5, 0x4409a6a, 0xd550f666, 0xc8c347a7, 0x5a6ad9ad, 0x43ada245, 0x24e00850, 0xf92939eb, 0x78ce7989,
         0x59f111f1, 0x0, 0x2b4209f5, 0x714260ad);
    Take(block, 6, 0x2b4209f5, 0x4409a6a, 0xd550f666, 0xc8c347a7, 0x714260ad, 0x43ada245, 0x24e00850, 0xf92939eb,
         0x923f82a4, 0x0, 0xe5030380, 0x9b27a401);
    Take(block, 7, 0xe5030380, 0x2b4209f5, 0x4409a6a, 0xd550f666, 0x9b27a401, 0x714260ad, 0x43ada245, 0x24e00850,
         0xab1c5ed5, 0x0, 0x85a07b5f, 0xc657a79);
    Take(block, 8, 0x85a07b5f, 0xe5030380, 0x2b4209f5, 0x4409a6a, 0xc657a79, 0x9b27a401, 0x714260ad, 0x43ada245,
         0xd807aa98, 0x0, 0x8e04ecb9, 0x32ca2d8c);
    Take(block, 9, 0x8e04ecb9, 0x85a07b5f, 0xe5030380, 0x2b4209f5, 0x32ca2d8c, 0xc657a79, 0x9b27a401, 0x714260ad,
         0x12835b01, 0x0, 0x8c87346b, 0x1cc92596);
    Take(block, 10, 0x8c87346b, 0x8e04ecb9, 0x85a07b5f, 0xe5030380, 0x1cc92596, 0x32ca2d8c, 0xc657a79, 0x9b27a401,
         0x243185be, 0x0, 0x4798a3f4, 0x436b23e8);
    Take(block, 11, 0x4798a3f4, 0x8c87346b, 0x8e04ecb9, 0x85a07b5f, 0x436b23e8, 0x1cc92596, 0x32ca2d8c, 0xc657a79,
         0x550c7dc3, 0x0, 0xf71fc5a9, 0x816fd6e9);
    Take(block, 12, 0xf71fc5a9, 0x4798a3f4, 0x8c87346b, 0x8e04ecb9, 0x816fd6e9, 0x436b23e8, 0x1cc92596, 0x32ca2d8c,
         0x72be5d74, 0x0, 0x87912990, 0x1e578218);
    Take(block, 13, 0x87912990, 0xf71fc5a9, 0x4798a3f4, 0x8c87346b, 0x1e578218, 0x816fd6e9, 0x436b23e8, 0x1cc92596,
         0x80deb1fe, 0x0, 0xd932eb16, 0x745a48de);
    Take(block, 14, 0xd932eb16, 0x87912990, 0xf71fc5a9, 0x4798a3f4, 0x745a48de, 0x1e578218, 0x816fd6e9, 0x436b23e8,
         0x9bdc06a7, 0x0, 0xc0645fde, 0xb92f20c);
    Take(block, 15, 0xc0645fde, 0xd932eb16, 0x87912990, 0xf71fc5a9, 0xb92f20c, 0x745a48de, 0x1e578218, 0x816fd6e9,
         0xc19bf174, 0x18, 0xb0fa238e, 0x7590dcd);
  }

  lemma Words1(block: seq<bv8>)
    requires IsBlock(block)
    ensures Word(block, 16, 0x61626380) && Word(block, 17, 0xf0000)
    ensures Word(block, 18, 0x7da86405) && Word(block, 19, 0x600003c6)
    ensures Word(block, 20, 0x3e9d7b78) && Word(block, 21, 0x183fc00)
    ensures Word(block, 22, 0x12dcbfdb) && Word(block, 23, 0xe2e2c38e)
    ensures Word(block, 24, 0xc8215c1a) && Word(block, 25, 0xb73679a2)
    ensures Word(block, 26, 0xe5bc3909) && Word(block, 27, 0x32663c5b)
    ensures Word(block, 28, 0x9d209d67) && Word(block, 29, 0xec8726cb)
    ensures Word(block, 30, 0x702138a4) && Word(block, 31, 0xd3b7973b)
  {
    FirstWords(block);
    hide Word;
    NextWord(block, 16, 0x0, 0x0, 0x0, 0x61626380, 0x61626380);
    NextWord(block, 17, 0x18, 0x0, 0x0, 0x0, 0xf0000);
    NextWord(block, 18, 0x61626380, 0x0, 0x0, 0x0, 0x7da86405);
    NextWord(block, 19, 0xf0000, 0x0, 0x0, 0x0, 0x600003c6);
    NextWord(block, 20, 0x7da86405, 0x0, 0x0, 0x0, 0x3e9d7b78);
    NextWord(block, 21, 0x600003c6, 0x0, 0x0, 0x0, 0x183fc00);
    NextWord(block, 22, 0x3e9d7b78, 0x18, 0x0, 0x0, 0x12dcbfdb);
    NextWord(block, 23, 0x183fc00, 0x61626380, 0x0, 0x0, 0xe2e2c38e);
    NextWord(block, 24, 0x12dcbfdb, 0xf0000, 0x0, 0x0, 0xc8215c1a);
    NextWord(block, 25, 0xe2e2c38e, 0x7da86405, 0x0, 0x0, 0xb73679a2);
    NextWord(block, 26, 0xc8215c1a, 0x600003c6, 0x0, 0x0, 0xe5bc3909);
    NextWord(block, 27, 0xb73679a2, 0x3e9d7b78, 0x0, 0x0, 0x32663c5b);
    NextWord(block, 28, 0xe5bc3909, 0x183fc00, 0x0, 0x0, 0x9d209d67);
    NextWord(block, 29, 0x32663c5b, 0x12dcbfdb, 0x0, 0x0, 0xec8726cb);
    NextWord(block, 30, 0x9d209d67, 0xe2e2c38e, 0x18, 0x0, 0x702138a4);
    NextWord(block, 31, 0xec8726cb, 0xc8215c1a, 0x61626380, 0x18, 0xd3b7973b);
  }

  lemma Constants1()
    ensures KOf(16) == 0xe49b69c1 && KOf(17) == 0xefbe4786 && KOf(18) == 0xfc19dc6 && KOf(19) == 0x240ca1cc
    ensures KOf(20) == 0x2de92c6f && KOf(21) == 0x4a7484aa && KOf(22) == 0x5cb0a9dc && KOf(23) == 0x76f988da
    ensures KOf(24) == 0x983e5152 && KOf(25) == 0xa831c66d && KOf(26) == 0xb00327c8 && KOf(27) == 0xbf597fc7
    ensures KOf(28) == 0xc6e00bf3 && KOf(29) == 0xd5a79147 && KOf(30) == 0x6ca6351 && KOf(31) == 0x14292967
  {
  }

  lemma Rounds1(block: seq<bv8>)
    requires IsBlock(block)
    requires At(block, 16, 0xb0fa238e, 0xc0645fde, 0xd932eb16, 0x87912990,
                 0x7590dcd, 0xb92f20c, 0x745a48de, 0x1e578218)
    ensures At(block, 32, 0x73b33bf5, 0xea992a22, 0xa0060b30, 0x363482c9,
                0xba591112, 0x109ab3a, 0xade79437, 0x6112a3b7)
  {
    Words1(block);
    Constants1();
    hide At, Word, KOf;
    Take(block, 16, 0xb0fa238e, 0xc0645fde, 0xd932eb16, 0x87912990, 0x7590dcd, 0xb92f20c, 0x745a48de, 0x1e578218,
         0xe49b69c1, 0x61626380, 0x21da9a9b, 0x8034229c);
    Take(block, 17, 0x21da9a9b, 0xb0fa238e, 0xc0645fde, 0xd932eb16, 0x8034229c, 0x7590dcd, 0xb92f20c, 0x745a48de,
         0xefbe4786, 0xf0000, 0xc2fbd9d1, 0x846ee454);
    Take(block, 18, 0xc2fbd9d1, 0x21da9a9b, 0xb0fa238e, 0xc0645fde, 0x846ee454, 0x8034229c, 0x7590dcd, 0xb92f20c,
         0xfc19dc6, 0x7da86405, 0xfe777bbf, 0xcc899961);
    Take(block, 19, 0xfe777bbf, 0xc2fbd9d1, 0x21da9a9b, 0xb0fa238e, 0xcc899961, 0x846ee454, 0x8034229c, 0x7590dcd,
         0x240ca1cc, 0x600003c6, 0xe1f20c33, 0xb0638179);
    Take(block, 20, 0xe1f20c33, 0xfe777bbf, 0xc2fbd9d1, 0x21da9a9b, 0xb0638179, 0xcc899961, 0x846ee454, 0x8034229c,
         0x2de92c6f, 0x3e9d7b78, 0x9dc68b63, 0x8ada8930);
    Take(block, 21, 0x9dc68b63, 0xe1f20c33, 0xfe777bbf, 0xc2fbd9d1, 0x8ada8930, 0xb0638179, 0xcc899961, 0x846ee454,
         0x4a7484aa, 0x183fc00, 0xc2606d6d, 0xe1257970);
    Take(block, 22, 0xc2606d6d, 0x9dc68b63, 0xe1f20c33, 0xfe777bbf, 0xe1257970, 0x8ada8930, 0xb0638179, 0xcc899961,
         0x5cb0a9dc, 0x12dcbfdb, 0xa7a3623f, 0x49f5114a);
    Take(block, 23, 0xa7a3623f, 0xc2606d6d, 0x9dc68b63, 0xe1f20c33, 0x49f5114a, 0xe1257970, 0x8ada8930, 0xb0638179,
         0x76f988da, 0xe2e2c38e, 0xc5d53d8d, 0xaa47c347);
    Take(block, 24, 0xc5d53d8d, 0xa7a3623f, 0xc2606d6d, 0x9dc68b63, 0xaa47c347, 0x49f5114a, 0xe1257970, 0x8ada8930,
         0x983e5152, 0xc8215c1a, 0x1c2c2838, 0x2823ef91);
    Take(block, 25, 0x1c2c2838, 0xc5d53d8d, 0xa7a3623f, 0xc2606d6d, 0x2823ef91, 0xaa47c347, 0x49f5114a, 0xe1257970,
         0xa831c66d, 0xb73679a2, 0xcde8037d, 0x14383d8e);
    Take(block, 26, 0xcde8037d, 0x1c2c2838, 0xc5d53d8d, 0xa7a3623f, 0x14383d8e, 0x2823ef91, 0xaa47c347, 0x49f5114a,
         0xb00327c8, 0xe5bc3909, 0xb62ec4bc, 0xc74c6516);
    Take(block, 27, 0xb62ec4bc, 0xcde8037d, 0x1c2c2838, 0xc5d53d8d, 0xc74c6516, 0x14383d8e, 0x2823ef91, 0xaa47c347,
         0xbf597fc7, 0x32663c5b, 0x77d37528, 0xedffbff8);
    Take(block, 28, 0x77d37528, 0xb62ec4bc, 0xcde8037d, 0x1c2c2838, 0xedffbff8, 0xc74c6516, 0x14383d8e, 0x2823ef91,
         0xc6e00bf3, 0x9d209d67, 0x363482c9, 0x6112a3b7);
    Take(block, 29, 0x363482c9, 0x77d37528, 0xb62ec4bc, 0xcde8037d, 0x6112a3b7, 0xedffbff8, 0xc74c6516, 0x14383d8e,
         0xd5a79147, 0xec8726cb, 0xa0060b30, 0xade79437);
    Take(block, 30, 0xa0060b30, 0x363482c9, 0x77d37528, 0xb62ec4bc, 0xade79437, 0x6112a3b7, 0xedffbff8, 0xc74c6516,
         0x6ca6351, 0x702138a4, 0xea992a22, 0x109ab3a);
    Take(block, 31, 0xea992a22, 0xa0060b30, 0x363482c9, 0x77d37528, 0x109ab3a, 0xade79437, 0x6112a3b7, 0xedffbff8,
         0x14292967, 0xd3b7973b, 0x73b33bf5, 0xba591112);
  }

  lemma Words2(block: seq<bv8>)
    requires IsBlock(block)
    ensures Word(block, 32, 0x93f5997f) && Word(block, 33, 0x3b68ba73)
    ensures Word(block, 34, 0xaff4ffc1) && Word(block, 35, 0xf10a5c62)
    ensures Word(block, 36, 0xa8b3996) && Word(block, 37, 0x72af830a)
    ensures Word(block, 38, 0x9409e33e) && Word(block, 39, 0x24641522)
    ensures Word(block, 40, 0x9f47bf94) && Word(block, 41, 0xf0a64f5a)
    ensures Word(block, 42, 0x3e246a79) && Word(block, 43, 0x27333ba3)
    ensures Word(block, 44, 0xc4763f2) && Word(block, 45, 0x840abf27)
    ensures Word(block, 46, 0x7a290d5d) && Word(block, 47, 0x65c43da)
  {
    Words1(block);
    hide Word;
    NextWord(block, 32, 0x702138a4, 0xb73679a2, 0xf0000, 0x61626380, 0x93f5997f);
    NextWord(block, 33, 0xd3b7973b, 0xe5bc3909, 0x7da86405, 0xf0000, 0x3b68ba73);
    NextWord(block, 34, 0x93f5997f, 0x32663c5b, 0x600003c6, 0x7da86405, 0xaff4ffc1);
    NextWord(block, 35, 0x3b68ba73, 0x9d209d67, 0x3e9d7b78, 0x600003c6, 0xf10a5c62);
    NextWord(block, 36, 0xaff4ffc1, 0xec8726cb, 0x183fc00, 0x3e9d7b78, 0xa8b3996);
    NextWord(block, 37, 0xf10a5c62, 0x702138a4, 0x12dcbfdb, 0x183fc00, 0x72af830a);
    NextWord(block, 38, 0xa8b3996, 0xd3b7973b, 0xe2e2c38e, 0x12dcbfdb, 0x9409e33e);
    NextWord(block, 39, 0x72af830a, 0x93f5997f, 0xc8215c1a, 0xe2e2c38e, 0x24641522);
    NextWord(block, 40, 0x9409e33e, 0x3b68ba73, 0xb73679a2, 0xc8215c1a, 0x9f47bf94);
    NextWord(block, 41, 0x24641522, 0xaff4ffc1, 0xe5bc3909, 0xb73679a2, 0xf0a64f5a);
    NextWord(block, 42, 0x9f47bf94, 0xf10a5c62, 0x32663c5b, 0xe5bc3909, 0x3e246a79);
    NextWord(block, 43, 0xf0a64f5a, 0xa8b3996, 0x9d209d67, 0x32663c5b, 0x27333ba3);
    NextWord(block, 44, 0x3e246a79, 0x72af830a, 0xec8726cb, 0x9d209d67, 0xc4763f2);
    NextWord(block, 45, 0x27333ba3, 0x9409e33e, 0x702138a4, 0xec8726cb, 0x840abf27);
    NextWord(block, 46, 0xc4763f2, 0x24641522, 0xd3b7973b, 0x702138a4, 0x7a290d5d);
    NextWord(block, 47, 0x840abf27, 0x9f47bf94, 0x93f5997f, 0xd3b7973b, 0x65c43da);
  }

  lemma Constants2()
    ensures KOf(32) == 0x27b70a85 && KOf(33) == 0x2e1b2138 && KOf(34) == 0x4d2c6dfc && KOf(35) == 0x53380d13
    ensures KOf(36) == 0x650a7354 && KOf(37) == 0x766a0abb && KOf(38) == 0x81c2c92e && KOf(39) == 0x92722c85
    ensures KOf(40) == 0xa2bfe8a1 && KOf(41) == 0xa81a664b && KOf(42) == 0xc24b8b70 && KOf(43) == 0xc76c51a3
    ensures KOf(44) == 0xd192e819 && KOf(45) == 0xd6990624 && KOf(46) == 0xf40e3585 && KOf(47) == 0x106aa070
  {
  }

  lemma Rounds2(block: seq<bv8>)
    requires IsBlock(block)
    requires At(block, 32, 0x73b33bf5, 0xea992a22, 0xa0060b30, 0x363482c9,
                 0xba591112, 0x109ab3a, 0xade79437, 0x6112a3b7)
    ensures At(block, 48, 0x4172328d, 0xa14c14b0, 0x72ab4b91, 0x26628815,
                0xfecf0bc6, 0xd57b94a9, 0xb7755da1, 0xa80f11f0)
  {
    Words2(block);
    Constants2();
    hide At, Word, KOf;
    Take(block, 32, 0x73b33bf5, 0xea992a22, 0xa0060b30, 0x363482c9, 0xba591112, 0x109ab3a, 0xade79437, 0x6112a3b7,
         0x27b70a85, 0x93f5997f, 0x98e12507, 0x9cd9f5f6);
    Take(block, 33, 0x98e12507, 0x73b33bf5, 0xea992a22, 0xa0060b30, 0x9cd9f5f6, 0xba591112, 0x109ab3a, 0xade79437,
         0x2e1b2138, 0x3b68ba73, 0xfe604df5, 0x59249dd3);
    Take(block, 34, 0xfe604df5, 0x98e12507, 0x73b33bf5, 0xea992a22, 0x59249dd3, 0x9cd9f5f6, 0xba591112, 0x109ab3a,
         0x4d2c6dfc, 0xaff4ffc1, 0xa9a7738c, 0x85f3833);
    Take(block, 35, 0xa9a7738c, 0xfe604df5, 0x98e12507, 0x73b33bf5, 0x85f3833, 0x59249dd3, 0x9cd9f5f6, 0xba591112,
         0x53380d13, 0xf10a5c62, 0x65a0cfe4, 0xf4b002d6);
    Take(block, 36, 0x65a0cfe4, 0xa9a7738c, 0xfe604df5, 0x98e12507, 0xf4b002d6, 0x85f3833, 0x59249dd3, 0x9cd9f5f6,
         0x650a7354, 0xa8b3996, 0x41a65cb1, 0x772a26b);
    Take(block, 37, 0x41a65cb1, 0x65a0cfe4, 0xa9a7738c, 0xfe604df5, 0x772a26b, 0xf4b002d6, 0x85f3833, 0x59249dd3,
         0x766a0abb, 0x72af830a, 0x34df1604, 0xa507a53d);
    Take(block, 38, 0x34df1604, 0x41a65cb1, 0x65a0cfe4, 0xa9a7738c, 0xa507a53d, 0x772a26b, 0xf4b002d6, 0x85f3833,
         0x81c2c92e, 0x9409e33e, 0x6dc57a8a, 0xf0781bc8);
    Take(block, 39, 0x6dc57a8a, 0x34df1604, 0x41a65cb1, 0x65a0cfe4, 0xf0781bc8, 0xa507a53d, 0x772a26b, 0xf4b002d6,
         0x92722c85, 0x24641522, 0x79ea687a, 0x1efbc0a0);
    Take(block, 40, 0x79ea687a, 0x6dc57a8a, 0x34df1604, 0x41a65cb1, 0x1efbc0a0, 0xf0781bc8, 0xa507a53d, 0x772a26b,
         0xa2bfe8a1, 0x9f47bf94, 0xd6670766, 0x26352d63);
    Take(block, 41, 0xd6670766, 0x79ea687a, 0x6dc57a8a, 0x34df1604, 0x26352d63, 0x1efbc0a0, 0xf0781bc8, 0xa507a53d,
         0xa81a664b, 0xf0a64f5a, 0xdf46652f, 0x838b2711);
    Take(block, 42, 0xdf46652f, 0xd6670766, 0x79ea687a, 0x6dc57a8a, 0x838b2711, 0x26352d63, 0x1efbc0a0, 0xf0781bc8,
         0xc24b8b70, 0x3e246a79, 0x17aa0dfe, 0xdecd4715);
    Take(block, 43, 0x17aa0dfe, 0xdf46652f, 0xd6670766, 0x79ea687a, 0xdecd4715, 0x838b2711, 0x26352d63, 0x1efbc0a0,
         0xc76c51a3, 0x27333ba3, 0x9d4baf93, 0xfda24c2e);
    Take(block, 44, 0x9d4baf93, 0x17aa0dfe, 0xdf46652f, 0xd6670766, 0xfda24c2e, 0xdecd4715, 0x838b2711, 0x26352d63,
         0xd192e819, 0xc4763f2, 0x26628815, 0xa80f11f0);
    Take(block, 45, 0x26628815, 0x9d4baf93, 0x17aa0dfe, 0xdf46652f, 0xa80f11f0, 0xfda24c2e, 0xdecd4715, 0x838b2711,
         0xd6990624, 0x840abf27, 0x72ab4b91, 0xb7755da1);
    Take(block, 46, 0x72ab4b91, 0x26628815, 0x9d4baf93, 0x17aa0dfe, 0xb7755da1, 0xa80f11f0, 0xfda24c2e, 0xdecd4715,
         0xf40e3585, 0x7a290d5d, 0xa14c14b0, 0xd57b94a9);
    Take(block, 47, 0xa14c14b0, 0x72ab4b91, 0x26628815, 0x9d4baf93, 0xd57b94a9, 0xb7755da1, 0xa80f11f0, 0xfda24c2e,
         0x106aa070, 0x65c43da, 0x4172328d, 0xfecf0bc6);
  }

  lemma Words3(block: seq<bv8>)
    requires IsBlock(block)
    ensures Word(block, 48, 0xfb3e89cb) && Word(block, 49, 0xcc7617db)
    ensures Word(block, 50, 0xb9e66c34) && Word(block, 51, 0xa9993667)
    ensures Word(block, 52, 0x84badedd) && Word(block, 53, 0xc21462bc)
    ensures Word(block, 54, 0x1487472c) && Word(block, 55, 0xb20f7a99)
    ensures Word(block, 56, 0xef57b9cd) && Word(block, 57, 0xebe6b238)
    ensures Word(block, 58, 0x9fe3095e) && Word(block, 59, 0x78bc8d4b)
    ensures Word(block, 60, 0xa43fcf15) && Word(block, 61, 0x668b2ff8)
    ensures Word(block, 62, 0xeeaba2cc) && Word(block, 63, 0x12b1edeb)
  {
    Words2(block);
    hide Word;
    NextWord(block, 48, 0x7a290d5d, 0xf0a64f5a, 0x3b68ba73, 0x93f5997f, 0xfb3e89cb);
    NextWord(block, 49, 0x65c43da, 0x3e246a79, 0xaff4ffc1, 0x3b68ba73, 0xcc7617db);
    NextWord(block, 50, 0xfb3e89cb, 0x27333ba3, 0xf10a5c62, 0xaff4ffc1, 0xb9e66c34);
    NextWord(block, 51, 0xcc7617db, 0xc4763f2, 0xa8b3996, 0xf10a5c62, 0xa9993667);
    NextWord(block, 52, 0xb9e66c34, 0x840abf27, 0x72af830a, 0xa8b3996, 0x84badedd);
    NextWord(block, 53, 0xa9993667, 0x7a290d5d, 0x9409e33e, 0x72af830a, 0xc21462bc);
    NextWord(block, 54, 0x84badedd, 0x65c43da, 0x24641522, 0x9409e33e, 0x1487472c);
    NextWord(block, 55, 0xc21462bc, 0xfb3e89cb, 0x9f47bf94, 0x24641522, 0xb20f7a99);
    NextWord(block, 56, 0x1487472c, 0xcc7617db, 0xf0a64f5a, 0x9f47bf94, 0xef57b9cd);
    NextWord(block, 57, 0xb20f7a99, 0xb9e66c34, 0x3e246a79, 0xf0a64f5a, 0xebe6b238);
    NextWord(block, 58, 0xef57b9cd, 0xa9993667, 0x27333ba3, 0x3e246a79, 0x9fe3095e);
    NextWord(block, 59, 0xebe6b238, 0x84badedd, 0xc4763f2, 0x27333ba3, 0x78bc8d4b);
    NextWord(block, 60, 0x9fe3095e, 0xc21462bc, 0x840abf27, 0xc4763f2, 0xa43fcf15);
    NextWord(block, 61, 0x78bc8d4b, 0x1487472c, 0x7a290d5d, 0x840abf27, 0x668b2ff8);
    NextWord(block, 62, 0xa43fcf15, 0xb20f7a99, 0x65c43da, 0x7a290d5d, 0xeeaba2cc);
    NextWord(block, 63, 0x668b2ff8, 0xef57b9cd, 0xfb3e89cb, 0x65c43da, 0x12b1edeb);
  }

  lemma Constants3()
    ensures KOf(48) == 0x19a4c116 && KOf(49) == 0x1e376c08 && KOf(50) == 0x2748774c && KOf(51) == 0x34b0bcb5
    ensures KOf(52) == 0x391c0cb3 && KOf(53) == 0x4ed8aa4a && KOf(54) == 0x5b9cca4f && KOf(55) == 0x682e6ff3
    ensures KOf(56) == 0x748f82ee && KOf(57) == 0x78a5636f && KOf(58) == 0x84c87814 && KOf(59) == 0x8cc70208
    ensures KOf(60) == 0x90befffa && KOf(61) == 0xa4506ceb && KOf(62) == 0xbef9a3f7 && KOf(63) == 0xc67178f2
  {
  }

  lemma Rounds3(block: seq<bv8>)
    requires IsBlock(block)
    requires At(block, 48, 0x4172328d, 0xa14c14b0, 0x72ab4b91, 0x26628815,
                 0xfecf0bc6, 0xd57b94a9, 0xb7755da1, 0xa80f11f0)
    ensures At(block, 64, 0x506e3058, 0xd39a2165, 0x4d24d6c, 0xb85e2ce9,
                0x5ef50f24, 0xfb121210, 0x948d25b6, 0x961f4894)
  {
    Words3(block);
    Constants3();
    hide At, Word, KOf;
    Take(block, 48, 0x4172328d, 0xa14c14b0, 0x72ab4b91, 0x26628815, 0xfecf0bc6, 0xd57b94a9, 0xb7755da1, 0xa80f11f0,
         0x19a4c116, 0xfb3e89cb, 0x5757ceb, 0xbd714038);
    Take(block, 49, 0x5757ceb, 0x4172328d, 0xa14c14b0, 0x72ab4b91, 0xbd714038, 0xfecf0bc6, 0xd57b94a9, 0xb7755da1,
         0x1e376c08, 0xcc7617db, 0xf11bfaa8, 0x6e5c390c);
    Take(block, 50, 0xf11bfaa8, 0x5757ceb, 0x4172328d, 0xa14c14b0, 0x6e5c390c, 0xbd714038, 0xfecf0bc6, 0xd57b94a9,
         0x2748774c, 0xb9e66c34, 0x7a0508a1, 0x52f1ccf7);
    Take(block, 51, 0x7a0508a1, 0xf11bfaa8, 0x5757ceb, 0x4172328d, 0x52f1ccf7, 0x6e5c390c, 0xbd714038, 0xfecf0bc6,
         0x34b0bcb5, 0xa9993667, 0x886e7a22, 0x49231c1e);
    Take(block, 52, 0x886e7a22, 0x7a0508a1, 0xf11bfaa8, 0x5757ceb, 0x49231c1e, 0x52f1ccf7, 0x6e5c390c, 0xbd714038,
         0x391c0cb3, 0x84badedd, 0x101fd28f, 0x529e7d00);
    Take(block, 53, 0x101fd28f, 0x886e7a22, 0x7a0508a1, 0xf11bfaa8, 0x529e7d00, 0x49231c1e, 0x52f1ccf7, 0x6e5c390c,
         0x4ed8aa4a, 0xc21462bc, 0xf5702fdb, 0x9f4787c3);
    Take(block, 54, 0xf5702fdb, 0x101fd28f, 0x886e7a22, 0x7a0508a1, 0x9f4787c3, 0x529e7d00, 0x49231c1e, 0x52f1ccf7,
         0x5b9cca4f, 0x1487472c, 0x3ec45cdb, 0xe50e1b4f);
    Take(block, 55, 0x3ec45cdb, 0xf5702fdb, 0x101fd28f, 0x886e7a22, 0xe50e1b4f, 0x9f4787c3, 0x529e7d00, 0x49231c1e,
         0x682e6ff3, 0xb20f7a99, 0x38cc9913, 0x54cb266b);
    Take(block, 56, 0x38cc9913, 0x3ec45cdb, 0xf5702fdb, 0x101fd28f, 0x54cb266b, 0xe50e1b4f, 0x9f4787c3, 0x529e7d00,
         0x748f82ee, 0xef57b9cd, 0xfcd1887b, 0x9b5e906c);
    Take(block, 57, 0xfcd1887b, 0x38cc9913, 0x3ec45cdb, 0xf5702fdb, 0x9b5e906c, 0x54cb266b, 0xe50e1b4f, 0x9f4787c3,
         0x78a5636f, 0xebe6b238, 0xc062d46f, 0x7e44008e);
    Take(block, 58, 0xc062d46f, 0xfcd1887b, 0x38cc9913, 0x3ec45cdb, 0x7e44008e, 0x9b5e906c, 0x54cb266b, 0xe50e1b4f,
         0x84c87814, 0x9fe3095e, 0xffb70472, 0x6d83bfc6);
    Take(block, 59, 0xffb70472, 0xc062d46f, 0xfcd1887b, 0x38cc9913, 0x6d83bfc6, 0x7e44008e, 0x9b5e906c, 0x54cb266b,
         0x8cc70208, 0x78bc8d4b, 0xb6ae8fff, 0xb21bad3d);
    Take(block, 60, 0xb6ae8fff, 0xffb70472, 0xc062d46f, 0xfcd1887b, 0xb21bad3d, 0x6d83bfc6, 0x7e44008e, 0x9b5e906c,
         0x90befffa, 0xa43fcf15, 0xb85e2ce9, 0x961f4894);
    Take(block, 61, 0xb85e2ce9, 0xb6ae8fff, 0xffb70472, 0xc062d46f, 0x961f4894, 0xb21bad3d, 0x6d83bfc6, 0x7e44008e,
         0xa4506ceb, 0x668b2ff8, 0x4d24d6c, 0x948d25b6);
    Take(block, 62, 0x4d24d6c, 0xb85e2ce9, 0xb6ae8fff, 0xffb70472, 0x948d25b6, 0x961f4894, 0xb21bad3d, 0x6d83bfc6,
         0xbef9a3f7, 0xeeaba2cc, 0xd39a2165, 0xfb121210);
    Take(block, 63, 0xd39a2165, 0x4d24d6c, 0xb85e2ce9, 0xb6ae8fff, 0xfb121210, 0x948d25b6, 0x961f4894, 0xb21bad3d,
         0xc67178f2, 0x12b1edeb, 0x506e3058, 0x5ef50f24);
  }

  /** The digest of "abc". */
  lemma AppendixB1()
    ensures Hash(Variant.Sha256, ABC) ==
            [0xba, 0x78, 0x16, 0xbf, 0x8f, 0x01, 0xcf, 0xea,
             0x41, 0x41, 0x40, 0xde, 0x5d, 0xae, 0x22, 0x23,
             0xb0, 0x03, 0x61, 0xa3, 0x96, 0x17, 0x7a, 0x9c,
             0xb4, 0x10, 0xff, 0x61, 0xf2, 0x00, 0x15, 0xad]
  {
    hide Hash, DigestBytes;
    AbcHash(ABC + Padding(3));
    hide *;
    Digest();
  }

  lemma AbcHash(block: seq<bv8>)
    requires IsBlock(block)
    ensures Hash(Variant.Sha256, ABC) ==
            DigestBytes([0xba7816bf, 0x8f01cfea, 0x414140de, 0x5dae2223,
                         0xb00361a3, 0x96177a9c, 0xb410ff61, 0xf20015ad])
  {
    hide *;
    Begin(block);
    Rounds0(block);
    Rounds1(block);
    Rounds2(block);
    Rounds3(block);
    End(block, 0x506e3058, 0xd39a2165, 0x4d24d6c, 0xb85e2ce9,
        0x5ef50f24, 0xfb121210, 0x948d25b6, 0x961f4894);
    LastSum();
  }

  lemma Begin(block: seq<bv8>)
    requires IsBlock(block)
    ensures At(block, 0, 0x6a09e667, 0xbb67ae85, 0x3c6ef372, 0xa54ff53a,
               0x510e527f, 0x9b05688c, 0x1f83d9ab, 0x5be0cd19)
  {
    AbcPadding();
    hide Padding;
  }

  lemma End(block: seq<bv8>,
            a: bv32, b: bv32, c: bv32, d: bv32, e: bv32, f: bv32, g: bv32, h: bv32)
    requires IsBlock(block) && At(block, 64, a, b, c, d, e, f, g, h)
    ensures Hash(Variant.Sha256, ABC) == DigestBytes(Sum(SHA256_H0, [a, b, c, d, e, f, g, h]))
  {
    hide Padding, Sum, DigestBytes, Rounds;
    FoldOne(Compress, SHA256_H0, block);
    var sum := Sum(SHA256_H0, [a, b, c, d, e, f, g, h]);
    assert sum[..8] == sum;
  }

  lemma LastSum()
    ensures Sum(SHA256_H0, [0x506e3058, 0xd39a2165, 0x4d24d6c, 0xb85e2ce9,
                            0x5ef50f24, 0xfb121210, 0x948d25b6, 0x961f4894]) ==
            [0xba7816bf, 0x8f01cfea, 0x414140de, 0x5dae2223,
             0xb00361a3, 0x96177a9c, 0xb410ff61, 0xf20015ad]
  {
  }

  lemma BytesOfEight(v: seq<bv32>)
    requires |v| == 8
    ensures DigestBytes(v) ==
            WordBytes(v[0]) + WordBytes(v[1]) + WordBytes(v[2]) + WordBytes(v[3])
            + WordBytes(v[4]) + WordBytes(v[5]) + WordBytes(v[6]) + WordBytes(v[7])
  {
    hide DigestBytes, WordBytes;
    OneMore(v, 0);
    OneMore(v, 1);
    OneMore(v, 2);
    OneMore(v, 3);
    OneMore(v, 4);
    OneMore(v, 5);
    OneMore(v, 6);
    OneMore(v, 7);
    assert v[..8] == v;
  }

  lemma OneMore(v: seq<bv32>, k: nat)
    requires k < |v|
    ensures DigestBytes(v[..k + 1]) == if k == 0 then WordBytes(v[k]) else DigestBytes(v[..k]) + WordBytes(v[k])
  {
    hide WordBytes;
    assert v[..k + 1][..k] == v[..k];
  }

  lemma Digest()
    ensures DigestBytes([0xba7816bf, 0x8f01cfea, 0x414140de, 0x5dae2223,
                         0xb00361a3, 0x96177a9c, 0xb410ff61, 0xf20015ad]) ==
            [0xba, 0x78, 0x16, 0xbf, 0x8f, 0x01, 0xcf, 0xea,
             0x41, 0x41, 0x40, 0xde, 0x5d, 0xae, 0x22, 0x23,
             0xb0, 0x03, 0x61, 0xa3, 0x96, 0x17, 0x7a, 0x9c,
             0xb4, 0x10, 0xff, 0x61, 0xf2, 0x00, 0x15, 0xad]
  {
    BytesOfEight([0xba7816bf, 0x8f01cfea, 0x414140de, 0x5dae2223,
                  0xb00361a3, 0x96177a9c, 0xb410ff61, 0xf20015ad]);
    hide DigestBytes;
  }
}
