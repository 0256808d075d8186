/** Digests of the test suite of RFC 1321, section A.5, computed step by step. */
module Md5Example {
  import opened BlockHash
  import opened Md5

  /** The four words before step i of the first block. */
  ghost predicate At(m: seq<bv32>, i: nat, a: bv32, b: bv32, c: bv32, d: bv32) {
    |m| == 16 && i <= 64 && Steps(INITIAL, m, 0, i) == Digest(a, b, c, d)
  }

  /** Step i makes n of the first word. */
  lemma Take(m: seq<bv32>, i: nat, a: bv32, b: bv32, c: bv32, d: bv32, w: bv32, t: nat, s: nat, n: bv32)
    requires i < 64 && At(m, i, a, b, c, d) && m[WordOf(i)] == w && T(i) == t && Rotation(i) == s
    requires CentralStep(Auxiliary(i, b, c, d), a, b, w, t, s) == n
    ensures At(m, i + 1, d, n, b, c)
  {
    hide CentralStep, Auxiliary, T, WordOf, Rotation;
  }

  /** The one block of a message of fewer than four bytes. */
  function BlockOf(msg: seq<bv8>): (block: seq<bv8>)
    requires |msg| < 4
    ensures |block| == 64
  {
    PaddingLength(|msg|);
    msg + Padding(|msg|)
  }

  lemma PaddingLength(n: nat)
    requires n < 4
    ensures |Padding(n)| == 64 - n
  {
    hide LittleEndian, Zeros;
  }

  /** Only its first word and the low word of its length in bits are not zero. */
  predicate Short(m: seq<bv32>, first: bv32, bits: bv32) {
    |m| == 16 && m[0] == first && m[14] == bits && (forall k :: 0 < k < 16 && k != 14 ==> m[k] == 0)
  }

  lemma {:induction false} ShortLength(v: nat, n: nat)
    requires v < 256
    ensures LittleEndian(v, n + 1) == [v as bv8] + Zeros(n)
  {
    if n > 0 {
      ShortLength(0, n - 1);
      assert LittleEndian(0, n) == [0] + Zeros(n - 1) == Zeros(n);
    } else {
      assert LittleEndian(0, 0) == [] == Zeros(0);
    }
  }

  lemma BlockOfShort(msg: seq<bv8>)
    requires |msg| < 4
    ensures BlockOf(msg) == msg + [0x80] + Zeros(55 - |msg|) + [(8 * |msg|) as bv8] + Zeros(7)
  {
    hide LittleEndian;
    ShortLength(8 * |msg|, 7);
  }

  lemma ShortWords(msg: seq<bv8>, first: bv32)
    requires |msg| < 4
    requires WordAt(BlockOf(msg), 0) == first
    ensures Short(Words(BlockOf(msg)), first, (8 * |msg|) as bv32)
  {
    BlockOfShort(msg);
    hide Padding, Zeros;
    var block := BlockOf(msg);
    assert forall j :: 4 <= j < 56 || 57 <= j < 64 ==> block[j] == 0;
  }

  /** The digest of such a message from the words after its 64 steps. */
  lemma DigestOf(msg: seq<bv8>, a: bv32, b: bv32, c: bv32, d: bv32)
    requires |msg| < 4 && At(Words(BlockOf(msg)), 64, a, b, c, d)
    ensures Hash(msg) == DigestBytes(Sum(INITIAL, Digest(a, b, c, d)))
  {
    hide Padding, Sum, DigestBytes, Steps, WordAt, INITIAL;
    FoldOne(Compress, INITIAL, BlockOf(msg));
  }

  lemma EmptyRound1(m: seq<bv32>)
    requires Short(m, 0x80, 0)
    ensures At(m, 16, 0xf56c7cf1, 0xd6819c6a, 0x5aa53f75, 0x374943a7)
  {
    Round1Constants();
    Start(m);
    hide WordOf, T, Rotation, At;
    Take(m, 0, 0x67452301, 0xefcdab89, 0x98badcfe, 0x10325476, 0x80, 0xd76aa478, 7, 0xa5202774);
    Take(m, 1, 0x10325476, 0xa5202774, 0xefcdab89, 0x98badcfe, 0x0, 0xe8c7b756, 12, 0xf59592dd);
    Take(m, 2, 0x98badcfe, 0xf59592dd, 0xa5202774, 0xefcdab89, 0x0, 0x242070db, 17, 0xe7f06b23);
    Take(m, 3, 0xefcdab89, 0xe7f06b23, 0xf59592dd, 0xa5202774, 0x0, 0xc1bdceee, 22, 0x1b163203);
    Take(m, 4, 0xa5202774, 0x1b163203, 0xe7f06b23, 0xf59592dd, 0x0, 0xf57c0faf, 7, 0x32033344);
    Take(m, 5, 0xf59592dd, 0x32033344, 0x1b163203, 0xe7f06b23, 0x0, 0x4787c62a, 12, 0x2f35d494);
    Take(m, 6, 0xe7f06b23, 0x2f35d494, 0x32033344, 0x1b163203, 0x0, 0xa8304613, 17, 0xf5b158db);
    Take(m, 7, 0x1b163203, 0xf5b158db, 0x2f35d494, 0x32033344, 0x0, 0xfd469501, 22, 0x9bc13ce9);
    Take(m, 8, 0x32033344, 0x9bc13ce9, 0xf5b158db, 0x2f35d494, 0x0, 0x698098d8, 7, 0x3893b991);
    Take(m, 9, 0x2f35d494, 0x3893b991, 0x9bc13ce9, 0xf5b158db, 0x0, 0x8b44f7af, 12, 0xfce4a312);
    Take(m, 10, 0xf5b158db, 0xfce4a312, 0x3893b991, 0x9bc13ce9, 0x0, 0xffff5bb1, 17, 0xe1ef0576);
    Take(m, 11, 0x9bc13ce9, 0xe1ef0576, 0xfce4a312, 0x3893b991, 0x0, 0x895cd7be, 22, 0x70768a29);
    Take(m, 12, 0x3893b991, 0x70768a29, 0xe1ef0576, 0xfce4a312, 0x0, 0x6b901122, 7, 0xf56c7cf1);
    Take(m, 13, 0xfce4a312, 0xf56c7cf1, 0x70768a29, 0xe1ef0576, 0x0, 0xfd987193, 12, 0x374943a7);
    Take(m, 14, 0xe1ef0576, 0x374943a7, 0xf56c7cf1, 0x70768a29, 0x0, 0xa679438e, 17, 0x5aa53f75);
    Take(m, 15, 0x70768a29, 0x5aa53f75, 0x374943a7, 0xf56c7cf1, 0x0, 0x49b40821, 22, 0xd6819c6a);
  }

  lemma EmptyRound2(m: seq<bv32>)
    requires Short(m, 0x80, 0) && At(m, 16, 0xf56c7cf1, 0xd6819c6a, 0x5aa53f75, 0x374943a7)
    ensures At(m, 32, 0x13707036, 0xa2205f1f, 0x1c31c384, 0xae7813db)
  {
    Round2Constants();
    hide WordOf, T, Rotation, At;
    Take(m, 16, 0xf56c7cf1, 0xd6819c6a, 0x5aa53f75, 0x374943a7, 0x0, 0xf61e2562, 5, 0x1c7d7513);
    Take(m, 17, 0x374943a7, 0x1c7d7513, 0xd6819c6a, 0x5aa53f75, 0x0, 0xc040b340, 9, 0x7bd57a3a);
    Take(m, 18, 0x5aa53f75, 0x7bd57a3a, 0x1c7d7513, 0xd6819c6a, 0x0, 0x265e5a51, 14, 0xc095f13a);
    Take(m, 19, 0xd6819c6a, 0xc095f13a, 0x7bd57a3a, 0x1c7d7513, 0x80, 0xe9b6c7aa, 20, 0xbd782e17);
    Take(m, 20, 0x1c7d7513, 0xbd782e17, 0xc095f13a, 0x7bd57a3a, 0x0, 0xd62f105d, 5, 0x3d1e3e6c);
    Take(m, 21, 0x7bd57a3a, 0x3d1e3e6c, 0xbd782e17, 0xc095f13a, 0x0, 0x2441453, 9, 0x68b7b3e3);
    Take(m, 22, 0xc095f13a, 0x68b7b3e3, 0x3d1e3e6c, 0xbd782e17, 0x0, 0xd8a1e681, 14, 0xeb41643e);
    Take(m, 23, 0xbd782e17, 0xeb41643e, 0x68b7b3e3, 0x3d1e3e6c, 0x0, 0xe7d3fbc8, 20, 0xe422531a);
    Take(m, 24, 0x3d1e3e6c, 0xe422531a, 0xeb41643e, 0x68b7b3e3, 0x0, 0x21e1cde6, 5, 0x306ec122);
    Take(m, 25, 0x68b7b3e3, 0x306ec122, 0xe422531a, 0xeb41643e, 0x0, 0xc33707d6, 9, 0xd28c77c2);
    Take(m, 26, 0xeb41643e, 0xd28c77c2, 0x306ec122, 0xe422531a, 0x0, 0xf4d50d87, 14, 0xa3c663da);
    Take(m, 27, 0xe422531a, 0xa3c663da, 0xd28c77c2, 0x306ec122, 0x0, 0x455a14ed, 20, 0xa0572807);
    Take(m, 28, 0x306ec122, 0xa0572807, 0xa3c663da, 0xd28c77c2, 0x0, 0xa9e3e905, 5, 0x13707036);
    Take(m, 29, 0xd28c77c2, 0x13707036, 0xa0572807, 0xa3c663da, 0x0, 0xfcefa3f8, 9, 0xae7813db);
    Take(m, 30, 0xa3c663da, 0xae7813db, 0x13707036, 0xa0572807, 0x0, 0x676f02d9, 14, 0x1c31c384);
    Take(m, 31, 0xa0572807, 0x1c31c384, 0xae7813db, 0x13707036, 0x0, 0x8d2a4c8a, 20, 0xa2205f1f);
  }

  lemma EmptyRound3(m: seq<bv32>)
    requires Short(m, 0x80, 0) && At(m, 32, 0x13707036, 0xa2205f1f, 0x1c31c384, 0xae7813db)
    ensures At(m, 48, 0x3f55edfd, 0xca7d2dbd, 0x68d84ea2, 0x22a31f54)
  {
    Round3Constants();
    hide WordOf, T, Rotation, At;
    Take(m, 32, 0x13707036, 0xa2205f1f, 0x1c31c384, 0xae7813db, 0x0, 0xfffa3942, 4, 0xdf63eaa1);
    Take(m, 33, 0xae7813db, 0xdf63eaa1, 0xa2205f1f, 0x1c31c384, 0x0, 0x8771f681, 11, 0xc3689f5b);
    Take(m, 34, 0x1c31c384, 0xc3689f5b, 0xdf63eaa1, 0xa2205f1f, 0x0, 0x6d9d6122, 16, 0x12f3e755);
    Take(m, 35, 0xa2205f1f, 0x12f3e755, 0xc3689f5b, 0xdf63eaa1, 0x0, 0xfde5380c, 23, 0x4b6669);
    Take(m, 36, 0xdf63eaa1, 0x4b6669, 0x12f3e755, 0xc3689f5b, 0x0, 0xa4beea44, 4, 0x5f7a9b2e);
    Take(m, 37, 0xc3689f5b, 0x5f7a9b2e, 0x4b6669, 0x12f3e755, 0x0, 0x4bdecfa9, 11, 0xabc34e16);
    Take(m, 38, 0x12f3e755, 0xabc34e16, 0x5f7a9b2e, 0x4b6669, 0x0, 0xf6bb4b60, 16, 0x91ca4cb7);
    Take(m, 39, 0x4b6669, 0x91ca4cb7, 0xabc34e16, 0x5f7a9b2e, 0x0, 0xbebfbc70, 23, 0xc5dc8c15);
    Take(m, 40, 0x5f7a9b2e, 0xc5dc8c15, 0x91ca4cb7, 0xabc34e16, 0x0, 0x289b7ec6, 4, 0x4497169d);
    Take(m, 41, 0xabc34e16, 0x4497169d, 0xc5dc8c15, 0x91ca4cb7, 0x80, 0xeaa127fa, 11, 0x76fd93d4);
    Take(m, 42, 0x91ca4cb7, 0x76fd93d4, 0x4497169d, 0xc5dc8c15, 0x0, 0xd4ef3085, 16, 0xfd95f243);
    Take(m, 43, 0xc5dc8c15, 0xfd95f243, 0x76fd93d4, 0x4497169d, 0x0, 0x4881d05, 23, 0xfe32453);
    Take(m, 44, 0x4497169d, 0xfe32453, 0xfd95f243, 0x76fd93d4, 0x0, 0xd9d4d039, 4, 0x3f55edfd);
    Take(m, 45, 0x76fd93d4, 0x3f55edfd, 0xfe32453, 0xfd95f243, 0x0, 0xe6db99e5, 11, 0x22a31f54);
    Take(m, 46, 0xfd95f243, 0x22a31f54, 0x3f55edfd, 0xfe32453, 0x0, 0x1fa27cf8, 16, 0x68d84ea2);
    Take(m, 47, 0xfe32453, 0x68d84ea2, 0x22a31f54, 0x3f55edfd, 0x0, 0xc4ac5665, 23, 0xca7d2dbd);
  }

  lemma EmptyRound4(m: seq<bv32>)
    requires Short(m, 0x80, 0) && At(m, 48, 0x3f55edfd, 0xca7d2dbd, 0x68d84ea2, 0x22a31f54)
    ensures At(m, 64, 0x7246fad3, 0x14e45506, 0xff4ea3eb, 0x6e10a476)
  {
    Round4Constants();
    hide WordOf, T, Rotation, At;
    Take(m, 48, 0x3f55edfd, 0xca7d2dbd, 0x68d84ea2, 0x22a31f54, 0x80, 0xf4292244, 6, 0x93aa2577);
    Take(m, 49, 0x22a31f54, 0x93aa2577, 0xca7d2dbd, 0x68d84ea2, 0x0, 0x432aff97, 10, 0x1688dc85);
    Take(m, 50, 0x68d84ea2, 0x1688dc85, 0x93aa2577, 0xca7d2dbd, 0x0, 0xab9423a7, 15, 0xcd85b8cb);
    Take(m, 51, 0xca7d2dbd, 0xcd85b8cb, 0x1688dc85, 0x93aa2577, 0x0, 0xfc93a039, 21, 0x561e0689);
    Take(m, 52, 0x93aa2577, 0x561e0689, 0xcd85b8cb, 0x1688dc85, 0x0, 0x655b59c3, 6, 0x5625a114);
    Take(m, 53, 0x1688dc85, 0x5625a114, 0x561e0689, 0xcd85b8cb, 0x0, 0x8f0ccc92, 10, 0x3450f42b);
    Take(m, 54, 0xcd85b8cb, 0x3450f42b, 0x5625a114, 0x561e0689, 0x0, 0xffeff47d, 15, 0x392ad0d0);
    Take(m, 55, 0x561e0689, 0x392ad0d0, 0x3450f42b, 0x5625a114, 0x0, 0x85845dd1, 21, 0x1e77fa61);
    Take(m, 56, 0x5625a114, 0x1e77fa61, 0x392ad0d0, 0x3450f42b, 0x0, 0x6fa87e4f, 6, 0x474a9c8c);
    Take(m, 57, 0x3450f42b, 0x474a9c8c, 0x1e77fa61, 0x392ad0d0, 0x0, 0xfe2ce6e0, 10, 0xdfce00bc);
    Take(m, 58, 0x392ad0d0, 0xdfce00bc, 0x474a9c8c, 0x1e77fa61, 0x0, 0xa3014314, 15, 0x36594b14);
    Take(m, 59, 0x1e77fa61, 0x36594b14, 0xdfce00bc, 0x474a9c8c, 0x0, 0x4e0811a1, 21, 0x30130182);
    Take(m, 60, 0x474a9c8c, 0x30130182, 0x36594b14, 0xdfce00bc, 0x0, 0xf7537e82, 6, 0x7246fad3);
    Take(m, 61, 0xdfce00bc, 0x7246fad3, 0x30130182, 0x36594b14, 0x0, 0xbd3af235, 10, 0x6e10a476);
    Take(m, 62, 0x36594b14, 0x6e10a476, 0x7246fad3, 0x30130182, 0x0, 0x2ad7d2bb, 15, 0xff4ea3eb);
    Take(m, 63, 0x30130182, 0xff4ea3eb, 0x6e10a476, 0x7246fad3, 0x0, 0xeb86d391, 21, 0x14e45506);
  }

  lemma EmptyDigest()
    ensures Hash([]) ==
            [0xd4, 0x1d, 0x8c, 0xd9, 0x8f, 0x00, 0xb2, 0x04,
             0xe9, 0x80, 0x09, 0x98, 0xec, 0xf8, 0x42, 0x7e]
  {
    hide *;
    var msg: seq<bv8> := [];
    EmptyFirst();
    ShortWords(msg, 0x80);
    var m := Words(BlockOf(msg));
    EmptyRound1(m);
    EmptyRound2(m);
    EmptyRound3(m);
    EmptyRound4(m);
    DigestOf(msg, 0x7246fad3, 0x14e45506, 0xff4ea3eb, 0x6e10a476);
    EmptyBytes();
  }

  lemma EmptyFirst()
    ensures WordAt(BlockOf([]), 0) == 0x80
  {
    BlockOfShort([]);
    hide Padding, Zeros;
  }

  lemma EmptyBytes()
    ensures DigestBytes(Sum(INITIAL, Digest(0x7246fad3, 0x14e45506, 0xff4ea3eb, 0x6e10a476))) ==
            [0xd4, 0x1d, 0x8c, 0xd9, 0x8f, 0x00, 0xb2, 0x04,
             0xe9, 0x80, 0x09, 0x98, 0xec, 0xf8, 0x42, 0x7e]
  {
  }

  lemma AbcRound1(m: seq<bv32>)
    requires Short(m, 0x80636261, 24)
    ensures At(m, 16, 0xdda9b9a6, 0x72aff2e0, 0xe396856b, 0xa1051895)
  {
    Round1Constants();
    Start(m);
    hide WordOf, T, Rotation, At;
    Take(m, 0, 0x67452301, 0xefcdab89, 0x98badcfe, 0x10325476, 0x80636261, 0xd76aa478, 7, 0xd6d117b4);
    Take(m, 1, 0x10325476, 0xd6d117b4, 0xefcdab89, 0x98badcfe, 0x0, 0xe8c7b756, 12, 0x344a8432);
    Take(m, 2, 0x98badcfe, 0x344a8432, 0xd6d117b4, 0xefcdab89, 0x0, 0x242070db, 17, 0x2f6fbd72);
    Take(m, 3, 0xefcdab89, 0x2f6fbd72, 0x344a8432, 0xd6d117b4, 0x0, 0xc1bdceee, 22, 0x7ad956f2);
    Take(m, 4, 0xd6d117b4, 0x7ad956f2, 0x2f6fbd72, 0x344a8432, 0x0, 0xf57c0faf, 7, 0xc73741ef);
    Take(m, 5, 0x344a8432, 0xc73741ef, 0x7ad956f2, 0x2f6fbd72, 0x0, 0x4787c62a, 12, 0x8bac3051);
    Take(m, 6, 0x2f6fbd72, 0x8bac3051, 0xc73741ef, 0x7ad956f2, 0x0, 0xa8304613, 17, 0x207dc67b);
    Take(m, 7, 0x7ad956f2, 0x207dc67b, 0x8bac3051, 0xc73741ef, 0x0, 0xfd469501, 22, 0x928d99f6);
    Take(m, 8, 0xc73741ef, 0x928d99f6, 0x207dc67b, 0x8bac3051, 0x0, 0x698098d8, 7, 0x854b3712);
    Take(m, 9, 0x8bac3051, 0x854b3712, 0x928d99f6, 0x207dc67b, 0x0, 0x8b44f7af, 12, 0x74e2f284);
    Take(m, 10, 0x207dc67b, 0x74e2f284, 0x854b3712, 0x928d99f6, 0x0, 0xffff5bb1, 17, 0x3020401c);
    Take(m, 11, 0x928d99f6, 0x3020401c, 0x74e2f284, 0x854b3712, 0x0, 0x895cd7be, 22, 0x5ed49596);
    Take(m, 12, 0x854b3712, 0x5ed49596, 0x3020401c, 0x74e2f284, 0x0, 0x6b901122, 7, 0xdda9b9a6);
    Take(m, 13, 0x74e2f284, 0xdda9b9a6, 0x5ed49596, 0x3020401c, 0x0, 0xfd987193, 12, 0xa1051895);
    Take(m, 14, 0x3020401c, 0xa1051895, 0xdda9b9a6, 0x5ed49596, 0x18, 0xa679438e, 17, 0xe396856b);
    Take(m, 15, 0x5ed49596, 0xe396856b, 0xa1051895, 0xdda9b9a6, 0x0, 0x49b40821, 22, 0x72aff2e0);
  }

  lemma AbcRound2(m: seq<bv32>)
    requires Short(m, 0x80636261, 24) && At(m, 16, 0xdda9b9a6, 0x72aff2e0, 0xe396856b, 0xa1051895)
    ensures At(m, 32, 0x790a77fb, 0x726342d3, 0xa62884aa, 0x9f47e4f8)
  {
    Round2Constants();
    hide WordOf, T, Rotation, At;
    Take(m, 16, 0xdda9b9a6, 0x72aff2e0, 0xe396856b, 0xa1051895, 0x0, 0xf61e2562, 5, 0x3e9e9126);
    Take(m, 17, 0xa1051895, 0x3e9e9126, 0x72aff2e0, 0xe396856b, 0x0, 0xc040b340, 9, 0x4a1d804e);
    Take(m, 18, 0xe396856b, 0x4a1d804e, 0x3e9e9126, 0x72aff2e0, 0x0, 0x265e5a51, 14, 0xe25e1652);
    Take(m, 19, 0x72aff2e0, 0xe25e1652, 0x4a1d804e, 0x3e9e9126, 0x80636261, 0xe9b6c7aa, 20, 0xb5b204e4);
    Take(m, 20, 0x3e9e9126, 0xb5b204e4, 0xe25e1652, 0x4a1d804e, 0x0, 0xd62f105d, 5, 0x59a8ffda);
    Take(m, 21, 0x4a1d804e, 0x59a8ffda, 0xb5b204e4, 0xe25e1652, 0x0, 0x2441453, 9, 0x6d002f1e);
    Take(m, 22, 0xe25e1652, 0x6d002f1e, 0x59a8ffda, 0xb5b204e4, 0x0, 0xd8a1e681, 14, 0xabfc7920);
    Take(m, 23, 0xb5b204e4, 0xabfc7920, 0x6d002f1e, 0x59a8ffda, 0x0, 0xe7d3fbc8, 20, 0x47092c07);
    Take(m, 24, 0x59a8ffda, 0x47092c07, 0xabfc7920, 0x6d002f1e, 0x0, 0x21e1cde6, 5, 0xb7f268cf);
    Take(m, 25, 0x6d002f1e, 0xb7f268cf, 0x47092c07, 0xabfc7920, 0x18, 0xc33707d6, 9, 0x9388eff);
    Take(m, 26, 0xabfc7920, 0x9388eff, 0xb7f268cf, 0x47092c07, 0x0, 0xf4d50d87, 14, 0xfe1623b1);
    Take(m, 27, 0x47092c07, 0xfe1623b1, 0x9388eff, 0xb7f268cf, 0x0, 0x455a14ed, 20, 0x786acb8f);
    Take(m, 28, 0xb7f268cf, 0x786acb8f, 0xfe1623b1, 0x9388eff, 0x0, 0xa9e3e905, 5, 0x790a77fb);
    Take(m, 29, 0x9388eff, 0x790a77fb, 0x786acb8f, 0xfe1623b1, 0x0, 0xfcefa3f8, 9, 0x9f47e4f8);
    Take(m, 30, 0xfe1623b1, 0x9f47e4f8, 0x790a77fb, 0x786acb8f, 0x0, 0x676f02d9, 14, 0xa62884aa);
    Take(m, 31, 0x786acb8f, 0xa62884aa, 0x9f47e4f8, 0x790a77fb, 0x0, 0x8d2a4c8a, 20, 0x726342d3);
  }

  lemma AbcRound3(m: seq<bv32>)
    requires Short(m, 0x80636261, 24) && At(m, 32, 0x790a77fb, 0x726342d3, 0xa62884aa, 0x9f47e4f8)
    ensures At(m, 48, 0x7f2e507b, 0x7beb9700, 0x8fae6399, 0x99d9679d)
  {
    Round3Constants();
    hide WordOf, T, Rotation, At;
    Take(m, 32, 0x790a77fb, 0x726342d3, 0xa62884aa, 0x9f47e4f8, 0x0, 0xfffa3942, 4, 0xb3707ebf);
    Take(m, 33, 0x9f47e4f8, 0xb3707ebf, 0x726342d3, 0xa62884aa, 0x0, 0x8771f681, 11, 0x60127b2e);
    Take(m, 34, 0xa62884aa, 0x60127b2e, 0xb3707ebf, 0x726342d3, 0x0, 0x6d9d6122, 16, 0x8d212ff5);
    Take(m, 35, 0x726342d3, 0x8d212ff5, 0x60127b2e, 0xb3707ebf, 0x18, 0xfde5380c, 23, 0x3b0875c7);
    Take(m, 36, 0xb3707ebf, 0x3b0875c7, 0x8d212ff5, 0x60127b2e, 0x0, 0xa4beea44, 4, 0x21b117b9);
    Take(m, 37, 0x60127b2e, 0x21b117b9, 0x3b0875c7, 0x8d212ff5, 0x0, 0x4bdecfa9, 11, 0x6e7429d5);
    Take(m, 38, 0x8d212ff5, 0x6e7429d5, 0x21b117b9, 0x3b0875c7, 0x0, 0xf6bb4b60, 16, 0x3575227e);
    Take(m, 39, 0x3b0875c7, 0x3575227e, 0x6e7429d5, 0x21b117b9, 0x0, 0xbebfbc70, 23, 0x5a2f5ea5);
    Take(m, 40, 0x21b117b9, 0x5a2f5ea5, 0x3575227e, 0x6e7429d5, 0x0, 0x289b7ec6, 4, 0x11de1779);
    Take(m, 41, 0x6e7429d5, 0x11de1779, 0x5a2f5ea5, 0x3575227e, 0x80636261, 0xeaa127fa, 11, 0xfadcaa38);
    Take(m, 42, 0x3575227e, 0xfadcaa38, 0x11de1779, 0x5a2f5ea5, 0x0, 0xd4ef3085, 16, 0x31c465ca);
    Take(m, 43, 0x5a2f5ea5, 0x31c465ca, 0xfadcaa38, 0x11de1779, 0x0, 0x4881d05, 23, 0x4c6124f4);
    Take(m, 44, 0x11de1779, 0x4c6124f4, 0x31c465ca, 0xfadcaa38, 0x0, 0xd9d4d039, 4, 0x7f2e507b);
    Take(m, 45, 0xfadcaa38, 0x7f2e507b, 0x4c6124f4, 0x31c465ca, 0x0, 0xe6db99e5, 11, 0x99d9679d);
    Take(m, 46, 0x31c465ca, 0x99d9679d, 0x7f2e507b, 0x4c6124f4, 0x0, 0x1fa27cf8, 16, 0x8fae6399);
    Take(m, 47, 0x4c6124f4, 0x8fae6399, 0x99d9679d, 0x7f2e507b, 0x0, 0xc4ac5665, 23, 0x7beb9700);
  }

  lemma AbcRound4(m: seq<bv32>)
    requires Short(m, 0x80636261, 24) && At(m, 48, 0x7f2e507b, 0x7beb9700, 0x8fae6399, 0x99d9679d)
    ensures At(m, 64, 0x310ade8f, 0xc08226b3, 0xe484b9d8, 0x624d8cb2)
  {
    Round4Constants();
    hide WordOf, T, Rotation, At;
    Take(m, 48, 0x7f2e507b, 0x7beb9700, 0x8fae6399, 0x99d9679d, 0x80636261, 0xf4292244, 6, 0x7b201df8);
    Take(m, 49, 0x99d9679d, 0x7b201df8, 0x7beb9700, 0x8fae6399, 0x0, 0x432aff97, 10, 0xf4e8e96e);
    Take(m, 50, 0x8fae6399, 0xf4e8e96e, 0x7b201df8, 0x7beb9700, 0x18, 0xab9423a7, 15, 0xb298cefd);
    Take(m, 51, 0x7beb9700, 0xb298cefd, 0xf4e8e96e, 0x7b201df8, 0x0, 0xfc93a039, 21, 0x8bf025c4);
    Take(m, 52, 0x7b201df8, 0x8bf025c4, 0xb298cefd, 0xf4e8e96e, 0x0, 0x655b59c3, 6, 0x6cc5e8a);
    Take(m, 53, 0xf4e8e96e, 0x6cc5e8a, 0x8bf025c4, 0xb298cefd, 0x0, 0x8f0ccc92, 10, 0x5b0d97aa);
    Take(m, 54, 0xb298cefd, 0x5b0d97aa, 0x6cc5e8a, 0x8bf025c4, 0x0, 0xffeff47d, 15, 0x7d632dd0);
    Take(m, 55, 0x8bf025c4, 0x7d632dd0, 0x5b0d97aa, 0x6cc5e8a, 0x0, 0x85845dd1, 21, 0x3bfa2c27);
    Take(m, 56, 0x6cc5e8a, 0x3bfa2c27, 0x7d632dd0, 0x5b0d97aa, 0x0, 0x6fa87e4f, 6, 0x7f81cc35);
    Take(m, 57, 0x5b0d97aa, 0x7f81cc35, 0x3bfa2c27, 0x7d632dd0, 0x0, 0xfe2ce6e0, 10, 0x94454ab);
    Take(m, 58, 0x7d632dd0, 0x94454ab, 0x7f81cc35, 0x3bfa2c27, 0x0, 0xa3014314, 15, 0x4f9dbe3f);
    Take(m, 59, 0x3bfa2c27, 0x4f9dbe3f, 0x94454ab, 0x7f81cc35, 0x0, 0x4e0811a1, 21, 0x7327d604);
    Take(m, 60, 0x7f81cc35, 0x7327d604, 0x4f9dbe3f, 0x94454ab, 0x0, 0xf7537e82, 6, 0x310ade8f);
    Take(m, 61, 0x94454ab, 0x310ade8f, 0x7327d604, 0x4f9dbe3f, 0x0, 0xbd3af235, 10, 0x624d8cb2);
    Take(m, 62, 0x4f9dbe3f, 0x624d8cb2, 0x310ade8f, 0x7327d604, 0x0, 0x2ad7d2bb, 15, 0xe484b9d8);
    Take(m, 63, 0x7327d604, 0xe484b9d8, 0x624d8cb2, 0x310ade8f, 0x0, 0xeb86d391, 21, 0xc08226b3);
  }

  lemma AbcDigest()
    ensures Hash([0x61, 0x62, 0x63]) ==
            [0x90, 0x01, 0x50, 0x98, 0x3c, 0xd2, 0x4f, 0xb0,
             0xd6, 0x96, 0x3f, 0x7d, 0x28, 0xe1, 0x7f, 0x72]
  {
    hide *;
    var msg: seq<bv8> := [0x61, 0x62, 0x63];
    AbcFirst();
    ShortWords(msg, 0x80636261);
    var m := Words(BlockOf(msg));
    AbcRound1(m);
    AbcRound2(m);
    AbcRound3(m);
    AbcRound4(m);
    DigestOf(msg, 0x310ade8f, 0xc08226b3, 0xe484b9d8, 0x624d8cb2);
    AbcBytes();
  }

  lemma AbcFirst()
    ensures WordAt(BlockOf([0x61, 0x62, 0x63]), 0) == 0x80636261
  {
    BlockOfShort([0x61, 0x62, 0x63]);
    hide Padding, Zeros;
  }

  lemma AbcBytes()
    ensures DigestBytes(Sum(INITIAL, Digest(0x310ade8f, 0xc08226b3, 0xe484b9d8, 0x624d8cb2))) ==
            [0x90, 0x01, 0x50, 0x98, 0x3c, 0xd2, 0x4f, 0xb0,
             0xd6, 0x96, 0x3f, 0x7d, 0x28, 0xe1, 0x7f, 0x72]
  {
  }

  lemma Start(m: seq<bv32>)
    requires |m| == 16
    ensures At(m, 0, 0x67452301, 0xefcdab89, 0x98badcfe, 0x10325476)
  {
  }
}
