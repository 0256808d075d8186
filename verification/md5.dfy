/** The MD5 digest of RFC 1321, and the code's transformation of one block. */
module Md5 {
  import opened Basics
  import opened BlockHash

  // ---------------------------------------------------------------- RFC 1321, section 3.4

  datatype Digest = Digest(a: bv32, b: bv32, c: bv32, d: bv32)

  const INITIAL := Digest(0x67452301, 0xefcdab89, 0x98badcfe, 0x10325476)

  function RotateLeft(w: bv32, s: nat): bv32
    requires s <= 32
  {
    (w << s) | (w >> (32 - s))
  }

  function F(x: bv32, y: bv32, z: bv32): bv32 { (x & y) | (!x & z) }
  function G(x: bv32, y: bv32, z: bv32): bv32 { (x & z) | (y & !z) }
  function H(x: bv32, y: bv32, z: bv32): bv32 { x ^ y ^ z }
  function I(x: bv32, y: bv32, z: bv32): bv32 { y ^ (x | !z) }

  /** The auxiliary function of step i. */
  function Auxiliary(i: nat, x: bv32, y: bv32, z: bv32): bv32
    requires i < 64
  {
    if i < 16 then F(x, y, z)
    else if i < 32 then G(x, y, z)
    else if i < 48 then H(x, y, z)
    else I(x, y, z)
  }

  /** What a step makes of its word w: w + f + data + t, rotated left by s, plus x. */
  function CentralStep(f: bv32, w: bv32, x: bv32, data: bv32, t: nat, s: nat): bv32
    requires t < TWO32 && s <= 32
  {
    RotateLeft(w + f + (data + t as bv32), s) + x
  }

  /** Which word of the block step i adds. */
  function WordOf(i: nat): (k: nat)
    requires i < 64
    ensures k < 16
  {
    if i < 16 then i
    else if i < 32 then (5 * i + 1) % 16
    else if i < 48 then (3 * i + 5) % 16
    else 7 * i % 16
  }

  /** How far step i rotates. */
  function Rotation(i: nat): (s: nat)
    requires i < 64
    ensures s <= 32
  {
    var k := i % 4;
    if i < 16 then (if k == 0 then 7 else if k == 1 then 12 else if k == 2 then 17 else 22)
    else if i < 32 then (if k == 0 then 5 else if k == 1 then 9 else if k == 2 then 14 else 20)
    else if i < 48 then (if k == 0 then 4 else if k == 1 then 11 else if k == 2 then 16 else 23)
    else (if k == 0 then 6 else if k == 1 then 10 else if k == 2 then 15 else 21)
  }

  // The table T, sixteen entries a round: the integer part of 2^32 times abs(sin(i + 1)).
  function T1(i: nat): (t: nat)
    requires i < 16
    ensures t < TWO32
  {
    match i
    case 0 => 0xd76aa478 case 1 => 0xe8c7b756 case 2 => 0x242070db case 3 => 0xc1bdceee
    case 4 => 0xf57c0faf case 5 => 0x4787c62a case 6 => 0xa8304613 case 7 => 0xfd469501
    case 8 => 0x698098d8 case 9 => 0x8b44f7af case 10 => 0xffff5bb1 case 11 => 0x895cd7be
    case 12 => 0x6b901122 case 13 => 0xfd987193 case 14 => 0xa679438e case _ => 0x49b40821
  }

  function T2(i: nat): (t: nat)
    requires i < 16
    ensures t < TWO32
  {
    match i
    case 0 => 0xf61e2562 case 1 => 0xc040b340 case 2 => 0x265e5a51 case 3 => 0xe9b6c7aa
    case 4 => 0xd62f105d case 5 => 0x02441453 case 6 => 0xd8a1e681 case 7 => 0xe7d3fbc8
    case 8 => 0x21e1cde6 case 9 => 0xc33707d6 case 10 => 0xf4d50d87 case 11 => 0x455a14ed
    case 12 => 0xa9e3e905 case 13 => 0xfcefa3f8 case 14 => 0x676f02d9 case _ => 0x8d2a4c8a
  }

  function T3(i: nat): (t: nat)
    requires i < 16
    ensures t < TWO32
  {
    match i
    case 0 => 0xfffa3942 case 1 => 0x8771f681 case 2 => 0x6d9d6122 case 3 => 0xfde5380c
    case 4 => 0xa4beea44 case 5 => 0x4bdecfa9 case 6 => 0xf6bb4b60 case 7 => 0xbebfbc70
    case 8 => 0x289b7ec6 case 9 => 0xeaa127fa case 10 => 0xd4ef3085 case 11 => 0x04881d05
    case 12 => 0xd9d4d039 case 13 => 0xe6db99e5 case 14 => 0x1fa27cf8 case _ => 0xc4ac5665
  }

  function T4(i: nat): (t: nat)
    requires i < 16
    ensures t < TWO32
  {
    match i
    case 0 => 0xf4292244 case 1 => 0x432aff97 case 2 => 0xab9423a7 case 3 => 0xfc93a039
    case 4 => 0x655b59c3 case 5 => 0x8f0ccc92 case 6 => 0xffeff47d case 7 => 0x85845dd1
    case 8 => 0x6fa87e4f case 9 => 0xfe2ce6e0 case 10 => 0xa3014314 case 11 => 0x4e0811a1
    case 12 => 0xf7537e82 case 13 => 0xbd3af235 case 14 => 0x2ad7d2bb case _ => 0xeb86d391
  }

  function T(i: nat): (t: nat)
    requires i < 64
    ensures t < TWO32
  {
    if i < 16 then T1(i) else if i < 32 then T2(i - 16) else if i < 48 then T3(i - 32) else T4(i - 48)
  }

  lemma Round1Constants()
    ensures T(0) == 0xd76aa478 && T(1) == 0xe8c7b756 && T(2) == 0x242070db && T(3) == 0xc1bdceee
    ensures T(4) == 0xf57c0faf && T(5) == 0x4787c62a && T(6) == 0xa8304613 && T(7) == 0xfd469501
    ensures T(8) == 0x698098d8 && T(9) == 0x8b44f7af && T(10) == 0xffff5bb1 && T(11) == 0x895cd7be
    ensures T(12) == 0x6b901122 && T(13) == 0xfd987193 && T(14) == 0xa679438e && T(15) == 0x49b40821
    ensures WordOf(0) == 0 && WordOf(1) == 1 && WordOf(2) == 2 && WordOf(3) == 3
    ensures WordOf(4) == 4 && WordOf(5) == 5 && WordOf(6) == 6 && WordOf(7) == 7
    ensures WordOf(8) == 8 && WordOf(9) == 9 && WordOf(10) == 10 && WordOf(11) == 11
    ensures WordOf(12) == 12 && WordOf(13) == 13 && WordOf(14) == 14 && WordOf(15) == 15
    ensures Rotation(0) == 7 && Rotation(1) == 12 && Rotation(2) == 17 && Rotation(3) == 22
    ensures Rotation(4) == 7 && Rotation(5) == 12 && Rotation(6) == 17 && Rotation(7) == 22
    ensures Rotation(8) == 7 && Rotation(9) == 12 && Rotation(10) == 17 && Rotation(11) == 22
    ensures Rotation(12) == 7 && Rotation(13) == 12 && Rotation(14) == 17 && Rotation(15) == 22
  {
  }

  lemma Round2Constants()
    ensures T(16) == 0xf61e2562 && T(17) == 0xc040b340 && T(18) == 0x265e5a51 && T(19) == 0xe9b6c7aa
    ensures T(20) == 0xd62f105d && T(21) == 0x02441453 && T(22) == 0xd8a1e681 && T(23) == 0xe7d3fbc8
    ensures T(24) == 0x21e1cde6 && T(25) == 0xc33707d6 && T(26) == 0xf4d50d87 && T(27) == 0x455a14ed
    ensures T(28) == 0xa9e3e905 && T(29) == 0xfcefa3f8 && T(30) == 0x676f02d9 && T(31) == 0x8d2a4c8a
    ensures WordOf(16) == 1 && WordOf(17) == 6 && WordOf(18) == 11 && WordOf(19) == 0
    ensures WordOf(20) == 5 && WordOf(21) == 10 && WordOf(22) == 15 && WordOf(23) == 4
    ensures WordOf(24) == 9 && WordOf(25) == 14 && WordOf(26) == 3 && WordOf(27) == 8
    ensures WordOf(28) == 13 && WordOf(29) == 2 && WordOf(30) == 7 && WordOf(31) == 12
    ensures Rotation(16) == 5 && Rotation(17) == 9 && Rotation(18) == 14 && Rotation(19) == 20
    ensures Rotation(20) == 5 && Rotation(21) == 9 && Rotation(22) == 14 && Rotation(23) == 20
    ensures Rotation(24) == 5 && Rotation(25) == 9 && Rotation(26) == 14 && Rotation(27) == 20
    ensures Rotation(28) == 5 && Rotation(29) == 9 && Rotation(30) == 14 && Rotation(31) == 20
  {
  }

  lemma Round3Constants()
    ensures T(32) == 0xfffa3942 && T(33) == 0x8771f681 && T(34) == 0x6d9d6122 && T(35) == 0xfde5380c
    ensures T(36) == 0xa4beea44 && T(37) == 0x4bdecfa9 && T(38) == 0xf6bb4b60 && T(39) == 0xbebfbc70
    ensures T(40) == 0x289b7ec6 && T(41) == 0xeaa127fa && T(42) == 0xd4ef3085 && T(43) == 0x04881d05
    ensures T(44) == 0xd9d4d039 && T(45) == 0xe6db99e5 && T(46) == 0x1fa27cf8 && T(47) == 0xc4ac5665
    ensures WordOf(32) == 5 && WordOf(33) == 8 && WordOf(34) == 11 && WordOf(35) == 14
    ensures WordOf(36) == 1 && WordOf(37) == 4 && WordOf(38) == 7 && WordOf(39) == 10
    ensures WordOf(40) == 13 && WordOf(41) == 0 && WordOf(42) == 3 && WordOf(43) == 6
    ensures WordOf(44) == 9 && WordOf(45) == 12 && WordOf(46) == 15 && WordOf(47) == 2
    ensures Rotation(32) == 4 && Rotation(33) == 11 && Rotation(34) == 16 && Rotation(35) == 23
    ensures Rotation(36) == 4 && Rotation(37) == 11 && Rotation(38) == 16 && Rotation(39) == 23
    ensures Rotation(40) == 4 && Rotation(41) == 11 && Rotation(42) == 16 && Rotation(43) == 23
    ensures Rotation(44) == 4 && Rotation(45) == 11 && Rotation(46) == 16 && Rotation(47) == 23
  {
  }

  lemma Round4Constants()
    ensures T(48) == 0xf4292244 && T(49) == 0x432aff97 && T(50) == 0xab9423a7 && T(51) == 0xfc93a039
    ensures T(52) == 0x655b59c3 && T(53) == 0x8f0ccc92 && T(54) == 0xffeff47d && T(55) == 0x85845dd1
    ensures T(56) == 0x6fa87e4f && T(57) == 0xfe2ce6e0 && T(58) == 0xa3014314 && T(59) == 0x4e0811a1
    ensures T(60) == 0xf7537e82 && T(61) == 0xbd3af235 && T(62) == 0x2ad7d2bb && T(63) == 0xeb86d391
    ensures WordOf(48) == 0 && WordOf(49) == 7 && WordOf(50) == 14 && WordOf(51) == 5
    ensures WordOf(52) == 12 && WordOf(53) == 3 && WordOf(54) == 10 && WordOf(55) == 1
    ensures WordOf(56) == 8 && WordOf(57) == 15 && WordOf(58) == 6 && WordOf(59) == 13
    ensures WordOf(60) == 4 && WordOf(61) == 11 && WordOf(62) == 2 && WordOf(63) == 9
    ensures Rotation(48) == 6 && Rotation(49) == 10 && Rotation(50) == 15 && Rotation(51) == 21
    ensures Rotation(52) == 6 && Rotation(53) == 10 && Rotation(54) == 15 && Rotation(55) == 21
    ensures Rotation(56) == 6 && Rotation(57) == 10 && Rotation(58) == 15 && Rotation(59) == 21
    ensures Rotation(60) == 6 && Rotation(61) == 10 && Rotation(62) == 15 && Rotation(63) == 21
  {
  }

  /** One of the 64 steps: the word a takes the central step; then the four words turn. */
  function OneStep(v: Digest, m: seq<bv32>, i: nat): Digest
    requires |m| == 16 && i < 64
  {
    var f := Auxiliary(i, v.b, v.c, v.d);
    Digest(v.d, CentralStep(f, v.a, v.b, m[WordOf(i)], T(i), Rotation(i)), v.b, v.c)
  }

  function Steps(v: Digest, m: seq<bv32>, lo: nat, hi: nat): Digest
    requires |m| == 16 && lo <= hi <= 64
  {
    if lo == hi then v else OneStep(Steps(v, m, lo, hi - 1), m, hi - 1)
  }

  /** The digest after one more block: the 64 steps, then the old words added. */
  function AfterBlock(v: Digest, m: seq<bv32>): Digest
    requires |m| == 16
  {
    Sum(v, Steps(v, m, 0, 64))
  }

  function Sum(v: Digest, w: Digest): Digest {
    Digest(v.a + w.a, v.b + w.b, v.c + w.c, v.d + w.d)
  }

  lemma {:induction false} StepsJoin(v: Digest, m: seq<bv32>, lo: nat, mid: nat, hi: nat)
    requires |m| == 16 && lo <= mid <= hi <= 64
    ensures Steps(Steps(v, m, lo, mid), m, mid, hi) == Steps(v, m, lo, hi)
  {
    if mid < hi {
      StepsJoin(v, m, lo, mid, hi - 1);
    }
  }

  lemma FourSteps(v: Digest, m: seq<bv32>, lo: nat, i: nat)
    requires |m| == 16 && lo <= i && i + 4 <= 64
    ensures Steps(v, m, lo, i + 4)
         == OneStep(OneStep(OneStep(OneStep(Steps(v, m, lo, i), m, i), m, i + 1), m, i + 2), m, i + 3)
  {
    hide OneStep;
    assert Steps(v, m, lo, i + 1) == OneStep(Steps(v, m, lo, i), m, i);
    assert Steps(v, m, lo, i + 2) == OneStep(Steps(v, m, lo, i + 1), m, i + 1);
    assert Steps(v, m, lo, i + 3) == OneStep(Steps(v, m, lo, i + 2), m, i + 2);
  }

  // ---------------------------------------------------------------- MD5Transform

  /** The code's first function, one operation shorter than the standard's. */
  function F1(x: bv32, y: bv32, z: bv32): (r: bv32)
    ensures r == F(x, y, z)
  {
    Selects(x, y, z);
    z ^ (x & (y ^ z))
  }

  /** Bit for bit, x chooses between y and z. */
  lemma Selects(x: bv32, y: bv32, z: bv32)
    ensures z ^ (x & (y ^ z)) == (x & y) | (!x & z)
  {
  }

  /** The second is the first with its arguments turned. */
  function F2(x: bv32, y: bv32, z: bv32): (r: bv32)
    ensures r == G(x, y, z)
  {
    F1(z, x, y)
  }

  function F3(x: bv32, y: bv32, z: bv32): (r: bv32)
    ensures r == H(x, y, z)
  {
    x ^ y ^ z
  }

  function F4(x: bv32, y: bv32, z: bv32): (r: bv32)
    ensures r == I(x, y, z)
  {
    y ^ (x | !z)
  }

  /** Round 1: steps 0 to 15 written out, with the roles of the four words turning. */
  method Round1(v: Digest, m: seq<bv32>) returns (r: Digest)
    requires |m| == 16
    ensures r == Steps(v, m, 0, 16)
  {
    hide F, G, H, I, F1, F2, F3, F4, CentralStep, T, WordOf, Rotation;
    Round1Constants();
    var a, b, c, d := v.a, v.b, v.c, v.d;
    a := CentralStep(F1(b, c, d), a, b, m[0], 0xd76aa478, 7);
    d := CentralStep(F1(a, b, c), d, a, m[1], 0xe8c7b756, 12);
    c := CentralStep(F1(d, a, b), c, d, m[2], 0x242070db, 17);
    b := CentralStep(F1(c, d, a), b, c, m[3], 0xc1bdceee, 22);
    FourSteps(v, m, 0, 0);
    assert Steps(v, m, 0, 4) == Digest(a, b, c, d);
    a := CentralStep(F1(b, c, d), a, b, m[4], 0xf57c0faf, 7);
    d := CentralStep(F1(a, b, c), d, a, m[5], 0x4787c62a, 12);
    c := CentralStep(F1(d, a, b), c, d, m[6], 0xa8304613, 17);
    b := CentralStep(F1(c, d, a), b, c, m[7], 0xfd469501, 22);
    FourSteps(v, m, 0, 4);
    assert Steps(v, m, 0, 8) == Digest(a, b, c, d);
    a := CentralStep(F1(b, c, d), a, b, m[8], 0x698098d8, 7);
    d := CentralStep(F1(a, b, c), d, a, m[9], 0x8b44f7af, 12);
    c := CentralStep(F1(d, a, b), c, d, m[10], 0xffff5bb1, 17);
    b := CentralStep(F1(c, d, a), b, c, m[11], 0x895cd7be, 22);
    FourSteps(v, m, 0, 8);
    assert Steps(v, m, 0, 12) == Digest(a, b, c, d);
    a := CentralStep(F1(b, c, d), a, b, m[12], 0x6b901122, 7);
    d := CentralStep(F1(a, b, c), d, a, m[13], 0xfd987193, 12);
    c := CentralStep(F1(d, a, b), c, d, m[14], 0xa679438e, 17);
    b := CentralStep(F1(c, d, a), b, c, m[15], 0x49b40821, 22);
    FourSteps(v, m, 0, 12);
    assert Steps(v, m, 0, 16) == Digest(a, b, c, d);
    r := Digest(a, b, c, d);
  }

  /** Round 2: steps 16 to 31 written out, with the roles of the four words turning. */
  method Round2(v: Digest, m: seq<bv32>) returns (r: Digest)
    requires |m| == 16
    ensures r == Steps(v, m, 16, 32)
  {
    hide F, G, H, I, F1, F2, F3, F4, CentralStep, T, WordOf, Rotation;
    Round2Constants();
    var a, b, c, d := v.a, v.b, v.c, v.d;
    a := CentralStep(F2(b, c, d), a, b, m[1], 0xf61e2562, 5);
    d := CentralStep(F2(a, b, c), d, a, m[6], 0xc040b340, 9);
    c := CentralStep(F2(d, a, b), c, d, m[11], 0x265e5a51, 14);
    b := CentralStep(F2(c, d, a), b, c, m[0], 0xe9b6c7aa, 20);
    FourSteps(v, m, 16, 16);
    assert Steps(v, m, 16, 20) == Digest(a, b, c, d);
    a := CentralStep(F2(b, c, d), a, b, m[5], 0xd62f105d, 5);
    d := CentralStep(F2(a, b, c), d, a, m[10], 0x02441453, 9);
    c := CentralStep(F2(d, a, b), c, d, m[15], 0xd8a1e681, 14);
    b := CentralStep(F2(c, d, a), b, c, m[4], 0xe7d3fbc8, 20);
    FourSteps(v, m, 16, 20);
    assert Steps(v, m, 16, 24) == Digest(a, b, c, d);
    a := CentralStep(F2(b, c, d), a, b, m[9], 0x21e1cde6, 5);
    d := CentralStep(F2(a, b, c), d, a, m[14], 0xc33707d6, 9);
    c := CentralStep(F2(d, a, b), c, d, m[3], 0xf4d50d87, 14);
    b := CentralStep(F2(c, d, a), b, c, m[8], 0x455a14ed, 20);
    FourSteps(v, m, 16, 24);
    assert Steps(v, m, 16, 28) == Digest(a, b, c, d);
    a := CentralStep(F2(b, c, d), a, b, m[13], 0xa9e3e905, 5);
    d := CentralStep(F2(a, b, c), d, a, m[2], 0xfcefa3f8, 9);
    c := CentralStep(F2(d, a, b), c, d, m[7], 0x676f02d9, 14);
    b := CentralStep(F2(c, d, a), b, c, m[12], 0x8d2a4c8a, 20);
    FourSteps(v, m, 16, 28);
    assert Steps(v, m, 16, 32) == Digest(a, b, c, d);
    r := Digest(a, b, c, d);
  }

  /** Round 3: steps 32 to 47 written out, with the roles of the four words turning. */
  method Round3(v: Digest, m: seq<bv32>) returns (r: Digest)
    requires |m| == 16
    ensures r == Steps(v, m, 32, 48)
  {
    hide F, G, H, I, F1, F2, F3, F4, CentralStep, T, WordOf, Rotation;
    Round3Constants();
    var a, b, c, d := v.a, v.b, v.c, v.d;
    a := CentralStep(F3(b, c, d), a, b, m[5], 0xfffa3942, 4);
    d := CentralStep(F3(a, b, c), d, a, m[8], 0x8771f681, 11);
    c := CentralStep(F3(d, a, b), c, d, m[11], 0x6d9d6122, 16);
    b := CentralStep(F3(c, d, a), b, c, m[14], 0xfde5380c, 23);
    FourSteps(v, m, 32, 32);
    assert Steps(v, m, 32, 36) == Digest(a, b, c, d);
    a := CentralStep(F3(b, c, d), a, b, m[1], 0xa4beea44, 4);
    d := CentralStep(F3(a, b, c), d, a, m[4], 0x4bdecfa9, 11);
    c := CentralStep(F3(d, a, b), c, d, m[7], 0xf6bb4b60, 16);
    b := CentralStep(F3(c, d, a), b, c, m[10], 0xbebfbc70, 23);
    FourSteps(v, m, 32, 36);
    assert Steps(v, m, 32, 40) == Digest(a, b, c, d);
    a := CentralStep(F3(b, c, d), a, b, m[13], 0x289b7ec6, 4);
    d := CentralStep(F3(a, b, c), d, a, m[0], 0xeaa127fa, 11);
    c := CentralStep(F3(d, a, b), c, d, m[3], 0xd4ef3085, 16);
    b := CentralStep(F3(c, d, a), b, c, m[6], 0x04881d05, 23);
    FourSteps(v, m, 32, 40);
    assert Steps(v, m, 32, 44) == Digest(a, b, c, d);
    a := CentralStep(F3(b, c, d), a, b, m[9], 0xd9d4d039, 4);
    d := CentralStep(F3(a, b, c), d, a, m[12], 0xe6db99e5, 11);
    c := CentralStep(F3(d, a, b), c, d, m[15], 0x1fa27cf8, 16);
    b := CentralStep(F3(c, d, a), b, c, m[2], 0xc4ac5665, 23);
    FourSteps(v, m, 32, 44);
    assert Steps(v, m, 32, 48) == Digest(a, b, c, d);
    r := Digest(a, b, c, d);
  }

  /** Round 4: steps 48 to 63 written out, with the roles of the four words turning. */
  method Round4(v: Digest, m: seq<bv32>) returns (r: Digest)
    requires |m| == 16
    ensures r == Steps(v, m, 48, 64)
  {
    hide F, G, H, I, F1, F2, F3, F4, CentralStep, T, WordOf, Rotation;
    Round4Constants();
    var a, b, c, d := v.a, v.b, v.c, v.d;
    a := CentralStep(F4(b, c, d), a, b, m[0], 0xf4292244, 6);
    d := CentralStep(F4(a, b, c), d, a, m[7], 0x432aff97, 10);
    c := CentralStep(F4(d, a, b), c, d, m[14], 0xab9423a7, 15);
    b := CentralStep(F4(c, d, a), b, c, m[5], 0xfc93a039, 21);
    FourSteps(v, m, 48, 48);
    assert Steps(v, m, 48, 52) == Digest(a, b, c, d);
    a := CentralStep(F4(b, c, d), a, b, m[12], 0x655b59c3, 6);
    d := CentralStep(F4(a, b, c), d, a, m[3], 0x8f0ccc92, 10);
    c := CentralStep(F4(d, a, b), c, d, m[10], 0xffeff47d, 15);
    b := CentralStep(F4(c, d, a), b, c, m[1], 0x85845dd1, 21);
    FourSteps(v, m, 48, 52);
    assert Steps(v, m, 48, 56) == Digest(a, b, c, d);
    a := CentralStep(F4(b, c, d), a, b, m[8], 0x6fa87e4f, 6);
    d := CentralStep(F4(a, b, c), d, a, m[15], 0xfe2ce6e0, 10);
    c := CentralStep(F4(d, a, b), c, d, m[6], 0xa3014314, 15);
    b := CentralStep(F4(c, d, a), b, c, m[13], 0x4e0811a1, 21);
    FourSteps(v, m, 48, 56);
    assert Steps(v, m, 48, 60) == Digest(a, b, c, d);
    a := CentralStep(F4(b, c, d), a, b, m[4], 0xf7537e82, 6);
    d := CentralStep(F4(a, b, c), d, a, m[11], 0xbd3af235, 10);
    c := CentralStep(F4(d, a, b), c, d, m[2], 0x2ad7d2bb, 15);
    b := CentralStep(F4(c, d, a), b, c, m[9], 0xeb86d391, 21);
    FourSteps(v, m, 48, 60);
    assert Steps(v, m, 48, 64) == Digest(a, b, c, d);
    r := Digest(a, b, c, d);
  }

  /** MD5Transform: the four words of the digest take in the sixteen words of a block. */
  method Transform(v: Digest, m: seq<bv32>) returns (r: Digest)
    requires |m| == 16
    ensures r == AfterBlock(v, m)
  {
    hide Steps, Sum;
    var w := Round1(v, m);
    w := Round2(w, m);
    w := Round3(w, m);
    w := Round4(w, m);
    StepsJoin(v, m, 0, 16, 32);
    StepsJoin(v, m, 0, 32, 48);
    StepsJoin(v, m, 0, 48, 64);
    r := Sum(v, w);
  }

  // ---------------------------------------------------------------- RFC 1321, sections 3.1 to 3.5

  function WordAt(block: seq<bv8>, i: nat): bv32
    requires |block| == 64 && i < 16
  {
    (block[4 * i] as bv32) | (block[4 * i + 1] as bv32 << 8)
    | (block[4 * i + 2] as bv32 << 16) | (block[4 * i + 3] as bv32 << 24)
  }

  /** The sixteen words of a block, low bytes first. */
  function Words(block: seq<bv8>): (m: seq<bv32>)
    requires |block| == 64
    ensures |m| == 16
  {
    seq(16, i requires 0 <= i < 16 => WordAt(block, i))
  }

  function Compress(v: Digest, block: seq<bv8>): Digest {
    if |block| == 64 then AfterBlock(v, Words(block)) else v
  }

  const TWO64 := 0x1_0000_0000_0000_0000

  /** A one bit, zero bits up to 56 bytes modulo 64, and the length in bits modulo 2^64. */
  function Padding(n: nat): (p: seq<bv8>)
    ensures (n + |p|) % 64 == 0
  {
    EndsOnBlock(n);
    [0x80] + Zeros((119 - n % 64) % 64) + LittleEndian(8 * n % TWO64, 8)
  }

  function WordBytes(w: bv32): (bs: seq<bv8>)
    ensures |bs| == 4
  {
    [(w & 0xff) as bv8, ((w >> 8) & 0xff) as bv8, ((w >> 16) & 0xff) as bv8, ((w >> 24) & 0xff) as bv8]
  }

  function DigestBytes(d: Digest): (bs: seq<bv8>)
    ensures |bs| == 16
  {
    WordBytes(d.a) + WordBytes(d.b) + WordBytes(d.c) + WordBytes(d.d)
  }

  /** The digest of a message. */
  function Hash(msg: seq<bv8>): (bs: seq<bv8>)
    ensures |bs| == 16
  {
    DigestBytes(Fold(Compress, INITIAL, msg + Padding(|msg|)))
  }
}
