/** Bytes as elements of GF(2^8), words of four bytes, and the substitution tables of the cipher. */
module AesField {

  // ---------------------------------------------------------------- addition and multiplication
  // (FIPS 197, sections 4.1 and 4.2)

  /** Addition is exclusive or. */
  function Add(a: bv8, b: bv8): bv8 { a ^ b }

  function Add4(a: bv8, b: bv8, c: bv8, d: bv8): bv8 { Add(Add(a, b), Add(c, d)) }

  lemma AddUndone(a: bv8, b: bv8)
    ensures Add(Add(a, b), b) == a && Add(Add(b, a), b) == a
  {
  }

  lemma AddZero(a: bv8)
    ensures Add(a, 0) == a && Add(0, a) == a
  {
  }

  lemma AddCommutes(a: bv8, b: bv8)
    ensures Add(a, b) == Add(b, a)
  {
  }

  lemma AddAssociates(a: bv8, b: bv8, c: bv8)
    ensures Add(Add(a, b), c) == Add(a, Add(b, c))
  {
  }

  lemma AddPairs(a: bv8, b: bv8, c: bv8, d: bv8)
    ensures Add(Add(a, b), Add(c, d)) == Add(Add(a, c), Add(b, d))
  {
    hide Add;
    AddAssociates(a, b, Add(c, d));
    AddAssociates(b, c, d);
    AddCommutes(b, c);
    AddAssociates(c, b, d);
    AddAssociates(a, c, Add(b, d));
  }

  lemma Add4Pairs(a: bv8, b: bv8, c: bv8, d: bv8, e: bv8, f: bv8, g: bv8, h: bv8)
    ensures Add4(Add(a, e), Add(b, f), Add(c, g), Add(d, h)) == Add(Add4(a, b, c, d), Add4(e, f, g, h))
  {
    hide Add;
    AddPairs(a, e, b, f);
    AddPairs(c, g, d, h);
    AddPairs(Add(a, b), Add(e, f), Add(c, d), Add(g, h));
  }

  lemma Add4Turns(a: bv8, b: bv8, c: bv8, d: bv8)
    ensures Add4(a, b, c, d) == Add4(d, a, b, c)
  {
    hide Add;
    AddCommutes(Add(a, b), Add(c, d));
    AddCommutes(c, d);
    AddAssociates(d, c, Add(a, b));
    AddCommutes(c, Add(a, b));
    AddAssociates(a, b, c);
    AddAssociates(d, a, Add(b, c));
  }

  /** Multiplication by x, modulo x^8 + x^4 + x^3 + x + 1. */
  function XTime(a: bv8): bv8 { Add(a << 1, Carry(a)) }

  function Carry(a: bv8): bv8 { if a & 0x80 == 0 then 0 else 0x1b }

  function Mul2(a: bv8): bv8 { XTime(a) }
  function Mul3(a: bv8): bv8 { Add(XTime(a), a) }
  function Mul4(a: bv8): bv8 { XTime(XTime(a)) }
  function Mul8(a: bv8): bv8 { XTime(XTime(XTime(a))) }
  function Mul9(a: bv8): bv8 { Add(Mul8(a), a) }
  function Mul11(a: bv8): bv8 { Add(Mul8(a), Mul3(a)) }
  function Mul13(a: bv8): bv8 { Add(Mul9(a), Mul4(a)) }
  function Mul14(a: bv8): bv8 { Add(Mul8(a), Add(Mul4(a), Mul2(a))) }

  lemma ShiftOfXor(a: bv8, b: bv8)
    ensures (a ^ b) << 1 == (a << 1) ^ (b << 1)
  {
  }

  lemma HighBitOfXor(a: bv8, b: bv8)
    ensures (a ^ b) & 0x80 == (a & 0x80) ^ (b & 0x80)
    ensures a & 0x80 == 0 || a & 0x80 == 0x80
  {
  }

  lemma CarryIsLinear(a: bv8, b: bv8)
    ensures Carry(Add(a, b)) == Add(Carry(a), Carry(b))
  {
    HighBitOfXor(a, b);
    HighBitOfXor(b, a);
  }

  lemma XTimeIsLinear(a: bv8, b: bv8)
    ensures XTime(Add(a, b)) == Add(XTime(a), XTime(b))
  {
    assert Add(a, b) << 1 == Add(a << 1, b << 1) by { ShiftOfXor(a, b); }
    CarryIsLinear(a, b);
    hide Add, Carry;
    AddPairs(a << 1, b << 1, Carry(a), Carry(b));
  }

  /** Multiplying a sum multiplies its parts. */
  lemma MulsAreLinear(a: bv8, b: bv8)
    ensures var s := Add(a, b);
            && Mul2(s) == Add(Mul2(a), Mul2(b)) && Mul3(s) == Add(Mul3(a), Mul3(b))
            && Mul9(s) == Add(Mul9(a), Mul9(b)) && Mul11(s) == Add(Mul11(a), Mul11(b))
            && Mul13(s) == Add(Mul13(a), Mul13(b)) && Mul14(s) == Add(Mul14(a), Mul14(b))
  {
    hide XTime, Add;
    XTimeIsLinear(a, b);
    XTimeIsLinear(XTime(a), XTime(b));
    XTimeIsLinear(XTime(XTime(a)), XTime(XTime(b)));
    AddPairs(XTime(a), XTime(b), a, b);
    AddPairs(Mul8(a), Mul8(b), a, b);
    AddPairs(Mul8(a), Mul8(b), Mul3(a), Mul3(b));
    AddPairs(Mul9(a), Mul9(b), Mul4(a), Mul4(b));
    AddPairs(Mul4(a), Mul4(b), Mul2(a), Mul2(b));
    AddPairs(Mul8(a), Mul8(b), Add(Mul4(a), Mul2(a)), Add(Mul4(b), Mul2(b)));
  }

  /** The products of the two polynomials of MixColumns and its inverse (section 4.3): their
      coefficients are 1, 0, 0, 0. */
  lemma MixProducts(b: bv8)
    ensures Add4(Mul14(Mul2(b)), Mul11(b), Mul13(b), Mul9(Mul3(b))) == b
    ensures Add4(Mul9(Mul2(b)), Mul14(b), Mul11(b), Mul13(Mul3(b))) == 0
  {
  }

  lemma MixProducts2(b: bv8)
    ensures Add4(Mul13(Mul2(b)), Mul9(b), Mul14(b), Mul11(Mul3(b))) == 0
    ensures Add4(Mul11(Mul2(b)), Mul13(b), Mul9(b), Mul14(Mul3(b))) == 0
  {
  }

  lemma InvMixProducts(b: bv8)
    ensures Add4(Mul2(Mul14(b)), Mul3(Mul9(b)), Mul13(b), Mul11(b)) == b
    ensures Add4(Mul14(b), Mul2(Mul9(b)), Mul3(Mul13(b)), Mul11(b)) == 0
  {
  }

  lemma InvMixProducts2(b: bv8)
    ensures Add4(Mul14(b), Mul9(b), Mul2(Mul13(b)), Mul3(Mul11(b))) == 0
    ensures Add4(Mul3(Mul14(b)), Mul9(b), Mul13(b), Mul2(Mul11(b))) == 0
  {
  }

  // ---------------------------------------------------------------- substitution tables

  /** The entry of a row of sixteen that the low four bits choose. */
  function Row(x: bv8, e0: bv8, e1: bv8, e2: bv8, e3: bv8, e4: bv8, e5: bv8, e6: bv8, e7: bv8,
               e8: bv8, e9: bv8, ea: bv8, eb: bv8, ec: bv8, ed: bv8, ee: bv8, ef: bv8): bv8 {
    var i := x & 15;
    if i < 8 then
      (if i < 4 then (if i < 2 then (if i == 0 then e0 else e1) else if i == 2 then e2 else e3)
       else if i < 6 then (if i == 4 then e4 else e5) else if i == 6 then e6 else e7)
    else
      (if i < 12 then (if i < 10 then (if i == 8 then e8 else e9) else if i == 10 then ea else eb)
       else if i < 14 then (if i == 12 then ec else ed) else if i == 14 then ee else ef)
  }

  /** The table S. */
  function S(x: bv8): bv8 {
    if x < 0x10 then Row(x,
      0x63, 0x7c, 0x77, 0x7b, 0xf2, 0x6b, 0x6f, 0xc5, 0x30, 0x01, 0x67, 0x2b, 0xfe, 0xd7, 0xab, 0x76) else
    if x < 0x20 then Row(x,
      0xca, 0x82, 0xc9, 0x7d, 0xfa, 0x59, 0x47, 0xf0, 0xad, 0xd4, 0xa2, 0xaf, 0x9c, 0xa4, 0x72, 0xc0) else
    if x < 0x30 then Row(x,
      0xb7, 0xfd, 0x93, 0x26, 0x36, 0x3f, 0xf7, 0xcc, 0x34, 0xa5, 0xe5, 0xf1, 0x71, 0xd8, 0x31, 0x15) else
    if x < 0x40 then Row(x,
      0x04, 0xc7, 0x23, 0xc3, 0x18, 0x96, 0x05, 0x9a, 0x07, 0x12, 0x80, 0xe2, 0xeb, 0x27, 0xb2, 0x75) else
    if x < 0x50 then Row(x,
      0x09, 0x83, 0x2c, 0x1a, 0x1b, 0x6e, 0x5a, 0xa0, 0x52, 0x3b, 0xd6, 0xb3, 0x29, 0xe3, 0x2f, 0x84) else
    if x < 0x60 then Row(x,
      0x53, 0xd1, 0x00, 0xed, 0x20, 0xfc, 0xb1, 0x5b, 0x6a, 0xcb, 0xbe, 0x39, 0x4a, 0x4c, 0x58, 0xcf) else
    if x < 0x70 then Row(x,
      0xd0, 0xef, 0xaa, 0xfb, 0x43, 0x4d, 0x33, 0x85, 0x45, 0xf9, 0x02, 0x7f, 0x50, 0x3c, 0x9f, 0xa8) else
    if x < 0x80 then Row(x,
      0x51, 0xa3, 0x40, 0x8f, 0x92, 0x9d, 0x38, 0xf5, 0xbc, 0xb6, 0xda, 0x21, 0x10, 0xff, 0xf3, 0xd2) else
    if x < 0x90 then Row(x,
      0xcd, 0x0c, 0x13, 0xec, 0x5f, 0x97, 0x44, 0x17, 0xc4, 0xa7, 0x7e, 0x3d, 0x64, 0x5d, 0x19, 0x73) else
    if x < 0xa0 then Row(x,
      0x60, 0x81, 0x4f, 0xdc, 0x22, 0x2a, 0x90, 0x88, 0x46, 0xee, 0xb8, 0x14, 0xde, 0x5e, 0x0b, 0xdb) else
    if x < 0xb0 then Row(x,
      0xe0, 0x32, 0x3a, 0x0a, 0x49, 0x06, 0x24, 0x5c, 0xc2, 0xd3, 0xac, 0x62, 0x91, 0x95, 0xe4, 0x79) else
    if x < 0xc0 then Row(x,
      0xe7, 0xc8, 0x37, 0x6d, 0x8d, 0xd5, 0x4e, 0xa9, 0x6c, 0x56, 0xf4, 0xea, 0x65, 0x7a, 0xae, 0x08) else
    if x < 0xd0 then Row(x,
      0xba, 0x78, 0x25, 0x2e, 0x1c, 0xa6, 0xb4, 0xc6, 0xe8, 0xdd, 0x74, 0x1f, 0x4b, 0xbd, 0x8b, 0x8a) else
    if x < 0xe0 then Row(x,
      0x70, 0x3e, 0xb5, 0x66, 0x48, 0x03, 0xf6, 0x0e, 0x61, 0x35, 0x57, 0xb9, 0x86, 0xc1, 0x1d, 0x9e) else
    if x < 0xf0 then Row(x,
      0xe1, 0xf8, 0x98, 0x11, 0x69, 0xd9, 0x8e, 0x94, 0x9b, 0x1e, 0x87, 0xe9, 0xce, 0x55, 0x28, 0xdf) else
    Row(x,
      0x8c, 0xa1, 0x89, 0x0d, 0xbf, 0xe6, 0x42, 0x68, 0x41, 0x99, 0x2d, 0x0f, 0xb0, 0x54, 0xbb, 0x16)
  }

  /** The table S5. */
  function S5(x: bv8): bv8 {
    if x < 0x10 then Row(x,
      0x52, 0x09, 0x6a, 0xd5, 0x30, 0x36, 0xa5, 0x38, 0xbf, 0x40, 0xa3, 0x9e, 0x81, 0xf3, 0xd7, 0xfb) else
    if x < 0x20 then Row(x,
      0x7c, 0xe3, 0x39, 0x82, 0x9b, 0x2f, 0xff, 0x87, 0x34, 0x8e, 0x43, 0x44, 0xc4, 0xde, 0xe9, 0xcb) else
    if x < 0x30 then Row(x,
      0x54, 0x7b, 0x94, 0x32, 0xa6, 0xc2, 0x23, 0x3d, 0xee, 0x4c, 0x95, 0x0b, 0x42, 0xfa, 0xc3, 0x4e) else
    if x < 0x40 then Row(x,
      0x08, 0x2e, 0xa1, 0x66, 0x28, 0xd9, 0x24, 0xb2, 0x76, 0x5b, 0xa2, 0x49, 0x6d, 0x8b, 0xd1, 0x25) else
    if x < 0x50 then Row(x,
      0x72, 0xf8, 0xf6, 0x64, 0x86, 0x68, 0x98, 0x16, 0xd4, 0xa4, 0x5c, 0xcc, 0x5d, 0x65, 0xb6, 0x92) else
    if x < 0x60 then Row(x,
      0x6c, 0x70, 0x48, 0x50, 0xfd, 0xed, 0xb9, 0xda, 0x5e, 0x15, 0x46, 0x57, 0xa7, 0x8d, 0x9d, 0x84) else
    if x < 0x70 then Row(x,
      0x90, 0xd8, 0xab, 0x00, 0x8c, 0xbc, 0xd3, 0x0a, 0xf7, 0xe4, 0x58, 0x05, 0xb8, 0xb3, 0x45, 0x06) else
    if x < 0x80 then Row(x,
      0xd0, 0x2c, 0x1e, 0x8f, 0xca, 0x3f, 0x0f, 0x02, 0xc1, 0xaf, 0xbd, 0x03, 0x01, 0x13, 0x8a, 0x6b) else
    if x < 0x90 then Row(x,
      0x3a, 0x91, 0x11, 0x41, 0x4f, 0x67, 0xdc, 0xea, 0x97, 0xf2, 0xcf, 0xce, 0xf0, 0xb4, 0xe6, 0x73) else
    if x < 0xa0 then Row(x,
      0x96, 0xac, 0x74, 0x22, 0xe7, 0xad, 0x35, 0x85, 0xe2, 0xf9, 0x37, 0xe8, 0x1c, 0x75, 0xdf, 0x6e) else
    if x < 0xb0 then Row(x,
      0x47, 0xf1, 0x1a, 0x71, 0x1d, 0x29, 0xc5, 0x89, 0x6f, 0xb7, 0x62, 0x0e, 0xaa, 0x18, 0xbe, 0x1b) else
    if x < 0xc0 then Row(x,
      0xfc, 0x56, 0x3e, 0x4b, 0xc6, 0xd2, 0x79, 0x20, 0x9a, 0xdb, 0xc0, 0xfe, 0x78, 0xcd, 0x5a, 0xf4) else
    if x < 0xd0 then Row(x,
      0x1f, 0xdd, 0xa8, 0x33, 0x88, 0x07, 0xc7, 0x31, 0xb1, 0x12, 0x10, 0x59, 0x27, 0x80, 0xec, 0x5f) else
    if x < 0xe0 then Row(x,
      0x60, 0x51, 0x7f, 0xa9, 0x19, 0xb5, 0x4a, 0x0d, 0x2d, 0xe5, 0x7a, 0x9f, 0x93, 0xc9, 0x9c, 0xef) else
    if x < 0xf0 then Row(x,
      0xa0, 0xe0, 0x3b, 0x4d, 0xae, 0x2a, 0xf5, 0xb0, 0xc8, 0xeb, 0xbb, 0x3c, 0x83, 0x53, 0x99, 0x61) else
    Row(x,
      0x17, 0x2b, 0x04, 0x7e, 0xba, 0x77, 0xd6, 0x26, 0xe1, 0x69, 0x14, 0x63, 0x55, 0x21, 0x0c, 0x7d)
  }

  /** S takes x to y and S5 takes y back to x. */
  predicate Pair(x: bv8, y: bv8) {
    S(x) == y && S5(y) == x
  }

  lemma PairsFrom00()
    ensures Pair(0x00, 0x63) && Pair(0x01, 0x7c) && Pair(0x02, 0x77) && Pair(0x03, 0x7b)
    ensures Pair(0x04, 0xf2) && Pair(0x05, 0x6b) && Pair(0x06, 0x6f) && Pair(0x07, 0xc5)
    ensures Pair(0x08, 0x30) && Pair(0x09, 0x01) && Pair(0x0a, 0x67) && Pair(0x0b, 0x2b)
    ensures Pair(0x0c, 0xfe) && Pair(0x0d, 0xd7) && Pair(0x0e, 0xab) && Pair(0x0f, 0x76)
  {
  }

  lemma PairsFrom10()
    ensures Pair(0x10, 0xca) && Pair(0x11, 0x82) && Pair(0x12, 0xc9) && Pair(0x13, 0x7d)
    ensures Pair(0x14, 0xfa) && Pair(0x15, 0x59) && Pair(0x16, 0x47) && Pair(0x17, 0xf0)
    ensures Pair(0x18, 0xad) && Pair(0x19, 0xd4) && Pair(0x1a, 0xa2) && Pair(0x1b, 0xaf)
    ensures Pair(0x1c, 0x9c) && Pair(0x1d, 0xa4) && Pair(0x1e, 0x72) && Pair(0x1f, 0xc0)
  {
  }

  lemma PairsFrom20()
    ensures Pair(0x20, 0xb7) && Pair(0x21, 0xfd) && Pair(0x22, 0x93) && Pair(0x23, 0x26)
    ensures Pair(0x24, 0x36) && Pair(0x25, 0x3f) && Pair(0x26, 0xf7) && Pair(0x27, 0xcc)
    ensures Pair(0x28, 0x34) && Pair(0x29, 0xa5) && Pair(0x2a, 0xe5) && Pair(0x2b, 0xf1)
    ensures Pair(0x2c, 0x71) && Pair(0x2d, 0xd8) && Pair(0x2e, 0x31) && Pair(0x2f, 0x15)
  {
  }

  lemma PairsFrom30()
    ensures Pair(0x30, 0x04) && Pair(0x31, 0xc7) && Pair(0x32, 0x23) && Pair(0x33, 0xc3)
    ensures Pair(0x34, 0x18) && Pair(0x35, 0x96) && Pair(0x36, 0x05) && Pair(0x37, 0x9a)
    ensures Pair(0x38, 0x07) && Pair(0x39, 0x12) && Pair(0x3a, 0x80) && Pair(0x3b, 0xe2)
    ensures Pair(0x3c, 0xeb) && Pair(0x3d, 0x27) && Pair(0x3e, 0xb2) && Pair(0x3f, 0x75)
  {
  }

  lemma PairsFrom40()
    ensures Pair(0x40, 0x09) && Pair(0x41, 0x83) && Pair(0x42, 0x2c) && Pair(0x43, 0x1a)
    ensures Pair(0x44, 0x1b) && Pair(0x45, 0x6e) && Pair(0x46, 0x5a) && Pair(0x47, 0xa0)
    ensures Pair(0x48, 0x52) && Pair(0x49, 0x3b) && Pair(0x4a, 0xd6) && Pair(0x4b, 0xb3)
    ensures Pair(0x4c, 0x29) && Pair(0x4d, 0xe3) && Pair(0x4e, 0x2f) && Pair(0x4f, 0x84)
  {
  }

  lemma PairsFrom50()
    ensures Pair(0x50, 0x53) && Pair(0x51, 0xd1) && Pair(0x52, 0x00) && Pair(0x53, 0xed)
    ensures Pair(0x54, 0x20) && Pair(0x55, 0xfc) && Pair(0x56, 0xb1) && Pair(0x57, 0x5b)
    ensures Pair(0x58, 0x6a) && Pair(0x59, 0xcb) && Pair(0x5a, 0xbe) && Pair(0x5b, 0x39)
    ensures Pair(0x5c, 0x4a) && Pair(0x5d, 0x4c) && Pair(0x5e, 0x58) && Pair(0x5f, 0xcf)
  {
  }

  lemma PairsFrom60()
    ensures Pair(0x60, 0xd0) && Pair(0x61, 0xef) && Pair(0x62, 0xaa) && Pair(0x63, 0xfb)
    ensures Pair(0x64, 0x43) && Pair(0x65, 0x4d) && Pair(0x66, 0x33) && Pair(0x67, 0x85)
    ensures Pair(0x68, 0x45) && Pair(0x69, 0xf9) && Pair(0x6a, 0x02) && Pair(0x6b, 0x7f)
    ensures Pair(0x6c, 0x50) && Pair(0x6d, 0x3c) && Pair(0x6e, 0x9f) && Pair(0x6f, 0xa8)
  {
  }

  lemma PairsFrom70()
    ensures Pair(0x70, 0x51) && Pair(0x71, 0xa3) && Pair(0x72, 0x40) && Pair(0x73, 0x8f)
    ensures Pair(0x74, 0x92) && Pair(0x75, 0x9d) && Pair(0x76, 0x38) && Pair(0x77, 0xf5)
    ensures Pair(0x78, 0xbc) && Pair(0x79, 0xb6) && Pair(0x7a, 0xda) && Pair(0x7b, 0x21)
    ensures Pair(0x7c, 0x10) && Pair(0x7d, 0xff) && Pair(0x7e, 0xf3) && Pair(0x7f, 0xd2)
  {
  }

  lemma PairsFrom80()
    ensures Pair(0x80, 0xcd) && Pair(0x81, 0x0c) && Pair(0x82, 0x13) && Pair(0x83, 0xec)
    ensures Pair(0x84, 0x5f) && Pair(0x85, 0x97) && Pair(0x86, 0x44) && Pair(0x87, 0x17)
    ensures Pair(0x88, 0xc4) && Pair(0x89, 0xa7) && Pair(0x8a, 0x7e) && Pair(0x8b, 0x3d)
    ensures Pair(0x8c, 0x64) && Pair(0x8d, 0x5d) && Pair(0x8e, 0x19) && Pair(0x8f, 0x73)
  {
  }

  lemma PairsFrom90()
    ensures Pair(0x90, 0x60) && Pair(0x91, 0x81) && Pair(0x92, 0x4f) && Pair(0x93, 0xdc)
    ensures Pair(0x94, 0x22) && Pair(0x95, 0x2a) && Pair(0x96, 0x90) && Pair(0x97, 0x88)
    ensures Pair(0x98, 0x46) && Pair(0x99, 0xee) && Pair(0x9a, 0xb8) && Pair(0x9b, 0x14)
    ensures Pair(0x9c, 0xde) && Pair(0x9d, 0x5e) && Pair(0x9e, 0x0b) && Pair(0x9f, 0xdb)
  {
  }

  lemma PairsFroma0()
    ensures Pair(0xa0, 0xe0) && Pair(0xa1, 0x32) && Pair(0xa2, 0x3a) && Pair(0xa3, 0x0a)
    ensures Pair(0xa4, 0x49) && Pair(0xa5, 0x06) && Pair(0xa6, 0x24) && Pair(0xa7, 0x5c)
    ensures Pair(0xa8, 0xc2) && Pair(0xa9, 0xd3) && Pair(0xaa, 0xac) && Pair(0xab, 0x62)
    ensures Pair(0xac, 0x91) && Pair(0xad, 0x95) && Pair(0xae, 0xe4) && Pair(0xaf, 0x79)
  {
  }

  lemma PairsFromb0()
    ensures Pair(0xb0, 0xe7) && Pair(0xb1, 0xc8) && Pair(0xb2, 0x37) && Pair(0xb3, 0x6d)
    ensures Pair(0xb4, 0x8d) && Pair(0xb5, 0xd5) && Pair(0xb6, 0x4e) && Pair(0xb7, 0xa9)
    ensures Pair(0xb8, 0x6c) && Pair(0xb9, 0x56) && Pair(0xba, 0xf4) && Pair(0xbb, 0xea)
    ensures Pair(0xbc, 0x65) && Pair(0xbd, 0x7a) && Pair(0xbe, 0xae) && Pair(0xbf, 0x08)
  {
  }

  lemma PairsFromc0()
    ensures Pair(0xc0, 0xba) && Pair(0xc1, 0x78) && Pair(0xc2, 0x25) && Pair(0xc3, 0x2e)
    ensures Pair(0xc4, 0x1c) && Pair(0xc5, 0xa6) && Pair(0xc6, 0xb4) && Pair(0xc7, 0xc6)
    ensures Pair(0xc8, 0xe8) && Pair(0xc9, 0xdd) && Pair(0xca, 0x74) && Pair(0xcb, 0x1f)
    ensures Pair(0xcc, 0x4b) && Pair(0xcd, 0xbd) && Pair(0xce, 0x8b) && Pair(0xcf, 0x8a)
  {
  }

  lemma PairsFromd0()
    ensures Pair(0xd0, 0x70) && Pair(0xd1, 0x3e) && Pair(0xd2, 0xb5) && Pair(0xd3, 0x66)
    ensures Pair(0xd4, 0x48) && Pair(0xd5, 0x03) && Pair(0xd6, 0xf6) && Pair(0xd7, 0x0e)
    ensures Pair(0xd8, 0x61) && Pair(0xd9, 0x35) && Pair(0xda, 0x57) && Pair(0xdb, 0xb9)
    ensures Pair(0xdc, 0x86) && Pair(0xdd, 0xc1) && Pair(0xde, 0x1d) && Pair(0xdf, 0x9e)
  {
  }

  lemma PairsFrome0()
    ensures Pair(0xe0, 0xe1) && Pair(0xe1, 0xf8) && Pair(0xe2, 0x98) && Pair(0xe3, 0x11)
    ensures Pair(0xe4, 0x69) && Pair(0xe5, 0xd9) && Pair(0xe6, 0x8e) && Pair(0xe7, 0x94)
    ensures Pair(0xe8, 0x9b) && Pair(0xe9, 0x1e) && Pair(0xea, 0x87) && Pair(0xeb, 0xe9)
    ensures Pair(0xec, 0xce) && Pair(0xed, 0x55) && Pair(0xee, 0x28) && Pair(0xef, 0xdf)
  {
  }

  lemma PairsFromf0()
    ensures Pair(0xf0, 0x8c) && Pair(0xf1, 0xa1) && Pair(0xf2, 0x89) && Pair(0xf3, 0x0d)
    ensures Pair(0xf4, 0xbf) && Pair(0xf5, 0xe6) && Pair(0xf6, 0x42) && Pair(0xf7, 0x68)
    ensures Pair(0xf8, 0x41) && Pair(0xf9, 0x99) && Pair(0xfa, 0x2d) && Pair(0xfb, 0x0f)
    ensures Pair(0xfc, 0xb0) && Pair(0xfd, 0x54) && Pair(0xfe, 0xbb) && Pair(0xff, 0x16)
  {
  }

  /** S5 is the inverse of S, and S of S5. */
  lemma TablesUndoEachOther(x: bv8)
    ensures S5(S(x)) == x && S(S5(x)) == x
  {
    hide S, S5;
    PairsFrom00();
    PairsFrom10();
    PairsFrom20();
    PairsFrom30();
    PairsFrom40();
    PairsFrom50();
    PairsFrom60();
    PairsFrom70();
    PairsFrom80();
    PairsFrom90();
    PairsFroma0();
    PairsFromb0();
    PairsFromc0();
    PairsFromd0();
    PairsFrome0();
    PairsFromf0();
  }
}
