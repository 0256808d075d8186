/** The example of FIPS 197, appendix B: a key of four words, a block, its ciphertext, and on the way from one to
    the other every round key and the state after every round. */
module AesExample {
  import opened AesField
  import opened AesCipher
  import opened AesKeys
  import opened AesCbc

  const KEY: seq<Word> := [K0.c0, K0.c1, K0.c2, K0.c3]

  // the round keys

  const K0: Block := Block(Word(0x2b, 0x7e, 0x15, 0x16), Word(0x28, 0xae, 0xd2, 0xa6),
                           Word(0xab, 0xf7, 0x15, 0x88), Word(0x09, 0xcf, 0x4f, 0x3c))
  const K1: Block := Block(Word(0xa0, 0xfa, 0xfe, 0x17), Word(0x88, 0x54, 0x2c, 0xb1),
                           Word(0x23, 0xa3, 0x39, 0x39), Word(0x2a, 0x6c, 0x76, 0x05))
  const K2: Block := Block(Word(0xf2, 0xc2, 0x95, 0xf2), Word(0x7a, 0x96, 0xb9, 0x43),
                           Word(0x59, 0x35, 0x80, 0x7a), Word(0x73, 0x59, 0xf6, 0x7f))
  const K3: Block := Block(Word(0x3d, 0x80, 0x47, 0x7d), Word(0x47, 0x16, 0xfe, 0x3e),
                           Word(0x1e, 0x23, 0x7e, 0x44), Word(0x6d, 0x7a, 0x88, 0x3b))
  const K4: Block := Block(Word(0xef, 0x44, 0xa5, 0x41), Word(0xa8, 0x52, 0x5b, 0x7f),
                           Word(0xb6, 0x71, 0x25, 0x3b), Word(0xdb, 0x0b, 0xad, 0x00))
  const K5: Block := Block(Word(0xd4, 0xd1, 0xc6, 0xf8), Word(0x7c, 0x83, 0x9d, 0x87),
                           Word(0xca, 0xf2, 0xb8, 0xbc), Word(0x11, 0xf9, 0x15, 0xbc))
  const K6: Block := Block(Word(0x6d, 0x88, 0xa3, 0x7a), Word(0x11, 0x0b, 0x3e, 0xfd),
                           Word(0xdb, 0xf9, 0x86, 0x41), Word(0xca, 0x00, 0x93, 0xfd))
  const K7: Block := Block(Word(0x4e, 0x54, 0xf7, 0x0e), Word(0x5f, 0x5f, 0xc9, 0xf3),
                           Word(0x84, 0xa6, 0x4f, 0xb2), Word(0x4e, 0xa6, 0xdc, 0x4f))
  const K8: Block := Block(Word(0xea, 0xd2, 0x73, 0x21), Word(0xb5, 0x8d, 0xba, 0xd2),
                           Word(0x31, 0x2b, 0xf5, 0x60), Word(0x7f, 0x8d, 0x29, 0x2f))
  const K9: Block := Block(Word(0xac, 0x77, 0x66, 0xf3), Word(0x19, 0xfa, 0xdc, 0x21),
                           Word(0x28, 0xd1, 0x29, 0x41), Word(0x57, 0x5c, 0x00, 0x6e))
  const K10: Block := Block(Word(0xd0, 0x14, 0xf9, 0xa8), Word(0xc9, 0xee, 0x25, 0x89),
                            Word(0xe1, 0x3f, 0x0c, 0xc8), Word(0xb6, 0x63, 0x0c, 0xa6))

  // the block, the states after rounds 0 to 9, and the ciphertext

  const PLAIN: Block := Block(Word(0x32, 0x43, 0xf6, 0xa8), Word(0x88, 0x5a, 0x30, 0x8d),
                              Word(0x31, 0x31, 0x98, 0xa2), Word(0xe0, 0x37, 0x07, 0x34))
  const S0: Block := Block(Word(0x19, 0x3d, 0xe3, 0xbe), Word(0xa0, 0xf4, 0xe2, 0x2b),
                           Word(0x9a, 0xc6, 0x8d, 0x2a), Word(0xe9, 0xf8, 0x48, 0x08))
  const S1: Block := Block(Word(0xa4, 0x9c, 0x7f, 0xf2), Word(0x68, 0x9f, 0x35, 0x2b),
                           Word(0x6b, 0x5b, 0xea, 0x43), Word(0x02, 0x6a, 0x50, 0x49))
  const S2: Block := Block(Word(0xaa, 0x8f, 0x5f, 0x03), Word(0x61, 0xdd, 0xe3, 0xef),
                           Word(0x82, 0xd2, 0x4a, 0xd2), Word(0x68, 0x32, 0x46, 0x9a))
  const S3: Block := Block(Word(0x48, 0x6c, 0x4e, 0xee), Word(0x67, 0x1d, 0x9d, 0x0d),
                           Word(0x4d, 0xe3, 0xb1, 0x38), Word(0xd6, 0x5f, 0x58, 0xe7))
  const S4: Block := Block(Word(0xe0, 0x92, 0x7f, 0xe8), Word(0xc8, 0x63, 0x63, 0xc0),
                           Word(0xd9, 0xb1, 0x35, 0x50), Word(0x85, 0xb8, 0xbe, 0x01))
  const S5: Block := Block(Word(0xf1, 0x00, 0x6f, 0x55), Word(0xc1, 0x92, 0x4c, 0xef),
                           Word(0x7c, 0xc8, 0x8b, 0x32), Word(0x5d, 0xb5, 0xd5, 0x0c))
  const S6: Block := Block(Word(0x26, 0x0e, 0x2e, 0x17), Word(0x3d, 0x41, 0xb7, 0x7d),
                           Word(0xe8, 0x64, 0x72, 0xa9), Word(0xfd, 0xd2, 0x8b, 0x25))
  const S7: Block := Block(Word(0x5a, 0x41, 0x42, 0xb1), Word(0x19, 0x49, 0xdc, 0x1f),
                           Word(0xa3, 0xe0, 0x19, 0x65), Word(0x7a, 0x8c, 0x04, 0x0c))
  const S8: Block := Block(Word(0xea, 0x83, 0x5c, 0xf0), Word(0x04, 0x45, 0x33, 0x2d),
                           Word(0x65, 0x5d, 0x98, 0xad), Word(0x85, 0x96, 0xb0, 0xc5))
  const S9: Block := Block(Word(0xeb, 0x40, 0xf2, 0x1e), Word(0x59, 0x2e, 0x38, 0x84),
                           Word(0x8b, 0xa1, 0x13, 0xe7), Word(0x1b, 0xc3, 0x42, 0xd2))
  const CIPHER: Block := Block(Word(0x39, 0x25, 0x84, 0x1d), Word(0x02, 0xdc, 0x09, 0xfb),
                               Word(0xdc, 0x11, 0x85, 0x97), Word(0x19, 0x6a, 0x0b, 0x32))

  /** The next round key of a key of four words. */
  function NextKey(k: Block, constant: bv8): Block {
    var c0 := XorWords(k.c0, Word(Add(S(k.c3.b1), constant), S(k.c3.b2), S(k.c3.b3), S(k.c3.b0)));
    var c1 := XorWords(k.c1, c0);
    var c2 := XorWords(k.c2, c1);
    Block(c0, c1, c2, XorWords(k.c3, c2))
  }

  lemma Key1()
    ensures NextKey(K0, 0x01) == K1
  {
  }

  lemma Key2()
    ensures NextKey(K1, 0x02) == K2
  {
  }

  lemma Key3()
    ensures NextKey(K2, 0x04) == K3
  {
  }

  lemma Key4()
    ensures NextKey(K3, 0x08) == K4
  {
  }

  lemma Key5()
    ensures NextKey(K4, 0x10) == K5
  {
  }

  lemma Key6()
    ensures NextKey(K5, 0x20) == K6
  {
  }

  lemma Key7()
    ensures NextKey(K6, 0x40) == K7
  {
  }

  lemma Key8()
    ensures NextKey(K7, 0x80) == K8
  {
  }

  lemma Key9()
    ensures NextKey(K8, 0x1b) == K9
  {
  }

  lemma Key10()
    ensures NextKey(K9, 0x36) == K10
  {
  }

  lemma State1()
    ensures Xor(MixColumns(ShiftRows(SubBytes(S0))), K1) == S1
  {
  }

  lemma State2()
    ensures Xor(MixColumns(ShiftRows(SubBytes(S1))), K2) == S2
  {
  }

  lemma State3()
    ensures Xor(MixColumns(ShiftRows(SubBytes(S2))), K3) == S3
  {
  }

  lemma State4()
    ensures Xor(MixColumns(ShiftRows(SubBytes(S3))), K4) == S4
  {
  }

  lemma State5()
    ensures Xor(MixColumns(ShiftRows(SubBytes(S4))), K5) == S5
  {
  }

  lemma State6()
    ensures Xor(MixColumns(ShiftRows(SubBytes(S5))), K6) == S6
  {
  }

  lemma State7()
    ensures Xor(MixColumns(ShiftRows(SubBytes(S6))), K7) == S7
  {
  }

  lemma State8()
    ensures Xor(MixColumns(ShiftRows(SubBytes(S7))), K8) == S8
  {
  }

  lemma State9()
    ensures Xor(MixColumns(ShiftRows(SubBytes(S8))), K9) == S9
  {
  }

  lemma LastState()
    ensures Xor(ShiftRows(SubBytes(S9)), K10) == CIPHER
  {
  }

  /** Round key r of a key. */
  ghost predicate IsKey(key: seq<Word>, r: nat, k: Block)
    requires |key| == 4
  {
    KeyWord(key, 4 * r) == k.c0 && KeyWord(key, 4 * r + 1) == k.c1
    && KeyWord(key, 4 * r + 2) == k.c2 && KeyWord(key, 4 * r + 3) == k.c3
  }

  lemma FirstKey()
    ensures IsKey(KEY, 0, K0)
  {
    FirstWords(KEY);
  }

  lemma FirstColumn(k: Block, constant: bv8)
    ensures NextKey(k, constant).c0 == XorWords(k.c0, XorWords(SubWord(RotWord(k.c3)), Word(constant, 0, 0, 0)))
  {
    hide S, Add;
    AddZero(S(k.c3.b2));
    AddZero(S(k.c3.b3));
    AddZero(S(k.c3.b0));
  }

  lemma KeyIsNext(key: seq<Word>, r: nat, k: Block)
    requires |key| == 4 && IsKey(key, r, k)
    ensures IsKey(key, r + 1, NextKey(k, Rcon(r + 1)))
  {
    hide KeyWord, SubWord, RotWord, XorWords, Rcon;
    FirstColumn(k, Rcon(r + 1));
    var next := NextKey(k, Rcon(r + 1));
    assert BlockStart(r, 4, 4 * r);
    hide BlockStart;
    NextWord(key, r, 4 * r, 0, k.c0, k.c3);
    NextWord(key, r, 4 * r, 1, k.c1, next.c0);
    NextWord(key, r, 4 * r, 2, k.c2, next.c1);
    NextWord(key, r, 4 * r, 3, k.c3, next.c2);
  }

  /** Round key r, and the state after round r. */
  ghost predicate IsState(r: nat, k: Block, s: Block) {
    IsKey(KEY, r, k) && r <= 10 && Rounds(KeySchedule(KEY), r, PLAIN) == s
  }

  lemma StateIsNext(r: nat, k: Block, s: Block, constant: bv8, k': Block, s': Block)
    requires r < 10 && IsState(r, k, s) && constant == Rcon(r + 1) && k' == NextKey(k, constant)
    requires s' == Xor(MixColumns(ShiftRows(SubBytes(s))), k')
    ensures IsState(r + 1, k', s')
  {
    hide Rcon, NextKey, Xor, MixColumns, ShiftRows, SubBytes, KeyWord;
    KeyIsNext(KEY, r, k);
  }

  lemma Round0()
    ensures IsState(0, K0, S0)
  {
    FirstKey();
    hide IsKey, KeyWord;
  }

  /** Round keys and states, one round after the other. */
  lemma AllRounds()
    ensures IsState(9, K9, S9)
  {
    hide *;
    Powers();
    Round0();
    Key1();
    State1();
    StateIsNext(0, K0, S0, 0x01, K1, S1);
    Key2();
    State2();
    StateIsNext(1, K1, S1, 0x02, K2, S2);
    Key3();
    State3();
    StateIsNext(2, K2, S2, 0x04, K3, S3);
    Key4();
    State4();
    StateIsNext(3, K3, S3, 0x08, K4, S4);
    Key5();
    State5();
    StateIsNext(4, K4, S4, 0x10, K5, S5);
    Key6();
    State6();
    StateIsNext(5, K5, S5, 0x20, K6, S6);
    Key7();
    State7();
    StateIsNext(6, K6, S6, 0x40, K7, S7);
    Key8();
    State8();
    StateIsNext(7, K7, S7, 0x80, K8, S8);
    Key9();
    State9();
    StateIsNext(8, K8, S8, 0x1b, K9, S9);
  }

  /** Enciphering gives the ciphertext of the standard, and deciphering it the block. */
  lemma AppendixB()
    ensures Encipher(KEY, PLAIN) == CIPHER && Decipher(KEY, CIPHER) == PLAIN
  {
    DecipherUndoes(KEY, PLAIN);
    Powers();
    hide Rcon, NextKey, Xor, ShiftRows, SubBytes, KeyWord, Rounds, Decipher;
    AllRounds();
    Key10();
    LastState();
    KeyIsNext(KEY, 9, K9);
  }
}
