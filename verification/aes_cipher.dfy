/** The cipher of FIPS 197, the form of it that the C code computes with combined tables, and the proof
    that deciphering undoes enciphering for any number of rounds and any round keys. */
module AesCipher {
  import opened AesField

  /** A column of the state, or a word of a key. */
  datatype Word = Word(b0: bv8, b1: bv8, b2: bv8, b3: bv8)

  /** A block of sixteen bytes, column by column; also a round key. */
  datatype Block = Block(c0: Word, c1: Word, c2: Word, c3: Word)

  function XorWords(a: Word, b: Word): Word {
    Word(Add(a.b0, b.b0), Add(a.b1, b.b1), Add(a.b2, b.b2), Add(a.b3, b.b3))
  }

  /** AddRoundKey, and the addition of blocks in CBC. */
  function Xor(a: Block, b: Block): Block {
    Block(XorWords(a.c0, b.c0), XorWords(a.c1, b.c1), XorWords(a.c2, b.c2), XorWords(a.c3, b.c3))
  }

  lemma XorUndoesItself(a: Block, b: Block)
    ensures Xor(Xor(a, b), b) == a
  {
    XorWordsUndone(a.c0, b.c0);
    XorWordsUndone(a.c1, b.c1);
    XorWordsUndone(a.c2, b.c2);
    XorWordsUndone(a.c3, b.c3);
  }

  lemma XorWordsUndone(a: Word, b: Word)
    ensures XorWords(XorWords(a, b), b) == a
  {
    hide Add;
    AddUndone(a.b0, b.b0);
    AddUndone(a.b1, b.b1);
    AddUndone(a.b2, b.b2);
    AddUndone(a.b3, b.b3);
  }

  // ---------------------------------------------------------------- FIPS 197, sections 5.1 and 5.3

  function SubWord(w: Word): Word { Word(S(w.b0), S(w.b1), S(w.b2), S(w.b3)) }

  function InvSubWord(w: Word): Word { Word(S5(w.b0), S5(w.b1), S5(w.b2), S5(w.b3)) }

  function SubBytes(s: Block): Block { Block(SubWord(s.c0), SubWord(s.c1), SubWord(s.c2), SubWord(s.c3)) }

  function InvSubBytes(s: Block): Block {
    Block(InvSubWord(s.c0), InvSubWord(s.c1), InvSubWord(s.c2), InvSubWord(s.c3))
  }

  /** Row r moves r columns to the left. */
  function ShiftRows(s: Block): Block {
    Block(Word(s.c0.b0, s.c1.b1, s.c2.b2, s.c3.b3),
          Word(s.c1.b0, s.c2.b1, s.c3.b2, s.c0.b3),
          Word(s.c2.b0, s.c3.b1, s.c0.b2, s.c1.b3),
          Word(s.c3.b0, s.c0.b1, s.c1.b2, s.c2.b3))
  }

  function InvShiftRows(s: Block): Block {
    Block(Word(s.c0.b0, s.c3.b1, s.c2.b2, s.c1.b3),
          Word(s.c1.b0, s.c0.b1, s.c3.b2, s.c2.b3),
          Word(s.c2.b0, s.c1.b1, s.c0.b2, s.c3.b3),
          Word(s.c3.b0, s.c2.b1, s.c1.b2, s.c0.b3))
  }

  function MixColumn(w: Word): Word {
    Word(Add4(Mul2(w.b0), Mul3(w.b1), w.b2, w.b3),
         Add4(w.b0, Mul2(w.b1), Mul3(w.b2), w.b3),
         Add4(w.b0, w.b1, Mul2(w.b2), Mul3(w.b3)),
         Add4(Mul3(w.b0), w.b1, w.b2, Mul2(w.b3)))
  }

  function InvMixColumn(w: Word): Word {
    Word(Add4(Mul14(w.b0), Mul11(w.b1), Mul13(w.b2), Mul9(w.b3)),
         Add4(Mul9(w.b0), Mul14(w.b1), Mul11(w.b2), Mul13(w.b3)),
         Add4(Mul13(w.b0), Mul9(w.b1), Mul14(w.b2), Mul11(w.b3)),
         Add4(Mul11(w.b0), Mul13(w.b1), Mul9(w.b2), Mul14(w.b3)))
  }

  function MixColumns(s: Block): Block { Block(MixColumn(s.c0), MixColumn(s.c1), MixColumn(s.c2), MixColumn(s.c3)) }

  function InvMixColumns(s: Block): Block {
    Block(InvMixColumn(s.c0), InvMixColumn(s.c1), InvMixColumn(s.c2), InvMixColumn(s.c3))
  }

  /** The state after round r, keys being the round keys. */
  function Rounds(keys: seq<Block>, r: nat, s: Block): Block
    requires r < |keys|
  {
    if r == 0 then Xor(s, keys[0])
    else Xor(MixColumns(ShiftRows(SubBytes(Rounds(keys, r - 1, s)))), keys[r])
  }

  /** The cipher with n rounds: the last one mixes no columns. */
  function Cipher(keys: seq<Block>, n: nat, s: Block): Block
    requires 1 <= n < |keys|
  {
    Xor(ShiftRows(SubBytes(Rounds(keys, n - 1, s))), keys[n])
  }

  /** The inverse cipher's state after its rounds n - 1 down to r. */
  function InvRounds(keys: seq<Block>, n: nat, r: nat, s: Block): Block
    requires 1 <= r <= n < |keys|
    decreases n - r
  {
    if r == n then Xor(s, keys[n])
    else InvMixColumns(Xor(InvSubBytes(InvShiftRows(InvRounds(keys, n, r + 1, s))), keys[r]))
  }

  function InvCipher(keys: seq<Block>, n: nat, s: Block): Block
    requires 1 <= n < |keys|
  {
    Xor(InvSubBytes(InvShiftRows(InvRounds(keys, n, 1, s))), keys[0])
  }

  // ---------------------------------------------------------------- the steps undo each other

  lemma SubBytesUndone(s: Block)
    ensures InvSubBytes(SubBytes(s)) == s && SubBytes(InvSubBytes(s)) == s
  {
    hide S, S5;
    SubWordUndone(s.c0);
    SubWordUndone(s.c1);
    SubWordUndone(s.c2);
    SubWordUndone(s.c3);
  }

  lemma SubWordUndone(w: Word)
    ensures InvSubWord(SubWord(w)) == w && SubWord(InvSubWord(w)) == w
  {
    hide S, S5;
    TablesUndoEachOther(w.b0);
    TablesUndoEachOther(w.b1);
    TablesUndoEachOther(w.b2);
    TablesUndoEachOther(w.b3);
  }

  lemma ShiftRowsUndone(s: Block)
    ensures InvShiftRows(ShiftRows(s)) == s && ShiftRows(InvShiftRows(s)) == s
    ensures InvShiftRows(SubBytes(s)) == SubBytes(InvShiftRows(s))
    ensures InvShiftRows(InvSubBytes(s)) == InvSubBytes(InvShiftRows(s))
  {
    hide S, S5;
  }

  lemma MixIsLinear(a: Word, b: Word)
    ensures MixColumn(XorWords(a, b)) == XorWords(MixColumn(a), MixColumn(b))
  {
    hide Add, Add4, Mul2, Mul3;
    MulsAreLinear(a.b0, b.b0);
    MulsAreLinear(a.b1, b.b1);
    MulsAreLinear(a.b2, b.b2);
    MulsAreLinear(a.b3, b.b3);
    Add4Pairs(Mul2(a.b0), Mul3(a.b1), a.b2, a.b3,
              Mul2(b.b0), Mul3(b.b1), b.b2, b.b3);
    Add4Pairs(a.b0, Mul2(a.b1), Mul3(a.b2), a.b3,
              b.b0, Mul2(b.b1), Mul3(b.b2), b.b3);
    Add4Pairs(a.b0, a.b1, Mul2(a.b2), Mul3(a.b3),
              b.b0, b.b1, Mul2(b.b2), Mul3(b.b3));
    Add4Pairs(Mul3(a.b0), a.b1, a.b2, Mul2(a.b3),
              Mul3(b.b0), b.b1, b.b2, Mul2(b.b3));
  }

  lemma InvMixIsLinear(a: Word, b: Word)
    ensures InvMixColumn(XorWords(a, b)) == XorWords(InvMixColumn(a), InvMixColumn(b))
  {
    hide Add, Add4, Mul9, Mul11, Mul13, Mul14;
    MulsAreLinear(a.b0, b.b0);
    MulsAreLinear(a.b1, b.b1);
    MulsAreLinear(a.b2, b.b2);
    MulsAreLinear(a.b3, b.b3);
    Add4Pairs(Mul14(a.b0), Mul11(a.b1), Mul13(a.b2), Mul9(a.b3),
              Mul14(b.b0), Mul11(b.b1), Mul13(b.b2), Mul9(b.b3));
    Add4Pairs(Mul9(a.b0), Mul14(a.b1), Mul11(a.b2), Mul13(a.b3),
              Mul9(b.b0), Mul14(b.b1), Mul11(b.b2), Mul13(b.b3));
    Add4Pairs(Mul13(a.b0), Mul9(a.b1), Mul14(a.b2), Mul11(a.b3),
              Mul13(b.b0), Mul9(b.b1), Mul14(b.b2), Mul11(b.b3));
    Add4Pairs(Mul11(a.b0), Mul13(a.b1), Mul9(a.b2), Mul14(a.b3),
              Mul11(b.b0), Mul13(b.b1), Mul9(b.b2), Mul14(b.b3));
  }

  /** The bytes of a word moved on by one place. */
  function Turned(w: Word): Word { Word(w.b3, w.b0, w.b1, w.b2) }

  lemma MixTurns(w: Word)
    ensures MixColumn(Turned(w)) == Turned(MixColumn(w)) && InvMixColumn(Turned(w)) == Turned(InvMixColumn(w))
  {
    hide Add4, Mul2, Mul3, Mul9, Mul11, Mul13, Mul14;
    Add4Turns(Mul2(w.b0), Mul3(w.b1), w.b2, w.b3);
    Add4Turns(w.b0, Mul2(w.b1), Mul3(w.b2), w.b3);
    Add4Turns(w.b0, w.b1, Mul2(w.b2), Mul3(w.b3));
    Add4Turns(Mul3(w.b0), w.b1, w.b2, Mul2(w.b3));
    Add4Turns(Mul14(w.b0), Mul11(w.b1), Mul13(w.b2), Mul9(w.b3));
    Add4Turns(Mul9(w.b0), Mul14(w.b1), Mul11(w.b2), Mul13(w.b3));
    Add4Turns(Mul13(w.b0), Mul9(w.b1), Mul14(w.b2), Mul11(w.b3));
    Add4Turns(Mul11(w.b0), Mul13(w.b1), Mul9(w.b2), Mul14(w.b3));
  }

  predicate MixUndone(w: Word) {
    InvMixColumn(MixColumn(w)) == w && MixColumn(InvMixColumn(w)) == w
  }

  lemma TurnedUndone(w: Word)
    requires MixUndone(w)
    ensures MixUndone(Turned(w))
  {
    hide MixColumn, InvMixColumn;
    MixTurns(w);
    MixTurns(MixColumn(w));
    MixTurns(InvMixColumn(w));
  }

  lemma OneByteUndone(b: bv8)
    ensures MixUndone(Word(b, 0, 0, 0)) && MixUndone(Word(0, b, 0, 0))
    ensures MixUndone(Word(0, 0, b, 0)) && MixUndone(Word(0, 0, 0, b))
  {
    FirstByteUndone(b);
    hide MixUndone;
    TurnedUndone(Word(b, 0, 0, 0));
    TurnedUndone(Word(0, b, 0, 0));
    TurnedUndone(Word(0, 0, b, 0));
  }

  lemma FirstByteUndone(b: bv8)
    ensures MixUndone(Word(b, 0, 0, 0))
  {
    MixOfFirst(b);
    MulsOfZero();
    MixProducts(b);
    MixProducts2(b);
    InvMixProducts(b);
    InvMixProducts2(b);
    hide Add, Mul2, Mul3, Mul9, Mul11, Mul13, Mul14;
  }

  lemma MixOfFirst(b: bv8)
    ensures MixColumn(Word(b, 0, 0, 0)) == Word(Mul2(b), b, b, Mul3(b))
    ensures InvMixColumn(Word(b, 0, 0, 0)) == Word(Mul14(b), Mul9(b), Mul13(b), Mul11(b))
  {
    AddZero(0);
    AddZero(b);
    AddZero(Mul2(b));
    AddZero(Mul3(b));
    AddZero(Mul9(b));
    AddZero(Mul11(b));
    AddZero(Mul13(b));
    AddZero(Mul14(b));
    MulsOfZero();
    hide Add, Mul2, Mul3, Mul9, Mul11, Mul13, Mul14;
  }

  lemma MulsOfZero()
    ensures Mul2(0) == 0 && Mul3(0) == 0 && Mul9(0) == 0 && Mul11(0) == 0 && Mul13(0) == 0 && Mul14(0) == 0
  {
  }

  /** A word is the sum of its bytes, and mixing is linear. */
  lemma MixColumnUndone(w: Word)
    ensures MixUndone(w)
  {
    var e0, e1, e2, e3 := Word(w.b0, 0, 0, 0), Word(0, w.b1, 0, 0), Word(0, 0, w.b2, 0), Word(0, 0, 0, w.b3);
    var low, high := XorWords(e0, e1), XorWords(e2, e3);
    AddZero(w.b0);
    AddZero(w.b1);
    AddZero(w.b2);
    AddZero(w.b3);
    AddZero(0);
    hide Add, MixUndone;
    assert w == XorWords(low, high);
    OneByteUndone(w.b0);
    OneByteUndone(w.b1);
    OneByteUndone(w.b2);
    OneByteUndone(w.b3);
    MixOfSum(e0, e1);
    MixOfSum(e2, e3);
    MixOfSum(low, high);
  }

  /** If mixing is undone on two words, it is undone on their sum. */
  lemma MixOfSum(a: Word, b: Word)
    requires MixUndone(a) && MixUndone(b)
    ensures MixUndone(XorWords(a, b))
  {
    hide MixColumn, InvMixColumn, XorWords;
    MixIsLinear(a, b);
    InvMixIsLinear(a, b);
    InvMixIsLinear(MixColumn(a), MixColumn(b));
    MixIsLinear(InvMixColumn(a), InvMixColumn(b));
  }

  lemma MixColumnsUndone(s: Block)
    ensures InvMixColumns(MixColumns(s)) == s && MixColumns(InvMixColumns(s)) == s
  {
    hide MixColumn, InvMixColumn;
    MixColumnUndone(s.c0);
    MixColumnUndone(s.c1);
    MixColumnUndone(s.c2);
    MixColumnUndone(s.c3);
  }

  lemma InvMixColumnsIsLinear(a: Block, b: Block)
    ensures InvMixColumns(Xor(a, b)) == Xor(InvMixColumns(a), InvMixColumns(b))
  {
    hide InvMixColumn, XorWords;
    InvMixIsLinear(a.c0, b.c0);
    InvMixIsLinear(a.c1, b.c1);
    InvMixIsLinear(a.c2, b.c2);
    InvMixIsLinear(a.c3, b.c3);
  }

  // ---------------------------------------------------------------- deciphering undoes enciphering

  /** After its rounds n - 1 down to r, the inverse cipher has the state that round r received. */
  lemma {:induction false} InvRoundsMeetRounds(keys: seq<Block>, n: nat, r: nat, s: Block)
    requires 1 <= r <= n < |keys|
    ensures InvRounds(keys, n, r, Cipher(keys, n, s)) == ShiftRows(SubBytes(Rounds(keys, r - 1, s)))
    decreases n - r
  {
    hide Xor, ShiftRows, SubBytes, InvShiftRows, InvSubBytes, MixColumns, InvMixColumns;
    if r == n {
      XorUndoesItself(ShiftRows(SubBytes(Rounds(keys, n - 1, s))), keys[n]);
    } else {
      InvRoundsMeetRounds(keys, n, r + 1, s);
      var mixed := MixColumns(ShiftRows(SubBytes(Rounds(keys, r - 1, s))));
      SubBytesUndone(Xor(mixed, keys[r]));
      ShiftRowsUndone(SubBytes(Xor(mixed, keys[r])));
      XorUndoesItself(mixed, keys[r]);
      MixColumnsUndone(ShiftRows(SubBytes(Rounds(keys, r - 1, s))));
    }
  }

  lemma InverseUndoesCipher(keys: seq<Block>, n: nat, s: Block)
    requires 1 <= n < |keys|
    ensures InvCipher(keys, n, Cipher(keys, n, s)) == s
  {
    hide Xor, ShiftRows, SubBytes, InvShiftRows, InvSubBytes, MixColumns, InvMixColumns, Cipher;
    InvRoundsMeetRounds(keys, n, 1, s);
    var first := Xor(s, keys[0]);
    SubBytesUndone(first);
    ShiftRowsUndone(SubBytes(first));
    XorUndoesItself(s, keys[0]);
  }

  /** The other way round: enciphering undoes deciphering, so the cipher is a bijection on blocks. */
  lemma {:induction false} RoundsMeetInvRounds(keys: seq<Block>, n: nat, r: nat, s: Block)
    requires 1 <= r <= n < |keys|
    ensures ShiftRows(SubBytes(Rounds(keys, r - 1, InvCipher(keys, n, s)))) == InvRounds(keys, n, r, s)
    decreases r
  {
    hide Xor, ShiftRows, SubBytes, InvShiftRows, InvSubBytes, MixColumns, InvMixColumns;
    var got := InvRounds(keys, n, r, s);
    var before := InvSubBytes(InvShiftRows(got));
    if r == 1 {
      XorUndoesItself(before, keys[0]);
    } else {
      RoundsMeetInvRounds(keys, n, r - 1, s);
      MixColumnsUndone(Xor(before, keys[r - 1]));
      XorUndoesItself(before, keys[r - 1]);
    }
    SubBytesUndone(InvShiftRows(got));
    ShiftRowsUndone(got);
  }

  lemma CipherUndoesInverse(keys: seq<Block>, n: nat, s: Block)
    requires 1 <= n < |keys|
    ensures Cipher(keys, n, InvCipher(keys, n, s)) == s
  {
    hide Xor, ShiftRows, SubBytes, InvShiftRows, InvSubBytes, MixColumns, InvMixColumns, InvCipher;
    RoundsMeetInvRounds(keys, n, n, s);
    XorUndoesItself(s, keys[n]);
  }

  // ---------------------------------------------------------------- the equivalent inverse cipher

  /** RijndaelKeyEncToDec: the inner round keys have their columns unmixed. */
  function DecKeys(keys: seq<Block>, n: nat): (d: seq<Block>)
    requires n < |keys|
    ensures |d| == |keys|
  {
    seq(|keys|, i requires 0 <= i < |keys| => if 1 <= i < n then InvMixColumns(keys[i]) else keys[i])
  }

  /** FIPS 197, section 5.3.5: unmixing before the round key is added, the round keys being unmixed too. */
  function EqInvRounds(dec: seq<Block>, n: nat, r: nat, s: Block): Block
    requires 1 <= r <= n < |dec|
    decreases n - r
  {
    if r == n then Xor(s, dec[n])
    else Xor(InvMixColumns(InvShiftRows(InvSubBytes(EqInvRounds(dec, n, r + 1, s)))), dec[r])
  }

  function EqInvCipher(dec: seq<Block>, n: nat, s: Block): Block
    requires 1 <= n < |dec|
  {
    Xor(InvShiftRows(InvSubBytes(EqInvRounds(dec, n, 1, s))), dec[0])
  }

  lemma {:induction false} EquivalentRounds(keys: seq<Block>, n: nat, r: nat, s: Block)
    requires 1 <= r <= n < |keys|
    ensures EqInvRounds(DecKeys(keys, n), n, r, s) == InvRounds(keys, n, r, s)
    decreases n - r
  {
    hide Xor, ShiftRows, SubBytes, InvShiftRows, InvSubBytes, MixColumns, InvMixColumns;
    if r < n {
      EquivalentRounds(keys, n, r + 1, s);
      var got := InvRounds(keys, n, r + 1, s);
      ShiftRowsUndone(got);
      InvMixColumnsIsLinear(InvSubBytes(InvShiftRows(got)), keys[r]);
    }
  }

  /** The equivalent inverse cipher under the decryption keys undoes the cipher. */
  lemma EquivalentInverseUndoesCipher(keys: seq<Block>, n: nat, s: Block)
    requires 1 <= n < |keys|
    ensures EqInvCipher(DecKeys(keys, n), n, Cipher(keys, n, s)) == s
  {
    hide Xor, ShiftRows, SubBytes, InvShiftRows, InvSubBytes, MixColumns, InvMixColumns, Cipher;
    var c := Cipher(keys, n, s);
    EquivalentRounds(keys, n, 1, c);
    ShiftRowsUndone(InvRounds(keys, n, 1, c));
    InverseUndoesCipher(keys, n, s);
  }
}
