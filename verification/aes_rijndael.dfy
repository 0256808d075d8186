/** The code's cipher object: enciphering and deciphering one block by combined tables, and unmixing the round
    keys in place. */
module Rijndael {
  import opened AesField
  import opened AesCipher

  // ---------------------------------------------------------------- the combined tables

  // Tables T1 to T4 hold the column that one byte of the state contributes to SubBytes, ShiftRows and
  // MixColumns; T5 to T8 the same for the inverse; U1 to U4 the contribution to InvMixColumns alone.
  function T1(x: bv8): Word { Word(Mul2(S(x)), S(x), S(x), Mul3(S(x))) }
  function T2(x: bv8): Word { Word(Mul3(S(x)), Mul2(S(x)), S(x), S(x)) }
  function T3(x: bv8): Word { Word(S(x), Mul3(S(x)), Mul2(S(x)), S(x)) }
  function T4(x: bv8): Word { Word(S(x), S(x), Mul3(S(x)), Mul2(S(x))) }
  function U1(x: bv8): Word { Word(Mul14(x), Mul9(x), Mul13(x), Mul11(x)) }
  function U2(x: bv8): Word { Word(Mul11(x), Mul14(x), Mul9(x), Mul13(x)) }
  function U3(x: bv8): Word { Word(Mul13(x), Mul11(x), Mul14(x), Mul9(x)) }
  function U4(x: bv8): Word { Word(Mul9(x), Mul13(x), Mul11(x), Mul14(x)) }
  function T5(x: bv8): Word { U1(S5(x)) }
  function T6(x: bv8): Word { U2(S5(x)) }
  function T7(x: bv8): Word { U3(S5(x)) }
  function T8(x: bv8): Word { U4(S5(x)) }

  function Xor4(a: Word, b: Word, c: Word, d: Word): Word {
    XorWords(XorWords(XorWords(a, b), c), d)
  }

  /** Four table lookups for each column: one round of enciphering without its key. */
  function Lookup(t: Block): Block {
    Block(Xor4(T1(t.c0.b0), T2(t.c1.b1), T3(t.c2.b2), T4(t.c3.b3)),
          Xor4(T1(t.c1.b0), T2(t.c2.b1), T3(t.c3.b2), T4(t.c0.b3)),
          Xor4(T1(t.c2.b0), T2(t.c3.b1), T3(t.c0.b2), T4(t.c1.b3)),
          Xor4(T1(t.c3.b0), T2(t.c0.b1), T3(t.c1.b2), T4(t.c2.b3)))
  }

  function InvLookup(t: Block): Block {
    Block(Xor4(T5(t.c0.b0), T6(t.c3.b1), T7(t.c2.b2), T8(t.c1.b3)),
          Xor4(T5(t.c1.b0), T6(t.c0.b1), T7(t.c3.b2), T8(t.c2.b3)),
          Xor4(T5(t.c2.b0), T6(t.c1.b1), T7(t.c0.b2), T8(t.c3.b3)),
          Xor4(T5(t.c3.b0), T6(t.c2.b1), T7(t.c1.b2), T8(t.c0.b3)))
  }

  function KeyLookup(w: Word): Word { Xor4(U1(w.b0), U2(w.b1), U3(w.b2), U4(w.b3)) }

  /** Four lookups give a mixed column of substituted bytes. */
  lemma LookupIsMix(a: bv8, b: bv8, c: bv8, d: bv8)
    ensures Xor4(T1(a), T2(b), T3(c), T4(d)) == MixColumn(Word(S(a), S(b), S(c), S(d)))
  {
    hide S, Mul2, Mul3;
    AddsRegroup(Mul2(S(a)), Mul3(S(b)), S(c), S(d));
    AddsRegroup(S(a), Mul2(S(b)), Mul3(S(c)), S(d));
    AddsRegroup(S(a), S(b), Mul2(S(c)), Mul3(S(d)));
    AddsRegroup(Mul3(S(a)), S(b), S(c), Mul2(S(d)));
    hide Add, Add4;
  }

  lemma AddsRegroup(a: bv8, b: bv8, c: bv8, d: bv8)
    ensures Add(Add(Add(a, b), c), d) == Add4(a, b, c, d)
  {
    hide Add;
    AddAssociates(Add(a, b), c, d);
  }

  lemma KeyLookupIsInvMix(w: Word)
    ensures KeyLookup(w) == InvMixColumn(w)
  {
    hide Mul9, Mul11, Mul13, Mul14;
    AddsRegroup(Mul14(w.b0), Mul11(w.b1), Mul13(w.b2), Mul9(w.b3));
    AddsRegroup(Mul9(w.b0), Mul14(w.b1), Mul11(w.b2), Mul13(w.b3));
    AddsRegroup(Mul13(w.b0), Mul9(w.b1), Mul14(w.b2), Mul11(w.b3));
    AddsRegroup(Mul11(w.b0), Mul13(w.b1), Mul9(w.b2), Mul14(w.b3));
    hide Add, Add4;
  }

  lemma LookupIsRound(t: Block)
    ensures Lookup(t) == MixColumns(ShiftRows(SubBytes(t)))
  {
    LookupIsMix(t.c0.b0, t.c1.b1, t.c2.b2, t.c3.b3);
    LookupIsMix(t.c1.b0, t.c2.b1, t.c3.b2, t.c0.b3);
    LookupIsMix(t.c2.b0, t.c3.b1, t.c0.b2, t.c1.b3);
    LookupIsMix(t.c3.b0, t.c0.b1, t.c1.b2, t.c2.b3);
    hide S, T1, T2, T3, T4, Xor4, MixColumn;
  }

  lemma InvLookupIsRound(t: Block)
    ensures InvLookup(t) == InvMixColumns(InvShiftRows(InvSubBytes(t)))
  {
    var u := InvShiftRows(InvSubBytes(t));
    KeyLookupIsInvMix(u.c0);
    KeyLookupIsInvMix(u.c1);
    KeyLookupIsInvMix(u.c2);
    KeyLookupIsInvMix(u.c3);
    hide S5, U1, U2, U3, U4, Xor4, InvMixColumn;
  }

  // ---------------------------------------------------------------- the cipher object

  const MAX_KEY_COLUMNS := 8
  const MAX_ROUNDS := 14

  /** The round keys that an array of words holds, four words to a key. */
  function RoundKeys(w: seq<Word>): (keys: seq<Block>)
    ensures |keys| == |w| / 4
  {
    seq(|w| / 4, r requires 0 <= r < |w| / 4 => Block(w[4 * r], w[4 * r + 1], w[4 * r + 2], w[4 * r + 3]))
  }

  class Cipherer {
    var rounds: nat
    const expandedKey: array<Word>

    ghost predicate Valid()
      reads this
    {
      2 <= rounds <= MAX_ROUNDS && expandedKey.Length == 4 * (MAX_ROUNDS + 1)
    }

    ghost function Keys(): (keys: seq<Block>)
      requires Valid()
      reads this, expandedKey
      ensures |keys| == MAX_ROUNDS + 1
    {
      RoundKeys(expandedKey[..])
    }

    constructor ()
      ensures Valid() && fresh(expandedKey)
    {
      rounds := 2;
      expandedKey := new Word[4 * (MAX_ROUNDS + 1)](_ => Word(0, 0, 0, 0));
    }

    method RoundKey(r: nat) returns (k: Block)
      requires Valid() && r <= MAX_ROUNDS
      ensures k == Keys()[r]
    {
      k := Block(expandedKey[4 * r], expandedKey[4 * r + 1], expandedKey[4 * r + 2], expandedKey[4 * r + 3]);
    }

    /** RijndaelEncrypt. */
    method Encrypt(a: Block) returns (b: Block)
      requires Valid()
      ensures b == Cipher(Keys(), rounds, a)
    {
      hide S, Lookup, Xor, MixColumns, ShiftRows, SubBytes;
      ghost var keys := Keys();
      var k := RoundKey(0);
      var temp := Xor(a, k);
      b := Lookup(temp);
      LookupIsRound(temp);
      var r := 1;
      while r < rounds - 1
        invariant 1 <= r <= rounds - 1
        invariant b == MixColumns(ShiftRows(SubBytes(Rounds(keys, r - 1, a))))
      {
        k := RoundKey(r);
        temp := Xor(b, k);
        b := Lookup(temp);
        LookupIsRound(temp);
        r := r + 1;
      }
      k := RoundKey(rounds - 1);
      temp := Xor(b, k);
      b := LastLookup(temp);
      LastLookupIsRound(temp);
      k := RoundKey(rounds);
      b := Xor(b, k);
    }

    /** RijndaelDecrypt; the inner round keys are expected to be unmixed. */
    method Decrypt(a: Block) returns (b: Block)
      requires Valid()
      ensures b == EqInvCipher(Keys(), rounds, a)
    {
      hide S5, InvLookup, Xor, InvMixColumns, InvShiftRows, InvSubBytes;
      ghost var keys := Keys();
      var k := RoundKey(rounds);
      var temp := Xor(a, k);
      b := InvLookup(temp);
      InvLookupIsRound(temp);
      var r := rounds - 1;
      while r > 1
        invariant 1 <= r <= rounds - 1
        invariant b == InvMixColumns(InvShiftRows(InvSubBytes(EqInvRounds(keys, rounds, r + 1, a))))
      {
        k := RoundKey(r);
        temp := Xor(b, k);
        b := InvLookup(temp);
        InvLookupIsRound(temp);
        r := r - 1;
      }
      k := RoundKey(1);
      temp := Xor(b, k);
      b := InvLastLookup(temp);
      InvLastLookupIsRound(temp);
      k := RoundKey(0);
      b := Xor(b, k);
    }

    /** RijndaelKeyEncToDec: the round keys 1 to rounds - 1 are unmixed in place. */
    method KeyEncToDec()
      requires Valid()
      modifies expandedKey
      ensures Keys() == DecKeys(old(Keys()), rounds)
    {
      hide Mul9, Mul11, Mul13, Mul14, KeyLookup, InvMixColumn;
      ghost var w := expandedKey[..];
      var i := 4;
      while i < 4 * rounds
        invariant 4 <= i <= 4 * rounds
        invariant forall j :: 0 <= j < expandedKey.Length ==>
                    expandedKey[j] == if 4 <= j < i then InvMixColumn(w[j]) else w[j]
      {
        KeyLookupIsInvMix(expandedKey[i]);
        expandedKey[i] := KeyLookup(expandedKey[i]);
        i := i + 1;
      }
      forall r | 0 <= r <= MAX_ROUNDS
        ensures Keys()[r] == DecKeys(RoundKeys(w), rounds)[r]
      {
      }
    }
  }

  /** The last round of enciphering: substitution and shifting only. */
  function LastLookup(t: Block): Block {
    Block(Word(S(t.c0.b0), S(t.c1.b1), S(t.c2.b2), S(t.c3.b3)),
          Word(S(t.c1.b0), S(t.c2.b1), S(t.c3.b2), S(t.c0.b3)),
          Word(S(t.c2.b0), S(t.c3.b1), S(t.c0.b2), S(t.c1.b3)),
          Word(S(t.c3.b0), S(t.c0.b1), S(t.c1.b2), S(t.c2.b3)))
  }

  function InvLastLookup(t: Block): Block {
    Block(Word(S5(t.c0.b0), S5(t.c3.b1), S5(t.c2.b2), S5(t.c1.b3)),
          Word(S5(t.c1.b0), S5(t.c0.b1), S5(t.c3.b2), S5(t.c2.b3)),
          Word(S5(t.c2.b0), S5(t.c1.b1), S5(t.c0.b2), S5(t.c3.b3)),
          Word(S5(t.c3.b0), S5(t.c2.b1), S5(t.c1.b2), S5(t.c0.b3)))
  }

  lemma LastLookupIsRound(t: Block)
    ensures LastLookup(t) == ShiftRows(SubBytes(t))
  {
    hide S;
  }

  lemma InvLastLookupIsRound(t: Block)
    ensures InvLastLookup(t) == InvShiftRows(InvSubBytes(t))
  {
    hide S5;
  }
}
