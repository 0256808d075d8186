/** The cipher under a key, and cipher block chaining on blocks and on byte strings (NIST SP 800-38A, section 6.2). */
module AesCbc {
  import opened AesCipher
  import opened AesKeys

  // ---------------------------------------------------------------- the cipher under a key

  /** The round keys of a key of 4, 6 or 8 words. */
  function KeySchedule(key: seq<Word>): (keys: seq<Block>)
    requires |key| > 0
    ensures |keys| == |key| + 7
  {
    seq(|key| + 7, r requires 0 <= r < |key| + 7 =>
      Block(KeyWord(key, 4 * r), KeyWord(key, 4 * r + 1), KeyWord(key, 4 * r + 2), KeyWord(key, 4 * r + 3)))
  }

  function Encipher(key: seq<Word>, s: Block): Block
    requires |key| > 0
  {
    Cipher(KeySchedule(key), |key| + 6, s)
  }

  function Decipher(key: seq<Word>, s: Block): Block
    requires |key| > 0
  {
    InvCipher(KeySchedule(key), |key| + 6, s)
  }

  lemma DecipherUndoes(key: seq<Word>, s: Block)
    requires |key| > 0
    ensures Decipher(key, Encipher(key, s)) == s && Encipher(key, Decipher(key, s)) == s
  {
    hide Cipher, InvCipher, KeySchedule;
    InverseUndoesCipher(KeySchedule(key), |key| + 6, s);
    CipherUndoesInverse(KeySchedule(key), |key| + 6, s);
  }

  /** The first n + 1 round keys are all the cipher looks at. */
  lemma {:induction false} RoundsLookAt(a: seq<Block>, b: seq<Block>, r: nat, s: Block)
    requires r < |a| && r < |b| && a[..r + 1] == b[..r + 1]
    ensures Rounds(a, r, s) == Rounds(b, r, s)
  {
    hide Xor, MixColumns, ShiftRows, SubBytes;
    assert a[r] == a[..r + 1][r] == b[r];
    if r > 0 {
      assert a[..r] == a[..r + 1][..r] == b[..r];
      RoundsLookAt(a, b, r - 1, s);
    }
  }

  lemma {:induction false} EqInvRoundsLookAt(a: seq<Block>, b: seq<Block>, n: nat, r: nat, s: Block)
    requires 1 <= r <= n < |a| && n < |b| && a[..n + 1] == b[..n + 1]
    ensures EqInvRounds(a, n, r, s) == EqInvRounds(b, n, r, s)
    decreases n - r
  {
    hide Xor, InvMixColumns, InvShiftRows, InvSubBytes;
    assert a[r] == a[..n + 1][r] == b[r];
    if r < n {
      EqInvRoundsLookAt(a, b, n, r + 1, s);
    }
  }

  /** What RijndaelEncrypt computes under an expanded key. */
  lemma EnciphersUnder(keys: seq<Block>, key: seq<Word>, s: Block)
    requires |key| > 0 && |key| + 7 <= |keys| && keys[..|key| + 7] == KeySchedule(key)
    ensures Cipher(keys, |key| + 6, s) == Encipher(key, s)
  {
    hide Xor, ShiftRows, SubBytes, KeySchedule, Rounds;
    var n := |key| + 6;
    assert keys[n] == KeySchedule(key)[n];
    assert keys[..n] == keys[..n + 1][..n] == KeySchedule(key)[..n];
    RoundsLookAt(keys, KeySchedule(key), n - 1, s);
  }

  /** What RijndaelDecrypt computes under the unmixed keys. */
  lemma DeciphersUnder(dec: seq<Block>, key: seq<Word>, s: Block)
    requires |key| > 0 && |key| + 7 <= |dec|
    requires dec[..|key| + 7] == DecKeys(KeySchedule(key), |key| + 6)
    ensures EqInvCipher(dec, |key| + 6, s) == Decipher(key, s)
  {
    hide Xor, InvShiftRows, InvSubBytes, KeySchedule, DecKeys, Cipher, EqInvRounds;
    var keys, n := KeySchedule(key), |key| + 6;
    assert dec[0] == DecKeys(keys, n)[0];
    EqInvRoundsLookAt(dec, DecKeys(keys, n), n, 1, s);
    CipherUndoesInverse(keys, n, s);
    EquivalentInverseUndoesCipher(keys, n, Decipher(key, s));
  }

  // ---------------------------------------------------------------- chaining

  /** The block that is added before or after: the one before, or the initial vector. */
  function Before(iv: Block, c: seq<Block>): Block {
    if c == [] then iv else c[|c| - 1]
  }

  function CbcEncrypted(key: seq<Word>, iv: Block, p: seq<Block>): (c: seq<Block>)
    requires |key| > 0
    ensures |c| == |p|
  {
    if p == [] then []
    else
      var c := CbcEncrypted(key, iv, p[..|p| - 1]);
      c + [Encipher(key, Xor(Before(iv, c), p[|p| - 1]))]
  }

  function CbcDecrypted(key: seq<Word>, iv: Block, c: seq<Block>): (p: seq<Block>)
    requires |key| > 0
    ensures |p| == |c|
  {
    if c == [] then []
    else
      CbcDecrypted(key, iv, c[..|c| - 1])
      + [Xor(Decipher(key, c[|c| - 1]), Before(iv, c[..|c| - 1]))]
  }

  /** Block by block. */
  lemma {:induction false} CbcBlock(key: seq<Word>, iv: Block, p: seq<Block>, j: nat)
    requires |key| > 0 && j < |p|
    ensures var c := CbcEncrypted(key, iv, p); c[j] == Encipher(key, Xor(if j == 0 then iv else c[j - 1], p[j]))
  {
    hide Xor, Encipher;
    if j < |p| - 1 {
      CbcBlock(key, iv, p[..|p| - 1], j);
    }
  }

  lemma {:induction false} CbcBlockBack(key: seq<Word>, iv: Block, c: seq<Block>, j: nat)
    requires |key| > 0 && j < |c|
    ensures CbcDecrypted(key, iv, c)[j] == Xor(Decipher(key, c[j]), if j == 0 then iv else c[j - 1])
  {
    hide Xor, Decipher;
    if j < |c| - 1 {
      CbcBlockBack(key, iv, c[..|c| - 1], j);
    }
  }

  lemma XorCommutes(a: Block, b: Block)
    ensures Xor(a, b) == Xor(b, a)
  {
    XorWordsCommute(a.c0, b.c0);
    XorWordsCommute(a.c1, b.c1);
    XorWordsCommute(a.c2, b.c2);
    XorWordsCommute(a.c3, b.c3);
  }

  lemma XorWordsCommute(a: Word, b: Word)
    ensures XorWords(a, b) == XorWords(b, a)
  {
  }

  /** The first block of a chain does not depend on those behind it. */
  lemma {:induction false} CbcStarts(key: seq<Word>, iv: Block, p: seq<Block>)
    requires |key| > 0 && p != []
    ensures CbcEncrypted(key, iv, p)[..1] == CbcEncrypted(key, iv, p[..1])
  {
    hide Xor, Encipher;
    if |p| > 1 {
      CbcStarts(key, iv, p[..|p| - 1]);
      assert p[..|p| - 1][..1] == p[..1];
    } else {
      assert p[..1] == p;
    }
  }

  /** Chained decryption undoes chained encryption. */
  lemma {:induction false} CbcUndone(key: seq<Word>, iv: Block, p: seq<Block>)
    requires |key| > 0
    ensures CbcDecrypted(key, iv, CbcEncrypted(key, iv, p)) == p
  {
    hide Xor, Encipher, Decipher;
    if p != [] {
      var last := p[|p| - 1];
      var c := CbcEncrypted(key, iv, p[..|p| - 1]);
      var sum := Xor(Before(iv, c), last);
      CbcUndone(key, iv, p[..|p| - 1]);
      assert CbcEncrypted(key, iv, p)[..|p| - 1] == c;
      DecipherUndoes(key, sum);
      XorCommutes(Before(iv, c), last);
      XorUndoesItself(last, Before(iv, c));
    }
  }

  /** And the other way around: every string of blocks is the encryption of one. */
  lemma {:induction false} CbcRedone(key: seq<Word>, iv: Block, c: seq<Block>)
    requires |key| > 0
    ensures CbcEncrypted(key, iv, CbcDecrypted(key, iv, c)) == c
  {
    hide Xor, Encipher, Decipher;
    if c != [] {
      var last, before := c[|c| - 1], Before(iv, c[..|c| - 1]);
      CbcRedone(key, iv, c[..|c| - 1]);
      var p := CbcDecrypted(key, iv, c);
      assert p[..|p| - 1] == CbcDecrypted(key, iv, c[..|c| - 1]);
      XorCommutes(before, p[|p| - 1]);
      XorUndoesItself(Decipher(key, last), before);
      DecipherUndoes(key, last);
    }
  }

  // ---------------------------------------------------------------- blocks in byte strings

  function BlockAt(s: seq<bv8>, o: nat): Block
    requires o + 16 <= |s|
  {
    Block(Word(s[o], s[o + 1], s[o + 2], s[o + 3]), Word(s[o + 4], s[o + 5], s[o + 6], s[o + 7]),
          Word(s[o + 8], s[o + 9], s[o + 10], s[o + 11]), Word(s[o + 12], s[o + 13], s[o + 14], s[o + 15]))
  }

  function BlockBytes(b: Block): (s: seq<bv8>)
    ensures |s| == 16
  {
    [b.c0.b0, b.c0.b1, b.c0.b2, b.c0.b3, b.c1.b0, b.c1.b1, b.c1.b2, b.c1.b3,
     b.c2.b0, b.c2.b1, b.c2.b2, b.c2.b3, b.c3.b0, b.c3.b1, b.c3.b2, b.c3.b3]
  }

  /** n blocks from offset o on. */
  function BlocksAt(s: seq<bv8>, o: nat, n: nat): (b: seq<Block>)
    requires o + 16 * n <= |s|
    ensures |b| == n
  {
    seq(n, j requires 0 <= j < n => BlockAt(s, o + 16 * j))
  }

  /** A string with other bytes from o on. */
  function Spliced<T>(s: seq<T>, o: nat, with: seq<T>): (r: seq<T>)
    requires o + |with| <= |s|
    ensures |r| == |s|
  {
    s[..o] + with + s[o + |with|..]
  }

  /** The bytes of a string of blocks. */
  function BytesOf(b: seq<Block>): (s: seq<bv8>)
    ensures |s| == 16 * |b|
  {
    if b == [] then [] else BytesOf(b[..|b| - 1]) + BlockBytes(b[|b| - 1])
  }

  lemma {:induction false} BytesStart(b: seq<Block>)
    requires b != []
    ensures BytesOf(b)[..16] == BytesOf(b[..1])
  {
    if |b| > 1 {
      BytesStart(b[..|b| - 1]);
      assert b[..|b| - 1][..1] == b[..1];
    } else {
      assert b[..1] == b;
    }
  }

  lemma BlockOfBytes(s: seq<bv8>, o: nat, b: Block)
    requires o + 16 <= |s|
    ensures BlockAt(s, o) == b <==> s[o..o + 16] == BlockBytes(b)
  {
    assert s[o..o + 16] == [s[o], s[o + 1], s[o + 2], s[o + 3], s[o + 4], s[o + 5], s[o + 6], s[o + 7],
                            s[o + 8], s[o + 9], s[o + 10], s[o + 11], s[o + 12], s[o + 13], s[o + 14], s[o + 15]];
  }

  /** Reading blocks back from the bytes written of them. */
  lemma {:induction false} BlocksOfBytes(s: seq<bv8>, o: nat, b: seq<Block>)
    requires o + 16 * |b| <= |s|
    ensures s[o..o + 16 * |b|] == BytesOf(b) <==> BlocksAt(s, o, |b|) == b
  {
    hide BlockAt, BlockBytes;
    if b != [] {
      var n := |b| - 1;
      BlocksOfBytes(s, o, b[..n]);
      BlockOfBytes(s, o + 16 * n, b[n]);
      var all := s[o..o + 16 * |b|];
      assert all[..16 * n] == s[o..o + 16 * n] && all[16 * n..] == s[o + 16 * n..o + 16 * n + 16];
      assert all == all[..16 * n] + all[16 * n..];
      var bytes := BytesOf(b);
      assert bytes[..16 * n] == BytesOf(b[..n]) && bytes[16 * n..] == BlockBytes(b[n]);
      assert BlocksAt(s, o, |b|) == BlocksAt(s, o, n) + [BlockAt(s, o + 16 * n)];
      assert b == b[..n] + [b[n]];
    }
  }
}
