/** The code's cipher object with its modes: initialisation, and ECB and CBC over byte buffers, also in place. */
module AesModes {
  import opened AesCipher
  import opened Rijndael
  import opened AesKeys
  import opened AesCbc

  const SUCCESS := 0
  const UNSUPPORTED_MODE := -1
  const UNSUPPORTED_DIRECTION := -2
  const UNSUPPORTED_KEY_LENGTH := -3
  const BAD_KEY := -4
  const NOT_INITIALIZED := -5
  const BAD_DIRECTION := -6

  const ENCRYPT := 0
  const DECRYPT := 1
  const ECB := 0
  const CBC := 1
  const CFB1 := 2
  const KEY16 := 0
  const KEY24 := 1
  const KEY32 := 2

  datatype Pointer<T> = Null | To(value: T)

  /** The words of a key given as bytes. */
  function KeyWords(bytes: seq<bv8>, nk: nat): (key: seq<Word>)
    requires 4 * nk <= |bytes|
    ensures |key| == nk
  {
    seq(nk, i requires 0 <= i < nk => Word(bytes[4 * i], bytes[4 * i + 1], bytes[4 * i + 2], bytes[4 * i + 3]))
  }

  /** How many words a key of the given kind has. */
  function WordsOfKind(keyLen: int): nat {
    if keyLen == KEY16 then 4 else if keyLen == KEY24 then 6 else if keyLen == KEY32 then 8 else 0
  }

  /** The answer of RijndaelInit: the first complaint in the order in which the code looks. */
  function InitAnswer(mode: int, direction: int, keyLen: int, hasKey: bool): int {
    if mode != CBC && mode != ECB && mode != CFB1 then UNSUPPORTED_MODE
    else if direction != ENCRYPT && direction != DECRYPT then UNSUPPORTED_DIRECTION
    else if WordsOfKind(keyLen) == 0 then UNSUPPORTED_KEY_LENGTH
    else if !hasKey then BAD_KEY
    else SUCCESS
  }

  const ZERO_VECTOR := Block(Word(0, 0, 0, 0), Word(0, 0, 0, 0), Word(0, 0, 0, 0), Word(0, 0, 0, 0))

  lemma ExpandedIsSchedule(w: seq<Word>, key: seq<Word>)
    requires |key| > 0 && Expanded(w, key, 4 * (|key| + 7))
    ensures |w| / 4 >= |key| + 7 && RoundKeys(w)[..|key| + 7] == KeySchedule(key)
  {
    hide KeyWord;
  }

  lemma DecKeysOfFirst(keys: seq<Block>, schedule: seq<Block>, n: nat)
    requires |schedule| == n + 1 <= |keys| && keys[..n + 1] == schedule
    ensures DecKeys(keys, n)[..n + 1] == DecKeys(schedule, n)
  {
    hide InvMixColumns;
    forall i | 0 <= i < n + 1
      ensures DecKeys(keys, n)[..n + 1][i] == DecKeys(schedule, n)[i]
    {
      assert keys[i] == schedule[i];
    }
  }

  /** How many blocks a call of RijndaelBlockEncrypt writes: in CBC mode always the first one. */
  function BlocksWritten(mode: int, bits: int): nat {
    if bits <= 0 then 0 else if mode == CBC && bits < 128 then 1 else bits / 128
  }

  /** What the blocks are encrypted to. */
  function Encrypted(mode: int, key: seq<Word>, iv: Block, p: seq<Block>): (c: seq<Block>)
    requires |key| > 0
    ensures |c| == |p|
  {
    if mode == CBC then CbcEncrypted(key, iv, p) else EachEnciphered(key, p)
  }

  function Decrypted(mode: int, key: seq<Word>, iv: Block, c: seq<Block>): (p: seq<Block>)
    requires |key| > 0
    ensures |p| == |c|
  {
    if mode == CBC then CbcDecrypted(key, iv, c) else EachDeciphered(key, c)
  }

  function EachEnciphered(key: seq<Word>, p: seq<Block>): (c: seq<Block>)
    requires |key| > 0
    ensures |c| == |p|
  {
    if p == [] then [] else EachEnciphered(key, p[..|p| - 1]) + [Encipher(key, p[|p| - 1])]
  }

  function EachDeciphered(key: seq<Word>, c: seq<Block>): (p: seq<Block>)
    requires |key| > 0
    ensures |p| == |c|
  {
    if c == [] then [] else EachDeciphered(key, c[..|c| - 1]) + [Decipher(key, c[|c| - 1])]
  }

  lemma {:induction false} EachBlock(key: seq<Word>, p: seq<Block>, j: nat)
    requires |key| > 0 && j < |p|
    ensures EachEnciphered(key, p)[j] == Encipher(key, p[j]) && EachDeciphered(key, p)[j] == Decipher(key, p[j])
  {
    hide Encipher, Decipher;
    if j < |p| - 1 {
      EachBlock(key, p[..|p| - 1], j);
    }
  }

  /** In both modes every block is enciphered, in CBC mode with the one before it or the vector added. */
  lemma BlocksOfModes(mode: int, key: seq<Word>, iv: Block, p: seq<Block>, j: nat)
    requires |key| > 0 && j < |p|
    ensures var c := Encrypted(mode, key, iv, p);
            Decipher(key, c[j]) == if mode == CBC then Xor(if j == 0 then iv else c[j - 1], p[j]) else p[j]
    ensures Decrypted(mode, key, iv, p)[j]
              == if mode == CBC then Xor(Decipher(key, p[j]), if j == 0 then iv else p[j - 1]) else Decipher(key, p[j])
  {
    hide Encipher, Decipher, Xor, EachEnciphered, EachDeciphered, CbcEncrypted, CbcDecrypted;
    EachBlock(key, p, j);
    CbcBlock(key, iv, p, j);
    CbcBlockBack(key, iv, p, j);
    DecipherUndoes(key, p[j]);
    DecipherUndoes(key, Xor(if j == 0 then iv else CbcEncrypted(key, iv, p)[j - 1], p[j]));
  }

  method LoadBlock(a: array<bv8>, o: nat) returns (b: Block)
    requires o + 16 <= a.Length
    ensures b == BlockAt(a[..], o)
  {
    b := Block(Word(a[o], a[o + 1], a[o + 2], a[o + 3]), Word(a[o + 4], a[o + 5], a[o + 6], a[o + 7]),
               Word(a[o + 8], a[o + 9], a[o + 10], a[o + 11]), Word(a[o + 12], a[o + 13], a[o + 14], a[o + 15]));
  }

  method StoreBlock(a: array<bv8>, o: nat, b: Block)
    requires o + 16 <= a.Length
    modifies a
    ensures a[..] == Spliced(old(a[..]), o, BlockBytes(b))
  {
    var bytes := BlockBytes(b);
    hide BlockBytes;
    for i := 0 to 16
      invariant forall k :: 0 <= k < i ==> a[o + k] == bytes[k]
      invariant forall k :: 0 <= k < a.Length && !(o <= k < o + i) ==> a[k] == old(a[k])
    {
      a[o + i] := bytes[i];
    }
  }

  class Context {
    var invalid: bool
    var mode: int
    var direction: int
    var initVector: Block
    const core: Cipherer
    ghost var key: seq<Word>

    /** When initialised, the expanded key is that of the key and ready for the direction. */
    ghost predicate Valid()
      reads this, core, core.expandedKey
    {
      && core.Valid()
      && (!invalid ==>
            && KeyLength(|key|) && core.rounds == |key| + 6
            && (direction == ENCRYPT || direction == DECRYPT)
            && (direction == ENCRYPT ==> core.Keys()[..|key| + 7] == KeySchedule(key))
            && (direction == DECRYPT ==> core.Keys()[..|key| + 7] == DecKeys(KeySchedule(key), |key| + 6)))
    }

    /** A buffer of bytes is not the array of key words. */
    ghost predicate Apart(a: array<bv8>) {
      a as object != core.expandedKey as object
    }

    /** RijndaelCreate. */
    constructor ()
      ensures Valid() && invalid && fresh(core) && fresh(core.expandedKey)
    {
      invalid, mode, direction, initVector, key := true, ECB, ENCRYPT, ZERO_VECTOR, [];
      core := new Cipherer();
    }

    /** RijndaelInit. */
    method Init(newMode: int, dir: int, keyBytes: Pointer<seq<bv8>>, keyLen: int,
                vector: Pointer<Block>) returns (rc: int)
      requires Valid()
      requires keyBytes.To? ==> 4 * WordsOfKind(keyLen) <= |keyBytes.value|
      modifies this, core, core.expandedKey
      ensures Valid() && rc == InitAnswer(newMode, dir, keyLen, keyBytes.To?)
      ensures invalid <==> rc != SUCCESS
      ensures rc == SUCCESS ==>
                && mode == newMode && direction == dir && key == KeyWords(keyBytes.value, WordsOfKind(keyLen))
                && initVector == if vector.To? then vector.value else ZERO_VECTOR
    {
      hide KeySchedule, DecKeys, RoundKeys, Expanded;
      invalid := true;
      if newMode != CBC && newMode != ECB && newMode != CFB1 {
        return UNSUPPORTED_MODE;
      }
      mode := newMode;
      if dir != ENCRYPT && dir != DECRYPT {
        return UNSUPPORTED_DIRECTION;
      }
      direction := dir;
      initVector := if vector.To? then vector.value else ZERO_VECTOR;
      var nk := WordsOfKind(keyLen);
      if nk == 0 {
        return UNSUPPORTED_KEY_LENGTH;
      }
      core.rounds := nk + 6;
      if keyBytes.Null? {
        return BAD_KEY;
      }
      var words := KeyWords(keyBytes.value, nk);
      key := words;
      KeySched(core, words);
      ExpandedIsSchedule(core.expandedKey[..], words);
      if dir == DECRYPT {
        ghost var keys := core.Keys();
        core.KeyEncToDec();
        DecKeysOfFirst(keys, KeySchedule(words), nk + 6);
      }
      invalid := false;
      return SUCCESS;
    }

    /** RijndaelEncrypt under the key of this object. */
    method EncryptBlock(a: Block) returns (b: Block)
      requires Valid() && !invalid && direction == ENCRYPT
      ensures b == Encipher(key, a)
    {
      hide Cipher, Encipher, KeySchedule, DecKeys;
      b := core.Encrypt(a);
      EnciphersUnder(core.Keys(), key, a);
    }

    /** RijndaelDecrypt under the key of this object. */
    method DecryptBlock(a: Block) returns (b: Block)
      requires Valid() && !invalid && direction == DECRYPT
      ensures b == Decipher(key, a)
    {
      hide EqInvCipher, Decipher, KeySchedule, DecKeys;
      b := core.Decrypt(a);
      DeciphersUnder(core.Keys(), key, a);
    }

    /** The ECB case. */
    method EncryptEach(input: array<bv8>, inAt: nat, output: array<bv8>, outAt: nat, numBlocks: nat,
                       ghost plain: seq<Block>)
      requires numBlocks == |plain|
      requires Valid() && !invalid && direction == ENCRYPT && mode == ECB
      requires inAt + 16 * |plain| <= input.Length && outAt + 16 * |plain| <= output.Length
      requires plain == BlocksAt(input[..], inAt, |plain|)
      requires input != output || inAt == outAt
      requires Apart(output)
      modifies output
      ensures output[..] == Spliced(old(output[..]), outAt, BytesOf(Encrypted(mode, key, initVector, plain)))
    {
      hide Encipher, Encrypted, BlockAt, BlockBytes, Xor, Spliced, BytesOf, KeySchedule, DecKeys;
      ghost var was := output[..];
      NothingWritten(mode, key, initVector, was, outAt);
      for i := 0 to numBlocks
        invariant Valid()
        invariant input != output ==> input[..] == old(input[..])
        invariant output[..] == Spliced(was, outAt, BytesOf(Encrypted(mode, key, initVector, plain[..i])))
      {
        var block := Fetch(input, inAt, i, output, was, Encrypted(mode, key, initVector, plain[..i]), plain);
        block := EncryptBlock(block);
        EncryptedOn(mode, key, initVector, plain, i);
        Append(output, outAt, was, Encrypted(mode, key, initVector, plain[..i]), block, i);
      }
      assert plain[..numBlocks] == plain;
    }

    /** The CBC case: the first block takes the vector, every other one the block written before it. */
    method EncryptChain(input: array<bv8>, inAt: nat, output: array<bv8>, outAt: nat, numBlocks: nat,
                        ghost plain: seq<Block>)
      requires |plain| == if numBlocks == 0 then 1 else numBlocks
      requires Valid() && !invalid && direction == ENCRYPT && mode == CBC
      requires inAt + 16 * |plain| <= input.Length && outAt + 16 * |plain| <= output.Length
      requires plain == BlocksAt(input[..], inAt, |plain|)
      requires input != output || inAt == outAt
      requires Apart(output)
      modifies output
      ensures output[..] == Spliced(old(output[..]), outAt, BytesOf(Encrypted(mode, key, initVector, plain)))
    {
      hide Encipher, Encrypted, BlockAt, BlockBytes, Xor, Spliced, BytesOf, KeySchedule, DecKeys;
      ghost var was := output[..];
      NothingWritten(mode, key, initVector, was, outAt);
      var block := Fetch(input, inAt, 0, output, was, Encrypted(mode, key, initVector, plain[..0]), plain);
      block := EncryptBlock(Xor(initVector, block));
      EncryptedOn(mode, key, initVector, plain, 0);
      Append(output, outAt, was, [], block, 0);
      var i := 1;
      while i < numBlocks
        invariant Valid()
        invariant input != output ==> input[..] == old(input[..])
        invariant 1 <= i <= |plain|
        invariant output[..] == Spliced(was, outAt, BytesOf(Encrypted(mode, key, initVector, plain[..i])))
      {
        ghost var c := Encrypted(mode, key, initVector, plain[..i]);
        block := Fetch(input, inAt, i, output, was, c, plain);
        InSplice(was, outAt, c, i - 1);
        var previous := LoadBlock(output, outAt + 16 * (i - 1));
        block := EncryptBlock(Xor(previous, block));
        EncryptedOn(mode, key, initVector, plain, i);
        Append(output, outAt, was, c, block, i);
        i := i + 1;
      }
      assert plain[..|plain|] == plain;
    }

    /**
     * RijndaelBlockEncrypt, ECB and CBC: the blocks from inAt on are encrypted to outAt on, in another buffer or
     * in place; what is left of the input after whole blocks is not touched.
     */
    method BlockEncrypt(input: array<bv8>, inAt: nat, bits: int, output: array<bv8>, outAt: nat) returns (rc: int)
      requires Valid() && (!invalid ==> mode == ECB || mode == CBC)
      requires inAt + 16 * BlocksWritten(mode, bits) <= input.Length
      requires outAt + 16 * BlocksWritten(mode, bits) <= output.Length
      requires input != output || inAt == outAt
      requires Apart(output)
      modifies output
      ensures invalid ==> rc == NOT_INITIALIZED && output[..] == old(output[..])
      ensures !invalid && direction != ENCRYPT ==> rc == BAD_DIRECTION && output[..] == old(output[..])
      ensures !invalid && direction == ENCRYPT ==>
                var n := BlocksWritten(mode, bits);
                var plain := old(BlocksAt(input[..], inAt, n));
                && rc == (if bits <= 0 then 0 else 128 * (bits / 128))
                && output[..] == Spliced(old(output[..]), outAt, BytesOf(Encrypted(mode, key, initVector, plain)))
    {
      hide Encipher, Encrypted, BlockAt, BlockBytes, Xor, Spliced, BytesOf, KeySchedule, DecKeys;
      ghost var was, n := output[..], BlocksWritten(mode, bits);
      if invalid {
        return NOT_INITIALIZED;
      }
      if direction != ENCRYPT {
        return BAD_DIRECTION;
      }
      NothingWritten(mode, key, initVector, was, outAt);
      if bits <= 0 {
        return 0;
      }
      var numBlocks := bits / 128;
      ghost var plain := BlocksAt(input[..], inAt, n);
      if mode == ECB {
        EncryptEach(input, inAt, output, outAt, numBlocks, plain);
      } else {
        EncryptChain(input, inAt, output, outAt, numBlocks, plain);
      }
      return 128 * numBlocks;
    }

    /** The decrypting cases: in CBC mode the ciphertext block is kept before its place is written over. */
    method DecryptAll(input: array<bv8>, inAt: nat, output: array<bv8>, outAt: nat, numBlocks: nat,
                      ghost coded: seq<Block>)
      requires Valid() && !invalid && direction == DECRYPT && (mode == ECB || mode == CBC) && numBlocks == |coded|
      requires inAt + 16 * |coded| <= input.Length && outAt + 16 * |coded| <= output.Length
      requires coded == BlocksAt(input[..], inAt, |coded|)
      requires input != output || inAt == outAt
      requires Apart(output)
      modifies output
      ensures output[..] == Spliced(old(output[..]), outAt, BytesOf(Decrypted(mode, key, initVector, coded)))
    {
      hide Decipher, Decrypted, BlockAt, BlockBytes, Xor, Spliced, BytesOf, KeySchedule, DecKeys;
      ghost var was := output[..];
      NothingWritten(mode, key, initVector, was, outAt);
      assert coded[..0] == [];
      var iv := initVector;
      for i := 0 to numBlocks
        invariant Valid() && iv == Before(initVector, coded[..i])
        invariant input != output ==> input[..] == old(input[..])
        invariant output[..] == Spliced(was, outAt, BytesOf(Decrypted(mode, key, initVector, coded[..i])))
      {
        ghost var p := Decrypted(mode, key, initVector, coded[..i]);
        var taken := Fetch(input, inAt, i, output, was, p, coded);
        var block := DecryptBlock(taken);
        if mode == CBC {
          block := Xor(block, iv);
        }
        iv := taken;
        DecryptedOn(mode, key, initVector, coded, i);
        Append(output, outAt, was, p, block, i);
      }
      assert coded[..numBlocks] == coded;
    }

    /** RijndaelBlockDecrypt, ECB and CBC. */
    method BlockDecrypt(input: array<bv8>, inAt: nat, bits: int, output: array<bv8>, outAt: nat) returns (rc: int)
      requires Valid() && (!invalid ==> mode == ECB || mode == CBC)
      requires bits > 0 ==> inAt + 16 * (bits / 128) <= input.Length && outAt + 16 * (bits / 128) <= output.Length
      requires outAt <= output.Length && inAt <= input.Length && (input != output || inAt == outAt)
      requires Apart(output)
      modifies output
      ensures invalid ==> rc == NOT_INITIALIZED && output[..] == old(output[..])
      ensures !invalid && direction == ENCRYPT ==> rc == BAD_DIRECTION && output[..] == old(output[..])
      ensures !invalid && direction == DECRYPT ==>
                var n := if bits <= 0 then 0 else bits / 128;
                var coded := old(BlocksAt(input[..], inAt, n));
                && rc == 128 * n
                && output[..] == Spliced(old(output[..]), outAt, BytesOf(Decrypted(mode, key, initVector, coded)))
    {
      hide Decipher, Decrypted, BlockAt, BlockBytes, Xor, Spliced, BytesOf, KeySchedule, DecKeys;
      if invalid {
        return NOT_INITIALIZED;
      }
      if direction == ENCRYPT {
        return BAD_DIRECTION;
      }
      NothingWritten(mode, key, initVector, output[..], outAt);
      if bits <= 0 {
        return 0;
      }
      DecryptAll(input, inAt, output, outAt, bits / 128, BlocksAt(input[..], inAt, bits / 128));
      return 128 * (bits / 128);
    }
  }

  /** One block more of the decryption. */
  lemma DecryptedOn(mode: int, key: seq<Word>, iv: Block, c: seq<Block>, i: nat)
    requires |key| > 0 && i < |c|
    ensures var block := Decipher(key, c[i]);
            Decrypted(mode, key, iv, c[..i + 1])
            == Decrypted(mode, key, iv, c[..i]) + [if mode == CBC then Xor(block, Before(iv, c[..i])) else block]
    ensures Before(iv, c[..i + 1]) == c[i]
  {
    hide Decipher, Xor;
    assert c[..i + 1][..i] == c[..i];
  }

  /** One block more of the encryption. */
  lemma EncryptedOn(mode: int, key: seq<Word>, iv: Block, p: seq<Block>, i: nat)
    requires |key| > 0 && i < |p|
    ensures var c := Encrypted(mode, key, iv, p[..i]);
            Encrypted(mode, key, iv, p[..i + 1])
            == c + [Encipher(key, if mode == CBC then Xor(Before(iv, c), p[i]) else p[i])]
    ensures Encrypted(mode, key, iv, p[..0]) == []
  {
    hide Encipher, Xor;
    assert p[..i + 1][..i] == p[..i];
  }

  /** The next input block, which writing the blocks before it has not changed. */
  method Fetch(input: array<bv8>, at: nat, i: nat, output: array<bv8>, ghost was: seq<bv8>, ghost c: seq<Block>,
               ghost blocks: seq<Block>)
    returns (block: Block)
    requires i < |blocks| && at + 16 * |blocks| <= input.Length && |c| == i
    requires input != output ==> BlocksAt(input[..], at, |blocks|) == blocks
    requires input == output ==>
               && |was| == input.Length && input[..] == Spliced(was, at, BytesOf(c))
               && BlocksAt(was, at, |blocks|) == blocks
    ensures block == blocks[i]
  {
    hide BlockAt, Spliced, BytesOf;
    block := LoadBlock(input, at + 16 * i);
    if input == output {
      BehindSplice(was, at, BytesOf(c), at + 16 * i);
      assert BlocksAt(was, at, |blocks|)[i] == BlockAt(was, at + 16 * i);
    } else {
      assert BlocksAt(input[..], at, |blocks|)[i] == BlockAt(input[..], at + 16 * i);
    }
  }

  lemma NothingWritten(mode: int, key: seq<Word>, iv: Block, s: seq<bv8>, at: nat)
    requires |key| > 0 && at <= |s|
    ensures Spliced(s, at, BytesOf(Encrypted(mode, key, iv, []))) == s
    ensures Spliced(s, at, BytesOf(Decrypted(mode, key, iv, []))) == s
  {
  }

  /** Writing one block more behind those written. */
  method Append(a: array<bv8>, at: nat, ghost was: seq<bv8>, ghost c: seq<Block>, b: Block, count: nat)
    requires |c| == count && at + 16 * count + 16 <= a.Length == |was|
    requires a[..] == Spliced(was, at, BytesOf(c))
    modifies a
    ensures a[..] == Spliced(was, at, BytesOf(c + [b]))
  {
    hide BlockBytes;
    StoreBlock(a, at + 16 * count, b);
    assert (c + [b])[..count] == c;
    SplicedOn(was, at, BytesOf(c), BlockBytes(b));
  }

  lemma SplicedOn<T>(s: seq<T>, at: nat, x: seq<T>, y: seq<T>)
    requires at + |x| + |y| <= |s|
    ensures Spliced(Spliced(s, at, x), at + |x|, y) == Spliced(s, at, x + y)
  {
  }

  /** Bytes after the splice are as they were. */
  lemma BehindSplice(s: seq<bv8>, at: nat, x: seq<bv8>, o: nat)
    requires at + |x| <= o && o + 16 <= |s|
    ensures BlockAt(Spliced(s, at, x), o) == BlockAt(s, o)
  {
  }

  /** The blocks in the splice are those it was made of. */
  lemma InSplice(s: seq<bv8>, at: nat, c: seq<Block>, j: nat)
    requires at + 16 * |c| <= |s| && j < |c|
    ensures BlockAt(Spliced(s, at, BytesOf(c)), at + 16 * j) == c[j]
  {
    hide BlockAt, BytesOf;
    var r := Spliced(s, at, BytesOf(c));
    assert r[at..at + 16 * |c|] == BytesOf(c);
    BlocksOfBytes(r, at, c);
    assert BlocksAt(r, at, |c|)[j] == c[j];
  }

  /** What one direction writes the other one takes back. */
  lemma {:induction false} ModesUndone(mode: int, key: seq<Word>, iv: Block, p: seq<Block>)
    requires |key| > 0
    ensures Decrypted(mode, key, iv, Encrypted(mode, key, iv, p)) == p
    ensures Encrypted(mode, key, iv, Decrypted(mode, key, iv, p)) == p
  {
    hide Encipher, Decipher, Xor;
    CbcUndone(key, iv, p);
    CbcRedone(key, iv, p);
    EachUndone(key, p);
  }

  lemma {:induction false} EachUndone(key: seq<Word>, p: seq<Block>)
    requires |key| > 0
    ensures EachDeciphered(key, EachEnciphered(key, p)) == p && EachEnciphered(key, EachDeciphered(key, p)) == p
  {
    hide Encipher, Decipher;
    if p != [] {
      var n := |p| - 1;
      EachUndone(key, p[..n]);
      DecipherUndoes(key, p[n]);
      assert EachEnciphered(key, p)[..n] == EachEnciphered(key, p[..n]);
      assert EachDeciphered(key, p)[..n] == EachDeciphered(key, p[..n]);
    }
  }
}
