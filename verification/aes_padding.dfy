/** Encryption of any number of bytes by padding to whole blocks, and taking the padding off again. In CBC
    mode the two undo each other; in ECB mode the code refuses a padding of a whole block, which it writes. */
module AesPadding {
  import opened Basics
  import opened AesCipher
  import opened AesCbc
  import opened AesModes
  import opened Bytes

  const CORRUPTED_DATA := -7
  const NO_SUCH_MODE := -1

  function Octet(n: nat): bv8
    requires n < 256
  {
    n as bv8
  }

  function Value(b: bv8): nat { b as nat }

  function PadLength(n: nat): (k: nat)
    ensures 1 <= k <= 16 && (n + k) % 16 == 0 && k == 16 - n % 16
  {
    Upwards(n / 16, n % 16);
    16 - n % 16
  }

  lemma Upwards(q: nat, r: nat)
    requires r < 16
    ensures (16 * q + r) / 16 == q && (16 * q + r) % 16 == r && (16 * q + r + (16 - r)) % 16 == 0
  {
  }

  /** The bytes with their padding: as many bytes as are missing, each holding that number. */
  function Padded(s: seq<bv8>): (p: seq<bv8>)
    ensures |p| == |s| + PadLength(|s|) && p[..|s|] == s
  {
    s + seq(PadLength(|s|), _ => Octet(PadLength(|s|)))
  }

  function PaddedBlocks(s: seq<bv8>): (b: seq<Block>)
    ensures |b| == |s| / 16 + 1
  {
    BlocksAt(Padded(s), 0, |s| / 16 + 1)
  }

  /** The lengths of padding that decryption takes. */
  predicate LengthTaken(mode: int, k: nat) {
    if mode == CBC then 0 < k <= 16 else k < 16
  }

  /** The last k bytes all hold k. */
  predicate EndsInPadding(p: seq<bv8>, k: nat)
    requires k <= |p|
  {
    forall i :: |p| - k <= i < |p| ==> Value(p[i]) == k
  }

  /** The bytes without their padding, if it is one that decryption takes. */
  function Unpadded(mode: int, p: seq<bv8>): (s: Option<seq<bv8>>)
    requires |p| >= 16
    ensures s.Some? ==> |s.value| <= |p|
  {
    var k := Value(p[|p| - 1]);
    if LengthTaken(mode, k) && EndsInPadding(p, k) then Some(p[..|p| - k]) else None
  }

  // ---------------------------------------------------------------- the padding comes off

  lemma OctetKeeps(n: nat)
    requires n < 256
    ensures Value(Octet(n)) == n
  {
    KeepsValue(n);
  }

  lemma ValueKeeps(b: bv8)
    ensures Value(b) < 256 && Octet(Value(b)) == b
  {
  }

  /** What decryption makes of padded bytes: it takes every padding, except one of a whole block in ECB mode. */
  lemma PaddingComesOff(mode: int, s: seq<bv8>)
    requires mode == ECB || mode == CBC
    ensures Unpadded(mode, Padded(s)) == if mode == ECB && |s| % 16 == 0 then None else Some(s)
  {
    hide Octet, Value;
    var k := PadLength(|s|);
    OctetKeeps(k);
    assert Padded(s)[|s| + k - 1] == Octet(k);
    assert EndsInPadding(Padded(s), k);
  }

  /** In CBC mode decryption takes nothing but padded bytes. */
  lemma OnlyPaddedIsTaken(p: seq<bv8>, s: seq<bv8>)
    requires |p| >= 16 && |p| % 16 == 0
    ensures Unpadded(CBC, p) == Some(s) <==> p == Padded(s)
  {
    hide Octet, Value;
    PaddingComesOff(CBC, s);
    if Unpadded(CBC, p) == Some(s) {
      var k := Value(p[|p| - 1]);
      assert |s| == |p| - k;
      SamePadLength(|p|, |s|);
      forall i | 0 <= i < |p| ensures p[i] == Padded(s)[i] {
        if i < |s| { assert p[i] == s[i]; } else { ValueKeeps(p[i]); }
      }
    }
  }

  lemma SamePadLength(m: nat, n: nat)
    requires m % 16 == 0 && n < m <= n + 16
    ensures PadLength(n) == m - n
  {
  }

  lemma BytesOfPadded(s: seq<bv8>)
    ensures BytesOf(PaddedBlocks(s)) == Padded(s)
  {
    hide BlockAt, BytesOf, BlocksAt;
    var p := Padded(s);
    BlocksOfBytes(p, 0, PaddedBlocks(s));
    assert p[0..|p|] == p;
  }

  lemma SameBytesSameBlocks(a: seq<Block>, b: seq<Block>)
    requires BytesOf(a) == BytesOf(b)
    ensures a == b
  {
    hide BlockAt, BytesOf, BlocksAt;
    BlocksOfBytes(BytesOf(a), 0, a);
    BlocksOfBytes(BytesOf(a), 0, b);
    assert BytesOf(a)[0..16 * |a|] == BytesOf(a);
  }

  /** What RijndaelPadDecrypt gives back of what RijndaelPadEncrypt wrote: the bytes, in CBC mode always, in
      ECB mode only when they do not fill whole blocks. */
  lemma PaddingUndone(mode: int, key: seq<Word>, iv: Block, s: seq<bv8>)
    requires |key| > 0 && (mode == ECB || mode == CBC)
    ensures Unpadded(mode, BytesOf(Decrypted(mode, key, iv, Encrypted(mode, key, iv, PaddedBlocks(s)))))
            == if mode == ECB && |s| % 16 == 0 then None else Some(s)
  {
    hide BytesOf, Decrypted, Encrypted, Unpadded, PaddedBlocks, Padded;
    ModesUndone(mode, key, iv, PaddedBlocks(s));
    BytesOfPadded(s);
    PaddingComesOff(mode, s);
  }

  /** In CBC mode the blocks from which decryption gives s are those that s is encrypted to, and no others. */
  lemma OnlyEncryptedIsTaken(key: seq<Word>, iv: Block, c: seq<Block>, s: seq<bv8>)
    requires |key| > 0 && c != []
    ensures Unpadded(CBC, BytesOf(Decrypted(CBC, key, iv, c))) == Some(s)
            <==> c == Encrypted(CBC, key, iv, PaddedBlocks(s))
  {
    hide BytesOf, Decrypted, Encrypted, Unpadded, PaddedBlocks, Padded;
    ModesUndone(CBC, key, iv, PaddedBlocks(s));
    ModesUndone(CBC, key, iv, c);
    BytesOfPadded(s);
    var d := Decrypted(CBC, key, iv, c);
    OnlyPaddedIsTaken(BytesOf(d), s);
    if BytesOf(d) == Padded(s) { SameBytesSameBlocks(d, PaddedBlocks(s)); }
  }

  // ---------------------------------------------------------------- the two functions

  /** RijndaelPadEncrypt, ECB and CBC: whole blocks as they are, then the rest with its padding. */
  method PadEncrypt(c: Context, input: array<bv8>, octets: int, output: array<bv8>) returns (rc: int)
    requires c.Valid() && c.Apart(output)
    requires octets <= input.Length && (octets > 0 ==> 16 * (octets / 16 + 1) <= output.Length)
    modifies output
    ensures c.invalid || c.direction != ENCRYPT ==> rc == NOT_INITIALIZED && output[..] == old(output[..])
    ensures !c.invalid && c.direction == ENCRYPT && octets <= 0 ==> rc == 0 && output[..] == old(output[..])
    ensures !c.invalid && c.direction == ENCRYPT && octets > 0 ==>
              if c.mode == ECB || c.mode == CBC then
                var plain := PaddedBlocks(old(input[..octets]));
                && rc == 16 * |plain|
                && output[..] == Spliced(old(output[..]), 0, BytesOf(Encrypted(c.mode, c.key, c.initVector, plain)))
              else
                rc == NO_SUCH_MODE && output[..] == old(output[..])
  {
    hide Encipher, Encrypted, BlockAt, BlockBytes, Xor, Spliced, BytesOf, KeySchedule, DecKeys, Padded, PaddedBlocks;
    if c.invalid || c.direction != ENCRYPT { return NOT_INITIALIZED; }
    if octets <= 0 { return 0; }
    if c.mode != ECB && c.mode != CBC { return NO_SUCH_MODE; }
    var numBlocks := octets / 16;
    ghost var was, given, plain := output[..], input[..], PaddedBlocks(input[..octets]);
    ghost var whole := BlocksAt(given, 0, numBlocks);
    BlocksOfPadded(given, octets);
    var iv := EncryptWhole(c, input, numBlocks, output, whole);
    ghost var coded := Encrypted(c.mode, c.key, c.initVector, whole);
    if input == output { RestBehindSplice(was, BytesOf(coded), octets); }
    var block := PaddedRest(input[16 * numBlocks..octets]);
    assert block == plain[numBlocks];
    if c.mode == CBC { block := Xor(iv, block); }
    block := c.EncryptBlock(block);
    EncryptedOn(c.mode, c.key, c.initVector, plain, numBlocks);
    Append(output, 0, was, coded, block, numBlocks);
    assert plain[..numBlocks + 1] == plain;
    return 16 * (numBlocks + 1);
  }

  /** The loop over whole blocks. */
  method EncryptWhole(c: Context, input: array<bv8>, numBlocks: nat, output: array<bv8>, ghost whole: seq<Block>)
    returns (iv: Block)
    requires c.Valid() && c.Apart(output) && !c.invalid && c.direction == ENCRYPT
    requires 16 * numBlocks <= input.Length && 16 * numBlocks <= output.Length
    requires whole == BlocksAt(input[..], 0, numBlocks)
    modifies output
    ensures var coded := Encrypted(c.mode, c.key, c.initVector, whole);
            && output[..] == Spliced(old(output[..]), 0, BytesOf(coded))
            && (c.mode == CBC ==> iv == Before(c.initVector, coded))
  {
    hide Encipher, Encrypted, BlockAt, BlockBytes, Xor, Spliced, BytesOf, KeySchedule, DecKeys;
    ghost var was := output[..];
    NothingWritten(c.mode, c.key, c.initVector, was, 0);
    iv := c.initVector;
    assert whole[..0] == [];
    EncryptedOfNone(c.mode, c.key, c.initVector);
    for i := 0 to numBlocks
      invariant c.Valid()
      invariant input != output ==> input[..] == old(input[..])
      invariant output[..] == Spliced(was, 0, BytesOf(Encrypted(c.mode, c.key, c.initVector, whole[..i])))
      invariant c.mode == CBC ==> iv == Before(c.initVector, Encrypted(c.mode, c.key, c.initVector, whole[..i]))
    {
      ghost var coded := Encrypted(c.mode, c.key, c.initVector, whole[..i]);
      var block := Fetch(input, 0, i, output, was, coded, whole);
      if c.mode == CBC { block := Xor(iv, block); }
      block := c.EncryptBlock(block);
      EncryptedOn(c.mode, c.key, c.initVector, whole, i);
      Append(output, 0, was, coded, block, i);
      iv := block;
    }
    assert whole[..numBlocks] == whole;
  }

  lemma EncryptedOfNone(mode: int, key: seq<Word>, iv: Block)
    requires |key| > 0
    ensures Encrypted(mode, key, iv, []) == []
  {
  }

  /** The last block: the bytes left, then the padding. */
  function PaddedRest(rest: seq<bv8>): Block
    requires |rest| < 16
  {
    BlockAt(Padded(rest), 0)
  }

  lemma BlocksOfPadded(given: seq<bv8>, n: nat)
    requires n <= |given|
    ensures var plain := PaddedBlocks(given[..n]);
            && plain[..n / 16] == BlocksAt(given, 0, n / 16)
            && plain[n / 16] == PaddedRest(given[16 * (n / 16)..n])
  {
    hide BlockAt, Padded;
    var p, b := Padded(given[..n]), n / 16;
    var rest := given[16 * b..n];
    forall j | 0 <= j < b ensures BlockAt(p, 16 * j) == BlockAt(given, 16 * j) {
      SameSlice(p, given, n, 16 * j, 16 * j + 16);
      SameBlock(p, given, 16 * j, 16 * j);
    }
    RestOfPadded(given[..n]);
    assert rest == given[..n][16 * b..];
    SameBlock(p, Padded(rest), 16 * b, 0);
  }

  lemma SameSlice<T>(s: seq<T>, t: seq<T>, n: nat, i: nat, j: nat)
    requires i <= j <= n <= |s| && n <= |t| && s[..n] == t[..n]
    ensures s[i..j] == t[i..j]
  {
    forall k | i <= k < j ensures s[k] == t[k] {
      assert s[k] == s[..n][k] && t[k] == t[..n][k];
    }
  }

  lemma RestOfPadded(s: seq<bv8>)
    ensures var b := 16 * (|s| / 16);
            |Padded(s)| == b + 16 && |Padded(s[b..])| == 16 && Padded(s)[b..b + 16] == Padded(s[b..])[0..16]
  {
    hide Octet;
    var b := 16 * (|s| / 16);
    assert |s[b..]| % 16 == |s| % 16;
    assert Padded(s)[b..] == Padded(s[b..]);
    assert Padded(s)[b..b + 16] == Padded(s)[b..];
    assert Padded(s[b..])[0..16] == Padded(s[b..]);
  }

  lemma SameBlock(s: seq<bv8>, t: seq<bv8>, o: nat, u: nat)
    requires o + 16 <= |s| && u + 16 <= |t| && s[o..o + 16] == t[u..u + 16]
    ensures BlockAt(s, o) == BlockAt(t, u)
  {
    BlockOfBytes(s, o, BlockAt(s, o));
    BlockOfBytes(t, u, BlockAt(s, o));
  }

  lemma RestBehindSplice(s: seq<bv8>, x: seq<bv8>, n: nat)
    requires |x| <= n <= |s|
    ensures Spliced(s, 0, x)[|x|..n] == s[|x|..n]
  {
  }

  /** RijndaelPadDecrypt, ECB and CBC: every block but the last is written at once, the last one when its
      padding has been found good. */
  method PadDecrypt(c: Context, input: array<bv8>, octets: int, output: array<bv8>) returns (rc: int)
    requires c.Valid() && c.Apart(output)
    requires octets <= input.Length && octets <= output.Length
    modifies output
    ensures c.invalid ==> rc == NOT_INITIALIZED && output[..] == old(output[..])
    ensures !c.invalid && c.direction != DECRYPT ==> rc == BAD_DIRECTION && output[..] == old(output[..])
    ensures !c.invalid && c.direction == DECRYPT && octets <= 0 ==> rc == 0 && output[..] == old(output[..])
    ensures !c.invalid && c.direction == DECRYPT && octets > 0 && octets % 16 != 0 ==>
              rc == CORRUPTED_DATA && output[..] == old(output[..])
    ensures !c.invalid && c.direction == DECRYPT && octets > 0 && octets % 16 == 0 ==>
              if c.mode == ECB || c.mode == CBC then
                var padded := BytesOf(Decrypted(c.mode, c.key, c.initVector, old(BlocksAt(input[..], 0, octets / 16))));
                match Unpadded(c.mode, padded)
                case Some(s) => rc == |s| && output[..] == Spliced(old(output[..]), 0, s)
                case None => rc == CORRUPTED_DATA && output[..] == Spliced(old(output[..]), 0, padded[..octets - 16])
              else
                rc == NO_SUCH_MODE && output[..] == old(output[..])
  {
    hide Decipher, Decrypted, BlockAt, BlockBytes, Xor, Spliced, BytesOf, KeySchedule, DecKeys, Unpadded;
    if c.invalid { return NOT_INITIALIZED; }
    if c.direction != DECRYPT { return BAD_DIRECTION; }
    if octets <= 0 { return 0; }
    if octets % 16 != 0 { return CORRUPTED_DATA; }
    if c.mode != ECB && c.mode != CBC { return NO_SUCH_MODE; }
    var last := octets / 16 - 1;
    ghost var was, coded := output[..], BlocksAt(input[..], 0, last + 1);
    ghost var padded := BytesOf(Decrypted(c.mode, c.key, c.initVector, coded));
    var iv := DecryptAllButLast(c, input, last, output, coded);
    ghost var p := Decrypted(c.mode, c.key, c.initVector, coded[..last]);
    var taken := Fetch(input, 0, last, output, was, p, coded);
    var block := c.DecryptBlock(taken);
    if c.mode == CBC { block := Xor(block, iv); }
    DecryptedOn(c.mode, c.key, c.initVector, coded, last);
    assert coded[..last + 1] == coded;
    var bytes := BlockBytes(block);
    LastBytes(p, block);
    rc := TakeLast(c.mode, bytes, octets, output, was, BytesOf(p));
    assert padded[..octets - 16] == BytesOf(p);
  }

  /** The last block: its padding is checked, and what is before the padding goes to the output. */
  method TakeLast(mode: int, bytes: seq<bv8>, octets: int, output: array<bv8>, ghost was: seq<bv8>, ghost p: seq<bv8>)
    returns (rc: int)
    requires |bytes| == 16 && octets == |p| + 16 <= output.Length == |was| && output[..] == Spliced(was, 0, p)
    modifies output
    ensures match Unpadded(mode, p + bytes)
            case Some(s) => rc == |s| && output[..] == Spliced(was, 0, s)
            case None => rc == CORRUPTED_DATA && output[..] == Spliced(was, 0, p)
  {
    hide Spliced, Unpadded, Value;
    var padLen := Value(bytes[15]);
    UnpaddedLast(mode, p, bytes);
    if !LengthTaken(mode, padLen) { return CORRUPTED_DATA; }
    for i := 16 - padLen to 16
      invariant output[..] == Spliced(was, 0, p)
      invariant forall j :: 16 - padLen <= j < i ==> Value(bytes[j]) == padLen
    {
      if Value(bytes[i]) != padLen { return CORRUPTED_DATA; }
    }
    StoreBytes(output, octets - 16, bytes[..16 - padLen]);
    SplicedOn(was, 0, p, bytes[..16 - padLen]);
    return octets - padLen;
  }

  /** The loop over all blocks but the last. */
  method DecryptAllButLast(c: Context, input: array<bv8>, last: nat, output: array<bv8>, ghost coded: seq<Block>)
    returns (iv: Block)
    requires c.Valid() && c.Apart(output) && !c.invalid && c.direction == DECRYPT
    requires 16 * last + 16 <= input.Length && 16 * last + 16 <= output.Length
    requires coded == BlocksAt(input[..], 0, last + 1)
    modifies output
    ensures output[..] == Spliced(old(output[..]), 0, BytesOf(Decrypted(c.mode, c.key, c.initVector, coded[..last])))
    ensures iv == Before(c.initVector, coded[..last])
    ensures input != output ==> input[..] == old(input[..])
  {
    hide Decipher, Decrypted, BlockAt, BlockBytes, Xor, Spliced, BytesOf, KeySchedule, DecKeys;
    ghost var was := output[..];
    NothingWritten(c.mode, c.key, c.initVector, was, 0);
    assert coded[..0] == [];
    iv := c.initVector;
    for i := 0 to last
      invariant c.Valid() && iv == Before(c.initVector, coded[..i])
      invariant input != output ==> input[..] == old(input[..])
      invariant output[..] == Spliced(was, 0, BytesOf(Decrypted(c.mode, c.key, c.initVector, coded[..i])))
    {
      ghost var p := Decrypted(c.mode, c.key, c.initVector, coded[..i]);
      var taken := Fetch(input, 0, i, output, was, p, coded);
      var block := c.DecryptBlock(taken);
      if c.mode == CBC { block := Xor(block, iv); }
      iv := taken;
      DecryptedOn(c.mode, c.key, c.initVector, coded, i);
      Append(output, 0, was, p, block, i);
    }
  }

  lemma LastBytes(p: seq<Block>, b: Block)
    ensures BytesOf(p + [b]) == BytesOf(p) + BlockBytes(b)
  {
    hide BlockBytes;
    assert (p + [b])[..|p|] == p;
  }

  /** The padding is judged by the last block alone. */
  lemma UnpaddedLast(mode: int, p: seq<bv8>, last: seq<bv8>)
    requires |last| == 16
    ensures var k := Value(last[15]);
            Unpadded(mode, p + last)
            == if LengthTaken(mode, k) && EndsInPadding(last, k) then Some(p + last[..16 - k]) else None
  {
    hide Value;
    var k, all := Value(last[15]), p + last;
    assert all[|all| - 1] == last[15];
    if LengthTaken(mode, k) {
      assert all[..|all| - k] == p + last[..16 - k];
      assert forall i :: 16 - k <= i < 16 ==> last[i] == all[|p| + i];
      assert forall i :: |all| - k <= i < |all| ==> all[i] == last[i - |p|];
    }
  }

  method StoreBytes(a: array<bv8>, at: nat, bytes: seq<bv8>)
    requires at + |bytes| <= a.Length
    modifies a
    ensures a[..] == Spliced(old(a[..]), at, bytes)
  {
    for i := 0 to |bytes|
      invariant forall k :: 0 <= k < i ==> a[at + k] == bytes[k]
      invariant forall k :: 0 <= k < a.Length && !(at <= k < at + i) ==> a[k] == old(a[k])
    {
      a[at + i] := bytes[i];
    }
  }
}
