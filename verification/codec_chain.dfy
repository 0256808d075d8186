/** What the page codec promises of the bytes of a page: cipher block chaining under a key and a vector that belong to
    the page alone. */
module CodecChain {
  import opened AesCipher
  import opened AesCbc
  import opened CodecVector
  import Md5

  /** A page number in four bytes, the lowest first. */
  function NumberBytes(n: nat): seq<bv8> {
    [(n % 256) as bv8, (n / 0x100 % 256) as bv8, (n / 0x1_0000 % 256) as bv8, (n / 0x100_0000 % 256) as bv8]
  }

  /** Sixteen bytes as a block, column by column. */
  function Sixteen(s: seq<bv8>, o: nat): Block
    requires o + 16 <= |s|
  {
    Block(Word(s[o], s[o + 1], s[o + 2], s[o + 3]), Word(s[o + 4], s[o + 5], s[o + 6], s[o + 7]),
          Word(s[o + 8], s[o + 9], s[o + 10], s[o + 11]), Word(s[o + 12], s[o + 13], s[o + 14], s[o + 15]))
  }

  /** The key of a page: the MD5 digest of the codec's key, the page number and "sAlT", in words. */
  ghost function KeyOf(key: seq<bv8>, page: nat): (k: seq<Word>)
    ensures |k| == 4
  {
    var b := Sixteen(Md5.Hash(key + NumberBytes(page) + [0x73, 0x41, 0x6c, 0x54]), 0);
    [b.c0, b.c1, b.c2, b.c3]
  }

  /** The vector of a page: the MD5 digest of the four values that the generator gives it. */
  ghost function VectorOf(page: nat): Block {
    var z := page + 1;
    Sixteen(Md5.Hash(NumberBytes(Stepped(z, 1)) + NumberBytes(Stepped(z, 2)) + NumberBytes(Stepped(z, 3))
                     + NumberBytes(Stepped(z, 4))), 0)
  }

  /** The block that is added to block j behind the cipher: the vector, or the encrypted block before. */
  ghost function Added(page: nat, t: seq<bv8>, at: nat, j: nat): Block
    requires at + 16 * j <= |t|
  {
    if j == 0 then VectorOf(page) else Sixteen(t, at + 16 * (j - 1))
  }

  /** From byte at on, the whole blocks of t are the encryption of those of s; the bytes behind them are the same. */
  ghost predicate Chained(key: seq<bv8>, page: nat, s: seq<bv8>, t: seq<bv8>, at: nat) {
    && |s| == |t| >= at
    && var n := (|s| - at) / 16;
       && (forall j :: 0 <= j < n ==>
             Decipher(KeyOf(key, page), Sixteen(t, at + 16 * j))
             == Xor(Sixteen(s, at + 16 * j), Added(page, t, at, j)))
       && t[at + 16 * n..] == s[at + 16 * n..]
  }

  /** The bytes of page 1 as they were when the second chain ended: bytes 8 to 15 belong to 16 to 23. */
  function MovedBack(t: seq<bv8>): (c: seq<bv8>)
    requires |t| >= 32
    ensures |c| == |t|
  {
    t[..16] + t[8..16] + t[24..]
  }

  /** Page 1, encrypted: the first half of the encryption of the first sixteen bytes, then a chain of its own for
      the bytes behind them, whose first half stands before the header, which stays as it was. */
  ghost predicate FirstPageChained(key: seq<bv8>, s: seq<bv8>, t: seq<bv8>) {
    && |s| == |t| >= 32
    && (exists c: seq<bv8> :: |c| == 16 && c[..8] == t[..8]
          && Decipher(KeyOf(key, 1), Sixteen(c, 0)) == Xor(Sixteen(s, 0), VectorOf(1)))
    && t[16..24] == s[16..24]
    && Chained(key, 1, s, MovedBack(t), 16)
  }

  ghost predicate PageChained(key: seq<bv8>, page: nat, s: seq<bv8>, t: seq<bv8>) {
    if page == 1 then FirstPageChained(key, s, t) else Chained(key, page, s, t, 0)
  }

  /** From byte at on, the whole blocks of s are the decryption of those of t. */
  ghost predicate Unchained(key: seq<bv8>, page: nat, t: seq<bv8>, s: seq<bv8>, at: nat) {
    && |s| == |t| >= at
    && var n := (|s| - at) / 16;
       && (forall j :: 0 <= j < n ==>
             Sixteen(s, at + 16 * j)
             == Xor(Decipher(KeyOf(key, page), Sixteen(t, at + 16 * j)), Added(page, t, at, j)))
       && s[at + 16 * n..] == t[at + 16 * n..]
  }

  /** "SQLite format 3" and a zero byte. */
  const FILE_HEADER: seq<bv8> := [
    0x53, 0x51, 0x4c, 0x69, 0x74, 0x65, 0x20, 0x66, 0x6f, 0x72, 0x6d, 0x61, 0x74, 0x20, 0x33, 0x00
  ]

  /** Page 1 with a header that passes the test, decrypted: the second chain, and before it the file header, unless the
      header has not come out as it is in the file. */
  ghost predicate FirstPageUnchained(key: seq<bv8>, t: seq<bv8>, s: seq<bv8>) {
    && |s| == |t| >= 32
    && Unchained(key, 1, MovedBack(t), s, 16)
    && s[..16] == if s[16..24] == t[16..24] then FILE_HEADER else t[..16]
  }
}
