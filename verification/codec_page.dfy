/** The page codec: every page is encrypted in place under its own key and vector, page 1 around its header. */
module CodecPage {
  import opened BlockHash
  import opened AesCipher
  import opened AesCbc
  import opened CodecChain
  import opened CodecVector
  import Modes = AesModes

  const KEY_LENGTH := 16
  const SALT: seq<bv8> := [0x73, 0x41, 0x6c, 0x54]

  /** The key of a page, in bytes: the MD5 digest of the key, the page number and the salt. */
  function PageKeyBytes(key: seq<bv8>, page: nat): (k: seq<bv8>)
    ensures |k| == 16
  {
    Md5.Hash(key + (LittleEndian(page, 4) + SALT))
  }

  function PageKey(key: seq<bv8>, page: nat): (k: seq<Word>)
    ensures |k| == 4
  {
    Modes.KeyWords(PageKeyBytes(key, page), 4)
  }

  function Vector(page: nat): Block {
    BlockAt(Md5.Hash(InitKey(page)), 0)
  }

  /** What CodecAES does to len bytes from at on. */
  function Run(encrypt: bool, key: seq<bv8>, page: nat, s: seq<bv8>, at: nat, len: nat): (r: seq<bv8>)
    requires at + len <= |s|
    ensures |r| == |s|
  {
    var blocks := BlocksAt(s, at, len / 16);
    Spliced(s, at, BytesOf(
      if encrypt then CbcEncrypted(PageKey(key, page), Vector(page), blocks)
      else CbcDecrypted(PageKey(key, page), Vector(page), blocks)))
  }

  // ---------------------------------------------------------------- what a run does to the bytes

  lemma DividedTwice(n: nat)
    ensures n / 0x100 / 0x100 == n / 0x1_0000 && n / 0x1_0000 / 0x100 == n / 0x100_0000
  {
  }

  lemma LowBytes(n: nat)
    ensures LittleEndian(n, 4) == NumberBytes(n)
  {
    DividedTwice(n);
    LowestFirst(n, 3);
    LowestFirst(n / 0x100, 2);
    LowestFirst(n / 0x1_0000, 1);
    LowestFirst(n / 0x100_0000, 0);
    hide LittleEndian;
    assert LittleEndian(n / 0x100_0000 / 256, 0) == [];
  }

  lemma LowestFirst(v: nat, n: nat)
    ensures LittleEndian(v, n + 1) == [(v % 256) as bv8] + LittleEndian(v / 256, n)
  {
  }

  lemma KeyIsKeyOf(key: seq<bv8>, page: nat)
    ensures PageKey(key, page) == KeyOf(key, page)
  {
    hide Md5.Hash, LittleEndian, NumberBytes;
    LowBytes(page);
    assert key + (NumberBytes(page) + SALT) == key + NumberBytes(page) + [0x73, 0x41, 0x6c, 0x54];
  }

  lemma VectorIsVectorOf(page: nat)
    ensures Vector(page) == VectorOf(page)
  {
    hide Md5.Hash, LittleEndian, NumberBytes, Stepped;
    LowBytes(Stepped(page + 1, 1));
    LowBytes(Stepped(page + 1, 2));
    LowBytes(Stepped(page + 1, 3));
    LowBytes(Stepped(page + 1, 4));
  }

  /** The blocks that a run leaves behind. */
  lemma RunBlocks(encrypt: bool, key: seq<bv8>, page: nat, s: seq<bv8>, at: nat)
    requires at <= |s|
    ensures var n, t := (|s| - at) / 16, Run(encrypt, key, page, s, at, |s| - at);
            && (forall j :: 0 <= j < n ==>
                  Sixteen(s, at + 16 * j) == BlocksAt(s, at, n)[j] && Sixteen(t, at + 16 * j) == BlocksAt(t, at, n)[j])
            && BlocksAt(t, at, n) == (if encrypt then CbcEncrypted(PageKey(key, page), Vector(page), BlocksAt(s, at, n))
                                      else CbcDecrypted(PageKey(key, page), Vector(page), BlocksAt(s, at, n)))
            && t[at + 16 * n..] == s[at + 16 * n..]
  {
    hide PageKey, Vector, CbcEncrypted, CbcDecrypted, BlockAt, Sixteen, BytesOf;
    var n := (|s| - at) / 16;
    var t := Run(encrypt, key, page, s, at, |s| - at);
    var c := if encrypt then CbcEncrypted(PageKey(key, page), Vector(page), BlocksAt(s, at, n))
             else CbcDecrypted(PageKey(key, page), Vector(page), BlocksAt(s, at, n));
    assert t == Spliced(s, at, BytesOf(c));
    SplicedIn(s, at, BytesOf(c), BytesOf(c));
    BlocksOfBytes(t, at, c);
    AtBlock(s, at, n);
    AtBlock(t, at, n);
  }

  lemma AtBlock(s: seq<bv8>, at: nat, n: nat)
    requires at + 16 * n <= |s|
    ensures forall j :: 0 <= j < n ==> Sixteen(s, at + 16 * j) == BlocksAt(s, at, n)[j]
  {
    forall j | 0 <= j < n ensures Sixteen(s, at + 16 * j) == BlocksAt(s, at, n)[j] {
      SixteenIsBlock(s, at + 16 * j);
    }
  }

  lemma SixteenIsBlock(s: seq<bv8>, o: nat)
    requires o + 16 <= |s|
    ensures Sixteen(s, o) == BlockAt(s, o)
  {
  }

  lemma RunIsChained(key: seq<bv8>, page: nat, s: seq<bv8>, at: nat)
    requires at <= |s|
    ensures Chained(key, page, s, Run(true, key, page, s, at, |s| - at), at)
  {
    hide Run, PageKey, Vector, CbcEncrypted, KeyOf, VectorOf, Sixteen, BlockAt, BlocksAt, Encipher, Decipher, Xor;
    RunBlocks(true, key, page, s, at);
    KeyIsKeyOf(key, page);
    VectorIsVectorOf(page);
    var n, t := (|s| - at) / 16, Run(true, key, page, s, at, |s| - at);
    var k, v, p := PageKey(key, page), Vector(page), BlocksAt(s, at, n);
    forall j | 0 <= j < n ensures Decipher(k, Sixteen(t, at + 16 * j)) == Xor(p[j], Added(page, t, at, j)) {
      CbcBlock(k, v, p, j);
      var before := Added(page, t, at, j);
      DecipherUndoes(k, Xor(before, p[j]));
      XorCommutes(before, p[j]);
    }
  }

  lemma RunIsUnchained(key: seq<bv8>, page: nat, t: seq<bv8>, at: nat)
    requires at <= |t|
    ensures Unchained(key, page, t, Run(false, key, page, t, at, |t| - at), at)
  {
    hide Run, PageKey, Vector, CbcDecrypted, KeyOf, VectorOf, Sixteen, BlockAt, BlocksAt, Decipher, Xor;
    RunBlocks(false, key, page, t, at);
    KeyIsKeyOf(key, page);
    VectorIsVectorOf(page);
    var n, s := (|t| - at) / 16, Run(false, key, page, t, at, |t| - at);
    forall j | 0 <= j < n
      ensures Sixteen(s, at + 16 * j) == Xor(Decipher(KeyOf(key, page), Sixteen(t, at + 16 * j)), Added(page, t, at, j))
    {
      CbcBlockBack(PageKey(key, page), Vector(page), BlocksAt(t, at, n), j);
    }
  }

  /** Each direction undoes the other. */
  lemma RunUndone(encrypt: bool, key: seq<bv8>, page: nat, s: seq<bv8>, at: nat, len: nat)
    requires at + len <= |s|
    ensures Run(!encrypt, key, page, Run(encrypt, key, page, s, at, len), at, len) == s
  {
    hide PageKey, Vector, BlockAt, CbcEncrypted, CbcDecrypted, BytesOf, BlocksAt, Spliced;
    var n := len / 16;
    var p := BlocksAt(s, at, n);
    var c := if encrypt then CbcEncrypted(PageKey(key, page), Vector(page), p)
             else CbcDecrypted(PageKey(key, page), Vector(page), p);
    var r := Run(encrypt, key, page, s, at, len);
    SplicedIn(s, at, BytesOf(c), BytesOf(p));
    BlocksOfBytes(r, at, c);
    CbcUndone(PageKey(key, page), Vector(page), p);
    CbcRedone(PageKey(key, page), Vector(page), p);
    BlocksOfBytes(s, at, p);
  }

  /** What is spliced in is found there; splicing in what was there undoes it. */
  lemma SplicedIn<T>(s: seq<T>, at: nat, x: seq<T>, y: seq<T>)
    requires at + |x| <= |s| && |x| == |y|
    ensures Spliced(s, at, x)[at..at + |x|] == x
    ensures s[at..at + |y|] == y ==> Spliced(Spliced(s, at, x), at, y) == s
  {
  }

  /** What the run makes of the bytes from at on depends on these bytes alone; those before stay. */
  lemma RunIsLocal(encrypt: bool, key: seq<bv8>, page: nat, s: seq<bv8>, t: seq<bv8>, at: nat, len: nat)
    requires |s| == |t| == at + len && s[at..] == t[at..]
    ensures Run(encrypt, key, page, s, at, len)[at..] == Run(encrypt, key, page, t, at, len)[at..]
    ensures Run(encrypt, key, page, s, at, len)[..at] == s[..at]
  {
    hide PageKey, Vector, CbcEncrypted, CbcDecrypted, BytesOf, BlockAt;
    var n := len / 16;
    assert s[at..at + 16 * n] == s[at..][..16 * n] == t[at..at + 16 * n];
    BlocksOfBytes(s, at, BlocksAt(s, at, n));
    BlocksOfBytes(t, at, BlocksAt(s, at, n));
    assert s[at + 16 * n..] == s[at..][16 * n..] == t[at + 16 * n..];
  }

  /** The test of a page size given by two bytes of the header. */
  predicate PageSizeTest(h0: bv8, h1: bv8) {
    var size := (h0 as bv32 << 8) | (h1 as bv32 << 16);
    512 <= size <= 65536 && (size - 1) & size == 0
  }

  /** It accepts the powers of two from 512 to 65536 in SQLite's coding, where 1 stands for 65536. */
  lemma PageSizes(h0: bv8, h1: bv8)
    ensures PageSizeTest(h0, h1) <==>
            || (h0 == 0 && h1 == 1)
            || (h1 == 0 && (h0 == 2 || h0 == 4 || h0 == 8 || h0 == 16 || h0 == 32 || h0 == 64 || h0 == 128))
  {
  }

  /** The test of bytes 16 to 23 of page 1. */
  predicate HeaderTest(h: seq<bv8>)
    requires |h| == 8
  {
    PageSizeTest(h[0], h[1]) && h[5] == 0x40 && h[6] == 0x20 && h[7] == 0x20
  }

  /** Bytes 16 to 23 move down by eight, over what was there, and the header takes their place. */
  function Shuffled<T>(b: seq<T>, header: seq<T>): (r: seq<T>)
    requires |b| >= 32 && |header| == 8
    ensures |r| == |b| && r[16..24] == header
    ensures Spliced(r, 16, r[8..16])[16..] == b[16..]
  {
    var moved := Spliced(b, 8, b[16..24]);
    var r := Spliced(moved, 16, header);
    assert r[8..16] == moved[8..16] == b[16..24];
    assert Spliced(r, 16, r[8..16])[16..] == b[16..24] + b[24..];
    r
  }

  /** What CodecEncrypt makes of a page. */
  function EncryptedPage(key: seq<bv8>, page: nat, s: seq<bv8>): (r: seq<bv8>)
    requires |s| >= 32
    ensures |r| == |s|
  {
    hide Run, Shuffled;
    if page == 1 then
      var a := Run(true, key, page, s, 0, 16);
      var b := Run(true, key, page, a, 16, |s| - 16);
      Shuffled(b, s[16..24])
    else
      Run(true, key, page, s, 0, |s|)
  }

  /** What CodecDecrypt makes of one. */
  function DecryptedPage(key: seq<bv8>, page: nat, s: seq<bv8>): (r: seq<bv8>)
    requires |s| >= 32
    ensures |r| == |s|
  {
    hide Run, PageSizeTest;
    if page == 1 && HeaderTest(s[16..24]) then
      var a := Spliced(s, 16, s[8..16]);
      var b := Run(false, key, page, a, 16, |s| - 16);
      if b[16..24] == s[16..24] then Spliced(b, 0, FILE_HEADER) else b
    else
      Run(false, key, page, s, 0, |s|)
  }

  /** Every page but the first comes back. */
  lemma PageComesBack(key: seq<bv8>, page: nat, s: seq<bv8>)
    requires |s| >= 32 && page != 1
    ensures DecryptedPage(key, page, EncryptedPage(key, page, s)) == s
  {
    RunUndone(true, key, page, s, 0, |s|);
  }

  /** On page 1 the header stays readable. */
  lemma HeaderStays(key: seq<bv8>, s: seq<bv8>)
    requires |s| >= 32
    ensures EncryptedPage(key, 1, s)[16..24] == s[16..24]
  {
    hide Run, Shuffled;
  }

  /** The bytes of page 1 from 16 on, once they are decrypted. */
  function TailOfPageOne(key: seq<bv8>, e: seq<bv8>): (d: seq<bv8>)
    requires |e| >= 32
    ensures |d| == |e|
  {
    hide Run;
    Run(false, key, 1, Spliced(e, 16, e[8..16]), 16, |e| - 16)
  }

  lemma TailComesBack(key: seq<bv8>, s: seq<bv8>)
    requires |s| >= 32
    ensures TailOfPageOne(key, EncryptedPage(key, 1, s))[16..] == s[16..]
  {
    hide Run, Shuffled, Spliced, TailOfPageOne;
    var len := |s| - 16;
    var a := Run(true, key, 1, s, 0, 16);
    var b := Run(true, key, 1, a, 16, len);
    var e := Shuffled(b, s[16..24]);
    assert EncryptedPage(key, 1, s) == e;
    FirstBlockOnly(key, s);
    RunUndone(true, key, 1, a, 16, len);
    var c := Spliced(e, 16, e[8..16]);
    RunIsLocal(false, key, 1, c, b, 16, len);
    TailIsRun(key, e);
  }

  lemma TailIsRun(key: seq<bv8>, e: seq<bv8>)
    requires |e| >= 32
    ensures TailOfPageOne(key, e) == Run(false, key, 1, Spliced(e, 16, e[8..16]), 16, |e| - 16)
  {
    hide Run;
  }

  lemma DecryptsWithHeader(key: seq<bv8>, e: seq<bv8>)
    requires |e| >= 32 && HeaderTest(e[16..24]) && TailOfPageOne(key, e)[16..24] == e[16..24]
    ensures DecryptedPage(key, 1, e) == Spliced(TailOfPageOne(key, e), 0, FILE_HEADER)
  {
    hide Run, Spliced, HeaderTest;
  }

  /**
   * The first page, its header passing the test, comes back exactly when it starts with the file header:
   * the ciphertext of bytes 8 to 15 is lost, and bytes 0 to 15 are not decrypted but put in.
   */
  lemma PageOneComesBack(key: seq<bv8>, s: seq<bv8>)
    requires |s| >= 32 && HeaderTest(s[16..24])
    ensures DecryptedPage(key, 1, EncryptedPage(key, 1, s)) == s <==> s[..16] == FILE_HEADER
    ensures DecryptedPage(key, 1, EncryptedPage(key, 1, s)) == FILE_HEADER + s[16..]
  {
    HeaderStays(key, s);
    TailComesBack(key, s);
    hide EncryptedPage, HeaderTest, TailOfPageOne, Spliced;
    var e := EncryptedPage(key, 1, s);
    HeaderPutIn(TailOfPageOne(key, e), s, FILE_HEADER);
    DecryptsWithHeader(key, e);
  }

  /**
   * A first page whose header fails the test is decrypted as it stands, with the moved bytes in it. It comes back
   * exactly when three parts of the page encrypted as a whole, in one chain, are what encrypting it around the header
   * has put there: bytes 8 to 15 the start of the second chain, bytes 16 to 23 the readable header, and the rest.
   */
  lemma PageOneWithoutHeader(key: seq<bv8>, s: seq<bv8>)
    requires |s| >= 32 && !HeaderTest(s[16..24])
    ensures DecryptedPage(key, 1, EncryptedPage(key, 1, s)) == Run(false, key, 1, EncryptedPage(key, 1, s), 0, |s|)
    ensures DecryptedPage(key, 1, EncryptedPage(key, 1, s)) == s <==> ChainsAgree(key, s)
  {
    hide EncryptedPage, HeaderTest, Run, InTwoChains, Shuffled;
    HeaderStays(key, s);
    InOneChain(key, s);
    ShuffledAgrees(Run(true, key, 1, s, 0, |s|), InTwoChains(key, s), s[16..24]);
    IsShuffled(key, s, s[16..24], InTwoChains(key, s));
    var e := EncryptedPage(key, 1, s);
    RunUndone(false, key, 1, e, 0, |s|);
    RunUndone(true, key, 1, s, 0, |s|);
  }

  /** Bytes 8 to 15, 16 to 23, and those behind. */
  ghost predicate ChainsAgree(key: seq<bv8>, s: seq<bv8>)
    requires |s| >= 32
  {
    var whole, parts := Run(true, key, 1, s, 0, |s|), InTwoChains(key, s);
    whole[8..16] == parts[16..24] && whole[16..24] == s[16..24] && whole[24..] == parts[24..]
  }

  /** Page 1 encrypted in two chains, the second from byte 16 on. */
  function InTwoChains(key: seq<bv8>, s: seq<bv8>): (r: seq<bv8>)
    requires |s| >= 32
    ensures |r| == |s|
  {
    hide Run;
    Run(true, key, 1, Run(true, key, 1, s, 0, 16), 16, |s| - 16)
  }

  lemma IsShuffled(key: seq<bv8>, s: seq<bv8>, header: seq<bv8>, parts: seq<bv8>)
    requires |s| >= 32 && header == s[16..24] && |header| == 8 && |parts| >= 32 && parts == InTwoChains(key, s)
    ensures EncryptedPage(key, 1, s) == Shuffled(parts, header)
  {
    hide Run, Shuffled;
  }

  /** When a string is another with its bytes moved around a header. */
  lemma ShuffledAgrees<T>(w: seq<T>, b: seq<T>, header: seq<T>)
    requires |w| == |b| >= 32 && |header| == 8 && w[..8] == b[..8]
    ensures Shuffled(b, header) == w <==> w[8..16] == b[16..24] && w[16..24] == header && w[24..] == b[24..]
  {
    assert Shuffled(b, header) == b[..8] + b[16..24] + header + b[24..];
    assert w == w[..8] + w[8..16] + w[16..24] + w[24..];
  }

  /** Both ways of encrypting page 1 begin with the same bytes. */
  lemma InOneChain(key: seq<bv8>, s: seq<bv8>)
    requires |s| >= 32
    ensures Run(true, key, 1, s, 0, |s|)[..8] == InTwoChains(key, s)[..8]
  {
    hide Run;
    var a, whole := Run(true, key, 1, s, 0, 16), Run(true, key, 1, s, 0, |s|);
    RunStarts(key, s);
    RunIsLocal(true, key, 1, a, a, 16, |s| - 16);
    var parts := InTwoChains(key, s);
    assert parts[..16] == a[..16] == whole[..16];
    assert parts[..8] == parts[..16][..8] && whole[..8] == whole[..16][..8];
  }

  /** The first block of a chain does not depend on how long it is. */
  lemma RunStarts(key: seq<bv8>, s: seq<bv8>)
    requires |s| >= 16
    ensures Run(true, key, 1, s, 0, |s|)[..16] == Run(true, key, 1, s, 0, 16)[..16]
  {
    hide PageKey, Vector, CbcEncrypted, BytesOf, BlockAt;
    var k, iv, p := PageKey(key, 1), Vector(1), BlocksAt(s, 0, |s| / 16);
    assert p[..1] == BlocksAt(s, 0, 1);
    CbcStarts(k, iv, p);
    BytesStart(CbcEncrypted(k, iv, p));
  }

  lemma HeaderPutIn<T>(d: seq<T>, s: seq<T>, header: seq<T>)
    requires |d| == |s| >= 32 && |header| == 16 && d[16..] == s[16..]
    ensures d[16..24] == s[16..24]
    ensures Spliced(d, 0, header) == header + s[16..]
    ensures Spliced(d, 0, header) == s <==> s[..16] == header
  {
    assert d[16..24] == d[16..][..8] == s[16..][..8] == s[16..24];
    assert s == s[..16] + s[16..];
  }

  lemma FirstBlockOnly(key: seq<bv8>, s: seq<bv8>)
    requires |s| >= 16
    ensures Run(true, key, 1, s, 0, 16)[16..] == s[16..]
  {
    hide CbcEncrypted, BytesOf, PageKey, Vector;
  }

  // ---------------------------------------------------------------- what the pages hold

  /** A chain is a matter of the bytes from its start on. */
  lemma ChainedHere(key: seq<bv8>, page: nat, s: seq<bv8>, t: seq<bv8>, s': seq<bv8>, t': seq<bv8>, at: nat)
    requires Chained(key, page, s, t, at) && |s'| == |t'| == |s| && s[at..] == s'[at..] && t[at..] == t'[at..]
    ensures Chained(key, page, s', t', at)
  {
    hide KeyOf, VectorOf, Decipher, Xor, Sixteen;
    var n := (|s| - at) / 16;
    forall j | 0 <= j < n
      ensures Sixteen(s, at + 16 * j) == Sixteen(s', at + 16 * j) && Sixteen(t, at + 16 * j) == Sixteen(t', at + 16 * j)
    {
      SameSixteen(s, s', at, at + 16 * j);
      SameSixteen(t, t', at, at + 16 * j);
    }
    forall j | 0 <= j < n ensures Added(page, t, at, j) == Added(page, t', at, j) {
      if j > 0 { SameSixteen(t, t', at, at + 16 * (j - 1)); }
    }
    assert s[at + 16 * n..] == s[at..][16 * n..] && t[at + 16 * n..] == t[at..][16 * n..];
    assert s'[at + 16 * n..] == s'[at..][16 * n..] && t'[at + 16 * n..] == t'[at..][16 * n..];
  }

  lemma UnchainedHere(key: seq<bv8>, page: nat, t: seq<bv8>, s: seq<bv8>, s': seq<bv8>, at: nat)
    requires Unchained(key, page, t, s, at) && |s'| == |s| && s[at..] == s'[at..]
    ensures Unchained(key, page, t, s', at)
  {
    hide KeyOf, VectorOf, Decipher, Xor, Sixteen;
    var n := (|s| - at) / 16;
    forall j | 0 <= j < n ensures Sixteen(s, at + 16 * j) == Sixteen(s', at + 16 * j) {
      SameSixteen(s, s', at, at + 16 * j);
    }
    assert s[at + 16 * n..] == s[at..][16 * n..] && s'[at + 16 * n..] == s'[at..][16 * n..];
  }

  lemma SameSixteen(s: seq<bv8>, t: seq<bv8>, at: nat, o: nat)
    requires |s| == |t| && at <= o && o + 16 <= |s| && s[at..] == t[at..]
    ensures Sixteen(s, o) == Sixteen(t, o)
  {
    assert forall i :: at <= i < |s| ==> s[i] == s[at..][i - at] == t[i];
  }

  /** Encrypting a page chains its blocks. */
  lemma EncryptedIsChained(key: seq<bv8>, page: nat, s: seq<bv8>)
    requires |s| >= 32
    ensures PageChained(key, page, s, EncryptedPage(key, page, s))
  {
    hide Run, Chained, FirstPageChained, Shuffled;
    RunIsChained(key, page, s, 0);
    if page == 1 { FirstPageIsChained(key, s); }
  }

  lemma FirstPageIsChained(key: seq<bv8>, s: seq<bv8>)
    requires |s| >= 32
    ensures FirstPageChained(key, s, EncryptedPage(key, 1, s))
  {
    hide Run, Chained, EncryptedPage, InTwoChains, KeyOf, VectorOf, Decipher, Xor, Sixteen;
    var t, whole, parts := EncryptedPage(key, 1, s), Run(true, key, 1, s, 0, |s|), InTwoChains(key, s);
    HeaderStays(key, s);
    IsShuffled(key, s, s[16..24], parts);
    InOneChain(key, s);
    FirstBlockChained(key, s);
    assert whole[..16][..8] == whole[..8] == parts[..8] == t[..8];
    TwoChainsChained(key, s);
    assert MovedBack(t)[16..] == parts[16..] by {
      assert MovedBack(t)[16..] == t[8..16] + t[24..];
      assert parts[16..] == parts[16..24] + parts[24..];
    }
    ChainedHere(key, 1, s, parts, s, MovedBack(t), 16);
  }

  lemma TwoChainsChained(key: seq<bv8>, s: seq<bv8>)
    requires |s| >= 32
    ensures Chained(key, 1, s, InTwoChains(key, s), 16)
  {
    hide Run, Chained;
    var a := Run(true, key, 1, s, 0, 16);
    FirstBlockOnly(key, s);
    RunIsChained(key, 1, a, 16);
    ChainedHere(key, 1, a, InTwoChains(key, s), s, InTwoChains(key, s), 16);
  }

  lemma FirstBlockChained(key: seq<bv8>, s: seq<bv8>)
    requires |s| >= 32
    ensures var c := Run(true, key, 1, s, 0, |s|)[..16];
            Decipher(KeyOf(key, 1), Sixteen(c, 0)) == Xor(Sixteen(s, 0), VectorOf(1))
  {
    hide Run, KeyOf, VectorOf, Decipher, Xor;
    var t := Run(true, key, 1, s, 0, |s|);
    RunIsChained(key, 1, s, 0);
    assert Decipher(KeyOf(key, 1), Sixteen(t, 0 + 16 * 0)) == Xor(Sixteen(s, 0 + 16 * 0), Added(1, t, 0, 0));
    assert Sixteen(t[..16], 0) == Sixteen(t, 0);
  }

  /** What decryption makes of a page, in terms of the blocks that are there. */
  ghost predicate PageUnchained(key: seq<bv8>, page: nat, t: seq<bv8>, s: seq<bv8>)
    requires |t| >= 32
  {
    if page == 1 && HeaderTest(t[16..24]) then FirstPageUnchained(key, t, s) else Unchained(key, page, t, s, 0)
  }

  lemma DecryptedIsUnchained(key: seq<bv8>, page: nat, t: seq<bv8>)
    requires |t| >= 32
    ensures PageUnchained(key, page, t, DecryptedPage(key, page, t))
  {
    hide Run, Unchained, FirstPageUnchained, HeaderTest;
    RunIsUnchained(key, page, t, 0);
    if page == 1 && HeaderTest(t[16..24]) { FirstPageIsUnchained(key, t); }
  }

  lemma FirstPageIsUnchained(key: seq<bv8>, t: seq<bv8>)
    requires |t| >= 32 && HeaderTest(t[16..24])
    ensures FirstPageUnchained(key, t, DecryptedPage(key, 1, t))
  {
    hide Run, Unchained, HeaderTest;
    var a, s := MovedBack(t), DecryptedPage(key, 1, t);
    assert a == Spliced(t, 16, t[8..16]);
    RunIsUnchained(key, 1, a, 16);
    RunIsLocal(false, key, 1, a, a, 16, |t| - 16);
    var b := Run(false, key, 1, a, 16, |t| - 16);
    assert s[16..] == b[16..];
    assert b[16..24] == b[16..][..8] && s[16..24] == s[16..][..8];
    UnchainedHere(key, 1, a, b, s, 16);
  }

  /** The codec's keys and cipher object. */
  class Codec {
    var readKey: seq<bv8>
    var writeKey: seq<bv8>
    const aes: Modes.Context

    ghost predicate Valid()
      reads this, aes, aes.core, aes.core.expandedKey
    {
      aes.Valid() && |readKey| == KEY_LENGTH && |writeKey| == KEY_LENGTH
    }

    /** CodecInit; the keys are given by what the code computes from a password. */
    constructor (read: seq<bv8>, write: seq<bv8>)
      requires |read| == |write| == KEY_LENGTH
      ensures Valid() && readKey == read && writeKey == write
      ensures fresh(aes) && fresh(aes.core) && fresh(aes.core.expandedKey)
    {
      readKey, writeKey := read, write;
      aes := new Modes.Context();
    }

    /** CodecAES on a part of the buffer, in place. */
    method Aes(page: nat, encrypt: bool, key: seq<bv8>, data: array<bv8>, at: nat, len: nat)
      requires Valid() && |key| == KEY_LENGTH && page + 1 < 0x8000_0000
      requires 16 <= len && at + len <= data.Length && aes.Apart(data)
      modifies data, aes, aes.core, aes.core.expandedKey
      ensures Valid() && data[..] == Run(encrypt, key, page, old(data[..]), at, len)
    {
      hide Md5.Hash, BlockAt, BytesOf, CbcEncrypted, CbcDecrypted, InitKey, Modes.Context.Valid;
      var nkey := key + (LittleEndian(page, 4) + SALT);
      var pageKey := GetMD5Binary(nkey);
      var initial := GenerateInitialVector(page);
      var direction := if encrypt then Modes.ENCRYPT else Modes.DECRYPT;
      var rc := aes.Init(Modes.CBC, direction, Modes.To(pageKey), Modes.KEY16, Modes.To(BlockAt(initial, 0)));
      if encrypt {
        rc := aes.BlockEncrypt(data, at, len * 8, data, at);
      } else {
        rc := aes.BlockDecrypt(data, at, len * 8, data, at);
      }
    }

    /** CodecEncrypt. */
    method Encrypt(page: nat, data: array<bv8>, useWriteKey: bool)
      requires Valid() && data.Length >= 32 && page + 1 < 0x8000_0000 && aes.Apart(data)
      modifies data, aes, aes.core, aes.core.expandedKey
      ensures Valid()
      ensures data[..] == EncryptedPage(if useWriteKey then writeKey else readKey, page, old(data[..]))
      ensures PageChained(if useWriteKey then writeKey else readKey, page, old(data[..]), data[..])
    {
      hide EncryptedPage, PageChained, Modes.Context.Valid;
      EncryptedIsChained(if useWriteKey then writeKey else readKey, page, data[..]);
      EncryptBuffer(page, data, useWriteKey);
    }

    /** The page in its parts. */
    method EncryptBuffer(page: nat, data: array<bv8>, useWriteKey: bool)
      requires Valid() && data.Length >= 32 && page + 1 < 0x8000_0000 && aes.Apart(data)
      modifies data, aes, aes.core, aes.core.expandedKey
      ensures Valid()
      ensures data[..] == EncryptedPage(if useWriteKey then writeKey else readKey, page, old(data[..]))
    {
      hide Run, Modes.Context.Valid;
      var key := if useWriteKey then writeKey else readKey;
      var offset := 0;
      var dbHeader: seq<bv8> := [];
      if page == 1 {
        dbHeader := data[16..24];
        offset := 16;
        Aes(page, true, key, data, 0, 16);
      }
      Aes(page, true, key, data, offset, data.Length - offset);
      if page == 1 {
        CopyInto(data, 8, data[16..24]);
        CopyInto(data, 16, dbHeader);
      }
    }

    /** CodecDecrypt. */
    method Decrypt(page: nat, data: array<bv8>)
      requires Valid() && data.Length >= 32 && page + 1 < 0x8000_0000 && aes.Apart(data)
      modifies data, aes, aes.core, aes.core.expandedKey
      ensures Valid() && data[..] == DecryptedPage(readKey, page, old(data[..]))
      ensures PageUnchained(readKey, page, old(data[..]), data[..])
    {
      hide DecryptedPage, PageUnchained, Modes.Context.Valid;
      DecryptedIsUnchained(readKey, page, data[..]);
      DecryptBuffer(page, data);
    }

    /** The page in its parts. */
    method DecryptBuffer(page: nat, data: array<bv8>)
      requires Valid() && data.Length >= 32 && page + 1 < 0x8000_0000 && aes.Apart(data)
      modifies data, aes, aes.core, aes.core.expandedKey
      ensures Valid() && data[..] == DecryptedPage(readKey, page, old(data[..]))
    {
      hide Run, Modes.Context.Valid, PageSizeTest;
      var offset := 0;
      var dbHeader: seq<bv8> := [];
      if page == 1 {
        dbHeader := data[16..24];
        if HeaderTest(dbHeader) {
          CopyInto(data, 16, data[8..16]);
          offset := 16;
        }
      }
      Aes(page, false, readKey, data, offset, data.Length - offset);
      if page == 1 && offset != 0 {
        if dbHeader == data[16..24] {
          CopyInto(data, 0, FILE_HEADER);
        }
      }
    }
  }

  /**
   * Which pages come back: all but page 1; and page 1, if its header passes the test, when it starts with the file
   * header, otherwise when one chain and two encrypt it to the same in the places that are moved or overwritten.
   */
  ghost predicate ComesBack(key: seq<bv8>, page: nat, s: seq<bv8>)
    requires |s| >= 32
  {
    if page != 1 then true
    else if HeaderTest(s[16..24]) then s[..16] == FILE_HEADER
    else ChainsAgree(key, s)
  }

  /** The round trip in place, with equal keys. */
  method RoundTrip(codec: Codec, page: nat, data: array<bv8>)
    requires codec.Valid() && codec.readKey == codec.writeKey && codec.aes.Apart(data)
    requires data.Length >= 32 && page + 1 < 0x8000_0000
    modifies data, codec.aes, codec.aes.core, codec.aes.core.expandedKey
    ensures data[..] == old(data[..]) <==> ComesBack(codec.readKey, page, old(data[..]))
  {
    hide EncryptedPage, DecryptedPage, HeaderTest, ChainsAgree, PageChained, PageUnchained, Modes.Context.Valid;
    if page != 1 {
      PageComesBack(codec.readKey, page, data[..]);
    } else if HeaderTest(data[16..24]) {
      PageOneComesBack(codec.readKey, data[..]);
    } else {
      PageOneWithoutHeader(codec.readKey, data[..]);
    }
    codec.Encrypt(page, data, true);
    codec.Decrypt(page, data);
  }
}
