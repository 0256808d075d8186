/** The code's SHA-224 and SHA-256 contexts: buffered update and the padding of the last blocks. */
module Sha256Context {
  import opened Basics
  import opened BlockHash
  import opened Sha256


  /** The padding the code writes: the length in bits takes 32 bits, the zeros before it reach further. */
  function CodePadding(n: nat): (p: seq<bv8>)
    ensures (n + |p|) % 64 == 0
  {
    EndsOnBlock(n);
    [0x80] + Zeros(CodeZeros(n)) + BigEndian(8 * n % TWO32, 4)
  }

  function CodeZeros(n: nat): (z: nat)
    ensures n % 64 + 5 + z == if n % 64 > 55 then 128 else 64
  {
    (119 - n % 64) % 64 + 4
  }

  /** It is the standard's padding exactly for messages under 2^29 bytes (the standard allows 2^61). */
  lemma CodePaddingIsStandard(n: nat)
    requires n < 0x2000_0000_0000_0000
    ensures CodePadding(n) == Padding(n) <==> n < 0x2000_0000
  {
    hide BigEndian, Zeros;
    var z := (119 - n % 64) % 64;
    var high, low := 8 * n / TWO32, 8 * n % TWO32;
    assert high < TWO32 && (high == 0 <==> n < 0x2000_0000);
    Power4();
    BigEndianSplits(low, high, 4, 4);
    BigEndianZero(high, 4);
    ZerosJoin(z, 4);
    var head := [0x80] + Zeros(z);
    assert CodePadding(n) == head + (Zeros(4) + BigEndian(low, 4));
    assert Padding(n) == head + (BigEndian(high, 4) + BigEndian(low, 4));
    SameMiddle(head, Zeros(4), BigEndian(high, 4), BigEndian(low, 4));
  }

  lemma SameMiddle<T>(head: seq<T>, a: seq<T>, b: seq<T>, tail: seq<T>)
    requires |a| == |b|
    ensures head + (a + tail) == head + (b + tail) <==> a == b
  {
    if head + (a + tail) == head + (b + tail) {
      assert a == (head + (a + tail))[|head|..|head| + |a|];
      assert b == (head + (b + tail))[|head|..|head| + |b|];
    }
  }

  lemma Power4()
    ensures Power256(4) == TWO32
  {
  }

  class Context {
    const variant: Variant
    const h: array<bv32>
    const block: array<bv8>
    var len: nat
    var totLen: nat
    ghost var message: seq<bv8>

    /** Whole blocks are in h, the rest waits in block[..len], totLen counts the former modulo 2^32. */
    ghost predicate Valid()
      reads this, h, block
    {
      && h.Length == 8 && block.Length == 128
      && len == |message| % 64 && totLen == Whole(|message|) % TWO32
      && h[..] == Absorbed(Compress, variant.Start(), message)
      && block[..len] == Waiting(message)
    }

    /** sha224_init and sha256_init. */
    constructor (v: Variant)
      ensures Valid() && fresh(h) && fresh(block) && message == [] && variant == v
    {
      var start := v.Start();
      variant, len, totLen, message := v, 0, 0, [];
      h := new bv32[8](i requires 0 <= i < 8 => start[i]);
      block := new bv8[128](_ => 0);
      new;
      assert h[..] == start;
    }

    /**
     * sha256_update. The sum len + |data| must not wrap, and block numbers times 64 must fit an int: both hold
     * for pieces below 2^31 bytes.
     */
    method Update(data: seq<bv8>, unrolled: bool)
      requires Valid() && |data| < 0x8000_0000
      modifies this, h, block
      ensures Valid() && message == old(message) + data
    {
      hide Compress, Fold, Absorbed, Waiting, Whole;
      ghost var before, start := message, variant.Start();
      var room := 64 - len;
      var rem := if |data| < room then |data| else room;
      CopyInto(block, len, data[..rem]);
      message := before + data;
      if len + |data| < 64 {
        assert data[..rem] == data;
        AbsorbTail(Compress, start, before, data);
        StaysWhole(|before|, |data|);
        len := len + |data|;
        return;
      }
      assert block[..64] == Waiting(before) + data[..rem];
      var newLen := |data| - rem;
      var blocks := newLen / 64;
      DigestBlocks(data, rem, blocks, unrolled, before);
      totLen := (totLen + (blocks + 1) * 64) % TWO32;
      CountOn(|before|, |data|);
      len := newLen % 64;
    }

    /** The completed block and the whole blocks after it go into h, what is left into the buffer. */
    method DigestBlocks(data: seq<bv8>, room: nat, blocks: nat, unrolled: bool, ghost before: seq<bv8>)
      requires h.Length == 8 && block.Length == 128
      requires |before| % 64 + |data| >= 64 && room == 64 - |before| % 64 && blocks == (|data| - room) / 64
      requires h[..] == Absorbed(Compress, variant.Start(), before) && block[..64] == Waiting(before) + data[..room]
      modifies h, block
      ensures h[..] == Absorbed(Compress, variant.Start(), before + data)
      ensures block[..|Waiting(before + data)|] == Waiting(before + data)
    {
      hide Compress, Fold, Absorbed, Waiting, Whole;
      var shifted := data[room..];
      AbsorbAll(before, data, variant.Start());
      Transf(h, block[..64], 1, unrolled);
      Transf(h, shifted, blocks, unrolled);
      assert block[..64][..64] == Waiting(before) + data[..room];
      CopyInto(block, 0, shifted[64 * blocks..]);
    }

    /** The last loop of the final functions. */
    method Unpack() returns (digest: seq<bv8>)
      requires h.Length == 8
      ensures digest == DigestBytes(h[..variant.Words()])
    {
      hide WordBytes;
      digest := [];
      for i := 0 to variant.Words()
        invariant digest == DigestBytes(h[..i])
      {
        assert h[..i + 1][..i] == h[..i];
        digest := digest + WordBytes(h[i]);
      }
    }

    /** The padding bytes behind n waiting ones, in a buffer of as many blocks as that takes. */
    method WritePadding(n: nat, blocks: nat, lenB: nat)
      requires block.Length == 128 && n + 5 <= 64 * blocks <= 128
      modifies block
      ensures block[..64 * blocks]
           == old(block[..n]) + ([0x80] + Zeros(64 * blocks - n - 5) + BigEndian(lenB, 4))
    {
      hide Zeros, BigEndian;
      var pmLen := 64 * blocks;
      ghost var waiting, last := block[..n], BigEndian(lenB, 4);
      CopyInto(block, n, Zeros(pmLen - n));
      ghost var zeros := block[..pmLen];
      block[n] := 0x80;
      ghost var marked := block[..pmLen];
      assert marked == zeros[n := 0x80];
      CopyInto(block, pmLen - 4, BigEndian(lenB, 4));
      assert block[..pmLen] == marked[..pmLen - 4] + last;
      PaddingParts(waiting, zeros, block[..pmLen], pmLen - n - 5, last);
    }

    /** The first half of the final functions: the padding goes behind the waiting bytes. */
    method Pad() returns (blocks: nat)
      requires Valid()
      modifies block
      ensures blocks <= 2 && block[..64 * blocks] == Waiting(message) + CodePadding(|message|)
    {
      hide Compress, Fold, Absorbed, Waiting, Zeros, BigEndian, CodeZeros, Whole;
      blocks := if 64 - 9 < len % 64 then 2 else 1;
      var lenB := (totLen + len) % TWO32 * 8 % TWO32;
      LengthInBits(|message|);
      WritePadding(len, blocks, lenB);
      assert CodeZeros(|message|) == 64 * blocks - len - 5;
    }

    /** sha224_final and sha256_final: pad the message and give its digest. */
    method Final(unrolled: bool) returns (digest: seq<bv8>)
      requires Valid()
      modifies this, h, block
      ensures var msg := old(message);
              digest == DigestBytes(HashValue(variant, msg + CodePadding(|msg|))[..variant.Words()])
      ensures |old(message)| < 0x2000_0000 ==> digest == Hash(variant, old(message))
    {
      hide Compress, Fold, Absorbed, Waiting, DigestBytes, CodePadding, Padding;
      var blocks := Pad();
      PaddedFold(Compress, variant.Start(), message, CodePadding(|message|));
      Transf(h, block[..], blocks, unrolled);
      assert block[..][..64 * blocks] == block[..64 * blocks];
      digest := Unpack();
      if |message| < 0x2000_0000 {
        CodePaddingIsStandard(|message|);
      }
    }
  }

  lemma LengthInBits(n: nat)
    ensures (Whole(n) % TWO32 + n % 64) % TWO32 * 8 % TWO32 == 8 * n % TWO32
  {
    var q := Whole(n) / TWO32;
    var rest := Whole(n) % TWO32 + n % 64;
    assert n == TWO32 * q + rest;
    var r := rest / TWO32;
    assert 8 * n == TWO32 * (8 * q + 8 * r) + rest % TWO32 * 8;
    SameWord(8 * n, 8 * q + 8 * r, rest % TWO32 * 8);
  }

  lemma SameWord(m: nat, k: int, r: nat)
    requires m == TWO32 * k + r
    ensures m % TWO32 == r % TWO32
  {
  }

  /** Zeros, the first of them marked, the last four written over. */
  lemma PaddingParts(waiting: seq<bv8>, zeros: seq<bv8>, padded: seq<bv8>, z: nat, last: seq<bv8>)
    requires zeros == waiting + Zeros(z + 5) && |last| == 4
    requires padded == zeros[|waiting| := 0x80][..|waiting| + 1 + z] + last
    ensures padded == waiting + ([0x80] + Zeros(z) + last)
  {
    hide Zeros;
    ZerosSlice(z + 5, 1, 1 + z);
    assert zeros[|waiting| := 0x80][..|waiting| + 1 + z] == waiting + [0x80] + Zeros(z + 5)[1..1 + z];
  }

  lemma InFourPieces<T>(before: seq<T>, data: seq<T>, room: nat, k: nat)
    requires room + k <= |data|
    ensures before + data[..room] + data[room..][..k] + data[room..][k..] == before + data
  {
  }

  /** Enough bytes to fill the waiting block: it and the whole blocks after it are absorbed. */
  lemma AbsorbAll(before: seq<bv8>, data: seq<bv8>, start: seq<bv32>)
    requires |before| % 64 + |data| >= 64
    ensures var room := 64 - |before| % 64;
            var blocks := (|data| - room) / 64;
            var shifted := data[room..];
            && Absorbed(Compress, start, before + data)
               == Fold(Compress, Fold(Compress, Absorbed(Compress, start, before), Waiting(before) + data[..room]),
                       shifted[..64 * blocks])
            && Waiting(before + data) == shifted[64 * blocks..]
  {
    hide Compress, Fold, Absorbed, Waiting;
    var room := 64 - |before| % 64;
    var blocks := (|data| - room) / 64;
    var shifted := data[room..];
    var first := before + data[..room];
    AbsorbBlock(Compress, start, before, data[..room]);
    FoldOne(Compress, Absorbed(Compress, start, before), Waiting(before) + data[..room]);
    AbsorbBlocks(Compress, start, first, shifted[..64 * blocks]);
    AbsorbTail(Compress, start, first + shifted[..64 * blocks], shifted[64 * blocks..]);
    InFourPieces(before, data, room, 64 * blocks);
  }

  lemma StaysWhole(n: nat, more: nat)
    requires n % 64 + more < 64
    ensures Whole(n + more) == Whole(n) && (n + more) % 64 == n % 64 + more
  {
    WholeAnd(n / 64, n % 64);
    WholeAnd(n / 64, n % 64 + more);
  }

  lemma CountOn(n: nat, more: nat)
    requires n % 64 + more >= 64
    ensures var blocks := (more - (64 - n % 64)) / 64;
            && Whole(n + more) == Whole(n) + (blocks + 1) * 64
            && (n + more) % 64 == (more - (64 - n % 64)) % 64
            && Whole(n + more) % TWO32 == (Whole(n) % TWO32 + (blocks + 1) * 64) % TWO32
  {
    var left := more - (64 - n % 64);
    var blocks, rest := left / 64, left % 64;
    WholeAnd(n / 64, n % 64);
    assert n + more == 64 * (n / 64 + blocks + 1) + rest;
    WholeAnd(n / 64 + blocks + 1, rest);
    SameWord(Whole(n) + (blocks + 1) * 64, Whole(n) / TWO32, Whole(n) % TWO32 + (blocks + 1) * 64);
  }

  /** However a message under 2^29 bytes is cut into pieces, the context gives its digest. */
  method HashPieces(variant: Variant, pieces: seq<seq<bv8>>, unrolled: bool) returns (digest: seq<bv8>)
    requires |Joined(pieces)| < 0x2000_0000
    ensures digest == Hash(variant, Joined(pieces))
  {
    hide Hash, HashValue;
    var context := new Context(variant);
    for i := 0 to |pieces|
      invariant context.Valid() && fresh(context) && fresh(context.h) && fresh(context.block)
      invariant context.variant == variant && context.message == Joined(pieces[..i])
    {
      assert pieces[..i + 1][..i] == pieces[..i];
      PrefixNoLonger(pieces, i + 1);
      context.Update(pieces[i], unrolled);
    }
    assert pieces[..|pieces|] == pieces;
    digest := context.Final(unrolled);
  }

  lemma {:induction false} PrefixNoLonger<T>(pieces: seq<seq<T>>, i: nat)
    requires i <= |pieces|
    ensures |Joined(pieces[..i])| <= |Joined(pieces)|
    decreases |pieces|
  {
    if i < |pieces| {
      PrefixNoLonger(pieces[..|pieces| - 1], i);
      assert pieces[..|pieces| - 1][..i] == pieces[..i];
    } else {
      assert pieces[..i] == pieces;
    }
  }
}
