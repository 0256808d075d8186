/** The code's MD5 context: bytes arrive in pieces of any length and are hashed block by block. */
module Md5Context {
  import opened Basics
  import opened BlockHash
  import opened Md5

  /** The two 32-bit words of the bit count, read as one number. */
  function BitCount(low: nat, high: nat): nat {
    TWO32 * high + low
  }

  /** Adding two words, the code detects the carry by comparing. */
  lemma CarrySeen(low: nat, add: nat)
    requires low < TWO32 && add < TWO32
    ensures ((low + add) % TWO32 < low) <==> low + add >= TWO32
  {
  }

  /** The sum of two 32-bit words, as the code's unsigned type has it. */
  function Sum32(a: nat, b: nat): (s: nat)
    ensures s < TWO32
  {
    (a + b) % TWO32
  }

  lemma SumOfThree(a: nat, b: nat, c: nat)
    requires a < TWO32
    ensures Sum32(Sum32(a, b), c) == Sum32(a, b + c)
    ensures b == 0 ==> Sum32(a, b) == a
  {
    var two, three := a + b, Sum32(a, b) + c;
    WrapsAround(two);
    WrapsAround(three);
    WrapsAround(two + c);
    SameWord(three % TWO32, (two + c) % TWO32, (two + c) / TWO32 - two / TWO32 - three / TWO32);
    assert a + (b + c) == two + c;
  }

  /** Two words that differ by a multiple of 2^32 are equal. */
  lemma SameWord(x: nat, y: nat, k: int)
    requires x < TWO32 && y < TWO32 && x == y + TWO32 * k
    ensures x == y
  {
  }

  /** Adding a piece of len bytes to the two words of the count. */
  lemma CountsOn(low: nat, high: nat, n: nat, len: nat, low': nat, high': nat)
    requires low < TWO32 && high < TWO32 && low' < TWO32 && high' < TWO32
    requires BitCount(low, high) == 8 * n % TWO64
    requires low' == Sum32(low, 8 * len % TWO32)
    requires high' == Sum32(high, (if low' < low then 1 else 0) + len / 0x2000_0000)
    ensures BitCount(low', high') == 8 * (n + len) % TWO64
  {
    var add, top := 8 * len % TWO32, len / 0x2000_0000;
    ShiftSplits(len);
    CarrySeen(low, add);
    var carry := if low' < low then 1 else 0;
    SumWraps(low, add, carry);
    var over, turns := (high + (carry + top)) / TWO32, 8 * n / TWO64;
    WrapsAround(high + (carry + top));
    Turns(8 * n);
    hide Sum32, BitCount;
    CountMoves(low, high, low', high', add, carry, top, over);
    SameRemainder(BitCount(low', high'), 8 * (n + len), over + turns);
  }

  lemma ShiftSplits(len: nat)
    ensures 8 * len == TWO32 * (len / 0x2000_0000) + 8 * len % TWO32
  {
  }

  lemma SumWraps(low: nat, add: nat, carry: nat)
    requires low < TWO32 && add < TWO32 && carry == if low + add >= TWO32 then 1 else 0
    ensures Sum32(low, add) == low + add - TWO32 * carry
  {
  }

  lemma WrapsAround(p: nat)
    ensures p == TWO32 * (p / TWO32) + p % TWO32
  {
  }

  lemma Turns(m: nat)
    ensures m == TWO64 * (m / TWO64) + m % TWO64
  {
  }

  /** The words of the count after an addition, with the carries out of them. */
  lemma CountMoves(low: nat, high: nat, low': nat, high': nat, add: nat, carry: nat, top: nat, over: nat)
    requires low' == low + add - TWO32 * carry && high + carry + top == TWO32 * over + high'
    ensures BitCount(low', high') == BitCount(low, high) + TWO32 * top + add - TWO64 * over
  {
    assert TWO32 * high' == TWO32 * (high + carry + top) - TWO32 * TWO32 * over;
  }

  /** A number below 2^64 that differs from m by a multiple of 2^64 is the remainder of m. */
  lemma SameRemainder(r: nat, m: nat, q: int)
    requires r < TWO64 && m == r + TWO64 * q
    ensures r == m % TWO64
  {
  }

  /** The bit count's low word knows how many bytes wait in the buffer. */
  lemma WaitingBytes(low: nat, high: nat, n: nat)
    requires low < TWO32 && BitCount(low, high) == 8 * n % TWO64
    ensures low / 8 % 64 == n % 64
  {
    var q := 8 * n / TWO64;
    assert 8 * n == TWO64 * q + TWO32 * high + low;
    var k := 0x80_0000_0000_0000 * q + 0x80_0000 * high;
    assert 8 * n == 512 * k + low;
    Eighths(low, n - 64 * k);
    SameRest(n, k, low / 8);
  }

  lemma Eighths(low: nat, m: int)
    requires low == 8 * m
    ensures low / 8 == m
  {
  }

  lemma SameRest(n: nat, k: int, r: nat)
    requires n == 64 * k + r
    ensures n % 64 == r % 64
  {
  }

  /** The padding behind n waiting bytes, n below 56: it ends the block they are in. */
  lemma PaddingEndsBlock(msg: seq<bv8>, low: nat, high: nat)
    requires low < TWO32 && high < TWO32 && BitCount(low, high) == 8 * |msg| % TWO64
    requires |msg| % 64 < 56
    ensures var length := LittleEndian(low, 4) + LittleEndian(high, 4);
            var block := Waiting(msg) + ([0x80] + Zeros(55 - |msg| % 64)) + length;
            |block| == 64 && Hash(msg) == DigestBytes(Compress(Absorbed(Compress, INITIAL, msg), block))
  {
    hide DigestBytes, Compress, Absorbed, Zeros, LittleEndian, Waiting, INITIAL, Fold;
    LittleEndianSplits(low, high, 4, 4);
    var n := |msg| % 64;
    assert Padding(|msg|) == [0x80] + Zeros(55 - n) + (LittleEndian(low, 4) + LittleEndian(high, 4)) by {
      CountBelow(low, high);
    }
    var block := Waiting(msg) + ([0x80] + Zeros(55 - n)) + (LittleEndian(low, 4) + LittleEndian(high, 4));
    assert Waiting(msg) + Padding(|msg|) == block;
    PaddedFold(Compress, INITIAL, msg, Padding(|msg|));
    FoldOne(Compress, Absorbed(Compress, INITIAL, msg), block);
  }

  /** Behind 56 bytes or more the padding fills the block and takes one more. */
  lemma PaddingTakesOneMore(msg: seq<bv8>, low: nat, high: nat)
    requires low < TWO32 && high < TWO32 && BitCount(low, high) == 8 * |msg| % TWO64
    requires |msg| % 64 >= 56
    ensures var block := Waiting(msg) + ([0x80] + Zeros(63 - |msg| % 64));
            var last := Zeros(56) + (LittleEndian(low, 4) + LittleEndian(high, 4));
            |block| == 64 && |last| == 64
            && Hash(msg) == DigestBytes(Compress(Compress(Absorbed(Compress, INITIAL, msg), block), last))
  {
    hide DigestBytes, Compress, Absorbed, Zeros, LittleEndian, Waiting, INITIAL, Fold;
    LittleEndianSplits(low, high, 4, 4);
    var n := |msg| % 64;
    assert Padding(|msg|) == [0x80] + Zeros(119 - n) + (LittleEndian(low, 4) + LittleEndian(high, 4)) by {
      CountBelow(low, high);
    }
    ZerosJoin(63 - n, 56);
    var block := Waiting(msg) + ([0x80] + Zeros(63 - n));
    var last := Zeros(56) + (LittleEndian(low, 4) + LittleEndian(high, 4));
    assert Waiting(msg) + Padding(|msg|) == block + last;
    PaddedFold(Compress, INITIAL, msg, Padding(|msg|));
    FoldTwo(Compress, Absorbed(Compress, INITIAL, msg), block, last);
  }

  lemma CountBelow(low: nat, high: nat)
    ensures BitCount(low, high) == high * Power256(4) + low
  {
    assert Power256(4) == TWO32;
  }

  class Context {
    var buf: Digest
    var low: nat
    var high: nat
    const input: array<bv8>
    ghost var message: seq<bv8>

    /** The context holds the message: its whole blocks in buf, its length in bits, the rest in the buffer. */
    ghost predicate Valid()
      reads this, input
    {
      && input.Length == 64 && low < TWO32 && high < TWO32
      && BitCount(low, high) == 8 * |message| % TWO64
      && buf == Absorbed(Compress, INITIAL, message)
      && input[..|message| % 64] == Waiting(message)
    }

    /** MD5Init. */
    constructor ()
      ensures Valid() && fresh(input) && message == []
    {
      buf, low, high, message := INITIAL, 0, 0, [];
      input := new bv8[64](_ => 0);
    }

    /** The buffer goes into the digest. */
    method DigestInput()
      requires input.Length == 64
      modifies `buf
      ensures buf == Compress(old(buf), input[..])
    {
      buf := Transform(buf, Words(input[..]));
    }

    /** The full buffer goes into the digest: the bytes that waited after msg, and more. */
    method TakeBlock(ghost msg: seq<bv8>, ghost more: seq<bv8>)
      requires input.Length == 64 && |msg| % 64 + |more| == 64
      requires buf == Absorbed(Compress, INITIAL, msg) && input[..] == Waiting(msg) + more
      modifies `buf
      ensures buf == Absorbed(Compress, INITIAL, msg + more)
      ensures Waiting(msg + more) == [] && |msg + more| % 64 == 0
    {
      hide Absorbed, Waiting, Compress;
      DigestInput();
      AbsorbBlock(Compress, INITIAL, msg, more);
    }

    /** The first lines of MD5Update: the length of the piece enters the bit count. */
    method CountBytes(len: nat, ghost n: nat)
      requires len < TWO32 && low < TWO32 && high < TWO32
      requires BitCount(low, high) == 8 * n % TWO64
      modifies `low, `high
      ensures low < TWO32 && high < TWO32
      ensures BitCount(low, high) == 8 * (n + len) % TWO64
    {
      hide BitCount, TWO64;
      var t := low;
      low := Sum32(t, 8 * len % TWO32);
      if low < t {
        high := Sum32(high, 1);
      }
      high := Sum32(high, len / 0x2000_0000);
      SumOfThree(old(high), if low < t then 1 else 0, len / 0x2000_0000);
      hide Sum32;
      CountsOn(old(low), old(high), n, len, low, high);
    }

    /** The loop of MD5Update: block after block of the piece, from position from on. */
    method DigestWhole(data: seq<bv8>, from: nat, ghost before: seq<bv8>) returns (to: nat)
      requires input.Length == 64 && from <= |data| && |before + data[..from]| % 64 == 0
      requires Waiting(before + data[..from]) == [] && buf == Absorbed(Compress, INITIAL, before + data[..from])
      modifies `buf, input
      ensures to <= |data| < to + 64 && |before + data[..to]| % 64 == 0
      ensures Waiting(before + data[..to]) == [] && buf == Absorbed(Compress, INITIAL, before + data[..to])
    {
      hide Compress, Fold, Absorbed, INITIAL, Waiting;
      to := from;
      while |data| - to >= 64
        invariant to <= |data| && |before + data[..to]| % 64 == 0
        invariant Waiting(before + data[..to]) == []
        invariant buf == Absorbed(Compress, INITIAL, before + data[..to])
      {
        CopyInto(input, 0, data[to..to + 64]);
        TakeBlock(before + data[..to], data[to..to + 64]);
        Rejoined(before, data, to, to + 64);
        to := to + 64;
      }
    }

    /** MD5Update: whatever its length, the piece continues the message. */
    method Update(data: seq<bv8>)
      requires Valid() && |data| < TWO32
      modifies this, input
      ensures Valid() && message == old(message) + data
    {
      hide Compress, Fold, Absorbed, INITIAL, BitCount, TWO64, TWO32, Waiting;
      ghost var before := message;
      var t := low;
      WaitingBytes(low, high, |message|);
      CountBytes(|data|, |before|);
      message := before + data;
      t := t / 8 % 64;
      var from := 0;
      if t != 0 {
        var room := 64 - t;
        if |data| < room {
          CopyInto(input, t, data);
          AbsorbTail(Compress, INITIAL, before, data);
          return;
        }
        CopyInto(input, t, data[..room]);
        TakeBlock(before, data[..room]);
        from := room;
      } else {
        assert before + data[..from] == before;
      }
      from := DigestWhole(data, from, before);
      var rest := data[from..];
      CopyInto(input, 0, rest);
      AbsorbTail(Compress, INITIAL, before + data[..from], rest);
      Rejoined(before, data, from, |data|);
      assert Waiting(message) == rest;
    }

    /** MD5Final: pad the message and give its digest. */
    method Final() returns (digest: seq<bv8>)
      requires Valid()
      modifies this, input
      ensures digest == Hash(old(message))
    {
      hide Compress, Absorbed, INITIAL, BitCount, TWO64, TWO32, Waiting, Hash, DigestBytes, Zeros, LittleEndian;
      WaitingBytes(low, high, |message|);
      var count := low / 8 % 64;
      CopyInto(input, count, [0x80]);
      count := 64 - 1 - count;
      if count < 8 {
        CopyInto(input, 64 - count, Zeros(count));
        PaddingTakesOneMore(message, low, high);
        assert input[..] == Waiting(message) + ([0x80] + Zeros(count));
        DigestInput();
        CopyInto(input, 0, Zeros(56));
        assert input[..56] == Zeros(56);
      } else {
        CopyInto(input, 64 - count, Zeros(count - 8));
        PaddingEndsBlock(message, low, high);
        assert input[..56] == Waiting(message) + ([0x80] + Zeros(count - 8));
      }
      ghost var lead := input[..56];
      CopyInto(input, 56, LittleEndian(low, 4) + LittleEndian(high, 4));
      assert input[..] == lead + (LittleEndian(low, 4) + LittleEndian(high, 4));
      DigestInput();
      digest := DigestBytes(buf);
    }
  }

  /** However a message is cut into pieces, updating with them one after the other gives its digest. */
  method HashPieces(pieces: seq<seq<bv8>>) returns (digest: seq<bv8>)
    requires forall i :: 0 <= i < |pieces| ==> |pieces[i]| < TWO32
    ensures digest == Hash(Joined(pieces))
  {
    hide Hash;
    var context := new Context();
    for i := 0 to |pieces|
      invariant context.Valid() && fresh(context) && fresh(context.input)
      invariant context.message == Joined(pieces[..i])
    {
      context.Update(pieces[i]);
      assert pieces[..i + 1][..i] == pieces[..i];
    }
    assert pieces[..|pieces|] == pieces;
    digest := context.Final();
  }
}
