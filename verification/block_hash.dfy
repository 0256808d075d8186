/** What iterated hash functions share: a compression function folded over the blocks of a message. */
module BlockHash {
  import Bytes

  /** The value after all blocks of a message whose length is a multiple of 64. */
  function Fold<T, D>(f: (D, seq<T>) -> D, d: D, msg: seq<T>): D
    requires |msg| % 64 == 0
  {
    if |msg| == 0 then d
    else f(Fold(f, d, msg[..|msg| - 64]), msg[|msg| - 64..])
  }

  /** Folding over a concatenation is folding over its parts, one after the other. */
  lemma {:induction false} FoldJoins<T, D>(f: (D, seq<T>) -> D, d: D, a: seq<T>, b: seq<T>)
    requires |a| % 64 == 0 && |b| % 64 == 0
    ensures Fold(f, d, a + b) == Fold(f, Fold(f, d, a), b)
  {
    if b == [] {
      assert a + b == a;
    } else {
      var ab := a + b;
      assert ab[..|ab| - 64] == a + b[..|b| - 64];
      assert ab[|ab| - 64..] == b[|b| - 64..];
      FoldJoins(f, d, a, b[..|b| - 64]);
    }
  }

  lemma FoldOne<T, D>(f: (D, seq<T>) -> D, d: D, block: seq<T>)
    requires |block| == 64
    ensures Fold(f, d, block) == f(d, block)
  {
    assert block[..0] == [];
    assert block[0..] == block;
  }

  /** How many bytes of a message of length n lie in whole blocks. */
  function Whole(n: nat): (w: nat)
    ensures w <= n < w + 64 && w % 64 == 0
  {
    n - n % 64
  }

  /** A number of whole blocks and less than a block. */
  lemma WholeAnd(q: nat, r: nat)
    requires r < 64
    ensures Whole(64 * q + r) == 64 * q && (64 * q + r) % 64 == r
  {
  }

  /** Both standards pad to whole blocks: a byte 0x80, zeros, and eight bytes for the length. */
  lemma EndsOnBlock(n: nat)
    ensures (n + 9 + (119 - n % 64) % 64) % 64 == 0
  {
  }

  /** The value after a message's whole blocks: what a hash context has absorbed. */
  function Absorbed<T, D>(f: (D, seq<T>) -> D, d: D, msg: seq<T>): D {
    Fold(f, d, msg[..Whole(|msg|)])
  }

  /** The bytes after a message's whole blocks: what a hash context keeps waiting. */
  function Waiting<T>(msg: seq<T>): (w: seq<T>)
    ensures |w| == |msg| % 64
  {
    msg[Whole(|msg|)..]
  }

  /** The waiting bytes and the bytes that complete their block are absorbed together. */
  lemma AbsorbBlock<T, D>(f: (D, seq<T>) -> D, d: D, msg: seq<T>, more: seq<T>)
    requires |msg| % 64 + |more| == 64
    ensures Absorbed(f, d, msg + more) == f(Absorbed(f, d, msg), Waiting(msg) + more)
    ensures Waiting(msg + more) == [] && |msg + more| % 64 == 0
  {
    var whole, block := msg[..Whole(|msg|)], Waiting(msg) + more;
    assert (msg + more)[..|msg + more|] == msg + more == whole + block;
    FoldJoins(f, d, whole, block);
    FoldOne(f, Fold(f, d, whole), block);
  }

  /** Whole blocks after whole blocks. */
  lemma AbsorbBlocks<T, D>(f: (D, seq<T>) -> D, d: D, msg: seq<T>, more: seq<T>)
    requires |msg| % 64 == 0 && |more| % 64 == 0
    ensures Absorbed(f, d, msg + more) == Fold(f, Absorbed(f, d, msg), more)
    ensures Waiting(msg + more) == [] && |msg + more| % 64 == 0
  {
    hide Fold;
    assert Whole(|msg|) == |msg| && Whole(|msg + more|) == |msg + more|;
    assert (msg + more)[..|msg + more|] == msg + more && msg[..|msg|] == msg;
    FoldJoins(f, d, msg, more);
  }

  /** Less than a block more only waits. */
  lemma AbsorbTail<T, D>(f: (D, seq<T>) -> D, d: D, msg: seq<T>, tail: seq<T>)
    requires |msg| % 64 + |tail| < 64
    ensures Absorbed(f, d, msg + tail) == Absorbed(f, d, msg)
    ensures Waiting(msg + tail) == Waiting(msg) + tail
    ensures |msg| % 64 == 0 ==> Waiting(msg + tail) == tail
  {
    WholeAnd(|msg| / 64, |msg| % 64);
    WholeAnd(|msg| / 64, |msg| % 64 + |tail|);
    hide Whole, Fold;
    assert (msg + tail)[..Whole(|msg|)] == msg[..Whole(|msg|)];
  }

  /** A padded message is its whole blocks, then its waiting bytes with the padding. */
  lemma PaddedFold<T, D>(f: (D, seq<T>) -> D, d: D, msg: seq<T>, padding: seq<T>)
    requires |msg + padding| % 64 == 0 && |Waiting(msg) + padding| % 64 == 0
    ensures Fold(f, d, msg + padding) == Fold(f, Absorbed(f, d, msg), Waiting(msg) + padding)
  {
    hide Fold;
    assert msg + padding == msg[..Whole(|msg|)] + (Waiting(msg) + padding);
    FoldJoins(f, d, msg[..Whole(|msg|)], Waiting(msg) + padding);
  }

  /** Two blocks are folded one after the other. */
  lemma FoldTwo<T, D>(f: (D, seq<T>) -> D, d: D, a: seq<T>, b: seq<T>)
    requires |a| == 64 && |b| == 64
    ensures Fold(f, d, a + b) == f(f(d, a), b)
  {
    FoldJoins(f, d, a, b);
    FoldOne(f, d, a);
    FoldOne(f, f(d, a), b);
  }

  /** Consecutive slices of a piece, behind what came before it. */
  lemma Rejoined<T>(before: seq<T>, data: seq<T>, i: nat, j: nat)
    requires i <= j <= |data|
    ensures before + data[..i] + data[i..j] == before + data[..j]
    ensures j == |data| ==> data[i..j] == data[i..] && before + data[..i] + data[i..] == before + data
  {
  }

  /** A value below 2^(8n) in n bytes, the lowest first. */
  function LittleEndian(v: nat, n: nat): (bs: seq<bv8>)
    ensures |bs| == n
  {
    if n == 0 then [] else [(v % 256) as bv8] + LittleEndian(v / 256, n - 1)
  }

  /** Taking the low k bytes first and the others after them. */
  lemma {:induction false} LittleEndianSplits(low: nat, high: nat, k: nat, n: nat)
    requires low < Power256(k)
    ensures LittleEndian(high * Power256(k) + low, k + n) == LittleEndian(low, k) + LittleEndian(high, n)
    decreases k
  {
    if k > 0 {
      var up := high * Power256(k - 1);
      assert high * Power256(k) == 256 * up;
      LittleEndianSplits(low / 256, high, k - 1, n);
      ByteOff(up, low);
    } else {
      assert LittleEndian(low, k) + LittleEndian(high, n) == LittleEndian(high, n);
    }
  }

  lemma ByteOff(up: nat, low: nat)
    ensures (256 * up + low) / 256 == up + low / 256 && (256 * up + low) % 256 == low % 256
  {
  }

  /** Different values have different bytes. */
  lemma {:induction false} LittleEndianIsInjective(v: nat, w: nat, n: nat)
    requires v < Power256(n) && w < Power256(n)
    ensures LittleEndian(v, n) == LittleEndian(w, n) <==> v == w
  {
    if n > 0 {
      LittleEndianIsInjective(v / 256, w / 256, n - 1);
      var a, b := LittleEndian(v, n), LittleEndian(w, n);
      assert a[1..] == LittleEndian(v / 256, n - 1) && b[1..] == LittleEndian(w / 256, n - 1);
      if a == b {
        Bytes.Same(v % 256, w % 256);
      }
    }
  }

  function Power256(n: nat): (p: nat)
    ensures p > 0
  {
    if n == 0 then 1 else 256 * Power256(n - 1)
  }

  /** A value below 2^(8n) in n bytes, the highest first. */
  function BigEndian(v: nat, n: nat): (bs: seq<bv8>)
    ensures |bs| == n
  {
    if n == 0 then [] else BigEndian(v / 256, n - 1) + [(v % 256) as bv8]
  }

  /** The high bytes come first, the low k bytes after them. */
  lemma {:induction false} BigEndianSplits(low: nat, high: nat, k: nat, n: nat)
    requires low < Power256(k)
    ensures BigEndian(high * Power256(k) + low, n + k) == BigEndian(high, n) + BigEndian(low, k)
    decreases k
  {
    if k > 0 {
      var up := high * Power256(k - 1);
      assert high * Power256(k) == 256 * up;
      BigEndianSplits(low / 256, high, k - 1, n);
      ByteOff(up, low);
    } else {
      assert BigEndian(high, n) + BigEndian(low, k) == BigEndian(high, n);
    }
  }

  /** Only zero has all bytes zero. */
  lemma {:induction false} BigEndianZero(v: nat, n: nat)
    requires v < Power256(n)
    ensures BigEndian(v, n) == Zeros(n) <==> v == 0
  {
    if n > 0 {
      BigEndianZero(v / 256, n - 1);
      assert BigEndian(v, n)[..n - 1] == BigEndian(v / 256, n - 1);
      assert Zeros(n)[..n - 1] == Zeros(n - 1);
      assert BigEndian(v, n)[n - 1] == (v % 256) as bv8;
      if v % 256 == 0 && v / 256 == 0 {
        assert BigEndian(v, n) == Zeros(n);
      }
    }
  }

  function Zeros(n: nat): (z: seq<bv8>)
    ensures |z| == n
  {
    seq(n, _ => 0)
  }

  lemma ZerosSlice(m: nat, i: nat, j: nat)
    requires i <= j <= m
    ensures Zeros(m)[i..j] == Zeros(j - i)
  {
  }

  lemma ZerosJoin(m: nat, n: nat)
    ensures Zeros(m) + Zeros(n) == Zeros(m + n)
  {
  }

  /** Copies bytes into a buffer from position at on. */
  method CopyInto<T>(buffer: array<T>, at: nat, bytes: seq<T>)
    requires at + |bytes| <= buffer.Length
    modifies buffer
    ensures buffer[..] == old(buffer[..at]) + bytes + old(buffer[at + |bytes|..])
    ensures buffer[..at + |bytes|] == old(buffer[..at]) + bytes
  {
    for i := 0 to |bytes|
      invariant forall k :: 0 <= k < i ==> buffer[at + k] == bytes[k]
      invariant forall k :: 0 <= k < buffer.Length && !(at <= k < at + i) ==> buffer[k] == old(buffer[k])
    {
      buffer[at + i] := bytes[i];
    }
  }

  /** The message that pieces arriving one after the other make up. */
  function Joined<T>(pieces: seq<seq<T>>): seq<T> {
    if pieces == [] then [] else Joined(pieces[..|pieces| - 1]) + pieces[|pieces| - 1]
  }
}
