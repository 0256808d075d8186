/** The SHA-256 compression of FIPS 180-2, and the code's two forms of it: rolled and unrolled. */
module Sha256 {
  import opened BlockHash

  // ---------------------------------------------------------------- FIPS 180-2, sections 4.1.2, 4.2.2 and 6.2

  function RotateRight(x: bv32, n: nat): bv32
    requires n <= 32
  {
    (x >> n) | (x << (32 - n))
  }

  function Ch(x: bv32, y: bv32, z: bv32): bv32 { (x & y) ^ (!x & z) }
  function Maj(x: bv32, y: bv32, z: bv32): bv32 { (x & y) ^ (x & z) ^ (y & z) }
  function F1(x: bv32): bv32 { RotateRight(x, 2) ^ RotateRight(x, 13) ^ RotateRight(x, 22) }
  function F2(x: bv32): bv32 { RotateRight(x, 6) ^ RotateRight(x, 11) ^ RotateRight(x, 25) }
  function F3(x: bv32): bv32 { RotateRight(x, 7) ^ RotateRight(x, 18) ^ (x >> 3) }
  function F4(x: bv32): bv32 { RotateRight(x, 17) ^ RotateRight(x, 19) ^ (x >> 10) }

  // The constants K, sixteen entries at a time.
  function K1(t: nat): bv32
    requires t < 16
  {
    match t
    case 0 => 0x428a2f98 case 1 => 0x71374491 case 2 => 0xb5c0fbcf case 3 => 0xe9b5dba5
    case 4 => 0x3956c25b case 5 => 0x59f111f1 case 6 => 0x923f82a4 case 7 => 0xab1c5ed5
    case 8 => 0xd807aa98 case 9 => 0x12835b01 case 10 => 0x243185be case 11 => 0x550c7dc3
    case 12 => 0x72be5d74 case 13 => 0x80deb1fe case 14 => 0x9bdc06a7 case _ => 0xc19bf174
  }

  function K2(t: nat): bv32
    requires t < 16
  {
    match t
    case 0 => 0xe49b69c1 case 1 => 0xefbe4786 case 2 => 0x0fc19dc6 case 3 => 0x240ca1cc
    case 4 => 0x2de92c6f case 5 => 0x4a7484aa case 6 => 0x5cb0a9dc case 7 => 0x76f988da
    case 8 => 0x983e5152 case 9 => 0xa831c66d case 10 => 0xb00327c8 case 11 => 0xbf597fc7
    case 12 => 0xc6e00bf3 case 13 => 0xd5a79147 case 14 => 0x06ca6351 case _ => 0x14292967
  }

  function K3(t: nat): bv32
    requires t < 16
  {
    match t
    case 0 => 0x27b70a85 case 1 => 0x2e1b2138 case 2 => 0x4d2c6dfc case 3 => 0x53380d13
    case 4 => 0x650a7354 case 5 => 0x766a0abb case 6 => 0x81c2c92e case 7 => 0x92722c85
    case 8 => 0xa2bfe8a1 case 9 => 0xa81a664b case 10 => 0xc24b8b70 case 11 => 0xc76c51a3
    case 12 => 0xd192e819 case 13 => 0xd6990624 case 14 => 0xf40e3585 case _ => 0x106aa070
  }

  function K4(t: nat): bv32
    requires t < 16
  {
    match t
    case 0 => 0x19a4c116 case 1 => 0x1e376c08 case 2 => 0x2748774c case 3 => 0x34b0bcb5
    case 4 => 0x391c0cb3 case 5 => 0x4ed8aa4a case 6 => 0x5b9cca4f case 7 => 0x682e6ff3
    case 8 => 0x748f82ee case 9 => 0x78a5636f case 10 => 0x84c87814 case 11 => 0x8cc70208
    case 12 => 0x90befffa case 13 => 0xa4506ceb case 14 => 0xbef9a3f7 case _ => 0xc67178f2
  }

  function KOf(t: nat): bv32
    requires t < 64
  {
    if t < 16 then K1(t) else if t < 32 then K2(t - 16) else if t < 48 then K3(t - 32) else K4(t - 48)
  }

  /** A word of a block, high bytes first. */
  function WordAt(block: seq<bv8>, i: nat): bv32
    requires |block| == 64 && i < 16
  {
    (block[4 * i + 3] as bv32) | (block[4 * i + 2] as bv32 << 8)
    | (block[4 * i + 1] as bv32 << 16) | (block[4 * i] as bv32 << 24)
  }

  /** How a schedule word follows from four words before it. */
  function Expand(w2: bv32, w7: bv32, w15: bv32, w16: bv32): bv32 {
    F4(w2) + w7 + F3(w15) + w16
  }

  /** The message schedule W of a block. */
  function Schedule(block: seq<bv8>, t: nat): bv32
    requires |block| == 64 && t < 64
  {
    if t < 16 then WordAt(block, t)
    else Expand(Schedule(block, t - 2), Schedule(block, t - 7), Schedule(block, t - 15), Schedule(block, t - 16))
  }

  function T1(e: bv32, f: bv32, g: bv32, h: bv32, k: bv32, w: bv32): bv32 {
    h + F2(e) + Ch(e, f, g) + k + w
  }

  function T2(a: bv32, b: bv32, c: bv32): bv32 {
    F1(a) + Maj(a, b, c)
  }

  function Plus(x: bv32, y: bv32): bv32 {
    x + y
  }

  /** One round on the eight working variables. */
  function Round(v: seq<bv32>, k: bv32, w: bv32): (r: seq<bv32>)
    requires |v| == 8
    ensures |r| == 8
  {
    var t1 := T1(v[4], v[5], v[6], v[7], k, w);
    [Plus(t1, T2(v[0], v[1], v[2])), v[0], v[1], v[2], Plus(v[3], t1), v[4], v[5], v[6]]
  }

  /** The rounds before t. */
  function Rounds(v: seq<bv32>, block: seq<bv8>, t: nat): (r: seq<bv32>)
    requires |v| == 8 && |block| == 64 && t <= 64
    ensures |r| == 8
  {
    if t == 0 then v else Round(Rounds(v, block, t - 1), KOf(t - 1), Schedule(block, t - 1))
  }

  function Sum(v: seq<bv32>, w: seq<bv32>): (r: seq<bv32>)
    requires |v| == |w| == 8
    ensures |r| == 8
  {
    [Plus(v[0], w[0]), Plus(v[1], w[1]), Plus(v[2], w[2]), Plus(v[3], w[3]),
     Plus(v[4], w[4]), Plus(v[5], w[5]), Plus(v[6], w[6]), Plus(v[7], w[7])]
  }

  /** The intermediate hash value after one more block. */
  function Compress(v: seq<bv32>, block: seq<bv8>): seq<bv32> {
    if |v| == 8 && |block| == 64 then Sum(v, Rounds(v, block, 64)) else v
  }

  const SHA256_H0: seq<bv32> := [
    0x6a09e667, 0xbb67ae85, 0x3c6ef372, 0xa54ff53a, 0x510e527f, 0x9b05688c, 0x1f83d9ab, 0x5be0cd19
  ]

  const SHA224_H0: seq<bv32> := [
    0xc1059ed8, 0x367cd507, 0x3070dd17, 0xf70e5939, 0xffc00b31, 0x68581511, 0x64f98fa7, 0xbefa4fa4
  ]

  /** The two hash functions differ in where they start and how much they give. */
  datatype Variant = Sha224 | Sha256 {
    function Start(): (h: seq<bv32>)
      ensures |h| == 8
    {
      if Sha224? then SHA224_H0 else SHA256_H0
    }

    function Words(): nat {
      if Sha224? then 7 else 8
    }
  }

  /** The folded value always has eight words. */
  lemma {:induction false} FoldHasEight(v: seq<bv32>, msg: seq<bv8>)
    requires |v| == 8 && |msg| % 64 == 0
    ensures |Fold(Compress, v, msg)| == 8
    decreases |msg|
  {
    if |msg| > 0 {
      FoldHasEight(v, msg[..|msg| - 64]);
    }
  }

  // ---------------------------------------------------------------- section 5.1.1 and the digest

  /** A one bit, zero bits up to 56 bytes modulo 64, and the length in bits as 64 bits. */
  function Padding(n: nat): (p: seq<bv8>)
    ensures (n + |p|) % 64 == 0
  {
    EndsOnBlock(n);
    [0x80] + Zeros((119 - n % 64) % 64) + BigEndian(8 * n, 8)
  }

  function WordBytes(w: bv32): (bs: seq<bv8>)
    ensures |bs| == 4
  {
    [((w >> 24) & 0xff) as bv8, ((w >> 16) & 0xff) as bv8, ((w >> 8) & 0xff) as bv8, (w & 0xff) as bv8]
  }

  function DigestBytes(v: seq<bv32>): (bs: seq<bv8>)
    ensures |bs| == 4 * |v|
  {
    if v == [] then [] else DigestBytes(v[..|v| - 1]) + WordBytes(v[|v| - 1])
  }

  /** The hash value of a padded message. */
  function HashValue(v: Variant, padded: seq<bv8>): (h: seq<bv32>)
    requires |padded| % 64 == 0
    ensures |h| == 8
  {
    FoldHasEight(v.Start(), padded);
    Fold(Compress, v.Start(), padded)
  }

  /** The digest of a message. */
  function Hash(v: Variant, msg: seq<bv8>): seq<bv8> {
    DigestBytes(HashValue(v, msg + Padding(|msg|))[..v.Words()])
  }

  // ---------------------------------------------------------------- sha256_transf, rolled

  /** The sixteen words of the block, then the 48 that follow from them. */
  method ExpandBlock(w: array<bv32>, block: seq<bv8>)
    requires w.Length == 64 && |block| == 64
    modifies w
    ensures forall t :: 0 <= t < 64 ==> w[t] == Schedule(block, t)
  {
    hide WordAt, Expand;
    for j := 0 to 16
      invariant forall t :: 0 <= t < j ==> w[t] == Schedule(block, t)
    {
      w[j] := WordAt(block, j);
    }
    for j := 16 to 64
      invariant forall t :: 0 <= t < j ==> w[t] == Schedule(block, t)
    {
      w[j] := Expand(w[j - 2], w[j - 7], w[j - 15], w[j - 16]);
    }
  }

  /** One rolled round: every variable moves on by one place. */
  method RolledRound(wv: array<bv32>, k: bv32, w: bv32)
    requires wv.Length == 8
    modifies wv
    ensures wv[..] == Round(old(wv[..]), k, w)
  {
    hide T1, T2, Plus;
    ghost var v := wv[..];
    var t1 := T1(wv[4], wv[5], wv[6], wv[7], k, w);
    var t2 := T2(wv[0], wv[1], wv[2]);
    wv[7] := wv[6];
    wv[6] := wv[5];
    wv[5] := wv[4];
    wv[4] := Plus(wv[3], t1);
    wv[3] := wv[2];
    wv[2] := wv[1];
    wv[1] := wv[0];
    wv[0] := Plus(t1, t2);
    assert wv[7] == v[6] && wv[6] == v[5] && wv[5] == v[4] && wv[3] == v[2] && wv[2] == v[1] && wv[1] == v[0];
    EightWords(wv[..], [wv[0], v[0], v[1], v[2], wv[4], v[4], v[5], v[6]]);
  }

  lemma EightWords<T>(a: seq<T>, b: seq<T>)
    requires |a| == |b| == 8 && forall i :: 0 <= i < 8 ==> a[i] == b[i]
    ensures a == b
  {
  }

  method MixRolled(wv: array<bv32>, w: array<bv32>, block: seq<bv8>)
    requires wv.Length == 8 && w.Length == 64 && wv != w && |block| == 64
    requires forall t :: 0 <= t < 64 ==> w[t] == Schedule(block, t)
    modifies wv
    ensures wv[..] == Rounds(old(wv[..]), block, 64)
  {
    hide KOf, Schedule, Round;
    for j := 0 to 64
      invariant wv[..] == Rounds(old(wv[..]), block, j)
    {
      RolledRound(wv, KOf(j), w[j]);
    }
  }

  // ---------------------------------------------------------------- sha256_transf, unrolled

  /** What the macro SHA256_EXP makes of the variables: only d and h change, the roles are in the indices. */
  function ExpStep(v: seq<bv32>, a: nat, b: nat, c: nat, d: nat, e: nat, f: nat, g: nat, h: nat, k: bv32, w: bv32)
    : (r: seq<bv32>)
    requires |v| == 8 && a < 8 && b < 8 && c < 8 && d < 8 && e < 8 && f < 8 && g < 8 && h < 8
    ensures |r| == 8
  {
    var t1 := T1(v[e], v[f], v[g], v[h], k, w);
    v[d := Plus(v[d], t1)][h := Plus(t1, T2(v[a], v[b], v[c]))]
  }

  method Exp(wv: array<bv32>, a: nat, b: nat, c: nat, d: nat, e: nat, f: nat, g: nat, h: nat, k: bv32, w: bv32)
    requires wv.Length == 8 && a < 8 && b < 8 && c < 8 && d < 8 && e < 8 && f < 8 && g < 8 && h < 8
    modifies wv
    ensures wv[..] == ExpStep(old(wv[..]), a, b, c, d, e, f, g, h, k, w)
  {
    hide T1, T2, Plus;
    var t1 := T1(wv[e], wv[f], wv[g], wv[h], k, w);
    var t2 := T2(wv[a], wv[b], wv[c]);
    wv[d] := Plus(wv[d], t1);
    wv[h] := Plus(t1, t2);
  }

  /** The variables turned by s places. */
  function Turned<T>(v: seq<T>, s: nat): (r: seq<T>)
    requires |v| == 8 && s <= 8
    ensures |r| == 8
  {
    v[s..] + v[..s]
  }

  /** Where variable i is when they are turned by s. */
  function Place(i: nat, s: nat): (p: nat)
    requires i < 8 && s < 8
    ensures p < 8
  {
    if s <= i then i - s else 8 + i - s
  }

  lemma FoundInPlace<T>(v: seq<T>, s: nat)
    requires |v| == 8 && s < 8
    ensures forall i :: 0 <= i < 8 ==> Turned(v, s)[Place(i, s)] == v[i]
  {
  }

  /** Replacing variables 3 and 7 in place is moving all on by one place, turned once more. */
  lemma ShiftIsTurn<T>(v: seq<T>, s: nat, x: T, y: T)
    requires |v| == 8 && s < 8
    ensures Turned(v, s)[Place(3, s) := x][Place(7, s) := y]
         == Turned([y, v[0], v[1], v[2], x, v[4], v[5], v[6]], s + 1)
  {
    var l := Turned(v, s)[Place(3, s) := x][Place(7, s) := y];
    var shifted := [y, v[0], v[1], v[2], x, v[4], v[5], v[6]];
    forall p: nat | p < 8
      ensures l[p] == Turned(shifted, s + 1)[p]
    {
      var i := if p + s < 8 then p + s else p + s - 8;
      assert p == Place(i, s) && Turned(v, s)[p] == v[i];
      assert Turned(shifted, s + 1)[p] == shifted[if i < 7 then i + 1 else 0];
    }
  }

  /** A round that leaves the variables in place and turns their roles instead. */
  lemma TurnOn(v: seq<bv32>, s: nat, k: bv32, w: bv32)
    requires |v| == 8 && s < 8
    ensures ExpStep(Turned(v, s), Place(0, s), Place(1, s), Place(2, s), Place(3, s),
                    Place(4, s), Place(5, s), Place(6, s), Place(7, s), k, w)
         == Turned(Round(v, k, w), s + 1)
  {
    hide T1, T2, Plus, Place, Turned;
    FoundInPlace(v, s);
    var t1 := T1(v[4], v[5], v[6], v[7], k, w);
    ShiftIsTurn(v, s, Plus(v[3], t1), Plus(t1, T2(v[0], v[1], v[2])));
  }

  /** Eight rounds in turning roles leave every variable in its own place again. */
  method MixUnrolled(wv: array<bv32>, w: array<bv32>, block: seq<bv8>)
    requires wv.Length == 8 && w.Length == 64 && wv != w && |block| == 64
    requires forall t :: 0 <= t < 64 ==> w[t] == Schedule(block, t)
    modifies wv
    ensures wv[..] == Rounds(old(wv[..]), block, 64)
  {
    hide KOf, Schedule, ExpStep, Round;
    for i := 0 to 8
      invariant wv[..] == Rounds(old(wv[..]), block, 8 * i)
    {
      var j := 8 * i;
      ghost var v := old(wv[..]);
      assert Turned(wv[..], 0) == wv[..];
      Exp(wv, 0, 1, 2, 3, 4, 5, 6, 7, KOf(j), w[j]);
      TurnOn(Rounds(v, block, j), 0, KOf(j), w[j]);
      Exp(wv, 7, 0, 1, 2, 3, 4, 5, 6, KOf(j + 1), w[j + 1]);
      TurnOn(Rounds(v, block, j + 1), 1, KOf(j + 1), w[j + 1]);
      Exp(wv, 6, 7, 0, 1, 2, 3, 4, 5, KOf(j + 2), w[j + 2]);
      TurnOn(Rounds(v, block, j + 2), 2, KOf(j + 2), w[j + 2]);
      Exp(wv, 5, 6, 7, 0, 1, 2, 3, 4, KOf(j + 3), w[j + 3]);
      TurnOn(Rounds(v, block, j + 3), 3, KOf(j + 3), w[j + 3]);
      Exp(wv, 4, 5, 6, 7, 0, 1, 2, 3, KOf(j + 4), w[j + 4]);
      TurnOn(Rounds(v, block, j + 4), 4, KOf(j + 4), w[j + 4]);
      Exp(wv, 3, 4, 5, 6, 7, 0, 1, 2, KOf(j + 5), w[j + 5]);
      TurnOn(Rounds(v, block, j + 5), 5, KOf(j + 5), w[j + 5]);
      Exp(wv, 2, 3, 4, 5, 6, 7, 0, 1, KOf(j + 6), w[j + 6]);
      TurnOn(Rounds(v, block, j + 6), 6, KOf(j + 6), w[j + 6]);
      Exp(wv, 1, 2, 3, 4, 5, 6, 7, 0, KOf(j + 7), w[j + 7]);
      TurnOn(Rounds(v, block, j + 7), 7, KOf(j + 7), w[j + 7]);
      assert wv[..] == Turned(Rounds(v, block, j + 8), 8);
    }
  }

  /** sha256_transf: the intermediate hash value takes in the blocks of a message. */
  method Transf(h: array<bv32>, message: seq<bv8>, blocks: nat, unrolled: bool)
    requires h.Length == 8 && 64 * blocks <= |message|
    modifies h
    ensures h[..] == Fold(Compress, old(h[..]), message[..64 * blocks])
  {
    hide Schedule, Plus, Rounds;
    var w, wv := new bv32[64], new bv32[8];
    for i := 0 to blocks
      invariant h[..] == Fold(Compress, old(h[..]), message[..64 * i])
    {
      var block := message[64 * i..64 * i + 64];
      ghost var v := h[..];
      ExpandBlock(w, block);
      CopyInto(wv, 0, h[..]);
      assert wv[..] == v;
      if unrolled {
        MixUnrolled(wv, w, block);
      } else {
        MixRolled(wv, w, block);
      }
      AddInto(h, wv);
      NextBlock(old(h[..]), Compress, message, i);
    }
  }

  method AddInto(h: array<bv32>, wv: array<bv32>)
    requires h.Length == wv.Length == 8 && h != wv
    modifies h
    ensures h[..] == Sum(old(h[..]), wv[..])
  {
    hide Plus;
    for j := 0 to 8
      invariant forall k :: 0 <= k < j ==> h[k] == Plus(old(h[k]), wv[k])
      invariant forall k :: j <= k < 8 ==> h[k] == old(h[k])
    {
      h[j] := Plus(h[j], wv[j]);
    }
  }

  lemma NextBlock<D>(d: D, f: (D, seq<bv8>) -> D, message: seq<bv8>, i: nat)
    requires 64 * i + 64 <= |message|
    ensures Fold(f, d, message[..64 * i + 64]) == f(Fold(f, d, message[..64 * i]), message[64 * i..64 * i + 64])
  {
    var m := message[..64 * i + 64];
    assert m[..|m| - 64] == message[..64 * i];
    assert m[|m| - 64..] == message[64 * i..64 * i + 64];
  }
}
