/** The initial vectors of the page codec: a multiplicative generator seeded with the page number, then MD5. */
module CodecVector {
  import opened BlockHash
  import Md5
  import Md5Context

  const A := 52774
  const B := 40692
  const C := 3791
  const M := 2147483399

  predicate Int32(x: int) {
    -0x8000_0000 <= x < 0x8000_0000
  }

  /** The macro MODMULT(52774, 40692, 3791, 2147483399, z); for z >= 0 the division of C is Dafny's. */
  method ModMult(z: int) returns (s: int)
    requires 0 <= z < 0x8000_0000
    ensures s == B * z % M
    ensures 0 <= s < M
  {
    var q := z / A;
    assert Int32(q) && Int32(A * q) && Int32(z - A * q) && Int32(B * (z - A * q)) && Int32(C * q);
    s := B * (z - A * q) - C * q;
    assert Int32(s);
    assert B * z == s + M * q;
    if s < 0 {
      s := s + M;
      assert Int32(s);
      Remainder(s, B * z, q - 1);
    } else {
      Remainder(s, B * z, q);
    }
  }

  lemma Remainder(s: nat, x: int, q: int)
    requires s < M && x == s + M * q
    ensures x % M == s
  {
  }

  /** The generator after n steps from z. */
  function Stepped(z: nat, n: nat): nat {
    if n == 0 then z else B * Stepped(z, n - 1) % M
  }

  /** One step keeps seeds apart exactly as far as they differ modulo M: B has an inverse. */
  lemma StepIsInjective(y: nat, z: nat)
    ensures B * y % M == B * z % M <==> y % M == z % M
  {
    var inverse, k := 1481316021, 28069;
    assert B * inverse == 1 + M * k;
    if B * y % M == B * z % M {
      var p := B * y / M - B * z / M;
      assert B * y - B * z == M * p;
      assert inverse * (B * y - B * z) == (1 + M * k) * (y - z);
      assert inverse * (M * p) == M * (inverse * p);
      assert y - z == M * (inverse * p - k * (y - z));
      SameResidue(y, z, inverse * p - k * (y - z));
    } else if y % M == z % M {
      var p := y / M - z / M;
      assert y - z == M * p;
      assert B * y - B * z == M * (B * p);
      SameResidue(B * y, B * z, B * p);
    }
  }

  lemma SameResidue(y: nat, z: nat, q: int)
    requires y - z == M * q
    ensures y % M == z % M
  {
    var a, b := y / M, z / M;
    assert y % M - z % M == M * (q - a + b);
  }

  lemma {:induction false} ManyStepsAreInjective(y: nat, z: nat, n: nat)
    requires n > 0
    ensures Stepped(y, n) == Stepped(z, n) <==> y % M == z % M
  {
    if n == 1 {
      assert Stepped(y, 1) == B * Stepped(y, 0) % M && Stepped(z, 1) == B * Stepped(z, 0) % M;
      StepIsInjective(y, z);
    } else {
      ManyStepsAreInjective(y, z, n - 1);
      StepIsInjective(Stepped(y, n - 1), Stepped(z, n - 1));
      StaysBelow(y, n - 1);
      StaysBelow(z, n - 1);
    }
  }

  lemma StaysBelow(z: nat, n: nat)
    requires n > 0
    ensures Stepped(z, n) < M && Stepped(z, n) % M == Stepped(z, n)
  {
  }

  /** The sixteen bytes that are hashed: the first four values of the generator, low bytes first. */
  function InitKey(page: nat): (k: seq<bv8>)
    ensures |k| == 16
  {
    var z := page + 1;
    LittleEndian(Stepped(z, 1), 4) + LittleEndian(Stepped(z, 2), 4)
    + LittleEndian(Stepped(z, 3), 4) + LittleEndian(Stepped(z, 4), 4)
  }

  /** Two pages get the same bytes exactly when their numbers are the same modulo M. */
  lemma InitKeysDiffer(p: nat, q: nat)
    ensures InitKey(p) == InitKey(q) <==> (p + 1) % M == (q + 1) % M
  {
    hide LittleEndian, Stepped;
    ManyStepsAreInjective(p + 1, q + 1, 1);
    ManyStepsAreInjective(p + 1, q + 1, 2);
    ManyStepsAreInjective(p + 1, q + 1, 3);
    ManyStepsAreInjective(p + 1, q + 1, 4);
    StaysBelow(p + 1, 1);
    StaysBelow(q + 1, 1);
    assert Power256(4) == 0x1_0000_0000;
    LittleEndianIsInjective(Stepped(p + 1, 1), Stepped(q + 1, 1), 4);
    assert InitKey(p)[..4] == LittleEndian(Stepped(p + 1, 1), 4);
    assert InitKey(q)[..4] == LittleEndian(Stepped(q + 1, 1), 4);
  }

  /** In particular for all page numbers below M - 1. */
  lemma PagesBelowDiffer(p: nat, q: nat)
    requires p != q && p + 1 < M && q + 1 < M
    ensures InitKey(p) != InitKey(q)
  {
    hide InitKey;
    InitKeysDiffer(p, q);
  }

  /** The first n of the values, in bytes. */
  function KeyStart(z: nat, n: nat): seq<bv8> {
    if n == 0 then [] else KeyStart(z, n - 1) + LittleEndian(Stepped(z, n), 4)
  }

  lemma StartIsInitKey(page: nat)
    ensures KeyStart(page + 1, 4) == InitKey(page)
  {
    hide LittleEndian, Stepped;
    var z := page + 1;
    assert KeyStart(z, 1) == [] + LittleEndian(Stepped(z, 1), 4) == LittleEndian(Stepped(z, 1), 4);
    assert KeyStart(z, 3) == KeyStart(z, 2) + LittleEndian(Stepped(z, 3), 4);
  }

  /** CodecGenerateInitialVector. */
  method GenerateInitialVector(page: nat) returns (iv: seq<bv8>)
    requires page + 1 < 0x8000_0000
    ensures iv == Md5.Hash(InitKey(page))
  {
    hide Md5.Hash, LittleEndian;
    var z := page + 1;
    var key: seq<bv8> := [];
    for j := 0 to 4
      invariant z == Stepped(page + 1, j) && z < 0x8000_0000
      invariant key == KeyStart(page + 1, j)
    {
      z := ModMult(z);
      key := key + LittleEndian(z, 4);
    }
    StartIsInitKey(page);
    iv := GetMD5Binary(key);
  }

  /** CodecGetMD5Binary. */
  method GetMD5Binary(data: seq<bv8>) returns (digest: seq<bv8>)
    requires |data| < 0x1_0000_0000
    ensures digest == Md5.Hash(data)
  {
    hide Md5.Hash, Md5Context.Context.Valid;
    var context := new Md5Context.Context();
    context.Update(data);
    assert [] + data == data;
    digest := context.Final();
  }
}
