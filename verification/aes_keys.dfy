/** The key schedule: the code expands the key a block of words at a time in a small buffer, and the
    words it stores are those of the recurrence of FIPS 197, section 5.2. */
module AesKeys {
  import opened AesField
  import opened AesCipher
  import opened Rijndael

  /** The powers of x, from the first on. */
  function Rcon(i: nat): bv8
    requires i >= 1
  {
    if i == 1 then 0x01 else XTime(Rcon(i - 1))
  }

  /** The code's table of them. */
  const RCON: seq<bv8> := [
    0x01, 0x02, 0x04, 0x08, 0x10, 0x20,
    0x40, 0x80, 0x1b, 0x36, 0x6c, 0xd8,
    0xab, 0x4d, 0x9a, 0x2f, 0x5e, 0xbc,
    0x63, 0xc6, 0x97, 0x35, 0x6a, 0xd4,
    0xb3, 0x7d, 0xfa, 0xef, 0xc5, 0x91
  ]

  lemma Doublings()
    ensures XTime(0x01) == 0x02 && XTime(0x02) == 0x04 && XTime(0x04) == 0x08 && XTime(0x08) == 0x10
    ensures XTime(0x10) == 0x20 && XTime(0x20) == 0x40 && XTime(0x40) == 0x80 && XTime(0x80) == 0x1b
    ensures XTime(0x1b) == 0x36 && XTime(0x36) == 0x6c && XTime(0x6c) == 0xd8 && XTime(0xd8) == 0xab
    ensures XTime(0xab) == 0x4d && XTime(0x4d) == 0x9a && XTime(0x9a) == 0x2f && XTime(0x2f) == 0x5e
    ensures XTime(0x5e) == 0xbc && XTime(0xbc) == 0x63 && XTime(0x63) == 0xc6 && XTime(0xc6) == 0x97
    ensures XTime(0x97) == 0x35 && XTime(0x35) == 0x6a && XTime(0x6a) == 0xd4 && XTime(0xd4) == 0xb3
    ensures XTime(0xb3) == 0x7d && XTime(0x7d) == 0xfa && XTime(0xfa) == 0xef && XTime(0xef) == 0xc5
    ensures XTime(0xc5) == 0x91
  {
  }

  lemma Powers()
    ensures Rcon(1) == 0x01 && Rcon(2) == 0x02 && Rcon(3) == 0x04 && Rcon(4) == 0x08 && Rcon(5) == 0x10
    ensures Rcon(6) == 0x20 && Rcon(7) == 0x40 && Rcon(8) == 0x80 && Rcon(9) == 0x1b && Rcon(10) == 0x36
    ensures Rcon(11) == 0x6c && Rcon(12) == 0xd8 && Rcon(13) == 0xab && Rcon(14) == 0x4d && Rcon(15) == 0x9a
    ensures Rcon(16) == 0x2f && Rcon(17) == 0x5e && Rcon(18) == 0xbc && Rcon(19) == 0x63 && Rcon(20) == 0xc6
    ensures Rcon(21) == 0x97 && Rcon(22) == 0x35 && Rcon(23) == 0x6a && Rcon(24) == 0xd4 && Rcon(25) == 0xb3
    ensures Rcon(26) == 0x7d && Rcon(27) == 0xfa && Rcon(28) == 0xef && Rcon(29) == 0xc5 && Rcon(30) == 0x91
  {
    Doublings();
    hide XTime;
  }

  lemma RconTableIsRight(i: nat)
    requires 1 <= i <= 30
    ensures RCON[i - 1] == Rcon(i)
  {
    Powers();
    hide Rcon;
  }

  function RotWord(w: Word): Word { Word(w.b1, w.b2, w.b3, w.b0) }

  /** The word that is added to the one a key length back. */
  function Mask(nk: nat, i: nat, last: Word): Word
    requires nk > 0 && i >= nk
  {
    if i % nk == 0 then XorWords(SubWord(RotWord(last)), Word(Rcon(i / nk), 0, 0, 0))
    else if nk > 6 && i % nk == 4 then SubWord(last)
    else last
  }

  /** Word i of the expansion of a key. */
  function KeyWord(key: seq<Word>, i: nat): Word
    requires |key| > 0
  {
    if i < |key| then key[i]
    else XorWords(KeyWord(key, i - |key|), Mask(|key|, i, KeyWord(key, i - 1)))
  }

  /** The same expansion byte by byte, as section 5.2 writes it out: word i of w is the word a key length back,
      changed by the word before it. At each multiple of the key length that word is turned by one byte to the
      left and substituted, and its first byte gets a constant; a key of eight words is substituted half way too. */
  ghost predicate Scheduled(w: seq<Word>, key: seq<Word>, n: nat)
    requires KeyLength(|key|) && n <= 60
  {
    n <= |w|
    && (forall i :: 0 <= i < n && i < |key| ==> w[i] == key[i])
    && (forall i :: |key| <= i < n ==> Follows(w[i], w[i - |key|], w[i - 1], |key|, i))
  }

  predicate Follows(word: Word, back: Word, last: Word, nk: nat, i: nat)
    requires KeyLength(nk) && nk <= i < 60
  {
    if i % nk == 0 then TurnedAndAdded(word, back, last, RCON[i / nk - 1])
    else if nk == 8 && i % 8 == 4 then Added(word, back, Word(S(last.b0), S(last.b1), S(last.b2), S(last.b3)))
    else Added(word, back, last)
  }

  predicate TurnedAndAdded(word: Word, back: Word, last: Word, constant: bv8) {
    word.b0 == Add(Add(back.b0, S(last.b1)), constant) && word.b1 == Add(back.b1, S(last.b2))
    && word.b2 == Add(back.b2, S(last.b3)) && word.b3 == Add(back.b3, S(last.b0))
  }

  lemma TurnedInBytes(word: Word, back: Word, last: Word, constant: bv8)
    ensures TurnedAndAdded(word, back, last, constant) <==>
            word == XorWords(back, XorWords(SubWord(RotWord(last)), Word(constant, 0, 0, 0)))
  {
    hide S, Add;
    AddAssociates(back.b0, S(last.b1), constant);
    AddZero(S(last.b2));
    AddZero(S(last.b3));
    AddZero(S(last.b0));
  }

  predicate Added(word: Word, back: Word, last: Word) {
    word.b0 == Add(back.b0, last.b0) && word.b1 == Add(back.b1, last.b1)
    && word.b2 == Add(back.b2, last.b2) && word.b3 == Add(back.b3, last.b3)
  }

  lemma QuotientInRange(nk: nat, i: nat)
    requires KeyLength(nk) && nk <= i < 60
    ensures 1 <= i / nk <= 15
  {
  }

  /** A word follows those two exactly when the recurrence gives it. */
  lemma FollowsInBytes(word: Word, back: Word, last: Word, nk: nat, i: nat)
    requires KeyLength(nk) && nk <= i < 60
    ensures Follows(word, back, last, nk, i) <==> word == XorWords(back, Mask(nk, i, last))
  {
    hide S, Add, Rcon, RotWord, TurnedAndAdded;
    if i % nk == 0 {
      QuotientInRange(nk, i);
      RconTableIsRight(i / nk);
      TurnedInBytes(word, back, last, RCON[i / nk - 1]);
    }
  }

  /** The expansion is the only sequence of words that is so made. */
  lemma {:induction false} ScheduledIsExpanded(w: seq<Word>, key: seq<Word>, n: nat)
    requires KeyLength(|key|) && n <= 60
    ensures Scheduled(w, key, n) <==> Expanded(w, key, n)
  {
    hide Follows, Mask, XorWords;
    if n > 0 && n <= |w| {
      ScheduledIsExpanded(w, key, n - 1);
      var i := n - 1;
      if |key| <= i && Expanded(w, key, i) {
        FollowsInBytes(w[i], w[i - |key|], w[i - 1], |key|, i);
      }
    }
  }

  predicate KeyLength(nk: nat) {
    nk == 4 || nk == 6 || nk == 8
  }

  lemma DivMod(m: nat, nk: nat, j: nat)
    requires KeyLength(nk) && j < nk
    ensures (m * nk + j) % nk == j && (m * nk + j) / nk == m
  {
    DivMod4(m, j);
    DivMod6(m, j);
    DivMod8(m, j);
    assert nk == 4 ==> m * nk == 4 * m;
    assert nk == 6 ==> m * nk == 6 * m;
    assert nk == 8 ==> m * nk == 8 * m;
  }

  lemma DivMod4(m: nat, j: nat)
    ensures j < 4 ==> (4 * m + j) % 4 == j && (4 * m + j) / 4 == m
  {
  }

  lemma DivMod6(m: nat, j: nat)
    ensures j < 6 ==> (6 * m + j) % 6 == j && (6 * m + j) / 6 == m
  {
  }

  lemma DivMod8(m: nat, j: nat)
    ensures j < 8 ==> (8 * m + j) % 8 == j && (8 * m + j) / 8 == m
  {
  }

  lemma XorWordsRegroup(a: Word, b: Word, c: Word)
    ensures XorWords(XorWords(a, b), c) == XorWords(a, XorWords(b, c))
  {
    hide Add;
    AddAssociates(a.b0, b.b0, c.b0);
    AddAssociates(a.b1, b.b1, c.b1);
    AddAssociates(a.b2, b.b2, c.b2);
    AddAssociates(a.b3, b.b3, c.b3);
  }

  /** Turn the m-th block of key words into the next one, in place. */
  method NextWords(tempKey: array<Word>, nk: nat, m: nat, rconPointer: nat, ghost base: nat, ghost key: seq<Word>)
    requires |key| == nk && KeyLength(nk) && tempKey.Length == MAX_KEY_COLUMNS
    requires rconPointer == m < 30 && BlockStart(m, nk, base)
    requires forall j :: 0 <= j < nk ==> tempKey[j] == KeyWord(key, base + j)
    modifies tempKey
    ensures forall j :: 0 <= j < nk ==> tempKey[j] == KeyWord(key, base + nk + j)
  {
    hide S, Add, XorWords, SubWord, KeyWord, BlockStart;
    ghost var w := tempKey[..];
    var first := SubWord(RotWord(tempKey[nk - 1]));
    tempKey[0] := XorWords(XorWords(tempKey[0], first), Word(RCON[rconPointer], 0, 0, 0));
    RconTableIsRight(m + 1);
    XorWordsRegroup(w[0], first, Word(RCON[rconPointer], 0, 0, 0));
    NextWord(key, m, base, 0, w[0], w[nk - 1]);
    var j := 1;
    while j < nk
      invariant 1 <= j <= nk
      invariant forall l :: 0 <= l < j ==> tempKey[l] == KeyWord(key, base + nk + l)
      invariant forall l :: j <= l < nk ==> tempKey[l] == w[l]
    {
      NextWord(key, m, base, j, w[j], tempKey[j - 1]);
      if nk == 8 && j == nk / 2 {
        tempKey[j] := XorWords(tempKey[j], SubWord(tempKey[j - 1]));
      } else {
        tempKey[j] := XorWords(tempKey[j], tempKey[j - 1]);
      }
      j := j + 1;
    }
  }

  /** Block m of key words starts at word base. */
  ghost predicate BlockStart(m: nat, nk: nat, base: nat) {
    base == m * nk
  }

  lemma NextBlockStart(m: nat, nk: nat, base: nat)
    requires BlockStart(m, nk, base) && KeyLength(nk)
    ensures BlockStart(m + 1, nk, base + nk) && 4 * m <= base
  {
  }

  /** The recurrence at place j of block m + 1. */
  lemma NextWord(key: seq<Word>, m: nat, base: nat, j: nat, back: Word, last: Word)
    requires KeyLength(|key|) && j < |key| && BlockStart(m, |key|, base)
    requires back == KeyWord(key, base + j) && last == KeyWord(key, base + |key| + j - 1)
    ensures KeyWord(key, base + |key| + j) ==
              if j == 0 then XorWords(back, XorWords(SubWord(RotWord(last)), Word(Rcon(m + 1), 0, 0, 0)))
              else if |key| == 8 && j == 4 then XorWords(back, SubWord(last))
              else XorWords(back, last)
  {
    hide S, Add, XorWords, SubWord, Rcon;
    DivMod(m + 1, |key|, j);
    assert base + |key| == (m + 1) * |key|;
  }

  /** Copy the block to the expanded key, word after word; r and t are the round and the place in it. */
  method CopyOut(c: Cipherer, tempKey: array<Word>, nk: nat, r: nat, t: nat) returns (r': nat, t': nat)
    requires c.Valid() && c.expandedKey != tempKey && nk <= tempKey.Length
    requires r <= c.rounds && t < 4
    modifies c.expandedKey
    ensures t' < 4 && r' <= c.rounds + 1 && (r' == c.rounds + 1 ==> t' == 0)
    ensures r' <= c.rounds ==> 4 * r' + t' == 4 * r + t + nk
    ensures 4 * r + t <= 4 * r' + t' <= 4 * r + t + nk
    ensures forall i :: 0 <= i < 4 * r + t ==> c.expandedKey[i] == old(c.expandedKey[i])
    ensures forall i :: 4 * r + t <= i < 4 * r' + t' ==> c.expandedKey[i] == tempKey[i - (4 * r + t)]
  {
    var from := 4 * r + t;
    r', t' := r, t;
    var j := 0;
    while j < nk && r' <= c.rounds
      invariant 0 <= j <= nk && t' < 4 && r' <= c.rounds + 1 && (r' == c.rounds + 1 ==> t' == 0)
      invariant 4 * r' + t' == from + j
      invariant forall i :: 0 <= i < from ==> c.expandedKey[i] == old(c.expandedKey[i])
      invariant forall i :: from <= i < from + j ==> c.expandedKey[i] == tempKey[i - from]
      decreases nk - j
    {
      while j < nk && t' < 4
        invariant 0 <= j <= nk && t' <= 4 && r' <= c.rounds && 4 * r' + t' == from + j
        invariant forall i :: 0 <= i < from ==> c.expandedKey[i] == old(c.expandedKey[i])
        invariant forall i :: from <= i < from + j ==> c.expandedKey[i] == tempKey[i - from]
      {
        c.expandedKey[4 * r' + t'] := tempKey[j];
        j, t' := j + 1, t' + 1;
      }
      if t' == 4 {
        r', t' := r' + 1, 0;
      }
    }
  }

  /** The next block of words, and its copy in the expanded key. */
  method Extend(c: Cipherer, tempKey: array<Word>, nk: nat, m: nat, ghost base: nat, r: nat, t: nat,
                ghost key: seq<Word>)
    returns (r': nat, t': nat)
    requires c.Valid() && KeyLength(nk) && c.rounds == nk + 6 && |key| == nk
    requires c.expandedKey != tempKey && tempKey.Length == MAX_KEY_COLUMNS
    requires r <= c.rounds && t < 4 && 4 * r + t == base + nk && BlockStart(m, nk, base)
    requires forall l :: 0 <= l < nk ==> tempKey[l] == KeyWord(key, base + l)
    requires Expanded(c.expandedKey[..], key, base + nk)
    modifies c.expandedKey, tempKey
    ensures t' < 4 && r' <= c.rounds + 1 && (r' == c.rounds + 1 ==> t' == 0)
    ensures r' <= c.rounds ==> 4 * r' + t' == base + 2 * nk
    ensures forall l :: 0 <= l < nk ==> tempKey[l] == KeyWord(key, base + nk + l)
    ensures Expanded(c.expandedKey[..], key, 4 * r' + t')
  {
    hide KeyWord, Mask, BlockStart, Expanded;
    NextBlockStart(m, nk, base);
    NextWords(tempKey, nk, m, m, base, key);
    ghost var was := c.expandedKey[..];
    r', t' := CopyOut(c, tempKey, nk, r, t);
    ExpandedFurther(was, c.expandedKey[..], key, base + nk, 4 * r' + t', tempKey[..]);
  }

  /** The key itself is the first block of words. */
  method Begin(c: Cipherer, key: seq<Word>) returns (tempKey: array<Word>, r: nat, t: nat)
    requires c.Valid() && KeyLength(|key|) && c.rounds == |key| + 6
    modifies c.expandedKey
    ensures fresh(tempKey) && tempKey.Length == MAX_KEY_COLUMNS
    ensures t < 4 && r <= c.rounds && 4 * r + t == |key|
    ensures forall l :: 0 <= l < |key| ==> tempKey[l] == KeyWord(key, l)
    ensures Expanded(c.expandedKey[..], key, 4 * r + t)
  {
    FirstWords(key);
    hide KeyWord, Expanded;
    tempKey := LoadKey(key);
    r, t := CopyOut(c, tempKey, |key|, 0, 0);
    ExpandedFurther([], c.expandedKey[..], key, 0, 4 * r + t, tempKey[..]);
  }

  /** RijndaelKeySched: rounds 0 to c.rounds hold exactly the words of the recurrence. */
  method KeySched(c: Cipherer, key: seq<Word>)
    requires c.Valid() && KeyLength(|key|) && c.rounds == |key| + 6
    modifies c.expandedKey
    ensures Expanded(c.expandedKey[..], key, 4 * (c.rounds + 1))
    ensures Scheduled(c.expandedKey[..], key, 4 * (c.rounds + 1))
  {
    var nk := |key|;
    hide KeyWord, BlockStart, Expanded, Scheduled;
    FirstBlockStart(nk);
    var tempKey, r, t := Begin(c, key);
    var m: nat := 0;
    ghost var base: nat := 0;
    while r <= c.rounds
      invariant t < 4 && r <= c.rounds + 1 && (r == c.rounds + 1 ==> t == 0)
      invariant r <= c.rounds ==> 4 * r + t == base + nk
      invariant BlockStart(m, nk, base)
      invariant forall l :: 0 <= l < nk ==> tempKey[l] == KeyWord(key, base + l)
      invariant Expanded(c.expandedKey[..], key, 4 * r + t)
      decreases 60 - base
    {
      r, t := Extend(c, tempKey, nk, m, base, r, t, key);
      NextBlockStart(m, nk, base);
      m, base := m + 1, base + nk;
    }
    ScheduledIsExpanded(c.expandedKey[..], key, 4 * (c.rounds + 1));
  }

  /** The first n words are those of the recurrence. */
  ghost predicate Expanded(w: seq<Word>, key: seq<Word>, n: nat)
    requires |key| > 0
  {
    n <= |w| && forall i :: 0 <= i < n ==> w[i] == KeyWord(key, i)
  }

  lemma ExpandedFurther(was: seq<Word>, w: seq<Word>, key: seq<Word>, base: nat, n: nat, block: seq<Word>)
    requires |key| > 0 && (base == 0 || Expanded(was, key, base)) && base <= n <= |w| && n <= base + |key|
    requires |key| <= |block|
    requires forall i :: 0 <= i < base ==> i < |was| && w[i] == was[i]
    requires forall i :: base <= i < n ==> w[i] == block[i - base]
    requires forall l :: 0 <= l < |key| ==> block[l] == KeyWord(key, base + l)
    ensures Expanded(w, key, n)
  {
    hide KeyWord;
    forall i | base <= i < n ensures w[i] == KeyWord(key, i) {
      assert block[i - base] == KeyWord(key, base + (i - base));
    }
  }

  method LoadKey(key: seq<Word>) returns (tempKey: array<Word>)
    requires |key| <= MAX_KEY_COLUMNS
    ensures fresh(tempKey) && tempKey.Length == MAX_KEY_COLUMNS
    ensures forall l :: 0 <= l < |key| ==> tempKey[l] == key[l]
  {
    tempKey := new Word[MAX_KEY_COLUMNS](_ => Word(0, 0, 0, 0));
    var j := 0;
    while j < |key|
      invariant 0 <= j <= |key|
      invariant forall l :: 0 <= l < j ==> tempKey[l] == key[l]
    {
      tempKey[j] := key[j];
      j := j + 1;
    }
  }

  lemma FirstBlockStart(nk: nat)
    ensures BlockStart(0, nk, 0)
  {
  }

  lemma FirstWords(key: seq<Word>)
    requires |key| > 0
    ensures forall l :: 0 <= l < |key| ==> KeyWord(key, l) == key[l]
  {
  }
}
