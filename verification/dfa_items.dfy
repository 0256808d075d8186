/** What the items of a program ask of the subject, said a second time: a test by the characters that pass it, a place
    by the text around it. */
module DfaItems {
  import opened Basics
  import opened DfaProgram
  import opened DfaSemantics

  // ---------------------------------------------------------------- tests

  /** A type: digits, white space and word characters by the tables, two fixed sets, all, and all but the newline. */
  ghost predicate OfNamedType(env: Env, op: int, c: byte)
    requires FullTables(env.tables)
  {
    || (op == OP_DIGIT && env.tables.ctypes[c].digit)
    || (op == OP_WHITESPACE && env.tables.ctypes[c].space)
    || (op == OP_WORDCHAR && env.tables.ctypes[c].word)
    || (op == OP_HSPACE && c in {0x09, 0x20, 0xa0})
    || (op == OP_VSPACE && c in {0x0a, 0x0b, 0x0c, 0x0d, 0x85})
    || op == OP_ALLANY
    || (op == OP_ANY && c != env.newline)
  }

  /** The opcode before a type's is for the characters that are not of it. */
  ghost predicate OfAnyType(env: Env, op: int, c: byte)
    requires FullTables(env.tables)
  {
    if op in {OP_NOT_DIGIT, OP_NOT_WHITESPACE, OP_NOT_WORDCHAR, OP_NOT_HSPACE, OP_NOT_VSPACE}
    then !OfNamedType(env, op + 1, c)
    else OfNamedType(env, op, c)
  }

  ghost function Digit(chars: set<byte>, c: int): (d: nat) {
    if c in chars then 1 else 0
  }

  /** The number whose n bits, from the lowest on, say which of the characters from c on are in the set. */
  ghost function BitsOf(chars: set<byte>, c: int, n: nat): nat
    decreases n
  {
    if n == 0 then 0 else Digit(chars, c) + 2 * BitsOf(chars, c + 1, n - 1)
  }

  /** The bitmap of a set of characters. */
  ghost predicate IsBitmapOf(bitmap: seq<byte>, chars: set<byte>) {
    |bitmap| == 32 && forall i :: 0 <= i < 32 ==> bitmap[i] == BitsOf(chars, 8 * i, 8)
  }

  ghost function BitAt(v: nat, j: nat): int
    requires j < 8
  {
    v / Bit(j) % 2
  }

  /** A number's bit 0, and its bits as those of half the number. */
  lemma BitBehind(v: nat, j: nat)
    requires j < 8
    ensures BitAt(v, j) == if j == 0 then v % 2 else BitAt(v / 2, j - 1)
  {
    assert Bit(0) == 1 && Bit(1) == 2 && Bit(2) == 4;
    assert Bit(3) == 8 && Bit(4) == 16;
    assert Bit(5) == 32 && Bit(6) == 64;
    hide Bit;
  }

  lemma Halved(d: nat, r: nat)
    requires d <= 1
    ensures (d + 2 * r) / 2 == r && (d + 2 * r) % 2 == d
  {
  }

  lemma {:induction false} BitTells(chars: set<byte>, c: int, n: nat, j: nat)
    requires j < n <= 8
    ensures BitAt(BitsOf(chars, c, n), j) == Digit(chars, c + j)
    decreases n
  {
    hide BitAt;
    Halved(Digit(chars, c), BitsOf(chars, c + 1, n - 1));
    BitBehind(BitsOf(chars, c, n), j);
    if j > 0 {
      BitTells(chars, c + 1, n - 1, j - 1);
      assert c + 1 + (j - 1) == c + j;
    }
  }

  lemma {:induction false} BitsMakeNumber(chars: set<byte>, c: int, n: nat, v: nat)
    requires n <= 8 && v < Power2(n) && forall j :: 0 <= j < n ==> Digit(chars, c + j) == BitAt(v, j)
    ensures BitsOf(chars, c, n) == v
    decreases n
  {
    hide BitAt;
    if n > 0 {
      assert Digit(chars, c + 0) == BitAt(v, 0);
      BitBehind(v, 0);
      forall j | 0 <= j < n - 1 ensures Digit(chars, c + 1 + j) == BitAt(v / 2, j) {
        BitBehind(v, j + 1);
        assert c + 1 + j == c + (j + 1);
      }
      BitsMakeNumber(chars, c + 1, n - 1, v / 2);
    }
  }

  function Power2(n: nat): nat {
    if n == 0 then 1 else 2 * Power2(n - 1)
  }

  /** The test of a character against the bitmap of a set asks whether it is in the set. */
  lemma BitmapTells(bitmap: seq<byte>, chars: set<byte>, c: byte)
    requires IsBitmapOf(bitmap, chars)
    ensures InBitmap(bitmap, c) <==> c in chars
  {
    BitTells(chars, 8 * (c / 8), 8, c % 8);
  }

  /** Every bitmap is that of some set. */
  lemma EveryBitmapIsOne(bitmap: seq<byte>)
    requires |bitmap| == 32
    ensures IsBitmapOf(bitmap, set c: byte | InBitmap(bitmap, c))
  {
    hide Bit;
    var chars := set c: byte | InBitmap(bitmap, c);
    forall i | 0 <= i < 32 ensures bitmap[i] == BitsOf(chars, 8 * i, 8) {
      forall j | 0 <= j < 8 ensures Digit(chars, 8 * i + j) == BitAt(bitmap[i], j) {
        var c: byte := 8 * i + j;
        assert c / 8 == i && c % 8 == j;
      }
      assert Power2(4) == 16 && Power2(8) == 256;
      BitsMakeNumber(chars, 8 * i, 8, bitmap[i]);
    }
  }

  /** The character c passes the test. */
  ghost predicate Admits(env: Env, t: CharTest, c: byte)
    requires FullTables(env.tables)
  {
    match t
    case Is(d) => c == d
    case SameLetter(d) => env.tables.lcc[c] == env.tables.lcc[d]
    case IsEither(d) => c in {d, env.tables.fcc[d]}
    case IsNot(d, caseless) => if caseless then c !in {d, env.tables.fcc[d]} else c != d
    case OfType(op) => OfAnyType(env, op, c)
    case InClass(bitmap) => exists chars :: IsBitmapOf(bitmap, chars) && c in chars
  }

  lemma PassesIsAdmits(env: Env, t: CharTest, p: int)
    requires FullTables(env.tables) && 0 <= p < |env.subject| && (t.InClass? ==> |t.bitmap| == 32)
    ensures Passes(env, t, p) <==> Admits(env, t, env.subject[p])
  {
    hide InBitmap, IsBitmapOf;
    if t.InClass? {
      var c := env.subject[p];
      EveryBitmapIsOne(t.bitmap);
      assert InBitmap(t.bitmap, c) <==> c in set c: byte | InBitmap(t.bitmap, c);
      forall chars | IsBitmapOf(t.bitmap, chars) ensures InBitmap(t.bitmap, c) <==> c in chars {
        BitmapTells(t.bitmap, chars, c);
      }
    }
  }

  // ---------------------------------------------------------------- places

  /** The character before or behind a place, if there is one, is a word character. */
  ghost predicate WordBefore(env: Env, p: int)
    requires FullTables(env.tables)
  {
    0 < p <= |env.subject| && OfNamedType(env, OP_WORDCHAR, env.subject[p - 1])
  }

  ghost predicate WordBehind(env: Env, p: int)
    requires FullTables(env.tables)
  {
    0 <= p < |env.subject| && OfNamedType(env, OP_WORDCHAR, env.subject[p])
  }

  /** The item for a place holds at p. A newline at the very end is no end of the subject for a dollar that asks for
      the end only, and with that option a line ends for the multiline dollar at the end of the subject only, unless
      the subject's end is not the end of a line. */
  ghost predicate Stands(env: Env, som: int, op: int, p: int)
    requires FullTables(env.tables) && 0 <= p <= |env.subject|
  {
    var before, rest, newline := env.subject[..p], env.subject[p..], [env.newline];
    var lastLine := rest == [] || rest == newline;
    if op == OP_CIRC then before == [] && !env.options.notBol
    else if op == OP_CIRCM then
      if before == [] then !env.options.notBol else rest != [] && before[p - 1] == env.newline
    else if op == OP_SOD then before == []
    else if op == OP_SOM then p == som
    else if op == OP_EOD then rest == []
    else if op == OP_EODN then lastLine
    else if op == OP_DOLL then !env.options.notEol && if env.options.dollarEndonly then rest == [] else lastLine
    else if op == OP_DOLLM then
      if env.options.notEol then newline <= rest
      else rest == [] || (!env.options.dollarEndonly && newline <= rest)
    else if op == OP_NOT_WORD_BOUNDARY then WordBefore(env, p) <==> WordBehind(env, p)
    else WordBefore(env, p) <==> !WordBehind(env, p)
  }

  lemma HoldsIsStands(env: Env, som: int, op: int, p: int)
    requires FullTables(env.tables) && 0 <= p <= |env.subject|
    ensures Holds(env, som, op, p) <==> Stands(env, som, op, p)
  {
  }

  /** The text from p to e is one of the newline sequences; a carriage return takes a line feed with it. */
  ghost predicate IsLineEnd(env: Env, p: int, e: int) {
    && 0 <= p <= e <= |env.subject|
    && var text := env.subject[p..e];
       || text == [0x0a] || text == [0x0d, 0x0a]
       || (text == [0x0d] && !([0x0a] <= env.subject[e..]))
       || (!env.options.bsrAnycrlf && text in {[0x0b], [0x0c], [0x85]})
  }

  lemma NewlineIsLineEnd(env: Env, p: int, e: int)
    requires 0 <= p <= |env.subject|
    ensures (NewlineLength(env, p) > 0 && e == p + NewlineLength(env, p)) <==> IsLineEnd(env, p, e)
  {
    var s := env.subject;
    if p + 1 <= |s| {
      assert s[p..p + 1] == [s[p]];
      assert [0x0a] <= s[p + 1..] <==> p + 1 < |s| && s[p + 1] == 0x0a;
    }
    if p + 2 <= |s| {
      assert s[p..p + 2] == [s[p], s[p + 1]];
    }
    if IsLineEnd(env, p, e) {
      assert |s[p..e]| == e - p;
      assert e == p + 1 || e == p + 2;
    }
  }
}
