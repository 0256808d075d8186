/** Patterns, what they match, and the bytes that stand for them: characters, classes, places and repeats of them,
    and groups of alternatives, once, optional or repeated. */
module DfaPattern {
  import opened Basics
  import opened DfaProgram
  import opened DfaSemantics
  import opened DfaItems
  import opened DfaRepeat

  // ---------------------------------------------------------------- patterns

  datatype Atom =
    | Where(op: int)
    | Single(test: CharTest)
    | Newlines
    | Many(test: CharTest, quantifier: Quantifier, possessive: bool, lazy: bool)
    | Fail

  datatype Loop = Once | Maybe | Any | AtLeastOnce | Never

  datatype Term = Leaf(atom: Atom) | Group(op: int, number: int, loop: Loop, lazy: bool, choice: Choice)

  /** One alternative. */
  datatype Pattern = Empty | Then(first: Term, rest: Pattern)

  datatype Choice = Only(pattern: Pattern) | Or(pattern: Pattern, others: Choice)

  // ---------------------------------------------------------------- what they match

  /** The atom matches the text from a to b. */
  ghost predicate AtomMatches(env: Env, som: int, atom: Atom, a: int, b: int) {
    && FullTables(env.tables) && 0 <= a <= |env.subject|
    && match atom
       case Where(op) => b == a && Stands(env, som, op, a)
       case Single(t) => b == a + 1 && PassesAt(env, t, a)
       case Newlines => IsLineEnd(env, a, b)
       case Many(t, q, possessive, _) => b >= a && MayTake(env, t, q, possessive, a, b - a)
       case Fail => false
  }

  ghost predicate TermMatches(env: Env, som: int, t: Term, a: int, b: int)
    decreases t, 0, 0
  {
    match t
    case Leaf(atom) => AtomMatches(env, som, atom, a, b)
    case Group(_, _, loop, _, choice) =>
      match loop
      case Once => ChoiceMatches(env, som, choice, a, b)
      case Maybe => a == b || ChoiceMatches(env, som, choice, a, b)
      case Any => exists n: nat :: TimesMatches(env, som, choice, n, a, b)
      case AtLeastOnce => exists n: nat :: n > 0 && TimesMatches(env, som, choice, n, a, b)
      case Never => a == b
  }

  ghost predicate PatternMatches(env: Env, som: int, p: Pattern, a: int, b: int)
    decreases p, 0, 0
  {
    match p
    case Empty => a == b
    case Then(t, rest) => exists m :: TermMatches(env, som, t, a, m) && PatternMatches(env, som, rest, m, b)
  }

  ghost predicate ChoiceMatches(env: Env, som: int, c: Choice, a: int, b: int)
    decreases c, 0, 0
  {
    match c
    case Only(p) => PatternMatches(env, som, p, a, b)
    case Or(p, others) => PatternMatches(env, som, p, a, b) || ChoiceMatches(env, som, others, a, b)
  }

  /** n times, one after the other. */
  ghost predicate TimesMatches(env: Env, som: int, c: Choice, n: nat, a: int, b: int)
    decreases c, 1, n
  {
    if n == 0 then a == b
    else exists m :: TimesMatches(env, som, c, n - 1, a, m) && ChoiceMatches(env, som, c, m, b)
  }

  // ---------------------------------------------------------------- bytes

  /** The low sixteen bits, the high byte first. */
  function Two(v: int): seq<byte> {
    [v / 256 % 256, v % 256]
  }

  predicate IsPlaceOp(op: int) {
    op in {OP_SOD, OP_SOM, OP_CIRC, OP_CIRCM, OP_EODN, OP_EOD, OP_DOLL, OP_DOLLM, OP_WORD_BOUNDARY,
           OP_NOT_WORD_BOUNDARY}
  }

  /** The first opcode of the block of repeats of a test. */
  function BlockOf(t: CharTest): int
    requires !t.InClass? && !t.SameLetter?
  {
    match t
    case Is(_) => OP_STAR
    case IsEither(_) => OP_STARI
    case IsNot(_, caseless) => if caseless then OP_NOTSTARI else OP_NOTSTAR
    case OfType(_) => OP_TYPESTAR
  }

  function Operand(t: CharTest): int
    requires !t.InClass?
  {
    if t.OfType? then t.typeOp else t.d
  }

  /** Greedy, lazy and possessive forms, in this order; an exact count has one form, and a possessive repeat with an
      upper limit comes last. */
  function BlockPlace(q: Quantifier, possessive: bool, lazy: bool): int
    requires !q.Range?
  {
    match q
    case Star => if possessive then 9 else if lazy then 1 else 0
    case Plus => if possessive then 10 else if lazy then 3 else 2
    case Query => if possessive then 11 else if lazy then 5 else 4
    case Upto(_) => if possessive then 12 else if lazy then 7 else 6
    case Exact(_) => 8
  }

  function ClassPlace(q: Quantifier, possessive: bool, lazy: bool): int {
    match q
    case Star => if possessive then OP_CRPOSSTAR else if lazy then OP_CRSTAR + 1 else OP_CRSTAR
    case Plus => if possessive then OP_CRPOSPLUS else if lazy then OP_CRPLUS + 1 else OP_CRPLUS
    case Query => if possessive then OP_CRPOSQUERY else if lazy then OP_CRQUERY + 1 else OP_CRQUERY
    case _ => if possessive then OP_CRPOSRANGE else if lazy then OP_CRRANGE + 1 else OP_CRRANGE
  }

  predicate Is16(v: int) { 0 <= v < 0x10000 }

  /** The atoms that there are bytes for. */
  predicate AtomOk(atom: Atom) {
    match atom
    case Where(op) => IsPlaceOp(op)
    case Single(t) =>
      (match t
       case OfType(op) => IsTypeOp(op) || OP_NOT_HSPACE <= op <= OP_VSPACE
       case InClass(bitmap) => |bitmap| == 32
       case IsEither(_) => false
       case _ => true)
    case Many(t, q, possessive, _) =>
      && (q.Upto? || q.Exact? ==> Is16(q.high)) && (q.Range? ==> Is16(q.low) && Is16(q.high))
      && (match t
          case InClass(bitmap) => |bitmap| == 32 && !q.Upto? && !q.Exact?
          case OfType(op) => IsTypeOp(op) && !q.Range? && (q.Exact? ==> !possessive)
          case SameLetter(_) => false
          case _ => !q.Range? && (q.Exact? ==> !possessive))
    case _ => true
  }

  function TestBytes(t: CharTest): seq<byte>
    requires AtomOk(Single(t))
  {
    match t
    case Is(d) => [OP_CHAR, d]
    case SameLetter(d) => [OP_CHARI, d]
    case IsNot(d, caseless) => [if caseless then OP_NOTI else OP_NOT, d]
    case OfType(op) => [op]
    case InClass(bitmap) => [OP_CLASS] + bitmap
    case IsEither(_) => []
  }

  function AtomBytes(atom: Atom): (bytes: seq<byte>)
    requires AtomOk(atom)
    ensures |bytes| > 0
  {
    match atom
    case Where(op) => [op]
    case Single(t) => TestBytes(t)
    case Newlines => [OP_ANYNL]
    case Many(t, q, possessive, lazy) =>
      if t.InClass? then
        [OP_CLASS] + t.bitmap + [ClassPlace(q, possessive, lazy)] + if q.Range? then Two(q.low) + Two(q.high) else []
      else
        [BlockOf(t) + BlockPlace(q, possessive, lazy)] + (if q.Upto? || q.Exact? then Two(q.high) else [])
        + [Operand(t)]
    case Fail => [OP_FAIL]
  }

  function ItemOf(atom: Atom, next: int): Item {
    match atom
    case Where(op) => ZeroWidth(op, next)
    case Single(t) => One(t, next)
    case Newlines => NewlineSequence(next)
    case Many(t, q, possessive, _) => Repeat(t, q, possessive, next)
    case Fail => ForcedFail
  }

  // ---------------------------------------------------------------- atoms are decoded as they were encoded

  /** These bytes stand at o. */
  predicate StandsAt(prog: seq<byte>, o: int, bytes: seq<byte>) {
    0 <= o && o + |bytes| <= |prog| && prog[o..o + |bytes|] == bytes
  }

  /** No quantifier of a class stands at o. */
  predicate NoClassRepeat(prog: seq<byte>, o: int) {
    0 <= o < |prog| && !(OP_CRSTAR <= prog[o] <= OP_CRPOSRANGE)
  }

  lemma ByteAt(prog: seq<byte>, o: int, bytes: seq<byte>, i: nat)
    requires StandsAt(prog, o, bytes) && i < |bytes|
    ensures prog[o + i] == bytes[i]
  {
    assert prog[o..o + |bytes|][i] == bytes[i];
  }

  lemma GetsTwo(prog: seq<byte>, o: int, v: int)
    requires Is16(v) && StandsAt(prog, o, Two(v))
    ensures Get2(prog, o) == v
  {
    ByteAt(prog, o, Two(v), 0);
    ByteAt(prog, o, Two(v), 1);
  }

  lemma PartAt(prog: seq<byte>, o: int, bytes: seq<byte>, i: nat, part: seq<byte>)
    requires StandsAt(prog, o, bytes) && i + |part| <= |bytes| && bytes[i..i + |part|] == part
    ensures StandsAt(prog, o + i, part)
  {
    forall k | 0 <= k < |part| ensures prog[o + i + k] == part[k] {
      ByteAt(prog, o, bytes, i + k);
      assert bytes[i..i + |part|][k] == bytes[i + k];
    }
    assert prog[o + i..o + i + |part|] == part;
  }

  lemma SingleDecodes(prog: seq<byte>, o: int, t: CharTest)
    requires AtomOk(Single(t)) && StandsAt(prog, o, TestBytes(t)) && NoClassRepeat(prog, o + |TestBytes(t)|)
    ensures Fetch(prog, o) == Item(One(t, o + |TestBytes(t)|))
  {
    var bytes := TestBytes(t);
    ByteAt(prog, o, bytes, 0);
    if t.InClass? {
      PartAt(prog, o, bytes, 1, t.bitmap);
    } else if !t.OfType? {
      ByteAt(prog, o, bytes, 1);
    }
  }

  lemma ClassDecodes(prog: seq<byte>, o: int, atom: Atom)
    requires atom.Many? && atom.test.InClass? && AtomOk(atom) && StandsAt(prog, o, AtomBytes(atom))
    ensures Fetch(prog, o) == Item(ItemOf(atom, o + |AtomBytes(atom)|))
  {
    var bytes, t, q := AtomBytes(atom), atom.test, atom.quantifier;
    ByteAt(prog, o, bytes, 0);
    PartAt(prog, o, bytes, 1, t.bitmap);
    ByteAt(prog, o, bytes, 33);
    if q.Range? {
      PartAt(prog, o, bytes, 34, Two(q.low));
      PartAt(prog, o, bytes, 36, Two(q.high));
      GetsTwo(prog, o + 34, q.low);
      GetsTwo(prog, o + 36, q.high);
    }
    hide Get2, Two;
  }

  lemma BlockDecodes(prog: seq<byte>, o: int, atom: Atom)
    requires atom.Many? && !atom.test.InClass? && AtomOk(atom) && StandsAt(prog, o, AtomBytes(atom))
    ensures Fetch(prog, o) == Item(ItemOf(atom, o + |AtomBytes(atom)|))
  {
    var bytes, t, q := AtomBytes(atom), atom.test, atom.quantifier;
    ByteAt(prog, o, bytes, 0);
    if q.Upto? || q.Exact? {
      PartAt(prog, o, bytes, 1, Two(q.high));
      GetsTwo(prog, o + 1, q.high);
      ByteAt(prog, o, bytes, 3);
    } else {
      ByteAt(prog, o, bytes, 1);
    }
    var j := BlockPlace(q, atom.possessive, atom.lazy);
    assert BlockQuantifier(j, if BlockCounts(j) then q.high else 0) == q;
    hide Get2, Two, FetchClass, FetchJump, FetchAssertion, FetchRecursion, FetchChar, BlockQuantifier;
    assert Fetch(prog, o) == FetchRepeat(prog, o, BlockOf(t));
  }

  /** The item at the place of an atom is that atom. */
  lemma AtomDecodes(prog: seq<byte>, o: int, atom: Atom)
    requires AtomOk(atom) && StandsAt(prog, o, AtomBytes(atom)) && NoClassRepeat(prog, o + |AtomBytes(atom)|)
    ensures Fetch(prog, o) == Item(ItemOf(atom, o + |AtomBytes(atom)|))
  {
    ByteAt(prog, o, AtomBytes(atom), 0);
    match atom {
      case Single(t) => SingleDecodes(prog, o, t);
      case Many(t, _, _, _) => if t.InClass? { ClassDecodes(prog, o, atom); } else { BlockDecodes(prog, o, atom); }
      case _ =>
    }
  }

  // ---------------------------------------------------------------- the bytes of groups

  predicate TermOk(t: Term) {
    match t
    case Leaf(atom) => AtomOk(atom)
    case Group(op, number, _, _, choice) => IsGroupOp(op) && Is16(number) && ChoiceOk(choice)
  }

  predicate PatternOk(p: Pattern) {
    match p
    case Empty => true
    case Then(t, rest) => TermOk(t) && PatternOk(rest)
  }

  predicate ChoiceOk(c: Choice) {
    match c
    case Only(p) => PatternOk(p)
    case Or(p, others) => PatternOk(p) && ChoiceOk(others)
  }

  /** A capturing group has its number behind the link. */
  function NumberBytes(op: int, number: int): seq<byte> {
    if op == OP_CBRA || op == OP_SCBRA then Two(number) else []
  }

  function Prefix(loop: Loop, lazy: bool): seq<byte> {
    match loop
    case Maybe => [if lazy then OP_BRAMINZERO else OP_BRAZERO]
    case Any => [if lazy then OP_BRAMINZERO else OP_BRAZERO]
    case Never => [OP_SKIPZERO]
    case _ => []
  }

  function KetOp(loop: Loop, lazy: bool): byte {
    if loop.Any? || loop.AtLeastOnce? then (if lazy then OP_KETRMIN else OP_KETRMAX) else OP_KET
  }

  function TermBytes(t: Term): (bytes: seq<byte>)
    requires TermOk(t)
    ensures |bytes| > 0
    decreases t, 0
  {
    match t
    case Leaf(atom) => AtomBytes(atom)
    case Group(op, number, loop, lazy, choice) =>
      var inner := ChoiceBytes(op, NumberBytes(op, number), choice);
      Prefix(loop, lazy) + inner + [KetOp(loop, lazy)] + Two(|inner|)
  }

  function PatternBytes(p: Pattern): seq<byte>
    requires PatternOk(p)
    decreases p, 0
  {
    match p
    case Empty => []
    case Then(t, rest) => TermBytes(t) + PatternBytes(rest)
  }

  /** The alternatives: each has an opening item with a link to the next one, or to the ket. */
  function ChoiceBytes(op: int, number: seq<byte>, c: Choice): (bytes: seq<byte>)
    requires ChoiceOk(c) && 0 <= op < 256
    ensures |bytes| >= 3 + |number| && bytes[0] == op
    decreases c, 0
  {
    match c
    case Only(p) => HeadBytes(op, number, |PatternBytes(p)|) + PatternBytes(p)
    case Or(p, others) => HeadBytes(op, number, |PatternBytes(p)|) + PatternBytes(p) + ChoiceBytes(OP_ALT, [], others)
  }

  function HeadBytes(op: int, number: seq<byte>, length: nat): (bytes: seq<byte>)
    requires 0 <= op < 256
    ensures |bytes| == 3 + |number| && bytes[0] == op
  {
    [op] + Two(3 + |number| + length) + number
  }

  /** A whole program: the alternatives in a bracket of their own, and the end. */
  function ProgramBytes(c: Choice): seq<byte>
    requires ChoiceOk(c)
  {
    var inner := ChoiceBytes(OP_BRA, [], c);
    inner + [OP_KET] + Two(|inner|) + [0]
  }
}
