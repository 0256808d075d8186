/** The byte code that the DFA matcher interprets: the opcodes, the items they stand for, the links
    between brackets, and what it takes for a compiled program to be well formed. */
module DfaProgram {
  import opened Basics

  // ---------------------------------------------------------------- decoded items

  /** A test on one subject character. Without regard to case, a single character is compared in lower case, a
      repeated one with the character and its other case. */
  datatype CharTest =
    | Is(d: byte)
    | SameLetter(d: byte)
    | IsEither(d: byte)
    | IsNot(d: byte, caseless: bool)
    | OfType(typeOp: int)
    | InClass(bitmap: seq<byte>)

  /** The repeat quantifiers with the operands the code reads; Range with high 0 has no upper limit. */
  datatype Quantifier =
    | Star
    | Plus
    | Query
    | Upto(high: int)
    | Exact(high: int)
    | Range(low: int, high: int)

  /** What the opcode at an offset stands for, with its links resolved to offsets. Jump covers the
      brackets, kets, alternatives and BRAZERO/SKIPZERO: they only name further offsets. */
  datatype Item =
    | Jump(targets: seq<int>)
    | ZeroWidth(op: int, next: int)
    | One(test: CharTest, next: int)
    | NewlineSequence(next: int)
    | Repeat(test: CharTest, quantifier: Quantifier, possessive: bool, next: int)
    | ForcedFail
    | Assertion(positive: bool, next: int)
    | Recursion(target: int, group: int, next: int)
    | Unsupported

  /** A starting point of a bracket: an alternative, and how far back of the current position it starts. */
  datatype Entry = Entry(off: int, back: nat)

  /** A bracket: where it closes, how its alternatives start, and whether it is a backward assertion. */
  datatype Bracket = Bracket(close: int, entries: seq<Entry>, behind: bool)

  /** A decoded program: the items by offset, and the brackets that can be matched by a call. */
  datatype Code = Code(items: map<int, Item>, brackets: map<int, Bracket>)

  /** The offsets an item can hand on to inside the same bracket. */
  function Targets(o: int, it: Item): seq<int> {
    match it
    case Jump(ts) => ts
    case ZeroWidth(_, next) => [next]
    case One(_, next) => [next]
    case NewlineSequence(next) => [next]
    case Repeat(_, _, _, next) => [o, next]
    case ForcedFail => []
    case Assertion(_, next) => [next]
    case Recursion(_, _, next) => [next]
    case Unsupported => []
  }

  /** Every alternative of the bracket starts inside it, and everything inside hands on to something
      inside it or to its ket. */
  predicate BracketOk(code: Code, g: int)
    requires g in code.brackets
  {
    var e := code.brackets[g].close;
    && 0 <= g < e && e in code.items && code.items[e].Jump?
    && (forall b <- code.brackets[g].entries :: b.off in code.items && g < b.off <= e)
    && (!code.brackets[g].behind ==> forall b <- code.brackets[g].entries :: b.back == 0)
    && (forall o <- code.items :: g < o < e ==>
          forall t <- Targets(o, code.items[o]) :: t in code.items && g < t <= e)
  }

  /** Assertions are brackets nested in what surrounds them; recursions call brackets that start where
      they are called; the whole program is the bracket at offset 0. */
  predicate WellFormed(code: Code) {
    && 0 in code.brackets && !code.brackets[0].behind
    && (forall g <- code.brackets :: BracketOk(code, g))
    && (forall o <- code.items :: code.items[o].Assertion? ==>
          o in code.brackets && code.brackets[o].close < code.items[o].next)
    && (forall o <- code.items :: code.items[o].Recursion? ==>
          var it := code.items[o];
          it.target in code.brackets && !code.brackets[it.target].behind && 0 <= it.group < 0x10000)
  }

  // ---------------------------------------------------------------- opcodes, as in pcre_internal.h

  const OP_SOD := 1
  const OP_SOM := 2
  const OP_NOT_WORD_BOUNDARY := 4
  const OP_WORD_BOUNDARY := 5
  const OP_NOT_DIGIT := 6
  const OP_DIGIT := 7
  const OP_NOT_WHITESPACE := 8
  const OP_WHITESPACE := 9
  const OP_NOT_WORDCHAR := 10
  const OP_WORDCHAR := 11
  const OP_ANY := 12
  const OP_ALLANY := 13
  const OP_ANYBYTE := 14
  const OP_ANYNL := 17
  const OP_NOT_HSPACE := 18
  const OP_HSPACE := 19
  const OP_NOT_VSPACE := 20
  const OP_VSPACE := 21
  const OP_EODN := 23
  const OP_EOD := 24
  const OP_DOLL := 25
  const OP_DOLLM := 26
  const OP_CIRC := 27
  const OP_CIRCM := 28
  const OP_CHAR := 29
  const OP_CHARI := 30
  const OP_NOT := 31
  const OP_NOTI := 32
  const OP_STAR := 33
  const OP_STARI := 46
  const OP_NOTSTAR := 59
  const OP_NOTSTARI := 72
  const OP_TYPESTAR := 85
  const OP_CRSTAR := 98
  const OP_CRPLUS := 100
  const OP_CRQUERY := 102
  const OP_CRRANGE := 104
  const OP_CRPOSSTAR := 106
  const OP_CRPOSPLUS := 107
  const OP_CRPOSQUERY := 108
  const OP_CRPOSRANGE := 109
  const OP_CLASS := 110
  const OP_NCLASS := 111
  const OP_REF := 113
  const OP_DNREFI := 116
  const OP_RECURSE := 117
  const OP_ALT := 119
  const OP_KET := 120
  const OP_KETRMAX := 121
  const OP_KETRMIN := 122
  const OP_REVERSE := 124
  const OP_ASSERT := 125
  const OP_ASSERT_NOT := 126
  const OP_ASSERTBACK := 127
  const OP_ASSERTBACK_NOT := 128
  const OP_BRA := 131
  const OP_CBRA := 133
  const OP_SBRA := 136
  const OP_SCBRA := 138
  const OP_BRAZERO := 146
  const OP_BRAMINZERO := 147
  const OP_FAIL := 157
  const OP_SKIPZERO := 161

  const LINK_SIZE := 2
  const IMM2_SIZE := 2

  // ---------------------------------------------------------------- decoding bytes

  datatype Decoded = Item(item: Item) | Foreign

  /** The two-byte big-endian operand that GET and GET2 read. */
  function Get2(prog: seq<byte>, at: int): (v: int)
    requires 0 <= at && at + 2 <= |prog|
    ensures 0 <= v < 0x10000
  {
    var hi: int, lo: int := prog[at], prog[at + 1];
    hi * 256 + lo
  }

  /** Following the links from the bracket or alternative at o stays inside the program. */
  predicate Linked(prog: seq<byte>, o: int)
    decreases |prog| - o
  {
    && 0 <= o && o + 3 <= |prog|
    && var next := o + Get2(prog, o + 1);
       o < next < |prog| && (prog[next] == OP_ALT ==> Linked(prog, next))
  }

  /** The offset that the link at o leads to. */
  function Link(prog: seq<byte>, o: int): (n: int)
    requires Linked(prog, o)
    ensures o < n < |prog|
  {
    o + Get2(prog, o + 1)
  }

  /** The closing ket: the first place along the links that is not an alternative. */
  function Close(prog: seq<byte>, o: int): (e: int)
    requires Linked(prog, o)
    ensures o < e < |prog| && prog[e] != OP_ALT
    decreases |prog| - o
  {
    var n := Link(prog, o);
    if prog[n] == OP_ALT then Close(prog, n) else n
  }

  /** Where the first item of each alternative starts; head is the length of the opening item. */
  function Branches(prog: seq<byte>, o: int, head: int): (bs: seq<int>)
    requires Linked(prog, o)
    decreases |prog| - o
  {
    var n := Link(prog, o);
    [o + head] + if prog[n] == OP_ALT then Branches(prog, n, 1 + LINK_SIZE) else []
  }

  /** The length of an opening item: capturing brackets carry a group number. */
  function HeadLength(prog: seq<byte>, o: int): int
    requires 0 <= o < |prog|
  {
    1 + LINK_SIZE + if prog[o] == OP_CBRA || prog[o] == OP_SCBRA then IMM2_SIZE else 0
  }

  predicate IsGroupOp(op: int) {
    op == OP_BRA || op == OP_SBRA || op == OP_CBRA || op == OP_SCBRA
  }

  /** The opcodes for one character of a type; they are also the operands of the type repeats. */
  predicate IsTypeOp(op: int) {
    OP_NOT_DIGIT <= op <= OP_ALLANY
  }

  /** The quantifier of the j-th opcode of a block of thirteen repeats. */
  function BlockQuantifier(j: int, high: int): Quantifier
    requires 0 <= j < 13
  {
    if j < 2 || j == 9 then Star
    else if j < 4 || j == 10 then Plus
    else if j < 6 || j == 11 then Query
    else if j == 8 then Exact(high)
    else Upto(high)
  }

  /** The repeats of a block that carry a two-byte count before their character. */
  predicate BlockCounts(j: int) {
    6 <= j <= 8 || j == 12
  }

  /** One of the sixty-five repeats of a character or a type; base is the first opcode of its block. */
  function FetchRepeat(prog: seq<byte>, o: int, base: int): Decoded
    requires 0 <= o < |prog| && 0 <= prog[o] - base < 13
  {
    var j := prog[o] - base;
    var at := if BlockCounts(j) then 1 + IMM2_SIZE else 1;
    if o + at + 1 > |prog| then Foreign else
    var d := prog[o + at];
    var high := if BlockCounts(j) then Get2(prog, o + 1) else 0;
    if base == OP_TYPESTAR && d == OP_ANYBYTE then Item(Unsupported)
    else if base == OP_TYPESTAR && !IsTypeOp(d) then Foreign
    else
      var test := if base == OP_STAR then Is(d)
                  else if base == OP_STARI then IsEither(d)
                  else if base == OP_NOTSTAR then IsNot(d, false)
                  else if base == OP_NOTSTARI then IsNot(d, true)
                  else OfType(d);
      Item(Repeat(test, BlockQuantifier(j, high), j >= 9, o + at + 1))
  }

  /** A class of 32 bitmap bytes and the quantifier that may follow it. */
  function FetchClass(prog: seq<byte>, o: int): Decoded
    requires 0 <= o < |prog|
  {
    if o + 34 > |prog| then Foreign else
    var test := InClass(prog[o + 1..o + 33]);
    var q := prog[o + 33];
    if OP_CRSTAR <= q < OP_CRPLUS || q == OP_CRPOSSTAR then
      Item(Repeat(test, Star, q == OP_CRPOSSTAR, o + 34))
    else if OP_CRPLUS <= q < OP_CRQUERY || q == OP_CRPOSPLUS then
      Item(Repeat(test, Plus, q == OP_CRPOSPLUS, o + 34))
    else if OP_CRQUERY <= q < OP_CRRANGE || q == OP_CRPOSQUERY then
      Item(Repeat(test, Query, q == OP_CRPOSQUERY, o + 34))
    else if OP_CRRANGE <= q < OP_CRPOSSTAR || q == OP_CRPOSRANGE then
      if o + 38 > |prog| then Foreign
      else Item(Repeat(test, Range(Get2(prog, o + 34), Get2(prog, o + 36)), q == OP_CRPOSRANGE, o + 38))
    else Item(One(test, o + 33))
  }

  function FetchChar(prog: seq<byte>, o: int): Decoded
    requires 0 <= o < |prog|
  {
    if o + 2 > |prog| then Foreign
    else if prog[o] == OP_CHAR then Item(One(Is(prog[o + 1]), o + 2))
    else if prog[o] == OP_CHARI then Item(One(SameLetter(prog[o + 1]), o + 2))
    else if prog[o] == OP_NOT then Item(One(IsNot(prog[o + 1], false), o + 2))
    else Item(One(IsNot(prog[o + 1], true), o + 2))
  }

  /** A recursion names the bracket it calls by offset; the group number is the called bracket's. */
  function FetchRecursion(prog: seq<byte>, o: int): Decoded
    requires 0 <= o < |prog|
  {
    if o + 3 > |prog| then Foreign else
    var t := Get2(prog, o + 1);
    if t == 0 then Item(Recursion(t, 0, o + 1 + LINK_SIZE))
    else if t + 5 > |prog| then Foreign
    else Item(Recursion(t, Get2(prog, t + 1 + LINK_SIZE), o + 1 + LINK_SIZE))
  }

  /** The items that only name other offsets. */
  function FetchJump(prog: seq<byte>, o: int): Decoded
    requires 0 <= o < |prog|
  {
    var op := prog[o];
    if op == OP_KET then
      Item(Jump([o + 1 + LINK_SIZE]))
    else if op == OP_KETRMAX || op == OP_KETRMIN then
      if o + 3 > |prog| then Foreign else Item(Jump([o + 1 + LINK_SIZE, o - Get2(prog, o + 1)]))
    else if op == OP_ALT then
      if Linked(prog, o) then Item(Jump([Close(prog, o)])) else Foreign
    else if IsGroupOp(op) then
      if Linked(prog, o) then Item(Jump(Branches(prog, o, HeadLength(prog, o)))) else Foreign
    else if op == OP_BRAZERO || op == OP_BRAMINZERO then
      if Linked(prog, o + 1) then Item(Jump([o + 1, Close(prog, o + 1) + 1 + LINK_SIZE])) else Foreign
    else if op == OP_SKIPZERO then
      if Linked(prog, o + 1) then Item(Jump([Close(prog, o + 1) + 1 + LINK_SIZE])) else Foreign
    else
      Foreign
  }

  /** The item at an offset; Foreign marks what this model leaves out. */
  function Fetch(prog: seq<byte>, o: int): Decoded
    requires 0 <= o < |prog|
  {
    var op := prog[o];
    if op in {OP_SOD, OP_SOM, OP_CIRC, OP_CIRCM, OP_EODN, OP_EOD, OP_DOLL, OP_DOLLM,
              OP_WORD_BOUNDARY, OP_NOT_WORD_BOUNDARY} then Item(ZeroWidth(op, o + 1))
    else if IsTypeOp(op) || OP_NOT_HSPACE <= op <= OP_VSPACE then Item(One(OfType(op), o + 1))
    else if OP_CHAR <= op <= OP_NOTI then FetchChar(prog, o)
    else if op == OP_ANYNL then Item(NewlineSequence(o + 1))
    else if OP_STAR <= op < OP_STARI then FetchRepeat(prog, o, OP_STAR)
    else if OP_STARI <= op < OP_NOTSTAR then FetchRepeat(prog, o, OP_STARI)
    else if OP_NOTSTAR <= op < OP_NOTSTARI then FetchRepeat(prog, o, OP_NOTSTAR)
    else if OP_NOTSTARI <= op < OP_TYPESTAR then FetchRepeat(prog, o, OP_NOTSTARI)
    else if OP_TYPESTAR <= op < OP_CRSTAR then FetchRepeat(prog, o, OP_TYPESTAR)
    else if op == OP_CLASS || op == OP_NCLASS then FetchClass(prog, o)
    else if op == OP_ASSERT || op == OP_ASSERTBACK then FetchAssertion(prog, o, true)
    else if op == OP_ASSERT_NOT || op == OP_ASSERTBACK_NOT then FetchAssertion(prog, o, false)
    else if op == OP_RECURSE then FetchRecursion(prog, o)
    else if op == OP_FAIL then Item(ForcedFail)
    else if OP_REF <= op <= OP_DNREFI then Item(Unsupported)
    else FetchJump(prog, o)
  }

  function FetchAssertion(prog: seq<byte>, o: int, positive: bool): Decoded
    requires 0 <= o < |prog|
  {
    if Linked(prog, o) then Item(Assertion(positive, Close(prog, o) + 1 + LINK_SIZE)) else Foreign
  }

  /** A backward assertion starts its first alternative with a REVERSE item. */
  predicate LooksBehind(prog: seq<byte>, g: int)
    requires 0 <= g < |prog|
  {
    var at := g + HeadLength(prog, g);
    at < |prog| && prog[at] == OP_REVERSE
  }

  /** How the bracket at g starts: a REVERSE item in front of an alternative gives the distance back. */
  function FetchBracket(prog: seq<byte>, g: int): Bracket
    requires 0 <= g < |prog| && Linked(prog, g)
  {
    var bs := Branches(prog, g, HeadLength(prog, g));
    Bracket(Close(prog, g),
            if LooksBehind(prog, g) then
              seq(|bs|, i requires 0 <= i < |bs| =>
                if 0 <= bs[i] && bs[i] + 3 <= |prog| then Entry(bs[i] + 1 + LINK_SIZE, Get2(prog, bs[i] + 1))
                else Entry(-1, 0))
            else
              seq(|bs|, i requires 0 <= i < |bs| => Entry(bs[i], 0)),
            LooksBehind(prog, g))
  }

  predicate IsBracketOp(op: int) {
    IsGroupOp(op) || OP_ASSERT <= op <= OP_ASSERTBACK_NOT
  }

  /** The decoded form of a program whose items begin at the offsets in starts. */
  function Decode(prog: seq<byte>, starts: set<int>): Code {
    Code(map o | o in starts && 0 <= o < |prog| && Fetch(prog, o).Item? :: Fetch(prog, o).item,
         map g | g in starts && 0 <= g < |prog| && IsBracketOp(prog[g]) && Linked(prog, g) :: FetchBracket(prog, g))
  }
}
