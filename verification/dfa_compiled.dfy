/** The bytes of a pattern, decoded: where the links lead, which item stands where, and that the program is well
    formed. */
module DfaCompiled {
  import opened Basics
  import opened DfaProgram
  import opened DfaPattern

  // ---------------------------------------------------------------- links

  /** Where the alternatives start; head is the length of the first one's opening item. */
  function Starts(c: Choice, o: int, head: int): seq<int>
    requires ChoiceOk(c)
  {
    match c
    case Only(p) => [o + head]
    case Or(p, others) => [o + head] + Starts(others, o + head + |PatternBytes(p)|, 3)
  }

  lemma BytesJoin(prog: seq<byte>, o: int, a: seq<byte>, b: seq<byte>)
    requires StandsAt(prog, o, a + b)
    ensures StandsAt(prog, o, a) && StandsAt(prog, o + |a|, b)
  {
    assert (a + b)[0..|a|] == a && (a + b)[|a|..|a| + |b|] == b;
    PartAt(prog, o, a + b, 0, a);
    PartAt(prog, o, a + b, |a|, b);
  }

  lemma HeadLinks(prog: seq<byte>, o: int, op: int, number: seq<byte>, length: nat)
    requires 0 <= op < 256 && StandsAt(prog, o, HeadBytes(op, number, length)) && Is16(3 + |number| + length)
    ensures prog[o] == op && Get2(prog, o + 1) == 3 + |number| + length
  {
    var bytes := HeadBytes(op, number, length);
    ByteAt(prog, o, bytes, 0);
    PartAt(prog, o, bytes, 1, Two(3 + |number| + length));
    GetsTwo(prog, o + 1, 3 + |number| + length);
  }

  lemma LastLink(prog: seq<byte>, o: int, head: int, n: int)
    requires 0 <= o && o + 3 <= |prog| && n > 0 && o + n < |prog| && Get2(prog, o + 1) == n && prog[o + n] != OP_ALT
    ensures Linked(prog, o) && Close(prog, o) == o + n && Branches(prog, o, head) == [o + head]
  {
    hide Get2;
  }

  lemma NextLink(prog: seq<byte>, o: int, head: int, n: int)
    requires 0 <= o && o + 3 <= |prog| && n > 0 && o + n < |prog| && Get2(prog, o + 1) == n && prog[o + n] == OP_ALT
    requires Linked(prog, o + n)
    ensures Linked(prog, o) && Close(prog, o) == Close(prog, o + n)
    ensures Branches(prog, o, head) == [o + head] + Branches(prog, o + n, 3)
  {
    hide Get2;
  }

  /** The opening item, the alternative, and the further ones. */
  lemma ChoiceParts(prog: seq<byte>, o: int, op: int, number: seq<byte>, c: Choice)
    requires ChoiceOk(c) && 0 <= op < 256 && StandsAt(prog, o, ChoiceBytes(op, number, c))
    ensures var body := PatternBytes(c.pattern);
            var b := o + 3 + |number|;
            && StandsAt(prog, o, HeadBytes(op, number, |body|)) && StandsAt(prog, b, body)
            && (c.Or? ==> StandsAt(prog, b + |body|, ChoiceBytes(OP_ALT, [], c.others)))
            && |ChoiceBytes(op, number, c)| ==
               3 + |number| + |body| + if c.Or? then |ChoiceBytes(OP_ALT, [], c.others)| else 0
  {
    hide PatternBytes, HeadBytes, StandsAt;
    var body := PatternBytes(c.pattern);
    var first := HeadBytes(op, number, |body|) + body;
    if c.Or? {
      assert ChoiceBytes(op, number, c) == first + ChoiceBytes(OP_ALT, [], c.others);
      BytesJoin(prog, o, first, ChoiceBytes(OP_ALT, [], c.others));
    }
    BytesJoin(prog, o, HeadBytes(op, number, |body|), body);
  }

  /** The links of a bracket lead from alternative to alternative, and then to what stands behind them. */
  lemma {:induction false} ChoiceLinks(prog: seq<byte>, o: int, op: int, number: seq<byte>, c: Choice)
    requires ChoiceOk(c) && 0 <= op < 256 && StandsAt(prog, o, ChoiceBytes(op, number, c))
    requires Is16(|ChoiceBytes(op, number, c)|)
    requires var e := o + |ChoiceBytes(op, number, c)|; e < |prog| && prog[e] != OP_ALT
    ensures prog[o] == op && Linked(prog, o) && Close(prog, o) == o + |ChoiceBytes(op, number, c)|
    ensures Branches(prog, o, 3 + |number|) == Starts(c, o, 3 + |number|)
    decreases c
  {
    hide PatternBytes, HeadBytes, ChoiceBytes, Get2, Linked, Close, Branches;
    var n := 3 + |number| + |PatternBytes(c.pattern)|;
    ChoiceParts(prog, o, op, number, c);
    HeadLinks(prog, o, op, number, |PatternBytes(c.pattern)|);
    if c.Only? {
      LastLink(prog, o, 3 + |number|, n);
    } else {
      ChoiceLinks(prog, o + n, OP_ALT, [], c.others);
      NextLink(prog, o, 3 + |number|, n);
    }
  }

  // ---------------------------------------------------------------- places and items

  function HeadOf(t: Term): int
    requires t.Group?
  {
    3 + |NumberBytes(t.op, t.number)|
  }

  /** Where the opening item of a group stands, if the group's bytes begin at o. */
  function OpenAt(t: Term, o: int): int
    requires t.Group?
  {
    o + |Prefix(t.loop, t.lazy)|
  }

  function Inner(t: Term): seq<byte>
    requires t.Group? && TermOk(t)
  {
    ChoiceBytes(t.op, NumberBytes(t.op, t.number), t.choice)
  }

  function KetAt(t: Term, o: int): int
    requires t.Group? && TermOk(t)
  {
    OpenAt(t, o) + |Inner(t)|
  }

  predicate Repeats(loop: Loop) {
    loop.Any? || loop.AtLeastOnce?
  }

  predicate Optional(loop: Loop) {
    loop.Any? || loop.Maybe?
  }

  lemma GroupParts(prog: seq<byte>, t: Term, o: int)
    requires t.Group? && TermOk(t) && StandsAt(prog, o, TermBytes(t))
    ensures var g, k := OpenAt(t, o), KetAt(t, o);
            && StandsAt(prog, o, Prefix(t.loop, t.lazy)) && StandsAt(prog, g, Inner(t))
            && StandsAt(prog, k, [KetOp(t.loop, t.lazy)]) && StandsAt(prog, k + 1, Two(|Inner(t)|))
            && |TermBytes(t)| == k + 3 - o
  {
    hide ChoiceBytes, StandsAt, Prefix, KetOp, NumberBytes;
    var prefix, inner, ket := Prefix(t.loop, t.lazy), Inner(t), [KetOp(t.loop, t.lazy)];
    assert TermBytes(t) == prefix + inner + ket + Two(|inner|);
    BytesJoin(prog, o, prefix + inner + ket, Two(|inner|));
    BytesJoin(prog, o, prefix + inner, ket);
    BytesJoin(prog, o, prefix, inner);
  }

  /** The opening item of a group leads to its alternatives. */
  lemma OpenItem(prog: seq<byte>, g: int, op: int, number: int, c: Choice)
    requires IsGroupOp(op) && ChoiceOk(c)
    requires StandsAt(prog, g, ChoiceBytes(op, NumberBytes(op, number), c))
    requires var n := |ChoiceBytes(op, NumberBytes(op, number), c)|;
             Is16(n) && g + n < |prog| && prog[g + n] != OP_ALT
    ensures Fetch(prog, g) == Item(Jump(Starts(c, g, 3 + |NumberBytes(op, number)|)))
    ensures Linked(prog, g) && Close(prog, g) == g + |ChoiceBytes(op, NumberBytes(op, number), c)|
  {
    hide ChoiceBytes, Linked, Close, Branches, Starts, FetchClass, FetchRepeat, FetchChar, FetchRecursion,
         FetchAssertion;
    ChoiceLinks(prog, g, op, NumberBytes(op, number), c);
  }

  /** A ket leads on, and one that repeats also back to the opening item. */
  lemma KetItem(prog: seq<byte>, k: int, loop: Loop, lazy: bool, n: int)
    requires 0 <= k && k + 3 <= |prog| && prog[k] == KetOp(loop, lazy) && Get2(prog, k + 1) == n
    ensures Fetch(prog, k) == Item(Jump(if Repeats(loop) then [k + 3, k - n] else [k + 3]))
  {
    hide Get2, Linked, Close, Branches, FetchClass, FetchRepeat, FetchChar, FetchRecursion, FetchAssertion;
  }

  /** What stands in front of an optional group leads to it and past it; or past it only. */
  lemma PrefixItem(prog: seq<byte>, o: int, loop: Loop, lazy: bool)
    requires Prefix(loop, lazy) != [] && 0 <= o < |prog| && prog[o] == Prefix(loop, lazy)[0] && Linked(prog, o + 1)
    ensures var past := Close(prog, o + 1) + 3;
            Fetch(prog, o) == Item(Jump(if loop.Never? then [past] else [o + 1, past]))
  {
    hide Get2, Linked, Close, Branches, FetchClass, FetchRepeat, FetchChar, FetchRecursion, FetchAssertion;
  }

  lemma KetIsThere(prog: seq<byte>, t: Term, o: int)
    requires t.Group? && TermOk(t) && StandsAt(prog, o, TermBytes(t)) && Is16(|TermBytes(t)|)
    ensures var g, k := OpenAt(t, o), KetAt(t, o);
            && StandsAt(prog, g, Inner(t)) && Is16(|Inner(t)|) && 0 <= o <= g <= k && k + 3 <= |prog|
            && prog[k] == KetOp(t.loop, t.lazy) != OP_ALT && Get2(prog, k + 1) == |Inner(t)|
            && (Prefix(t.loop, t.lazy) != [] ==> g == o + 1 && prog[o] == Prefix(t.loop, t.lazy)[0])
  {
    hide ChoiceBytes, TermBytes, Get2;
    var g, k := OpenAt(t, o), KetAt(t, o);
    GroupParts(prog, t, o);
    ByteAt(prog, k, [KetOp(t.loop, t.lazy)], 0);
    GetsTwo(prog, k + 1, |Inner(t)|);
    if |Prefix(t.loop, t.lazy)| > 0 { ByteAt(prog, o, Prefix(t.loop, t.lazy), 0); }
  }

  /** The items of a group. */
  lemma GroupItems(prog: seq<byte>, t: Term, o: int)
    requires t.Group? && TermOk(t) && StandsAt(prog, o, TermBytes(t)) && Is16(|TermBytes(t)|)
    ensures 0 <= o <= OpenAt(t, o) <= KetAt(t, o) < |prog|
    ensures Fetch(prog, OpenAt(t, o)) == Item(Jump(Starts(t.choice, OpenAt(t, o), HeadOf(t))))
    ensures Fetch(prog, KetAt(t, o))
              == Item(Jump(if Repeats(t.loop) then [KetAt(t, o) + 3, OpenAt(t, o)] else [KetAt(t, o) + 3]))
    ensures OpenAt(t, o) == if Optional(t.loop) || t.loop.Never? then o + 1 else o
    ensures Optional(t.loop) || t.loop.Never? ==>
              Fetch(prog, o)
              == Item(Jump(if t.loop.Never? then [KetAt(t, o) + 3] else [OpenAt(t, o), KetAt(t, o) + 3]))
  {
    hide TermBytes, ChoiceBytes, Fetch, Starts, StandsAt, NumberBytes, KetOp, Get2, Linked, Close;
    var g, k := OpenAt(t, o), KetAt(t, o);
    KetIsThere(prog, t, o);
    KetItem(prog, k, t.loop, t.lazy, |Inner(t)|);
    OpenItem(prog, g, t.op, t.number, t.choice);
    if Prefix(t.loop, t.lazy) != [] { PrefixItem(prog, o, t.loop, t.lazy); }
    hide KetAt, OpenAt, Inner;
  }

  /** The item that ends an alternative leads to the ket. */
  lemma AltItem(prog: seq<byte>, o: int, c: Choice)
    requires ChoiceOk(c) && StandsAt(prog, o, ChoiceBytes(OP_ALT, [], c)) && Is16(|ChoiceBytes(OP_ALT, [], c)|)
    requires var e := o + |ChoiceBytes(OP_ALT, [], c)|; e < |prog| && prog[e] != OP_ALT
    ensures Fetch(prog, o) == Item(Jump([o + |ChoiceBytes(OP_ALT, [], c)|]))
  {
    ChoiceLinks(prog, o, OP_ALT, [], c);
    hide ChoiceBytes, Linked, Close, Branches, FetchClass, FetchRepeat, FetchChar, FetchRecursion, FetchAssertion;
  }

  function TermOffsets(t: Term, o: int): set<int>
    requires TermOk(t)
    decreases t, 0
  {
    match t
    case Leaf(_) => {o}
    case Group(_, _, _, _, choice) => {o, KetAt(t, o)} + ChoiceOffsets(choice, OpenAt(t, o), HeadOf(t))
  }

  function PatternOffsets(p: Pattern, o: int): set<int>
    requires PatternOk(p)
    decreases p, 0
  {
    match p
    case Empty => {}
    case Then(t, rest) => TermOffsets(t, o) + PatternOffsets(rest, o + |TermBytes(t)|)
  }

  function ChoiceOffsets(c: Choice, o: int, head: int): set<int>
    requires ChoiceOk(c)
    decreases c, 0
  {
    {o} + PatternOffsets(c.pattern, o + head)
    + if c.Or? then ChoiceOffsets(c.others, o + head + |PatternBytes(c.pattern)|, 3) else {}
  }

  // ---------------------------------------------------------------- bytes in their place

  /** The bytes stand at o, are few enough for links, and no quantifier of a class follows. */
  predicate Placed(prog: seq<byte>, o: int, bytes: seq<byte>) {
    StandsAt(prog, o, bytes) && Is16(|bytes|) && NoClassRepeat(prog, o + |bytes|)
  }

  lemma TermBegins(t: Term)
    requires TermOk(t)
    ensures !(OP_CRSTAR <= TermBytes(t)[0] <= OP_CRPOSRANGE)
  {
    if t.Group? {
      hide ChoiceBytes;
      assert TermBytes(t)[0] == (Prefix(t.loop, t.lazy) + Inner(t))[0];
    }
  }

  lemma ThenParts(prog: seq<byte>, o: int, t: Term, rest: Pattern)
    requires PatternOk(Then(t, rest)) && Placed(prog, o, PatternBytes(Then(t, rest)))
    ensures Placed(prog, o, TermBytes(t)) && Placed(prog, o + |TermBytes(t)|, PatternBytes(rest))
    ensures |PatternBytes(Then(t, rest))| == |TermBytes(t)| + |PatternBytes(rest)|
  {
    hide TermBytes, StandsAt;
    BytesJoin(prog, o, TermBytes(t), PatternBytes(rest));
    if rest.Then? {
      TermBegins(rest.first);
      FirstByte(prog, o + |TermBytes(t)|, PatternBytes(rest));
      assert PatternBytes(rest)[0] == TermBytes(rest.first)[0];
    }
  }

  lemma FirstByte(prog: seq<byte>, o: int, bytes: seq<byte>)
    requires StandsAt(prog, o, bytes) && |bytes| > 0
    ensures 0 <= o < |prog| && prog[o] == bytes[0]
  {
    ByteAt(prog, o, bytes, 0);
  }

  predicate IsKet(prog: seq<byte>, e: int) {
    0 <= e < |prog| && (prog[e] == OP_KET || prog[e] == OP_KETRMAX || prog[e] == OP_KETRMIN)
  }

  /** The bytes of the alternatives stand at o, and a ket follows. */
  predicate ChoicePlaced(prog: seq<byte>, o: int, op: int, number: seq<byte>, c: Choice)
    requires ChoiceOk(c) && 0 <= op < 256
  {
    var bytes := ChoiceBytes(op, number, c);
    StandsAt(prog, o, bytes) && Is16(|bytes|) && IsKet(prog, o + |bytes|)
  }

  /** Where the first alternative ends. */
  function FirstEnd(c: Choice, o: int, head: int): int
    requires ChoiceOk(c)
  {
    o + head + |PatternBytes(c.pattern)|
  }

  lemma ChoiceSplits(prog: seq<byte>, o: int, op: int, number: seq<byte>, c: Choice)
    requires ChoiceOk(c) && 0 <= op < 256 && ChoicePlaced(prog, o, op, number, c)
    ensures var head := 3 + |number|;
            var k, m := o + |ChoiceBytes(op, number, c)|, FirstEnd(c, o, head);
            && Placed(prog, o + head, PatternBytes(c.pattern)) && (c.Only? ==> m == k)
            && (c.Or? ==> ChoicePlaced(prog, m, OP_ALT, [], c.others) && m + |ChoiceBytes(OP_ALT, [], c.others)| == k
                          && Fetch(prog, m) == Item(Jump([k])))
  {
    hide PatternBytes, ChoiceBytes, Fetch;
    ChoiceParts(prog, o, op, number, c);
    if c.Or? {
      FirstByte(prog, FirstEnd(c, o, 3 + |number|), ChoiceBytes(OP_ALT, [], c.others));
      AltItem(prog, FirstEnd(c, o, 3 + |number|), c.others);
    }
  }

  lemma GroupPlaced(prog: seq<byte>, t: Term, o: int)
    requires t.Group? && TermOk(t) && Placed(prog, o, TermBytes(t))
    ensures ChoicePlaced(prog, OpenAt(t, o), t.op, NumberBytes(t.op, t.number), t.choice)
    ensures o + |TermBytes(t)| == KetAt(t, o) + 3
  {
    hide ChoiceBytes, TermBytes;
    GroupParts(prog, t, o);
    ByteAt(prog, KetAt(t, o), [KetOp(t.loop, t.lazy)], 0);
  }
}
