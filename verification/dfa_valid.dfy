/** The bytes of a pattern are a well-formed program. */
module DfaValid {
  import opened Basics
  import opened DfaProgram
  import opened DfaSemantics
  import opened DfaPattern
  import opened DfaCompiled

  // ---------------------------------------------------------------- offsets lie where the bytes do

  ghost predicate AllIn(offsets: set<int>, lo: int, hi: int) {
    forall x <- offsets :: lo <= x < hi
  }

  lemma {:induction false} TermInside(t: Term, o: int)
    requires TermOk(t)
    ensures o in TermOffsets(t, o) && AllIn(TermOffsets(t, o), o, o + |TermBytes(t)|)
    decreases t, 1
  {
    if t.Group? {
      hide ChoiceBytes, ChoiceOffsets;
      ChoiceInside(t.choice, OpenAt(t, o), t.op, NumberBytes(t.op, t.number));
      GroupLength(t, o);
    }
  }

  lemma GroupLength(t: Term, o: int)
    requires t.Group? && TermOk(t)
    ensures |TermBytes(t)| == KetAt(t, o) + 3 - o && o <= OpenAt(t, o)
  {
    hide ChoiceBytes;
  }

  lemma {:induction false} PatternInside(p: Pattern, o: int)
    requires PatternOk(p)
    ensures AllIn(PatternOffsets(p, o), o, o + |PatternBytes(p)|)
    ensures p.Then? ==> o in PatternOffsets(p, o)
    ensures p.Empty? ==> |PatternBytes(p)| == 0
    decreases p, 1
  {
    if p.Then? {
      hide TermBytes, TermOffsets;
      TermInside(p.first, o);
      PatternInside(p.rest, o + |TermBytes(p.first)|);
    }
  }

  /** The offsets of alternatives, and how long their bytes are. */
  lemma ChoiceUnfolds(c: Choice, o: int, op: int, number: seq<byte>)
    requires ChoiceOk(c) && 0 <= op < 256
    ensures var head := 3 + |number|;
            var m := FirstEnd(c, o, head);
            && ChoiceOffsets(c, o, head) == {o} + PatternOffsets(c.pattern, o + head)
                                            + (if c.Or? then ChoiceOffsets(c.others, m, 3) else {})
            && o + |ChoiceBytes(op, number, c)| == m + (if c.Or? then |ChoiceBytes(OP_ALT, [], c.others)| else 0)
            && m == o + head + |PatternBytes(c.pattern)|
  {
    hide PatternBytes, PatternOffsets;
  }

  lemma {:induction false} ChoiceInside(c: Choice, o: int, op: int, number: seq<byte>)
    requires ChoiceOk(c) && 0 <= op < 256
    ensures AllIn(ChoiceOffsets(c, o, 3 + |number|), o, o + |ChoiceBytes(op, number, c)|)
    decreases c, 1
  {
    hide PatternBytes, PatternOffsets, ChoiceOffsets, ChoiceBytes, FirstEnd;
    ChoiceUnfolds(c, o, op, number);
    PatternInside(c.pattern, o + 3 + |number|);
    if c.Or? { ChoiceInside(c.others, FirstEnd(c, o, 3 + |number|), OP_ALT, []); }
  }

  // ---------------------------------------------------------------- items hand on to items

  /** The item at x is one of the plain ones and hands on to offsets of the set only. */
  ghost predicate Good(prog: seq<byte>, x: int, to: set<int>) {
    && 0 <= x < |prog| && Fetch(prog, x).Item?
    && var it := Fetch(prog, x).item;
       && ItemFits(it) && !it.Assertion? && !it.Recursion? && !it.Unsupported?
       && forall y <- Targets(x, it) :: y in to
  }

  ghost predicate AllGood(prog: seq<byte>, offsets: set<int>, to: set<int>) {
    forall x <- offsets :: Good(prog, x, to)
  }

  lemma AllGoodWider(prog: seq<byte>, offsets: set<int>, to: set<int>, more: set<int>)
    requires AllGood(prog, offsets, to) && to <= more
    ensures AllGood(prog, offsets, more)
  {
    hide Fetch, ItemFits;
  }


  lemma LeafGood(prog: seq<byte>, atom: Atom, o: int)
    requires AtomOk(atom) && Placed(prog, o, AtomBytes(atom))
    ensures Good(prog, o, {o, o + |AtomBytes(atom)|})
  {
    AtomDecodes(prog, o, atom);
    hide Fetch, AtomBytes;
  }

  lemma {:induction false} TermGood(prog: seq<byte>, t: Term, o: int)
    requires TermOk(t) && Placed(prog, o, TermBytes(t))
    ensures AllGood(prog, TermOffsets(t, o), TermOffsets(t, o) + {o + |TermBytes(t)|})
    decreases t, 1
  {
    hide Fetch, ChoiceBytes, ChoiceOffsets, Starts, Placed, AtomBytes, Good;
    if t.Leaf? {
      LeafGood(prog, t.atom, o);
      assert TermOffsets(t, o) + {o + |TermBytes(t)|} == {o, o + |AtomBytes(t.atom)|};
    } else {
      hide TermBytes;
      GroupPlaced(prog, t, o);
      ChoiceGood(prog, OpenAt(t, o), t.op, NumberBytes(t.op, t.number), t.choice);
      GroupGood(prog, t, o);
    }
  }

  /** The items of a group, given those of its alternatives. */
  lemma GroupGood(prog: seq<byte>, t: Term, o: int)
    requires t.Group? && TermOk(t) && Placed(prog, o, TermBytes(t))
    requires var g, k, inner := OpenAt(t, o), KetAt(t, o), ChoiceOffsets(t.choice, OpenAt(t, o), HeadOf(t));
             AllGood(prog, inner - {g}, inner - {g} + {k})
    ensures AllGood(prog, TermOffsets(t, o), TermOffsets(t, o) + {o + |TermBytes(t)|})
  {
    hide Fetch, ChoiceBytes, TermBytes, ChoiceOffsets, Starts, ItemFits;
    var g, k, inner := OpenAt(t, o), KetAt(t, o), ChoiceOffsets(t.choice, OpenAt(t, o), HeadOf(t));
    var to := TermOffsets(t, o) + {o + |TermBytes(t)|};
    GroupPlaced(prog, t, o);
    GroupItems(prog, t, o);
    StartsAreOffsets(t.choice, g, t.op, NumberBytes(t.op, t.number));
    GroupInRange(prog, t, o);
    AllGoodWider(prog, inner - {g}, inner - {g} + {k}, to);
    JumpIsGood(prog, g, Starts(t.choice, g, HeadOf(t)), to);
    JumpIsGood(prog, k, if Repeats(t.loop) then [k + 3, g] else [k + 3], to);
    if o < g { JumpIsGood(prog, o, if t.loop.Never? then [k + 3] else [g, k + 3], to); }
  }

  lemma JumpIsGood(prog: seq<byte>, x: int, targets: seq<int>, to: set<int>)
    requires 0 <= x < |prog| && Fetch(prog, x) == Item(Jump(targets)) && forall y <- targets :: y in to
    ensures Good(prog, x, to)
  {
    hide Fetch;
  }

  lemma GroupInRange(prog: seq<byte>, t: Term, o: int)
    requires t.Group? && TermOk(t) && Placed(prog, o, TermBytes(t))
    ensures 0 <= o <= OpenAt(t, o) < KetAt(t, o) < |prog|
    ensures OpenAt(t, o) in ChoiceOffsets(t.choice, OpenAt(t, o), HeadOf(t))
  {
    hide ChoiceBytes, TermBytes;
    GroupParts(prog, t, o);
  }

  lemma AllGoodTogether(prog: seq<byte>, a: set<int>, b: set<int>, to: set<int>)
    requires AllGood(prog, a, to) && AllGood(prog, b, to)
    ensures AllGood(prog, a + b, to)
  {
    hide Good;
  }

  lemma PatternUnfolds(p: Pattern, o: int)
    requires PatternOk(p)
    ensures p.Empty? ==> PatternOffsets(p, o) == {}
    ensures p.Then? ==>
              var m := o + |TermBytes(p.first)|;
              && PatternOffsets(p, o) == TermOffsets(p.first, o) + PatternOffsets(p.rest, m)
              && o + |PatternBytes(p)| == m + |PatternBytes(p.rest)|
  {
    hide TermBytes, TermOffsets;
  }

  lemma {:induction false} PatternGood(prog: seq<byte>, p: Pattern, o: int)
    requires PatternOk(p) && Placed(prog, o, PatternBytes(p))
    ensures AllGood(prog, PatternOffsets(p, o), PatternOffsets(p, o) + {o + |PatternBytes(p)|})
    decreases p, 1
  {
    hide Fetch, TermBytes, TermOffsets, Placed, Good, PatternBytes, PatternOffsets;
    PatternUnfolds(p, o);
    if p.Then? {
      hide AllGood;
      var m, e := o + |TermBytes(p.first)|, o + |PatternBytes(p)|;
      var to := PatternOffsets(p, o) + {e};
      var first, rest := TermOffsets(p.first, o), PatternOffsets(p.rest, m);
      ThenParts(prog, o, p.first, p.rest);
      TermGood(prog, p.first, o);
      PatternGood(prog, p.rest, m);
      PatternInside(p.rest, m);
      AllGoodWider(prog, first, first + {m}, to);
      AllGoodWider(prog, rest, rest + {e}, to);
      AllGoodTogether(prog, first, rest, to);
    }
  }

  lemma StartIsOffset(c: Choice, o: int, op: int, number: seq<byte>)
    requires ChoiceOk(c) && 0 <= op < 256
    ensures var s := o + 3 + |number|; s in ChoiceOffsets(c, o, 3 + |number|) || s == o + |ChoiceBytes(op, number, c)|
  {
    hide PatternBytes, PatternOffsets, AllIn;
    PatternInside(c.pattern, o + 3 + |number|);
    assert c.Or? ==> FirstEnd(c, o, 3 + |number|) in ChoiceOffsets(c.others, FirstEnd(c, o, 3 + |number|), 3);
  }

  ghost predicate AllBehind(starts: seq<int>, o: int, offsets: set<int>, k: int) {
    forall s <- starts :: s > o && (s in offsets || s == k)
  }

  /** The starts of the alternatives are offsets behind the opening item, or the ket. */
  lemma {:induction false} StartsAreOffsets(c: Choice, o: int, op: int, number: seq<byte>)
    requires ChoiceOk(c) && 0 <= op < 256
    ensures AllBehind(Starts(c, o, 3 + |number|), o, ChoiceOffsets(c, o, 3 + |number|),
                      o + |ChoiceBytes(op, number, c)|)
    decreases c
  {
    hide PatternBytes, PatternOffsets, AllIn;
    StartIsOffset(c, o, op, number);
    if c.Or? { StartsAreOffsets(c.others, FirstEnd(c, o, 3 + |number|), OP_ALT, []); }
  }

  lemma {:induction false} ChoiceGood(prog: seq<byte>, o: int, op: int, number: seq<byte>, c: Choice)
    requires ChoiceOk(c) && 0 <= op < 256 && ChoicePlaced(prog, o, op, number, c)
    ensures var inner := ChoiceOffsets(c, o, 3 + |number|) - {o};
            AllGood(prog, inner, inner + {o + |ChoiceBytes(op, number, c)|})
    decreases c, 1
  {
    hide Fetch, PatternBytes, PatternOffsets, ChoiceBytes, Placed, ChoicePlaced, Good;
    var head, k := 3 + |number|, o + |ChoiceBytes(op, number, c)|;
    var at, m := o + head, FirstEnd(c, o, head);
    var to := ChoiceOffsets(c, o, head) - {o} + {k};
    ChoiceSplits(prog, o, op, number, c);
    PatternGood(prog, c.pattern, at);
    PatternInside(c.pattern, at);
    assert c.Or? ==> m in ChoiceOffsets(c.others, m, 3);
    AllGoodWider(prog, PatternOffsets(c.pattern, at), PatternOffsets(c.pattern, at) + {m}, to);
    if c.Or? {
      var others := ChoiceOffsets(c.others, m, 3);
      ChoiceGood(prog, m, OP_ALT, [], c.others);
      ChoiceInside(c.others, m, OP_ALT, []);
      AllGoodWider(prog, others - {m}, others - {m} + {k}, to);
      ChoiceInRange(prog, m, OP_ALT, [], c.others);
      JumpIsGood(prog, m, [k], to);
    }
  }

  lemma ChoiceInRange(prog: seq<byte>, o: int, op: int, number: seq<byte>, c: Choice)
    requires ChoiceOk(c) && 0 <= op < 256 && ChoicePlaced(prog, o, op, number, c)
    ensures 0 <= o < o + |ChoiceBytes(op, number, c)| < |prog| && prog[o] == op
  {
    hide ChoiceBytes;
    FirstByte(prog, o, ChoiceBytes(op, number, c));
  }

  // ---------------------------------------------------------------- brackets

  /** Between lo and hi the code has just these items of the program. */
  ghost predicate Just(prog: seq<byte>, code: Code, offsets: set<int>, lo: int, hi: int) {
    && (forall x <- code.items :: lo <= x < hi ==> x in offsets)
    && forall x <- offsets :: x in code.items && 0 <= x < |prog| && Fetch(prog, x) == Item(code.items[x])
  }

  ghost predicate BracketsOf(prog: seq<byte>, code: Code) {
    forall g <- code.brackets ::
      0 <= g < |prog| && IsBracketOp(prog[g]) && Linked(prog, g) && code.brackets[g] == FetchBracket(prog, g)
  }

  lemma NoReverse(prog: seq<byte>, o: int, op: int, number: seq<byte>, c: Choice)
    requires ChoiceOk(c) && 0 <= op < 256 && ChoicePlaced(prog, o, op, number, c)
    ensures var at := o + 3 + |number|; 0 <= at < |prog| && prog[at] != OP_REVERSE
  {
    hide TermBytes, ChoiceBytes, Fetch, AtomBytes;
    ChoiceSplits(prog, o, op, number, c);
    var at := o + 3 + |number|;
    if c.pattern.Then? {
      ThenParts(prog, at, c.pattern.first, c.pattern.rest);
      FirstByte(prog, at, TermBytes(c.pattern.first));
      TermBeginsWith(c.pattern.first);
    } else if c.Or? {
      ChoiceInRange(prog, at, OP_ALT, [], c.others);
    }
  }

  lemma TermBeginsWith(t: Term)
    requires TermOk(t)
    ensures TermBytes(t)[0] != OP_REVERSE
  {
    if t.Group? {
      hide ChoiceBytes;
      assert TermBytes(t)[0] == (Prefix(t.loop, t.lazy) + Inner(t))[0];
    }
  }

  lemma EntriesAre(prog: seq<byte>, g: int, op: int, number: int, c: Choice)
    requires IsGroupOp(op) && ChoiceOk(c) && ChoicePlaced(prog, g, op, NumberBytes(op, number), c)
    ensures 0 <= g < |prog| && prog[g] == op && Linked(prog, g)
    ensures var starts, bracket := Starts(c, g, 3 + |NumberBytes(op, number)|), FetchBracket(prog, g);
            && bracket.close == g + |ChoiceBytes(op, NumberBytes(op, number), c)| && !bracket.behind
            && bracket.entries == seq(|starts|, i requires 0 <= i < |starts| => Entry(starts[i], 0))
  {
    hide ChoiceBytes, Starts, Fetch;
    ChoiceInRange(prog, g, op, NumberBytes(op, number), c);
    NoReverse(prog, g, op, NumberBytes(op, number), c);
    ChoiceLinks(prog, g, op, NumberBytes(op, number), c);
    hide Linked, Close, Branches;
  }

  ghost predicate HandsOn(code: Code, x: int, lo: int, hi: int)
    requires x in code.items
  {
    forall y <- Targets(x, code.items[x]) :: y in code.items && lo < y <= hi
  }

  lemma InsideHandsOn(prog: seq<byte>, code: Code, offsets: set<int>, g: int, k: int, x: int)
    requires Just(prog, code, offsets, g, k) && AllIn(offsets, g, k) && k in code.items
    requires AllGood(prog, offsets - {g}, offsets - {g} + {k})
    requires x in code.items && g < x < k
    ensures HandsOn(code, x, g, k)
  {
    hide Fetch, Targets, ItemFits;
    assert x in offsets - {g} && Good(prog, x, offsets - {g} + {k});
  }

  lemma StartsBehind(code: Code, starts: seq<int>, entries: seq<Entry>, offsets: set<int>, g: int, k: int)
    requires entries == seq(|starts|, i requires 0 <= i < |starts| => Entry(starts[i], 0))
    requires AllBehind(starts, g, offsets, k) && AllIn(offsets, g, k)
    requires k in code.items && forall x <- offsets :: x in code.items
    ensures forall b <- entries :: b.off in code.items && g < b.off <= k && b.back == 0
  {
    forall b | b in entries ensures b.off in code.items && g < b.off <= k && b.back == 0 {
      var i :| 0 <= i < |entries| && entries[i] == b;
      assert starts[i] in starts;
    }
  }

  /** The bracket of a group is in order. */
  lemma GroupBracket(prog: seq<byte>, code: Code, g: int, op: int, number: int, c: Choice)
    requires IsGroupOp(op) && ChoiceOk(c) && ChoicePlaced(prog, g, op, NumberBytes(op, number), c)
    requires BracketsOf(prog, code) && g in code.brackets
    requires var k := g + |ChoiceBytes(op, NumberBytes(op, number), c)|;
             && Just(prog, code, ChoiceOffsets(c, g, 3 + |NumberBytes(op, number)|), g, k)
             && k in code.items && code.items[k].Jump?
    ensures BracketOk(code, g)
  {
    hide Starts, Fetch, FetchBracket, ChoiceBytes, ChoiceOffsets, ChoicePlaced, Linked, ItemFits, Targets, AllGood,
         AllIn, AllBehind, NumberBytes;
    var head, k := 3 + |NumberBytes(op, number)|, g + |ChoiceBytes(op, NumberBytes(op, number), c)|;
    var offsets, starts := ChoiceOffsets(c, g, head), Starts(c, g, head);
    EntriesAre(prog, g, op, number, c);
    StartsAreOffsets(c, g, op, NumberBytes(op, number));
    ChoiceInRange(prog, g, op, NumberBytes(op, number), c);
    ChoiceInside(c, g, op, NumberBytes(op, number));
    ChoiceGood(prog, g, op, NumberBytes(op, number), c);
    StartsBehind(code, starts, code.brackets[g].entries, offsets, g, k);
    forall x | x in code.items && g < x < k ensures HandsOn(code, x, g, k) {
      InsideHandsOn(prog, code, offsets, g, k, x);
    }
  }

  lemma NoBracketHere(prog: seq<byte>, x: int)
    requires 0 <= x < |prog| && IsBracketOp(prog[x]) && Fetch(prog, x).Item?
    ensures Fetch(prog, x).item.Jump? || Fetch(prog, x).item.Assertion?
  {
    hide FetchClass, FetchRepeat, FetchChar, FetchRecursion;
  }

  ghost predicate AllOk(code: Code, offsets: set<int>) {
    forall g <- offsets :: g in code.brackets ==> BracketOk(code, g)
  }

  lemma JustThese(prog: seq<byte>, code: Code, all: set<int>, lo: int, hi: int, some: set<int>, l: int, h: int)
    requires Just(prog, code, all, lo, hi) && lo <= l && h <= hi && some <= all
    requires forall x <- all :: l <= x < h ==> x in some
    ensures Just(prog, code, some, l, h)
  {
    hide Fetch;
  }

  lemma LeafBrackets(prog: seq<byte>, code: Code, atom: Atom, o: int)
    requires AtomOk(atom) && Placed(prog, o, AtomBytes(atom)) && BracketsOf(prog, code)
    ensures o !in code.brackets
  {
    AtomDecodes(prog, o, atom);
    hide Fetch, AtomBytes, FetchBracket, Linked;
    if o in code.brackets { NoBracketHere(prog, o); }
  }

  lemma KetIsKnown(prog: seq<byte>, code: Code, t: Term, o: int)
    requires t.Group? && TermOk(t) && Placed(prog, o, TermBytes(t))
    requires Just(prog, code, TermOffsets(t, o), o, o + |TermBytes(t)|)
    ensures KetAt(t, o) in code.items && code.items[KetAt(t, o)].Jump?
  {
    hide Fetch, TermBytes, ChoiceBytes, ChoiceOffsets, Starts;
    GroupItems(prog, t, o);
  }

  lemma {:induction false} TermBrackets(prog: seq<byte>, code: Code, t: Term, o: int)
    requires TermOk(t) && Placed(prog, o, TermBytes(t)) && BracketsOf(prog, code)
    requires Just(prog, code, TermOffsets(t, o), o, o + |TermBytes(t)|)
    ensures AllOk(code, TermOffsets(t, o))
    decreases t, 1
  {
    hide Fetch, ChoiceBytes, ChoiceOffsets, Starts, Placed, AtomBytes, BracketOk, FetchBracket, Linked, ChoicePlaced,
         Just;
    if t.Leaf? {
      LeafBrackets(prog, code, t.atom, o);
    } else {
      hide TermBytes;
      var g, k := OpenAt(t, o), KetAt(t, o);
      var inner := ChoiceOffsets(t.choice, g, HeadOf(t));
      GroupPlaced(prog, t, o);
      GroupOps(prog, t, o);
      GroupInRange(prog, t, o);
      ChoiceInside(t.choice, g, t.op, NumberBytes(t.op, t.number));
      JustThese(prog, code, TermOffsets(t, o), o, o + |TermBytes(t)|, inner, g, k);
      ChoiceBrackets(prog, code, g, t.op, NumberBytes(t.op, t.number), t.choice);
      KetIsKnown(prog, code, t, o);
      if g in code.brackets { GroupBracket(prog, code, g, t.op, t.number, t.choice); }
    }
  }

  /** The ket of a group and what stands in front of it open no bracket. */
  lemma GroupOps(prog: seq<byte>, t: Term, o: int)
    requires t.Group? && TermOk(t) && Placed(prog, o, TermBytes(t))
    ensures var g, k := OpenAt(t, o), KetAt(t, o);
            0 <= o <= g < k < |prog| && !IsBracketOp(prog[k]) && (o < g ==> !IsBracketOp(prog[o]))
  {
    hide ChoiceBytes, TermBytes;
    GroupParts(prog, t, o);
    ByteAt(prog, KetAt(t, o), [KetOp(t.loop, t.lazy)], 0);
    if |Prefix(t.loop, t.lazy)| > 0 { ByteAt(prog, o, Prefix(t.loop, t.lazy), 0); }
  }

  lemma {:induction false} PatternBrackets(prog: seq<byte>, code: Code, p: Pattern, o: int)
    requires PatternOk(p) && Placed(prog, o, PatternBytes(p)) && BracketsOf(prog, code)
    requires Just(prog, code, PatternOffsets(p, o), o, o + |PatternBytes(p)|)
    ensures AllOk(code, PatternOffsets(p, o))
    decreases p, 1
  {
    hide Fetch, TermBytes, TermOffsets, Placed, BracketOk, BracketsOf, PatternBytes, PatternOffsets, Just;
    PatternUnfolds(p, o);
    if p.Then? {
      var m, e := o + |TermBytes(p.first)|, o + |PatternBytes(p)|;
      ThenParts(prog, o, p.first, p.rest);
      TermInside(p.first, o);
      PatternInside(p.rest, m);
      JustThese(prog, code, PatternOffsets(p, o), o, e, TermOffsets(p.first, o), o, m);
      JustThese(prog, code, PatternOffsets(p, o), o, e, PatternOffsets(p.rest, m), m, e);
      TermBrackets(prog, code, p.first, o);
      PatternBrackets(prog, code, p.rest, m);
    }
  }

  lemma {:induction false} ChoiceBrackets(prog: seq<byte>, code: Code, o: int, op: int, number: seq<byte>, c: Choice)
    requires ChoiceOk(c) && 0 <= op < 256 && ChoicePlaced(prog, o, op, number, c) && BracketsOf(prog, code)
    requires Just(prog, code, ChoiceOffsets(c, o, 3 + |number|), o, o + |ChoiceBytes(op, number, c)|)
    ensures AllOk(code, ChoiceOffsets(c, o, 3 + |number|) - {o})
    decreases c, 1
  {
    hide Fetch, PatternBytes, PatternOffsets, ChoiceBytes, Placed, ChoicePlaced, BracketOk, Just, FetchBracket, Linked;
    var head, k := 3 + |number|, o + |ChoiceBytes(op, number, c)|;
    var at, m := o + head, FirstEnd(c, o, head);
    ChoiceSplits(prog, o, op, number, c);
    PatternInside(c.pattern, at);
    if c.Or? { ChoiceInside(c.others, m, OP_ALT, []); }
    JustThese(prog, code, ChoiceOffsets(c, o, head), o, k, PatternOffsets(c.pattern, at), at, m);
    PatternBrackets(prog, code, c.pattern, at);
    if c.Or? {
      ChoiceInRange(prog, m, OP_ALT, [], c.others);
      JustThese(prog, code, ChoiceOffsets(c, o, head), o, k, ChoiceOffsets(c.others, m, 3), m, k);
      ChoiceBrackets(prog, code, m, OP_ALT, [], c.others);
    }
  }

  // ---------------------------------------------------------------- whole programs

  function KetOf(c: Choice): int
    requires ChoiceOk(c)
  {
    |ChoiceBytes(OP_BRA, [], c)|
  }

  function ProgramOffsets(c: Choice): set<int>
    requires ChoiceOk(c)
  {
    ChoiceOffsets(c, 0, 3) + {KetOf(c)}
  }

  /** The bytes of the pattern, decoded. */
  function CompiledCode(c: Choice): Code
    requires ChoiceOk(c)
  {
    Decode(ProgramBytes(c), ProgramOffsets(c))
  }

  lemma ProgramParts(c: Choice)
    requires ChoiceOk(c) && Is16(KetOf(c))
    ensures var prog, k := ProgramBytes(c), KetOf(c);
            && StandsAt(prog, 0, ChoiceBytes(OP_BRA, [], c)) && k + 3 <= |prog| && prog[k] == OP_KET
  {
    hide ChoiceBytes;
    var prog, inner, k := ProgramBytes(c), ChoiceBytes(OP_BRA, [], c), KetOf(c);
    assert prog == inner + ([OP_KET] + Two(k) + [0]);
    assert prog[0..k] == inner && prog[k] == OP_KET;
  }

  lemma ProgramPlaced(c: Choice)
    requires ChoiceOk(c) && Is16(KetOf(c))
    ensures var prog := ProgramBytes(c);
            && ChoicePlaced(prog, 0, OP_BRA, [], c) && 0 <= KetOf(c) < |prog| && prog[KetOf(c)] == OP_KET
            && Fetch(prog, KetOf(c)) == Item(Jump([KetOf(c) + 3]))
            && Fetch(prog, 0) == Item(Jump(Starts(c, 0, 3))) && Linked(prog, 0)
  {
    hide ChoiceBytes, ProgramBytes, Fetch, Starts, StandsAt, Linked, Close, Get2;
    ProgramParts(c);
    OpenItem(ProgramBytes(c), 0, OP_BRA, 0, c);
    KetItem(ProgramBytes(c), KetOf(c), Once, false, Get2(ProgramBytes(c), KetOf(c) + 1));
  }

  lemma CompiledGood(c: Choice)
    requires ChoiceOk(c) && Is16(KetOf(c))
    ensures AllGood(ProgramBytes(c), ProgramOffsets(c), ProgramOffsets(c) + {KetOf(c) + 3})
  {
    hide Fetch, ChoiceBytes, ChoiceOffsets, Starts, ProgramBytes, AllGood, Good;
    var prog, k, inner := ProgramBytes(c), KetOf(c), ChoiceOffsets(c, 0, 3);
    var to := ProgramOffsets(c) + {k + 3};
    ProgramPlaced(c);
    ZeroIsOffset(c);
    ChoiceGood(prog, 0, OP_BRA, [], c);
    AllGoodWider(prog, inner - {0}, inner - {0} + {k}, to);
    StartsAreOffsets(c, 0, OP_BRA, []);
    JumpIsGood(prog, 0, Starts(c, 0, 3), to);
    JumpIsGood(prog, k, [k + 3], to);
    JustOne(prog, 0, to);
    JustOne(prog, k, to);
    AllGoodTogether(prog, inner - {0}, {0}, to);
    AllGoodTogether(prog, inner - {0} + {0}, {k}, to);
    assert inner - {0} + {0} + {k} == ProgramOffsets(c);
  }

  lemma JustOne(prog: seq<byte>, x: int, to: set<int>)
    requires Good(prog, x, to)
    ensures AllGood(prog, {x}, to)
  {
    hide Good;
  }

  lemma ZeroIsOffset(c: Choice)
    requires ChoiceOk(c)
    ensures 0 in ChoiceOffsets(c, 0, 3)
  {
  }

  /** The decoded items are those at the offsets, and each is one of the plain ones. */
  lemma CompiledItems(c: Choice)
    requires ChoiceOk(c) && Is16(KetOf(c))
    ensures var prog, code := ProgramBytes(c), CompiledCode(c);
            && Just(prog, code, ProgramOffsets(c), 0, |prog|) && BracketsOf(prog, code) && 0 in code.brackets
            && forall x <- code.items ::
                 var it := code.items[x]; ItemFits(it) && !it.Assertion? && !it.Recursion? && !it.Unsupported?
  {
    hide Fetch, ChoiceBytes, ChoiceOffsets, Starts, ProgramBytes, ItemFits, Linked, FetchBracket, Targets;
    ProgramPlaced(c);
    CompiledGood(c);
    EntriesAre(ProgramBytes(c), 0, OP_BRA, 0, c);
    ZeroIsOffset(c);
  }

  lemma KetIsJump(prog: seq<byte>, code: Code, c: Choice)
    requires ChoiceOk(c) && Is16(KetOf(c)) && prog == ProgramBytes(c) && Just(prog, code, ProgramOffsets(c), 0, |prog|)
    ensures KetOf(c) in code.items && code.items[KetOf(c)].Jump?
  {
    ProgramPlaced(c);
    hide Fetch, ChoiceBytes, ChoiceOffsets, Starts, ProgramBytes;
  }

  lemma WholeBrackets(prog: seq<byte>, code: Code, c: Choice, g: int)
    requires ChoiceOk(c) && ChoicePlaced(prog, 0, OP_BRA, [], c) && BracketsOf(prog, code)
    requires Just(prog, code, ProgramOffsets(c), 0, |prog|) && KetOf(c) < |prog| && prog[KetOf(c)] == OP_KET
    requires KetOf(c) in code.items && code.items[KetOf(c)].Jump? && g in code.brackets && g in ProgramOffsets(c)
    ensures BracketOk(code, g)
  {
    hide Fetch, ChoiceBytes, ChoiceOffsets, ChoicePlaced, BracketOk, FetchBracket, Linked, Just;
    ChoiceInside(c, 0, OP_BRA, []);
    JustThese(prog, code, ProgramOffsets(c), 0, |prog|, ChoiceOffsets(c, 0, 3), 0, KetOf(c));
    if g == 0 {
      GroupBracket(prog, code, 0, OP_BRA, 0, c);
    } else {
      ChoiceBrackets(prog, code, 0, OP_BRA, [], c);
    }
  }

  /** Every bracket of the program is in order. */
  lemma CompiledBrackets(c: Choice, g: int)
    requires ChoiceOk(c) && Is16(KetOf(c)) && g in CompiledCode(c).brackets
    ensures BracketOk(CompiledCode(c), g)
  {
    CompiledItems(c);
    hide BracketOk, ChoicePlaced, Just, ProgramOffsets, ItemFits, KetOf, ProgramBytes, Fetch, ChoiceBytes, Starts,
         FetchBracket, Linked;
    BracketsAreOffsets(c, g);
    hide CompiledCode;
    ProgramPlaced(c);
    KetIsJump(ProgramBytes(c), CompiledCode(c), c);
    WholeBrackets(ProgramBytes(c), CompiledCode(c), c, g);
  }

  lemma BracketsAreOffsets(c: Choice, g: int)
    requires ChoiceOk(c) && g in CompiledCode(c).brackets && IsBracketOp(ProgramBytes(c)[g])
    ensures g in ProgramOffsets(c)
  {
    hide Fetch, FetchBracket, Linked, ProgramOffsets, ProgramBytes;
  }

  lemma CompiledIsWellFormed(c: Choice)
    requires ChoiceOk(c) && Is16(KetOf(c))
    ensures WellFormed(CompiledCode(c))
  {
    CompiledItems(c);
    hide BracketOk, ItemFits, CompiledCode, Fetch, Just, KetOf, BracketsOf, ProgramBytes, ProgramOffsets, Starts;
    EntriesOfProgram(c);
    forall g | g in CompiledCode(c).brackets ensures BracketOk(CompiledCode(c), g) {
      CompiledBrackets(c, g);
    }
  }

  /** The program of a pattern whose links fit into two bytes is well formed, and its items fit. */
  lemma CompiledIsValid(env: Env, c: Choice)
    requires ChoiceOk(c) && Is16(KetOf(c)) && env.code == CompiledCode(c) && FullTables(env.tables)
    ensures ValidEnv(env)
  {
    hide WellFormed, ItemFits, CompiledCode, KetOf, Just, BracketsOf, ProgramBytes, ProgramOffsets;
    CompiledItems(c);
    CompiledIsWellFormed(c);
  }

  /** The bracket of the whole program. */
  lemma EntriesOfProgram(c: Choice)
    requires ChoiceOk(c) && Is16(KetOf(c))
    ensures var code, starts := CompiledCode(c), Starts(c, 0, 3);
            && 0 in code.brackets && code.brackets[0].close == KetOf(c) && !code.brackets[0].behind
            && code.brackets[0].entries == seq(|starts|, i requires 0 <= i < |starts| => Entry(starts[i], 0))
  {
    CompiledItems(c);
    ProgramPlaced(c);
    EntriesAre(ProgramBytes(c), 0, OP_BRA, 0, c);
    hide CompiledCode, Fetch, ProgramBytes, ChoiceBytes, Starts, FetchBracket, ItemFits, Just;
  }
}