/** Paths through the bytes of a pattern match exactly what the pattern matches. */
module DfaLanguage {
  import opened Basics
  import opened DfaProgram
  import opened DfaSemantics
  import opened DfaItems
  import opened DfaRepeat
  import opened DfaPaths
  import opened DfaPattern
  import opened DfaCompiled
  import opened DfaValid

  // ---------------------------------------------------------------- walks in a region of the program

  /** Where a walk takes place: the program and subject, what nested calls find, and what \G means. */
  datatype World = World(env: Env, nested: Nested, som: int)

  ghost predicate Leads(w: World, a: Place, b: Place)
    requires ValidEnv(w.env)
  {
    Passable(w.env, w.nested, w.som, a, b)
  }

  /** n items lead from a to b; each of them stands between lo and hi. */
  ghost predicate Walks(w: World, lo: int, hi: int, n: nat, a: Place, b: Place)
    requires ValidEnv(w.env)
  {
    if n == 0 then a == b
    else exists m :: Walks(w, lo, hi, n - 1, a, m) && lo <= m.off < hi && Leads(w, m, b)
  }

  ghost predicate Goes(w: World, lo: int, hi: int, a: Place, b: Place)
    requires ValidEnv(w.env)
  {
    exists n: nat :: Walks(w, lo, hi, n, a, b)
  }

  lemma GoesSelf(w: World, lo: int, hi: int, a: Place)
    requires ValidEnv(w.env)
    ensures Goes(w, lo, hi, a, a)
  {
    assert Walks(w, lo, hi, 0, a, a);
  }

  lemma GoesFurther(w: World, lo: int, hi: int, a: Place, b: Place, c: Place)
    requires ValidEnv(w.env) && Goes(w, lo, hi, a, b) && lo <= b.off < hi && Leads(w, b, c)
    ensures Goes(w, lo, hi, a, c)
  {
    hide ValidEnv, Leads;
    var n: nat :| Walks(w, lo, hi, n, a, b);
    assert Walks(w, lo, hi, n + 1, a, c);
  }

  lemma {:induction false} WalksJoin(w: World, lo: int, hi: int, n: nat, k: nat, a: Place, b: Place, c: Place)
    requires ValidEnv(w.env) && Walks(w, lo, hi, n, a, b) && Walks(w, lo, hi, k, b, c)
    ensures Walks(w, lo, hi, n + k, a, c)
  {
    hide ValidEnv, Leads;
    if k > 0 {
      var m :| Walks(w, lo, hi, k - 1, b, m) && lo <= m.off < hi && Leads(w, m, c);
      WalksJoin(w, lo, hi, n, k - 1, a, b, m);
    }
  }

  lemma GoesJoin(w: World, lo: int, hi: int, a: Place, b: Place, c: Place)
    requires ValidEnv(w.env) && Goes(w, lo, hi, a, b) && Goes(w, lo, hi, b, c)
    ensures Goes(w, lo, hi, a, c)
  {
    hide ValidEnv, Walks;
    var n: nat :| Walks(w, lo, hi, n, a, b);
    var k: nat :| Walks(w, lo, hi, k, b, c);
    WalksJoin(w, lo, hi, n, k, a, b, c);
  }

  lemma {:induction false} WalksWider(w: World, lo: int, hi: int, l: int, h: int, n: nat, a: Place, b: Place)
    requires ValidEnv(w.env) && Walks(w, lo, hi, n, a, b) && l <= lo && hi <= h
    ensures Walks(w, l, h, n, a, b)
  {
    hide ValidEnv, Leads;
    if n > 0 {
      var m :| Walks(w, lo, hi, n - 1, a, m) && lo <= m.off < hi && Leads(w, m, b);
      WalksWider(w, lo, hi, l, h, n - 1, a, m);
    }
  }

  lemma GoesWider(w: World, lo: int, hi: int, l: int, h: int, a: Place, b: Place)
    requires ValidEnv(w.env) && Goes(w, lo, hi, a, b) && l <= lo && hi <= h
    ensures Goes(w, l, h, a, b)
  {
    hide ValidEnv, Walks;
    var n: nat :| Walks(w, lo, hi, n, a, b);
    WalksWider(w, lo, hi, l, h, n, a, b);
  }

  // ---------------------------------------------------------------- bytes in their place

  /** The items at these offsets are those that the bytes stand for. */
  ghost predicate Known(env: Env, prog: seq<byte>, offsets: set<int>) {
    forall x <- offsets :: x in env.code.items && 0 <= x < |prog| && Fetch(prog, x) == Item(env.code.items[x])
  }

  /** A leaf's item passes from its place to what is behind it, as its atom matches. */
  lemma AtomPasses(w: World, o: int, atom: Atom, e: int, a: int, c: Place)
    requires ValidEnv(w.env) && o in w.env.code.items && w.env.code.items[o] == ItemOf(atom, e)
    ensures Leads(w, Place(o, a), c) <==> c.off == e && AtomMatches(w.env, w.som, atom, a, c.pos)
  {
    hide WellFormed, Stands, PassesAt, IsLineEnd, MayTake;
  }

  /** A jump leads to its targets. */
  lemma JumpLeads(w: World, o: int, targets: seq<int>, a: int, c: Place)
    requires ValidEnv(w.env) && o in w.env.code.items && w.env.code.items[o] == Jump(targets)
    ensures Leads(w, Place(o, a), c) <==> 0 <= a <= |w.env.subject| && c.off in targets && c.pos == a
  {
    hide WellFormed;
  }

  // ---------------------------------------------------------------- walks leave a region as its bytes match

  lemma {:induction false} LeafWalks(w: World, o: int, atom: Atom, e: int, p: int, n: nat, b: Place)
    requires ValidEnv(w.env) && o in w.env.code.items && w.env.code.items[o] == ItemOf(atom, e) && o < e
    requires Walks(w, o, e, n, Place(o, p), b)
    ensures b == Place(o, p) || (b.off == e && AtomMatches(w.env, w.som, atom, p, b.pos))
  {
    hide ValidEnv, Leads, AtomMatches;
    if n > 0 {
      var m :| Walks(w, o, e, n - 1, Place(o, p), m) && o <= m.off < e && Leads(w, m, b);
      LeafWalks(w, o, atom, e, p, n - 1, m);
      AtomPasses(w, o, atom, e, p, b);
    }
  }

  /** Where a walk can be that has begun in front of a term, or of the terms behind it. */
  ghost predicate InThen(w: World, t: Term, rest: Pattern, o: int, p: int, b: Place)
    requires ValidEnv(w.env) && PatternOk(Then(t, rest))
  {
    var m := o + |TermBytes(t)|;
    var e := m + |PatternBytes(rest)|;
    || (o <= b.off < m && Goes(w, o, m, Place(o, p), b))
    || (m <= b.off < e && exists r :: TermMatches(w.env, w.som, t, p, r) && Goes(w, m, e, Place(m, r), b))
    || (b.off == e && PatternMatches(w.env, w.som, Then(t, rest), p, b.pos))
  }

  lemma TermExits(w: World, prog: seq<byte>, t: Term, o: int, p: int, b: Place)
    requires ValidEnv(w.env) && TermOk(t) && Placed(prog, o, TermBytes(t)) && Known(w.env, prog, TermOffsets(t, o))
    requires Goes(w, o, o + |TermBytes(t)|, Place(o, p), b)
    ensures var e := o + |TermBytes(t)|;
            o <= b.off < e || (b.off == e && TermMatches(w.env, w.som, t, p, b.pos))
    decreases t, 2, 0
  {
    hide ValidEnv, Walks, AtomMatches, Fetch;
    if t.Leaf? {
      AtomDecodes(prog, o, t.atom);
      assert o in TermOffsets(t, o);
      var n: nat :| Walks(w, o, o + |TermBytes(t)|, n, Place(o, p), b);
      LeafWalks(w, o, t.atom, o + |TermBytes(t)|, p, n, b);
    } else {
      GroupExits(w, prog, t, o, p, b);
    }
  }

  lemma PatternExits(w: World, prog: seq<byte>, x: Pattern, o: int, p: int, b: Place)
    requires ValidEnv(w.env) && PatternOk(x) && Placed(prog, o, PatternBytes(x))
    requires Known(w.env, prog, PatternOffsets(x, o))
    requires Goes(w, o, o + |PatternBytes(x)|, Place(o, p), b)
    ensures var e := o + |PatternBytes(x)|;
            o <= b.off < e || (b.off == e && PatternMatches(w.env, w.som, x, p, b.pos))
    decreases x, 2, 0
  {
    hide ValidEnv, Leads, Fetch, TermBytes, TermMatches;
    var n: nat :| Walks(w, o, o + |PatternBytes(x)|, n, Place(o, p), b);
    if x.Then? {
      ThenWalks(w, prog, x.first, x.rest, o, p, n, b);
    }
  }

  lemma {:induction false} ThenWalks(w: World, prog: seq<byte>, t: Term, rest: Pattern, o: int, p: int, n: nat,
                                     b: Place)
    requires ValidEnv(w.env) && PatternOk(Then(t, rest)) && Placed(prog, o, PatternBytes(Then(t, rest)))
    requires Known(w.env, prog, PatternOffsets(Then(t, rest), o))
    requires Walks(w, o, o + |PatternBytes(Then(t, rest))|, n, Place(o, p), b)
    ensures InThen(w, t, rest, o, p, b)
    decreases Then(t, rest), 1, n
  {
    hide ValidEnv, Leads, Fetch, TermBytes, TermMatches, InThen;
    ThenParts(prog, o, t, rest);
    if n == 0 {
      ThenBegins(w, t, rest, o, p);
    } else {
      var m :| Walks(w, o, o + |PatternBytes(Then(t, rest))|, n - 1, Place(o, p), m)
               && o <= m.off < o + |PatternBytes(Then(t, rest))| && Leads(w, m, b);
      ThenWalks(w, prog, t, rest, o, p, n - 1, m);
      ThenFurther(w, prog, t, rest, o, p, m, b);
    }
  }

  lemma ThenBegins(w: World, t: Term, rest: Pattern, o: int, p: int)
    requires ValidEnv(w.env) && PatternOk(Then(t, rest))
    ensures InThen(w, t, rest, o, p, Place(o, p))
  {
    hide ValidEnv, Walks, TermMatches;
    GoesSelf(w, o, o + |TermBytes(t)|, Place(o, p));
  }

  lemma ThenFurther(w: World, prog: seq<byte>, t: Term, rest: Pattern, o: int, p: int, b: Place, c: Place)
    requires ValidEnv(w.env) && PatternOk(Then(t, rest)) && Placed(prog, o, TermBytes(t))
    requires Placed(prog, o + |TermBytes(t)|, PatternBytes(rest))
    requires Known(w.env, prog, PatternOffsets(Then(t, rest), o)) && InThen(w, t, rest, o, p, b)
    requires o <= b.off < o + |TermBytes(t)| + |PatternBytes(rest)| && Leads(w, b, c)
    ensures InThen(w, t, rest, o, p, c)
    decreases Then(t, rest), 0, 1
  {
    hide ValidEnv, Leads, Fetch, TermBytes, TermMatches, Goes, Placed;
    var m := o + |TermBytes(t)|;
    var e := m + |PatternBytes(rest)|;
    if b.off < m {
      GoesFurther(w, o, m, Place(o, p), b, c);
      TermExits(w, prog, t, o, p, c);
      if c.off == m {
        GoesSelf(w, m, e, c);
        InRest(w, prog, t, rest, o, p, c.pos, c);
      }
    } else {
      var r :| TermMatches(w.env, w.som, t, p, r) && Goes(w, m, e, Place(m, r), b);
      GoesFurther(w, m, e, Place(m, r), b, c);
      InRest(w, prog, t, rest, o, p, r, c);
    }
  }

  /** A walk that has come behind the first term, or further. */
  lemma InRest(w: World, prog: seq<byte>, t: Term, rest: Pattern, o: int, p: int, r: int, c: Place)
    requires ValidEnv(w.env) && PatternOk(Then(t, rest)) && Placed(prog, o + |TermBytes(t)|, PatternBytes(rest))
    requires Known(w.env, prog, PatternOffsets(Then(t, rest), o)) && TermMatches(w.env, w.som, t, p, r)
    requires var m := o + |TermBytes(t)|; Goes(w, m, m + |PatternBytes(rest)|, Place(m, r), c)
    ensures InThen(w, t, rest, o, p, c)
    decreases Then(t, rest), 0, 0
  {
    hide ValidEnv, Fetch, TermBytes, TermMatches, Goes, Placed;
    PatternExits(w, prog, rest, o + |TermBytes(t)|, r, c);
  }

  // ---------------------------------------------------------------- alternatives

  /** Where a walk can be that has begun with the first alternative. */
  ghost predicate InFirst(w: World, c: Choice, at: int, k: int, p: int, b: Place)
    requires ValidEnv(w.env) && ChoiceOk(c)
  {
    var m := at + |PatternBytes(c.pattern)|;
    || (at <= b.off < m && Goes(w, at, m, Place(at, p), b))
    || ((b.off == m || b.off == k) && PatternMatches(w.env, w.som, c.pattern, p, b.pos))
  }

  lemma {:induction false} FirstWalks(w: World, prog: seq<byte>, o: int, op: int, number: seq<byte>, c: Choice,
                                      p: int, n: nat, b: Place)
    requires ValidEnv(w.env) && ChoiceOk(c) && 0 <= op < 256 && ChoicePlaced(prog, o, op, number, c)
    requires Known(w.env, prog, ChoiceOffsets(c, o, 3 + |number|))
    requires Walks(w, o, o + |ChoiceBytes(op, number, c)|, n, Place(o + 3 + |number|, p), b)
    ensures InFirst(w, c, o + 3 + |number|, o + |ChoiceBytes(op, number, c)|, p, b)
    decreases c, 1, n
  {
    hide ValidEnv, Leads, Fetch, PatternBytes, ChoiceBytes, PatternMatches, Placed, ChoicePlaced;
    var head, k := 3 + |number|, o + |ChoiceBytes(op, number, c)|;
    var at, m := o + head, FirstEnd(c, o, head);
    ChoiceSplits(prog, o, op, number, c);
    if n == 0 {
      GoesSelf(w, at, m, Place(at, p));
      PatternExits(w, prog, c.pattern, at, p, b);
    } else {
      var d :| Walks(w, o, k, n - 1, Place(at, p), d) && o <= d.off < k && Leads(w, d, b);
      FirstWalks(w, prog, o, op, number, c, p, n - 1, d);
      FirstFurther(w, prog, o, head, k, c, p, d, b);
    }
  }

  lemma FirstFurther(w: World, prog: seq<byte>, o: int, head: int, k: int, c: Choice, p: int, d: Place, b: Place)
    requires ValidEnv(w.env) && ChoiceOk(c) && Known(w.env, prog, ChoiceOffsets(c, o, head))
    requires Placed(prog, o + head, PatternBytes(c.pattern)) && (c.Only? ==> FirstEnd(c, o, head) == k)
    requires c.Or? ==> 0 <= FirstEnd(c, o, head) < |prog| && Fetch(prog, FirstEnd(c, o, head)) == Item(Jump([k]))
    requires InFirst(w, c, o + head, k, p, d) && d.off < k && Leads(w, d, b)
    ensures InFirst(w, c, o + head, k, p, b)
    decreases c, 1, 0, 0
  {
    hide ValidEnv, Leads, Fetch, PatternBytes, PatternMatches, Placed, Goes, PatternOffsets;
    var at, m := o + head, FirstEnd(c, o, head);
    if at <= d.off < m && Goes(w, at, m, Place(at, p), d) {
      GoesFurther(w, at, m, Place(at, p), d, b);
      PatternExits(w, prog, c.pattern, at, p, b);
    } else {
      AltIsKnown(w, prog, o, head, c);
      JumpLeads(w, m, [k], d.pos, b);
    }
  }

  lemma AltIsKnown(w: World, prog: seq<byte>, o: int, head: int, c: Choice)
    requires ChoiceOk(c) && Known(w.env, prog, ChoiceOffsets(c, o, head)) && c.Or?
    ensures var m := FirstEnd(c, o, head);
            m in w.env.code.items && 0 <= m < |prog| && Fetch(prog, m) == Item(w.env.code.items[m])
    ensures Known(w.env, prog, ChoiceOffsets(c.others, FirstEnd(c, o, head), 3))
  {
    hide Fetch;
    assert FirstEnd(c, o, head) in ChoiceOffsets(c.others, FirstEnd(c, o, head), 3);
  }

  /** A walk that has begun with one of the other alternatives stays among them. */
  lemma {:induction false} OthersWalks(w: World, prog: seq<byte>, o: int, m: int, c: Choice, s: int, p: int, n: nat,
                                       b: Place)
    requires ValidEnv(w.env) && ChoiceOk(c) && ChoicePlaced(prog, m, OP_ALT, [], c) && o <= m
    requires Known(w.env, prog, ChoiceOffsets(c, m, 3)) && s in Starts(c, m, 3)
    requires Walks(w, o, m + |ChoiceBytes(OP_ALT, [], c)|, n, Place(s, p), b)
    ensures var k := m + |ChoiceBytes(OP_ALT, [], c)|;
            || (m <= b.off < k && Goes(w, m, k, Place(s, p), b))
            || (b.off == k && ChoiceMatches(w.env, w.som, c, p, b.pos))
    decreases c, 3, n
  {
    hide ValidEnv, Leads, Fetch, PatternBytes, ChoiceBytes, ChoiceMatches, ChoicePlaced, Starts;
    var k := m + |ChoiceBytes(OP_ALT, [], c)|;
    if n == 0 {
      GoesSelf(w, m, k, Place(s, p));
      ChoiceExits(w, prog, m, OP_ALT, [], c, s, p, b);
    } else {
      var d :| Walks(w, o, k, n - 1, Place(s, p), d) && o <= d.off < k && Leads(w, d, b);
      OthersWalks(w, prog, o, m, c, s, p, n - 1, d);
      GoesFurther(w, m, k, Place(s, p), d, b);
      ChoiceExits(w, prog, m, OP_ALT, [], c, s, p, b);
    }
  }

  /** A walk that has begun with an alternative leaves for the ket, as the alternatives match. */
  lemma ChoiceExits(w: World, prog: seq<byte>, o: int, op: int, number: seq<byte>, c: Choice, s: int, p: int, b: Place)
    requires ValidEnv(w.env) && ChoiceOk(c) && 0 <= op < 256 && ChoicePlaced(prog, o, op, number, c)
    requires Known(w.env, prog, ChoiceOffsets(c, o, 3 + |number|)) && s in Starts(c, o, 3 + |number|)
    requires Goes(w, o, o + |ChoiceBytes(op, number, c)|, Place(s, p), b)
    ensures var k := o + |ChoiceBytes(op, number, c)|;
            o <= b.off < k || (b.off == k && ChoiceMatches(w.env, w.som, c, p, b.pos))
    decreases c, 2, 0
  {
    hide ValidEnv, Walks, Fetch, PatternBytes, ChoiceBytes, PatternMatches, Placed, ChoicePlaced;
    var head, k := 3 + |number|, o + |ChoiceBytes(op, number, c)|;
    var n: nat :| Walks(w, o, k, n, Place(s, p), b);
    ChoiceSplits(prog, o, op, number, c);
    if s == o + head {
      FirstWalks(w, prog, o, op, number, c, p, n, b);
    } else {
      AltIsKnown(w, prog, o, head, c);
      OthersWalks(w, prog, o, FirstEnd(c, o, head), c.others, s, p, n, b);
    }
  }

  // ---------------------------------------------------------------- groups

  /** Position r is one from which the group that begins at p is matched once, or once more. */
  ghost predicate Entered(w: World, t: Term, p: int, r: int)
    requires t.Group?
  {
    !t.loop.Never?
    && if Repeats(t.loop) then exists n: nat :: TimesMatches(w.env, w.som, t.choice, n, p, r) else r == p
  }

  /** Where a walk can be that has begun in front of a group. */
  ghost predicate InGroup(w: World, t: Term, o: int, p: int, b: Place)
    requires ValidEnv(w.env) && t.Group? && TermOk(t)
  {
    var g, k := OpenAt(t, o), KetAt(t, o);
    || (o < g && b == Place(o, p))
    || (b.off == g && Entered(w, t, p, b.pos))
    || (g <= b.off < k && exists r, s ::
          Entered(w, t, p, r) && s in Starts(t.choice, g, HeadOf(t)) && Goes(w, g, k, Place(s, r), b))
    || (b.off == k && exists r :: Entered(w, t, p, r) && ChoiceMatches(w.env, w.som, t.choice, r, b.pos))
    || (b.off == k + 3 && TermMatches(w.env, w.som, t, p, b.pos))
  }

  /** The items of a group, as the program knows them. */
  lemma GroupKnown(w: World, prog: seq<byte>, t: Term, o: int)
    requires t.Group? && TermOk(t) && Placed(prog, o, TermBytes(t)) && Known(w.env, prog, TermOffsets(t, o))
    ensures var g, k, items := OpenAt(t, o), KetAt(t, o), w.env.code.items;
            && g in items && items[g] == Jump(Starts(t.choice, g, HeadOf(t)))
            && k in items && items[k] == Jump(if Repeats(t.loop) then [k + 3, g] else [k + 3])
            && (o < g ==> o in items && items[o] == Jump(if t.loop.Never? then [k + 3] else [g, k + 3]))
            && (o < g <==> Optional(t.loop) || t.loop.Never?) && o <= g
    ensures Known(w.env, prog, ChoiceOffsets(t.choice, OpenAt(t, o), HeadOf(t)))
  {
    hide ChoiceBytes, TermBytes, Fetch, Starts;
    GroupItems(prog, t, o);
    assert OpenAt(t, o) in ChoiceOffsets(t.choice, OpenAt(t, o), HeadOf(t));
  }

  /** A walk that has come to the start of an alternative, or further. */
  lemma InAlternative(w: World, prog: seq<byte>, t: Term, o: int, p: int, r: int, s: int, b: Place)
    requires ValidEnv(w.env) && t.Group? && TermOk(t)
    requires ChoicePlaced(prog, OpenAt(t, o), t.op, NumberBytes(t.op, t.number), t.choice)
    requires Known(w.env, prog, ChoiceOffsets(t.choice, OpenAt(t, o), HeadOf(t)))
    requires Entered(w, t, p, r) && s in Starts(t.choice, OpenAt(t, o), HeadOf(t))
    requires Goes(w, OpenAt(t, o), KetAt(t, o), Place(s, r), b)
    ensures InGroup(w, t, o, p, b)
    decreases t, 0, 0, 0
  {
    hide ValidEnv, Goes, Fetch, ChoiceBytes, ChoiceMatches, ChoicePlaced, Known, Starts, TermMatches, Entered;
    ChoiceExits(w, prog, OpenAt(t, o), t.op, NumberBytes(t.op, t.number), t.choice, s, r, b);
  }

  lemma GroupFurther(w: World, prog: seq<byte>, t: Term, o: int, p: int, b: Place, c: Place)
    requires ValidEnv(w.env) && t.Group? && TermOk(t) && Placed(prog, o, TermBytes(t))
    requires Known(w.env, prog, TermOffsets(t, o)) && InGroup(w, t, o, p, b)
    requires o <= b.off < KetAt(t, o) + 3 && Leads(w, b, c)
    ensures InGroup(w, t, o, p, c)
    decreases t, 0, 2, 0
  {
    hide ValidEnv, Goes, Fetch, ChoiceBytes, ChoiceMatches, ChoicePlaced, Placed, Known, Starts, TermBytes, InGroup,
         TermMatches, Entered;
    var g, k := OpenAt(t, o), KetAt(t, o);
    GroupPlaced(prog, t, o);
    GroupKnown(w, prog, t, o);
    if o < g && b == Place(o, p) {
      FromPrefix(w, t, o, p, c);
    } else if b.off == g && Entered(w, t, p, b.pos) {
      JumpLeads(w, g, Starts(t.choice, g, HeadOf(t)), b.pos, c);
      GoesSelf(w, g, k, c);
      InAlternative(w, prog, t, o, p, b.pos, c.off, c);
    } else {
      InGroupFurther(w, prog, t, o, p, b, c);
    }
  }

  lemma FromPrefix(w: World, t: Term, o: int, p: int, c: Place)
    requires ValidEnv(w.env) && t.Group? && TermOk(t) && Leads(w, Place(o, p), c)
    requires o in w.env.code.items && (Optional(t.loop) || t.loop.Never?)
    requires w.env.code.items[o] == Jump(if t.loop.Never? then [KetAt(t, o) + 3] else [OpenAt(t, o), KetAt(t, o) + 3])
    ensures InGroup(w, t, o, p, c)
  {
    hide ValidEnv, Goes, ChoiceBytes, ChoiceMatches, Starts;
    JumpLeads(w, o, if t.loop.Never? then [KetAt(t, o) + 3] else [OpenAt(t, o), KetAt(t, o) + 3], p, c);
    assert TimesMatches(w.env, w.som, t.choice, 0, p, p);
  }

  lemma InGroupFurther(w: World, prog: seq<byte>, t: Term, o: int, p: int, b: Place, c: Place)
    requires ValidEnv(w.env) && t.Group? && TermOk(t)
    requires ChoicePlaced(prog, OpenAt(t, o), t.op, NumberBytes(t.op, t.number), t.choice)
    requires Known(w.env, prog, ChoiceOffsets(t.choice, OpenAt(t, o), HeadOf(t)))
    requires KetAt(t, o) in w.env.code.items && w.env.code.items[KetAt(t, o)]
               == Jump(if Repeats(t.loop) then [KetAt(t, o) + 3, OpenAt(t, o)] else [KetAt(t, o) + 3])
    requires InGroup(w, t, o, p, b) && b.off < KetAt(t, o) + 3 && Leads(w, b, c)
    requires !(o < OpenAt(t, o) && b == Place(o, p)) && !(b.off == OpenAt(t, o) && Entered(w, t, p, b.pos))
    ensures InGroup(w, t, o, p, c)
    decreases t, 0, 1, 0
  {
    hide ValidEnv, Goes, Fetch, ChoiceBytes, ChoiceMatches, ChoicePlaced, Known, Starts, TermMatches, Entered;
    var g, k := OpenAt(t, o), KetAt(t, o);
    if g <= b.off < k {
      var r, s :| Entered(w, t, p, r) && s in Starts(t.choice, g, HeadOf(t)) && Goes(w, g, k, Place(s, r), b);
      GoesFurther(w, g, k, Place(s, r), b, c);
      InAlternative(w, prog, t, o, p, r, s, c);
    } else {
      var r :| Entered(w, t, p, r) && ChoiceMatches(w.env, w.som, t.choice, r, b.pos);
      FromKet(w, t, o, p, r, b.pos, c);
    }
  }

  lemma FromKet(w: World, t: Term, o: int, p: int, r: int, q: int, c: Place)
    requires ValidEnv(w.env) && t.Group? && TermOk(t) && Leads(w, Place(KetAt(t, o), q), c)
    requires KetAt(t, o) in w.env.code.items && w.env.code.items[KetAt(t, o)]
               == Jump(if Repeats(t.loop) then [KetAt(t, o) + 3, OpenAt(t, o)] else [KetAt(t, o) + 3])
    requires Entered(w, t, p, r) && ChoiceMatches(w.env, w.som, t.choice, r, q)
    ensures InGroup(w, t, o, p, c)
  {
    hide ValidEnv, Goes, ChoiceBytes, ChoiceMatches, Starts;
    var g, k := OpenAt(t, o), KetAt(t, o);
    JumpLeads(w, k, if Repeats(t.loop) then [k + 3, g] else [k + 3], q, c);
    if Repeats(t.loop) {
      var n: nat :| TimesMatches(w.env, w.som, t.choice, n, p, r);
      assert TimesMatches(w.env, w.som, t.choice, n + 1, p, q);
    }
  }

  lemma GroupBegins(w: World, t: Term, o: int, p: int)
    requires ValidEnv(w.env) && t.Group? && TermOk(t)
    requires o < OpenAt(t, o) || (o == OpenAt(t, o) && !t.loop.Never?)
    ensures InGroup(w, t, o, p, Place(o, p))
  {
    hide ValidEnv, Goes, ChoiceBytes, ChoiceMatches, Starts;
    assert TimesMatches(w.env, w.som, t.choice, 0, p, p);
  }

  lemma {:induction false} GroupWalks(w: World, prog: seq<byte>, t: Term, o: int, p: int, n: nat, b: Place)
    requires ValidEnv(w.env) && t.Group? && TermOk(t) && Placed(prog, o, TermBytes(t))
    requires Known(w.env, prog, TermOffsets(t, o)) && Walks(w, o, o + |TermBytes(t)|, n, Place(o, p), b)
    ensures InGroup(w, t, o, p, b)
    decreases t, 0, 3, n
  {
    hide ValidEnv, Leads, Fetch, TermBytes, TermMatches, InGroup, Known, Placed, Starts;
    GroupPlaced(prog, t, o);
    if n == 0 {
      GroupKnown(w, prog, t, o);
      GroupBegins(w, t, o, p);
    } else {
      var m :| Walks(w, o, o + |TermBytes(t)|, n - 1, Place(o, p), m) && o <= m.off < o + |TermBytes(t)|
               && Leads(w, m, b);
      GroupWalks(w, prog, t, o, p, n - 1, m);
      GroupFurther(w, prog, t, o, p, m, b);
    }
  }

  lemma GroupExits(w: World, prog: seq<byte>, t: Term, o: int, p: int, b: Place)
    requires ValidEnv(w.env) && TermOk(t) && Placed(prog, o, TermBytes(t)) && Known(w.env, prog, TermOffsets(t, o))
    requires t.Group? && Goes(w, o, o + |TermBytes(t)|, Place(o, p), b)
    ensures var e := o + |TermBytes(t)|;
            o <= b.off < e || (b.off == e && TermMatches(w.env, w.som, t, p, b.pos))
    decreases t, 1, 0
  {
    hide ValidEnv, Walks, Fetch, TermBytes, TermMatches, Known, Placed, Entered, Starts, ChoiceMatches;
    GroupPlaced(prog, t, o);
    GroupKnown(w, prog, t, o);
    var n: nat :| Walks(w, o, o + |TermBytes(t)|, n, Place(o, p), b);
    GroupWalks(w, prog, t, o, p, n, b);
  }

  // ---------------------------------------------------------------- what matches is walked

  predicate Within(env: Env, p: int) {
    0 <= p <= |env.subject|
  }

  lemma AtomStaysWithin(env: Env, som: int, atom: Atom, a: int, b: int)
    requires AtomMatches(env, som, atom, a, b)
    ensures Within(env, b)
  {
    hide Stands, MayTake, Admits;
    match atom {
      case Many(t, q, possessive, _) => TakesInside(env, t, q, possessive, a, b - a);
      case _ =>
    }
  }

  lemma {:induction false} TermStaysWithin(env: Env, som: int, t: Term, a: int, b: int)
    requires TermMatches(env, som, t, a, b) && Within(env, a)
    ensures Within(env, b)
    decreases t, 2, 0
  {
    hide AtomMatches, ChoiceMatches, TimesMatches, Within;
    match t {
      case Leaf(atom) => AtomStaysWithin(env, som, atom, a, b);
      case Group(_, _, loop, _, c) =>
        if Repeats(loop) {
          var n: nat :| TimesMatches(env, som, c, n, a, b);
          TimesStayWithin(env, som, c, n, a, b);
        } else if ChoiceMatches(env, som, c, a, b) {
          ChoiceStaysWithin(env, som, c, a, b);
        }
    }
  }

  lemma {:induction false} PatternStaysWithin(env: Env, som: int, p: Pattern, a: int, b: int)
    requires PatternMatches(env, som, p, a, b) && Within(env, a)
    ensures Within(env, b)
    decreases p, 2, 0
  {
    hide TermMatches, Within;
    if p.Then? {
      var m :| TermMatches(env, som, p.first, a, m) && PatternMatches(env, som, p.rest, m, b);
      TermStaysWithin(env, som, p.first, a, m);
      PatternStaysWithin(env, som, p.rest, m, b);
    }
  }

  lemma {:induction false} ChoiceStaysWithin(env: Env, som: int, c: Choice, a: int, b: int)
    requires ChoiceMatches(env, som, c, a, b) && Within(env, a)
    ensures Within(env, b)
    decreases c, 2, 0
  {
    hide PatternMatches, Within;
    if PatternMatches(env, som, c.pattern, a, b) {
      PatternStaysWithin(env, som, c.pattern, a, b);
    } else {
      ChoiceStaysWithin(env, som, c.others, a, b);
    }
  }

  lemma {:induction false} TimesStayWithin(env: Env, som: int, c: Choice, n: nat, a: int, b: int)
    requires TimesMatches(env, som, c, n, a, b) && Within(env, a)
    ensures Within(env, b)
    decreases c, 3, n
  {
    hide ChoiceMatches, Within;
    if n > 0 {
      var m :| TimesMatches(env, som, c, n - 1, a, m) && ChoiceMatches(env, som, c, m, b);
      TimesStayWithin(env, som, c, n - 1, a, m);
      ChoiceStaysWithin(env, som, c, m, b);
    }
  }

  lemma GoesOnce(w: World, lo: int, hi: int, a: Place, b: Place)
    requires ValidEnv(w.env) && lo <= a.off < hi && Leads(w, a, b)
    ensures Goes(w, lo, hi, a, b)
  {
    hide ValidEnv, Leads, Goes;
    GoesSelf(w, lo, hi, a);
    GoesFurther(w, lo, hi, a, a, b);
  }

  lemma {:induction false} TermWalks(w: World, prog: seq<byte>, t: Term, o: int, p: int, q: int)
    requires ValidEnv(w.env) && TermOk(t) && Placed(prog, o, TermBytes(t)) && Known(w.env, prog, TermOffsets(t, o))
    requires Within(w.env, p) && TermMatches(w.env, w.som, t, p, q)
    ensures Goes(w, o, o + |TermBytes(t)|, Place(o, p), Place(o + |TermBytes(t)|, q))
    decreases t, 3, 0
  {
    hide ValidEnv, Goes, Leads, AtomMatches, Fetch, GroupMatched;
    if t.Leaf? {
      AtomDecodes(prog, o, t.atom);
      assert o in TermOffsets(t, o);
      AtomPasses(w, o, t.atom, o + |TermBytes(t)|, p, Place(o + |TermBytes(t)|, q));
      GoesOnce(w, o, o + |TermBytes(t)|, Place(o, p), Place(o + |TermBytes(t)|, q));
    } else {
      GroupIsWalked(w, prog, t, o, p, q);
    }
  }

  lemma {:induction false} PatternWalks(w: World, prog: seq<byte>, x: Pattern, o: int, p: int, q: int)
    requires ValidEnv(w.env) && PatternOk(x) && Placed(prog, o, PatternBytes(x))
    requires Known(w.env, prog, PatternOffsets(x, o))
    requires Within(w.env, p) && PatternMatches(w.env, w.som, x, p, q)
    ensures Goes(w, o, o + |PatternBytes(x)|, Place(o, p), Place(o + |PatternBytes(x)|, q))
    decreases x, 3, 0
  {
    hide ValidEnv, Goes, Fetch, TermBytes, TermMatches, Placed, Within;
    if x.Empty? {
      GoesSelf(w, o, o, Place(o, p));
    } else {
      var r :| TermMatches(w.env, w.som, x.first, p, r) && PatternMatches(w.env, w.som, x.rest, r, q);
      var m, e := o + |TermBytes(x.first)|, o + |PatternBytes(x)|;
      ThenParts(prog, o, x.first, x.rest);
      TermWalks(w, prog, x.first, o, p, r);
      TermStaysWithin(w.env, w.som, x.first, p, r);
      PatternWalks(w, prog, x.rest, m, r, q);
      GoesWider(w, o, m, o, e, Place(o, p), Place(m, r));
      GoesWider(w, m, e, o, e, Place(m, r), Place(e, q));
      GoesJoin(w, o, e, Place(o, p), Place(m, r), Place(e, q));
    }
  }

  /** An alternative that matches is walked from its start to the ket. */
  lemma {:induction false} ChoiceWalks(w: World, prog: seq<byte>, o: int, op: int, number: seq<byte>, c: Choice,
                                       p: int, q: int)
    returns (s: int)
    requires ValidEnv(w.env) && ChoiceOk(c) && 0 <= op < 256 && ChoicePlaced(prog, o, op, number, c)
    requires Known(w.env, prog, ChoiceOffsets(c, o, 3 + |number|))
    requires Within(w.env, p) && ChoiceMatches(w.env, w.som, c, p, q)
    ensures s in Starts(c, o, 3 + |number|)
    ensures var k := o + |ChoiceBytes(op, number, c)|; Goes(w, o, k, Place(s, p), Place(k, q))
    decreases c, 3, 0
  {
    hide ValidEnv, Goes, Leads, Fetch, PatternBytes, ChoiceBytes, PatternMatches, Placed, ChoicePlaced;
    var head, k := 3 + |number|, o + |ChoiceBytes(op, number, c)|;
    var m := FirstEnd(c, o, head);
    ChoiceSplits(prog, o, op, number, c);
    if PatternMatches(w.env, w.som, c.pattern, p, q) {
      s := o + head;
      PatternWalks(w, prog, c.pattern, s, p, q);
      GoesWider(w, s, m, o, k, Place(s, p), Place(m, q));
      if c.Or? {
        AltIsKnown(w, prog, o, head, c);
        PatternStaysWithin(w.env, w.som, c.pattern, p, q);
        JumpLeads(w, m, [k], q, Place(k, q));
        GoesFurther(w, o, k, Place(s, p), Place(m, q), Place(k, q));
      }
    } else {
      AltIsKnown(w, prog, o, head, c);
      s := ChoiceWalks(w, prog, m, OP_ALT, [], c.others, p, q);
      GoesWider(w, m, k, o, k, Place(s, p), Place(k, q));
    }
  }

  /** From the opening item to the ket. */
  lemma OnceWalked(w: World, prog: seq<byte>, t: Term, o: int, p: int, q: int)
    requires ValidEnv(w.env) && t.Group? && TermOk(t) && Placed(prog, o, TermBytes(t))
    requires Known(w.env, prog, TermOffsets(t, o))
    requires Within(w.env, p) && ChoiceMatches(w.env, w.som, t.choice, p, q)
    ensures Goes(w, o, KetAt(t, o) + 3, Place(OpenAt(t, o), p), Place(KetAt(t, o), q))
    decreases t, 0, 0
  {
    hide ValidEnv, Goes, Leads, Fetch, TermBytes, ChoiceBytes, ChoiceMatches, Placed, ChoicePlaced, Known, Starts;
    var g, k := OpenAt(t, o), KetAt(t, o);
    GroupPlaced(prog, t, o);
    GroupKnown(w, prog, t, o);
    var s := ChoiceWalks(w, prog, g, t.op, NumberBytes(t.op, t.number), t.choice, p, q);
    JumpLeads(w, g, Starts(t.choice, g, HeadOf(t)), p, Place(s, p));
    GoesOnce(w, o, k + 3, Place(g, p), Place(s, p));
    GoesWider(w, g, k, o, k + 3, Place(s, p), Place(k, q));
    GoesJoin(w, o, k + 3, Place(g, p), Place(s, p), Place(k, q));
  }

  /** The same n times: each time but the first the ket leads back. */
  lemma {:induction false} TimesWalked(w: World, prog: seq<byte>, t: Term, o: int, n: nat, p: int, q: int)
    requires ValidEnv(w.env) && t.Group? && TermOk(t) && Placed(prog, o, TermBytes(t)) && Repeats(t.loop)
    requires Known(w.env, prog, TermOffsets(t, o))
    requires Within(w.env, p) && n > 0 && TimesMatches(w.env, w.som, t.choice, n, p, q)
    ensures Goes(w, o, KetAt(t, o) + 3, Place(OpenAt(t, o), p), Place(KetAt(t, o), q))
    decreases t, 1, n
  {
    hide ValidEnv, Goes, Leads, Fetch, TermBytes, ChoiceBytes, ChoiceMatches, Placed, Known, Starts, Within;
    var g, k := OpenAt(t, o), KetAt(t, o);
    var r :| TimesMatches(w.env, w.som, t.choice, n - 1, p, r) && ChoiceMatches(w.env, w.som, t.choice, r, q);
    TimesStayWithin(w.env, w.som, t.choice, n - 1, p, r);
    OnceWalked(w, prog, t, o, r, q);
    if n > 1 {
      TimesWalked(w, prog, t, o, n - 1, p, r);
      BackFromKet(w, prog, t, o, r);
      GoesFurther(w, o, k + 3, Place(g, p), Place(k, r), Place(g, r));
      GoesJoin(w, o, k + 3, Place(g, p), Place(g, r), Place(k, q));
    }
  }

  lemma BackFromKet(w: World, prog: seq<byte>, t: Term, o: int, r: int)
    requires ValidEnv(w.env) && t.Group? && TermOk(t) && Placed(prog, o, TermBytes(t))
    requires Known(w.env, prog, TermOffsets(t, o)) && Within(w.env, r)
    ensures Leads(w, Place(KetAt(t, o), r), Place(KetAt(t, o) + 3, r))
    ensures Repeats(t.loop) ==> Leads(w, Place(KetAt(t, o), r), Place(OpenAt(t, o), r))
    ensures o < OpenAt(t, o) ==>
              Leads(w, Place(o, r), Place(if t.loop.Never? then KetAt(t, o) + 3 else OpenAt(t, o), r))
    ensures o < OpenAt(t, o) ==> Leads(w, Place(o, r), Place(KetAt(t, o) + 3, r))
    ensures o <= OpenAt(t, o) < KetAt(t, o)
  {
    hide ValidEnv, Leads, Fetch, TermBytes, ChoiceBytes, Placed, Known, Starts;
    var g, k := OpenAt(t, o), KetAt(t, o);
    GroupKnown(w, prog, t, o);
    forall c ensures Leads(w, Place(k, r), c) <==>
                     c.off in (if Repeats(t.loop) then [k + 3, g] else [k + 3]) && c.pos == r {
      JumpLeads(w, k, if Repeats(t.loop) then [k + 3, g] else [k + 3], r, c);
    }
    if o < g {
      forall c ensures Leads(w, Place(o, r), c) <==>
                       c.off in (if t.loop.Never? then [k + 3] else [g, k + 3]) && c.pos == r {
        JumpLeads(w, o, if t.loop.Never? then [k + 3] else [g, k + 3], r, c);
      }
    }
  }

  /** The group is matched at least once. */
  ghost predicate GroupMatched(w: World, t: Term, p: int, q: int)
    requires t.Group?
  {
    if Repeats(t.loop) then exists n: nat :: n > 0 && TimesMatches(w.env, w.som, t.choice, n, p, q)
    else !t.loop.Never? && ChoiceMatches(w.env, w.som, t.choice, p, q)
  }

  lemma GroupIsMatched(w: World, t: Term, p: int, q: int)
    requires t.Group? && TermMatches(w.env, w.som, t, p, q)
    ensures GroupMatched(w, t, p, q) || (p == q && (Optional(t.loop) || t.loop.Never?))
  {
    hide ChoiceMatches;
    if t.loop.Any? {
      var n: nat :| TimesMatches(w.env, w.som, t.choice, n, p, q);
    }
  }

  lemma GroupIsWalked(w: World, prog: seq<byte>, t: Term, o: int, p: int, q: int)
    requires ValidEnv(w.env) && t.Group? && TermOk(t) && Placed(prog, o, TermBytes(t))
    requires Known(w.env, prog, TermOffsets(t, o))
    requires Within(w.env, p) && TermMatches(w.env, w.som, t, p, q)
    ensures Goes(w, o, o + |TermBytes(t)|, Place(o, p), Place(o + |TermBytes(t)|, q))
    decreases t, 2, 0
  {
    hide ValidEnv, Goes, Leads, Fetch, TermBytes, ChoiceBytes, ChoiceMatches, Placed, Known, Starts, Within,
         TermMatches;
    var g, k := OpenAt(t, o), KetAt(t, o);
    GroupPlaced(prog, t, o);
    GroupKnown(w, prog, t, o);
    BackFromKet(w, prog, t, o, p);
    TermStaysWithin(w.env, w.som, t, p, q);
    BackFromKet(w, prog, t, o, q);
    GroupIsMatched(w, t, p, q);
    if GroupMatched(w, t, p, q) {
      if o < g { GoesOnce(w, o, k + 3, Place(o, p), Place(g, p)); } else { GoesSelf(w, o, k + 3, Place(g, p)); }
      if Repeats(t.loop) {
        var n: nat :| n > 0 && TimesMatches(w.env, w.som, t.choice, n, p, q);
        TimesWalked(w, prog, t, o, n, p, q);
      } else {
        OnceWalked(w, prog, t, o, p, q);
      }
      GoesJoin(w, o, k + 3, Place(o, p), Place(g, p), Place(k, q));
      GoesFurther(w, o, k + 3, Place(o, p), Place(k, q), Place(k + 3, q));
    } else {
      GoesOnce(w, o, k + 3, Place(o, p), Place(k + 3, p));
    }
  }

  // ---------------------------------------------------------------- the paths of a whole program

  /** What is needed to know about the program of a pattern. */
  ghost predicate IsProgramOf(w: World, c: Choice)
    requires ChoiceOk(c)
  {
    Is16(KetOf(c)) && w.env.code == CompiledCode(c) && ValidEnv(w.env) && FullTables(w.env.tables)
  }

  lemma ProgramIsKnown(w: World, c: Choice)
    requires ChoiceOk(c) && IsProgramOf(w, c)
    ensures ChoicePlaced(ProgramBytes(c), 0, OP_BRA, [], c)
    ensures Known(w.env, ProgramBytes(c), ChoiceOffsets(c, 0, 3))
  {
    ProgramPlaced(c);
    CompiledItems(c);
    hide Fetch, ChoiceBytes, ChoiceOffsets, Starts, ProgramBytes, CompiledCode, ItemFits, ValidEnv;
  }

  lemma StartsOfEntries(env: Env, task: Task, starts: seq<int>, a: Place)
    requires task.open in env.code.brackets && 0 <= task.at
    requires env.code.brackets[task.open].entries
               == seq(|starts|, i requires 0 <= i < |starts| => Entry(starts[i], 0))
    ensures IsStart(env, task, a) <==> a.off in starts && a.pos == task.at
  {
    var entries := env.code.brackets[task.open].entries;
    if a.off in starts && a.pos == task.at {
      var i :| 0 <= i < |starts| && starts[i] == a.off;
      assert entries[i] == Entry(a.off, 0) && entries[i] in entries;
    }
  }

  lemma StartsOfProgram(w: World, c: Choice, task: Task, a: Place)
    requires ChoiceOk(c) && IsProgramOf(w, c) && task.open == 0 && 0 <= task.at
    ensures ValidEnv(w.env) && 0 in w.env.code.brackets && w.env.code.brackets[0].close == KetOf(c)
    ensures IsStart(w.env, task, a) <==> a.off in Starts(c, 0, 3) && a.pos == task.at
  {
    hide CompiledCode, ValidEnv, KetOf, Starts, IsStart;
    EntriesOfProgram(c);
    StartsOfEntries(w.env, task, Starts(c, 0, 3), a);
  }

  /** A path through the program is a walk from the start of an alternative. */
  lemma {:induction false} PathIsWalk(w: World, c: Choice, task: Task, n: nat, a: Place) returns (s: int)
    requires ChoiceOk(c) && IsProgramOf(w, c) && task.open == 0 && task.som == w.som && 0 <= task.at
    requires ValidEnv(w.env) && 0 in w.env.code.brackets && PathOf(w.env, w.nested, task, n, a)
    ensures s in Starts(c, 0, 3) && Walks(w, 0, KetOf(c), n, Place(s, task.at), a)
  {
    hide Starts, Passable, ValidEnv, IsProgramOf, KetOf, IsStart;
    StartsOfProgram(w, c, task, a);
    if n == 0 {
      s := a.off;
    } else {
      var b :| PathOf(w.env, w.nested, task, n - 1, b) && Passable(w.env, w.nested, task.som, b, a)
               && b.off != w.env.code.brackets[0].close;
      s := PathIsWalk(w, c, task, n - 1, b);
      WalkStaysInside(w, c, s, task.at, n - 1, b);
    }
  }

  lemma WalkStaysInside(w: World, c: Choice, s: int, p: int, n: nat, b: Place)
    requires ChoiceOk(c) && IsProgramOf(w, c) && ValidEnv(w.env) && s in Starts(c, 0, 3)
    requires Walks(w, 0, KetOf(c), n, Place(s, p), b)
    ensures 0 <= b.off < KetOf(c) || (b.off == KetOf(c) && ChoiceMatches(w.env, w.som, c, p, b.pos))
  {
    hide Fetch, ChoiceBytes, ChoiceOffsets, Starts, ProgramBytes, CompiledCode, ValidEnv, Walks, ChoiceMatches,
         ChoicePlaced, Known;
    ProgramIsKnown(w, c);
    assert Goes(w, 0, KetOf(c), Place(s, p), b);
    ChoiceExits(w, ProgramBytes(c), 0, OP_BRA, [], c, s, p, b);
  }

  lemma {:induction false} WalkIsPath(w: World, c: Choice, task: Task, s: int, n: nat, a: Place)
    requires ChoiceOk(c) && IsProgramOf(w, c) && task.open == 0 && task.som == w.som && 0 <= task.at
    requires ValidEnv(w.env) && 0 in w.env.code.brackets && w.env.code.brackets[0].close == KetOf(c)
    requires s in Starts(c, 0, 3) && Walks(w, 0, KetOf(c), n, Place(s, task.at), a)
    ensures PathOf(w.env, w.nested, task, n, a)
  {
    hide Starts, Passable, ValidEnv, IsProgramOf, KetOf, IsStart;
    if n == 0 {
      StartsOfProgram(w, c, task, a);
    } else {
      var b :| Walks(w, 0, KetOf(c), n - 1, Place(s, task.at), b) && 0 <= b.off < KetOf(c) && Leads(w, b, a);
      WalkIsPath(w, c, task, s, n - 1, b);
    }
  }

  /** Paths through the program of a pattern lead to the ket exactly where the pattern matches. */
  lemma PathsMatch(w: World, c: Choice, task: Task, q: int)
    requires ChoiceOk(c) && IsProgramOf(w, c) && task.open == 0 && task.som == w.som && Within(w.env, task.at)
    ensures ValidEnv(w.env) && 0 in w.env.code.brackets && w.env.code.brackets[0].close == KetOf(c)
    ensures OnPath(w.env, w.nested, task, Place(KetOf(c), q)) <==> ChoiceMatches(w.env, w.som, c, task.at, q)
  {
    hide Fetch, Starts, IsProgramOf, ValidEnv, Walks, ChoiceMatches, PathOf, KetOf, IsStart;
    StartsOfProgram(w, c, task, Place(KetOf(c), q));
    if OnPath(w.env, w.nested, task, Place(KetOf(c), q)) {
      var n: nat :| PathOf(w.env, w.nested, task, n, Place(KetOf(c), q));
      var s := PathIsWalk(w, c, task, n, Place(KetOf(c), q));
      WalkStaysInside(w, c, s, task.at, n, Place(KetOf(c), q));
    }
    if ChoiceMatches(w.env, w.som, c, task.at, q) {
      var s, n := MatchIsWalk(w, c, task.at, q);
      WalkIsPath(w, c, task, s, n, Place(KetOf(c), q));
    }
  }

  lemma MatchIsWalk(w: World, c: Choice, p: int, q: int) returns (s: int, n: nat)
    requires ChoiceOk(c) && IsProgramOf(w, c) && ValidEnv(w.env) && Within(w.env, p)
    requires ChoiceMatches(w.env, w.som, c, p, q)
    ensures s in Starts(c, 0, 3) && Walks(w, 0, KetOf(c), n, Place(s, p), Place(KetOf(c), q))
  {
    hide Fetch, ChoiceBytes, ChoiceOffsets, Starts, ProgramBytes, CompiledCode, ValidEnv, Walks, ChoiceMatches,
         ChoicePlaced, Known, IsProgramOf;
    ProgramIsKnown(w, c);
    s := ChoiceWalks(w, ProgramBytes(c), 0, OP_BRA, [], c, p, q);
    n :| Walks(w, 0, KetOf(c), n, Place(s, p), Place(KetOf(c), q));
  }
}
