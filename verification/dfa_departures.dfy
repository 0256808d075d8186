/** Where two calls on the parts of a subject find something else than one call on the whole: for each item that the
    theorem about restarting leaves out, a program and a subject split in two. */
module DfaDepartures {
  import opened Basics
  import opened DfaProgram
  import opened DfaSemantics
  import opened DfaStates
  import opened DfaRoom
  import opened DfaCoverage
  import opened DfaCrowd
  import opened DfaRestart

  // ---------------------------------------------------------------- a newline sequence split by the seam

  /** A group holding one newline sequence, as bytes: BRA, ANYNL, KET, END. */
  const NEWLINE_GROUP: seq<byte> := [131, 0, 4, 17, 120, 0, 4, 0]

  function NewlineGroup(): Code {
    Code(map[0 := Jump([3]), 3 := NewlineSequence(4), 4 := Jump([7])], map[0 := Bracket(4, [Entry(3, 0)], false)])
  }

  lemma NewlineGroupLinks()
    ensures var p := NEWLINE_GROUP; Linked(p, 0) && Close(p, 0) == 4 && Branches(p, 0, 3) == [3]
  {
    hide Fetch;
    assert Get2(NEWLINE_GROUP, 1) == 4;
  }

  lemma NewlineGroupItems()
    ensures Fetch(NEWLINE_GROUP, 0) == Item(Jump([3]))
    ensures Fetch(NEWLINE_GROUP, 3) == Item(NewlineSequence(4))
    ensures Fetch(NEWLINE_GROUP, 4) == Item(Jump([7]))
  {
    hide Linked, Close, Branches;
    NewlineGroupLinks();
  }

  /** Decoding item by item. */
  lemma DecodesTo(prog: seq<byte>, starts: set<int>, code: Code)
    requires starts == code.items.Keys && forall o <- starts :: 0 <= o < |prog| && Fetch(prog, o) == Item(code.items[o])
    requires forall g <- starts :: g in code.brackets <==> IsBracketOp(prog[g]) && Linked(prog, g)
    requires forall g <- code.brackets :: g in starts && Linked(prog, g) && code.brackets[g] == FetchBracket(prog, g)
    ensures Decode(prog, starts) == code
  {
    hide Fetch, Linked, FetchBracket, IsBracketOp;
    var decoded := Decode(prog, starts);
    assert decoded.items == code.items;
    forall g ensures g in decoded.brackets <==> g in code.brackets {
      if g in starts { assert 0 <= g < |prog|; }
    }
    assert decoded.brackets == code.brackets;
  }

  lemma NewlineGroupDecodes()
    ensures Decode(NEWLINE_GROUP, {0, 3, 4}) == NewlineGroup()
  {
    hide Fetch, Linked, Close, Branches, Decode;
    NewlineGroupLinks();
    NewlineGroupItems();
    assert FetchBracket(NEWLINE_GROUP, 0) == Bracket(4, [Entry(3, 0)], false);
    hide FetchBracket;
    DecodesTo(NEWLINE_GROUP, {0, 3, 4}, NewlineGroup());
  }

  /** With CR LF split by the seam the match in parts differs: on the whole the newline sequence takes both
      characters, in the first part the CR alone. */
  lemma SplitNewlineDiffers(whole: Env, first: Env, second: Env, a: Nested, b: Nested, e: Nested, call2: Call)
    requires ValidEnv(whole) && ValidEnv(first) && ValidEnv(second)
    requires whole.code == NewlineGroup() && whole.subject == [13, 10]
    requires first == whole.(subject := [13]) && second == whole.(subject := [10])
    requires TakesOver(first, b, CallAt(whole, 0, 0), call2)
    ensures !EndsAt(whole, a, CallAt(whole, 0, 0), 1) && EndsAt(second, e, call2, 0)
  {
    hide ValidEnv, ReachedIn;
    var call := CallAt(whole, 0, 0);
    var s, m, c := Config(3, 0, 0), Config(4, 0, 2), Config(4, 0, 1);
    assert Start([], 0) == [];
    assert call.init == [s];
    NewlineSteps(whole, a, call);
    NewlineSteps(first, b, call);
    hide Step;
    ReachedFirst(whole, a, call, s);
    assert Steps(whole, a, call, s, m);
    ReachedNext(whole, a, call, s, m);
    assert Covers(whole, a, call, {s, m}, {});
    CoverAll(whole, a, call, {s, m});
    assert Steps(first, b, call, s, c);
    ReachedFirst(first, b, call, s);
    assert Arrives(first, b, call, 1, c);
    assert Shifted(Config(4, 0, 0), 1) == c;
    ReachedFirst(second, e, call2, Config(4, 0, 0));
  }

  lemma NewlineSteps(env: Env, nested: Nested, call: Call)
    requires ValidEnv(env) && env.code == NewlineGroup() && call.open == 0
    ensures env.subject == [13, 10] ==> Step(env, nested, call, Config(3, 0, 0)) == Go([], [Config(4, 0, 2)])
    ensures env.subject == [13] ==> Step(env, nested, call, Config(3, 0, 0)) == Go([], [Config(4, 0, 1)])
    ensures |env.subject| >= 2 ==> Step(env, nested, call, Config(4, 0, 2)) == Go([], [])
  {
    hide WellFormed;
  }

  // ---------------------------------- an assertion that would have to see across the seam

  /** A lookahead for two characters, and the first of them: (?=ab)a. */
  const LOOKAHEAD: seq<byte> := [131, 0, 15, 125, 0, 7, 29, 97, 29, 98, 120, 0, 7, 29, 97, 120, 0, 15, 0]

  function Lookahead(): Code {
    Code(map[0 := Jump([3]), 3 := Assertion(true, 13), 6 := One(Is(97), 8), 8 := One(Is(98), 10),
             10 := Jump([13]), 13 := One(Is(97), 15), 15 := Jump([18])],
         map[0 := Bracket(15, [Entry(3, 0)], false), 3 := Bracket(10, [Entry(6, 0)], false)])
  }

  lemma OneStart(env: Env, g: int, e: Entry, p: int)
    requires g in env.code.brackets && env.code.brackets[g].entries == [e] && e.back == 0 && p >= 0
    ensures CallAt(env, g, p).init == [Config(e.off, 0, p)]
  {
    assert Start([], p) == [];
    assert [e][..0] == [];
  }

  /** The value of a call, from the configurations that it reaches. */
  lemma ValueOf(env: Env, k: nat, call: Call, done: set<Config>, ends: seq<int>)
    requires ValidEnv(env) && call.open in env.code.brackets && Covers(env, Inlined(env, k), call, done, {})
    requires EndsListed(env.code.brackets[call.open].close, done, ends) && forall q <- ends :: 0 <= q <= |env.subject|
    ensures Inlined(env, k + 1)(call) == Some(ends)
  {
    hide ValidEnv, Covers, EndsListed, Inlined;
    ListedEndsAreTheMeaning(env, k, call, done, ends);
  }

  /** A call that takes two steps, from one start to its ket at q. */
  lemma TwoStepsTo(env: Env, call: Call, s: Config, t: Config, q: int)
    requires ValidEnv(env) && call.open in env.code.brackets && call.init == [s] && 0 <= q <= |env.subject|
    requires var close := env.code.brackets[call.open].close; s.off != close && t.off != close
    requires var u := Config(env.code.brackets[call.open].close, 0, q);
             && Step(env, Inlined(env, 0), call, s) == Go([], [t])
             && Step(env, Inlined(env, 0), call, t) == Go([], [u])
             && Step(env, Inlined(env, 0), call, u) == Go([], [])
    ensures Inlined(env, 1)(call) == Some([q])
  {
    hide ValidEnv, Step, Inlined, Reached;
    var nested, u := Inlined(env, 0), Config(env.code.brackets[call.open].close, 0, q);
    ReachedFirst(env, nested, call, s);
    assert Steps(env, nested, call, s, t);
    ReachedNext(env, nested, call, s, t);
    assert Steps(env, nested, call, t, u);
    ReachedNext(env, nested, call, t, u);
    assert Covers(env, nested, call, {s, t, u}, {});
    ValueOf(env, 0, call, {s, t, u}, [q]);
  }

  /** A call that takes one step from its one start, and no other. */
  lemma OneStepOnly(env: Env, call: Call, s: Config, t: Config)
    requires ValidEnv(env) && call.open in env.code.brackets && call.init == [s]
    requires var close := env.code.brackets[call.open].close; s.off != close && t.off != close
    requires Step(env, Inlined(env, 0), call, s) == Go([], [t]) && Step(env, Inlined(env, 0), call, t) == Go([], [])
    ensures Inlined(env, 1)(call) == Some([])
  {
    hide ValidEnv, Step, Inlined, Reached;
    var nested := Inlined(env, 0);
    ReachedFirst(env, nested, call, s);
    assert Steps(env, nested, call, s, t);
    ReachedNext(env, nested, call, s, t);
    assert Covers(env, nested, call, {s, t}, {});
    ValueOf(env, 0, call, {s, t}, []);
  }

  /** Two steps reach their end. */
  lemma ReachedInTwo(env: Env, nested: Nested, call: Call, s: Config, t: Config, u: Config)
    requires ValidEnv(env) && s in call.init
    requires t in Successors(Step(env, nested, call, s)) && u in Successors(Step(env, nested, call, t))
    ensures Reached(env, nested, call, u)
  {
    hide ValidEnv, Step, Reached, Successors;
    ReachedFirst(env, nested, call, s);
    assert Steps(env, nested, call, s, t);
    ReachedNext(env, nested, call, s, t);
    assert Steps(env, nested, call, t, u);
    ReachedNext(env, nested, call, t, u);
  }

  /** When a call steps nowhere from any of its starts, all before the seam, a second one finds nothing. */
  lemma NothingTakenOver(first: Env, second: Env, b: Nested, e: Nested, call: Call, call2: Call)
    requires ValidEnv(first) && ValidEnv(second) && TakesOver(first, b, call, call2)
    requires forall s <- call.init :: s.pos < |first.subject| && Step(first, b, call, s) == Go([], [])
    ensures forall q :: !EndsAt(second, e, call2, q)
  {
    hide ValidEnv, Step, Reached, GoesOn;
    var starts := set s | s in call.init;
    forall s <- starts ensures Reached(first, b, call, s) { ReachedFirst(first, b, call, s); }
    assert Covers(first, b, call, starts, {});
    CoverAll(first, b, call, starts);
    forall c ensures c !in call2.init {
      assert !Arrives(first, b, call, |first.subject|, Shifted(c, |first.subject|));
    }
    NoneInEmpty(call2.init);
    NothingFromNothing(second, e, call2);
  }

  /** A call without starts reaches nothing. */
  lemma NothingFromNothing(env: Env, nested: Nested, call: Call)
    requires ValidEnv(env) && call.init == []
    ensures forall q :: !EndsAt(env, nested, call, q)
  {
    hide ValidEnv, Reached;
    assert Covers(env, nested, call, {}, {});
    CoverAll(env, nested, call, {});
  }

  lemma LookaheadSteps(env: Env, nested: Nested, call: Call)
    requires ValidEnv(env) && env.code == Lookahead() && call.open == 3
    requires env.subject == [97] || env.subject == [97, 98]
    ensures Step(env, nested, call, Config(6, 0, 0)) == Go([], [Config(8, 0, 1)])
    ensures Step(env, nested, call, Config(8, 0, 1)) == Go([], if |env.subject| == 2 then [Config(10, 0, 2)] else [])
    ensures |env.subject| == 2 ==> Step(env, nested, call, Config(10, 0, 2)) == Go([], [])
  {
    hide WellFormed;
  }

  /** The lookahead finds both characters on the whole subject, and nothing on its first part. */
  lemma LookaheadValue(env: Env)
    requires ValidEnv(env) && env.code == Lookahead() && (env.subject == [97] || env.subject == [97, 98])
    ensures Inlined(env, 1)(CallAt(env, 3, 0)) == Some(if |env.subject| == 2 then [2] else [])
  {
    var call := CallAt(env, 3, 0);
    OneStart(env, 3, Entry(6, 0), 0);
    LookaheadSteps(env, Inlined(env, 0), call);
    hide ValidEnv, Step, Inlined;
    if |env.subject| == 2 {
      TwoStepsTo(env, call, Config(6, 0, 0), Config(8, 0, 1), 2);
    } else {
      OneStepOnly(env, call, Config(6, 0, 0), Config(8, 0, 1));
    }
  }

  lemma AroundLookahead(env: Env, nested: Nested, call: Call)
    requires ValidEnv(env) && env.code == Lookahead() && call.open == 0
    requires env.subject == [97] || env.subject == [97, 98]
    requires nested(CallAt(env, 3, 0)) == Some(if |env.subject| == 2 then [2] else [])
    ensures Step(env, nested, call, Config(3, 0, 0)) == Go(if |env.subject| == 2 then [Config(13, 0, 0)] else [], [])
    ensures Step(env, nested, call, Config(13, 0, 0)) == Go([], [Config(15, 0, 1)])
  {
    hide WellFormed;
  }

  /** On the whole subject the pattern matches one character; split behind it, the first call has no state left
      at the seam, and the second finds nothing. */
  lemma SplitLookaheadDiffers(whole: Env, first: Env, second: Env, e: Nested, call2: Call)
    requires ValidEnv(whole) && ValidEnv(first) && ValidEnv(second)
    requires whole.code == Lookahead() && whole.subject == [97, 98]
    requires first == whole.(subject := [97]) && second == whole.(subject := [98])
    requires TakesOver(first, Inlined(first, 1), CallAt(whole, 0, 0), call2)
    ensures EndsAt(whole, Inlined(whole, 1), CallAt(whole, 0, 0), 1) && forall q :: !EndsAt(second, e, call2, q)
  {
    OneStart(whole, 0, Entry(3, 0), 0);
    hide ValidEnv, Step, Inlined, Reached, TakesOver;
    var call := CallAt(whole, 0, 0);
    LookaheadValue(whole);
    LookaheadValue(first);
    AroundLookahead(whole, Inlined(whole, 1), call);
    AroundLookahead(first, Inlined(first, 1), call);
    ReachedInTwo(whole, Inlined(whole, 1), call, Config(3, 0, 0), Config(13, 0, 0), Config(15, 0, 1));
    NothingTakenOver(first, second, Inlined(first, 1), e, call, call2);
  }

  lemma LookaheadNeeds(n: nat, kind: Kind)
    ensures NeedAtMost(Lookahead().items, n, kind, 1)
  {
  }

  lemma LookaheadShape()
    ensures forall o <- Lookahead().items ::
              !Lookahead().items[o].Recursion? && (Lookahead().items[o].Assertion? ==> o == 3)
    ensures 0 in Lookahead().brackets && Lookahead().brackets[0].close == 15 && |Lookahead().brackets[0].entries| == 1
    ensures 3 in Lookahead().brackets && Lookahead().brackets[3].close == 10 && |Lookahead().brackets[3].entries| == 1
  {
  }

  /** Its own assertion is one that the matcher can be trusted with, and the program fits small lists. */
  lemma LookaheadFits(env: Env)
    requires env.code == Lookahead()
    ensures Contained(env) && Fits(env, 0, 46)
  {
    hide Fits, Counts, Needs, NeedAtMost, Lookahead;
    LookaheadShape();
    LookaheadNeeds(|env.subject|, ForHere);
    LookaheadNeeds(|env.subject|, ForLater);
    LookaheadNeeds(|env.subject|, ForWait);
    ShortBracketFits(env, 3, 1, Capacity(LOCAL_WORKSPACE));
    ShortBracketFits(env, 0, 1, 46);
  }

  lemma LookaheadDecodes()
    ensures Decode(LOOKAHEAD, {0, 3, 6, 8, 10, 13, 15}) == Lookahead()
  {
    hide Fetch, Linked, Close, Branches, Decode, FetchBracket;
    LookaheadLinks();
    LookaheadItems();
    LookaheadBrackets();
    DecodesTo(LOOKAHEAD, {0, 3, 6, 8, 10, 13, 15}, Lookahead());
  }

  lemma LookaheadBrackets()
    ensures Linked(LOOKAHEAD, 0) && FetchBracket(LOOKAHEAD, 0) == Bracket(15, [Entry(3, 0)], false)
    ensures Linked(LOOKAHEAD, 3) && FetchBracket(LOOKAHEAD, 3) == Bracket(10, [Entry(6, 0)], false)
  {
    hide Fetch, Linked, Close, Branches;
    LookaheadLinks();
  }

  lemma LookaheadLinks()
    ensures var p := LOOKAHEAD; Linked(p, 0) && Close(p, 0) == 15 && Branches(p, 0, 3) == [3]
    ensures var p := LOOKAHEAD; Linked(p, 3) && Close(p, 3) == 10 && Branches(p, 3, 3) == [6]
  {
    hide Fetch;
    assert Get2(LOOKAHEAD, 1) == 15 && Get2(LOOKAHEAD, 4) == 7;
  }

  lemma LookaheadItems()
    ensures forall o <- {0, 3, 6, 8, 10, 13, 15} :: Fetch(LOOKAHEAD, o) == Item(Lookahead().items[o])
  {
    hide Linked, Close, Branches;
    LookaheadLinks();
  }

  // ---------------------------------------------------------------- a recursion that would have to see across the seam

  /** A call of the group that the other alternative holds: (?1)|z(ab). */
  const RECURSION: seq<byte> :=
    [131, 0, 6, 117, 0, 11, 119, 0, 17, 29, 122, 133, 0, 9, 0, 1, 29, 97, 29, 98, 120, 0, 9, 120, 0, 23, 0]

  function Recursive(): Code {
    Code(map[0 := Jump([3, 9]), 3 := Recursion(11, 1, 6), 6 := Jump([23]), 9 := One(Is(122), 11),
             11 := Jump([16]), 16 := One(Is(97), 18), 18 := One(Is(98), 20), 20 := Jump([23]),
             23 := Jump([26])],
         map[0 := Bracket(23, [Entry(3, 0), Entry(9, 0)], false), 11 := Bracket(20, [Entry(16, 0)], false)])
  }

  lemma GroupSteps(env: Env, nested: Nested, call: Call)
    requires ValidEnv(env) && env.code == Recursive() && call.open == 11
    requires env.subject == [97] || env.subject == [97, 98]
    ensures Step(env, nested, call, Config(16, 0, 0)) == Go([], [Config(18, 0, 1)])
    ensures Step(env, nested, call, Config(18, 0, 1)) == Go([], if |env.subject| == 2 then [Config(20, 0, 2)] else [])
    ensures |env.subject| == 2 ==> Step(env, nested, call, Config(20, 0, 2)) == Go([], [])
  {
    hide WellFormed;
  }

  /** The group matches both characters of the whole subject, and nothing of its first part. */
  lemma GroupValue(env: Env)
    requires ValidEnv(env) && env.code == Recursive() && (env.subject == [97] || env.subject == [97, 98])
    ensures Inlined(env, 1)(CallAt(env, 11, 0)) == Some(if |env.subject| == 2 then [2] else [])
  {
    var call := CallAt(env, 11, 0);
    OneStart(env, 11, Entry(16, 0), 0);
    GroupSteps(env, Inlined(env, 0), call);
    hide ValidEnv, Step, Inlined;
    if |env.subject| == 2 {
      TwoStepsTo(env, call, Config(16, 0, 0), Config(18, 0, 1), 2);
    } else {
      OneStepOnly(env, call, Config(16, 0, 0), Config(18, 0, 1));
    }
  }

  lemma AroundGroup(env: Env, nested: Nested, call: Call)
    requires ValidEnv(env) && env.code == Recursive() && call.open == 0
    requires env.subject == [97] || env.subject == [97, 98]
    requires nested(CallAt(env, 11, 0)) == Some(if |env.subject| == 2 then [2] else [])
    ensures Step(env, nested, call, Config(3, 0, 0)) == Go([], if |env.subject| == 2 then [Config(6, 0, 2)] else [])
  {
    hide WellFormed, Holds, Passes, StepRepeat, NewlineLength, Recursive, Equal, Above, At, CallAt;
    var c, ends := Config(3, 0, 0), if |env.subject| == 2 then [2] else [];
    RecursionItself();
    OneReturn();
    assert NestedCall(env, c) == Some(CallAt(env, 11, 0));
    assert Step(env, nested, call, c) == StepWith(env, call.som, c, ends);
  }

  lemma RecursionItself()
    ensures var code := Recursive();
            && 3 in code.items && code.items[3] == Recursion(11, 1, 6)
            && 0 in code.brackets && code.brackets[0].close == 23 && 11 in code.brackets
  {
  }

  /** What one end at 2, or none, leads to behind the recursion. */
  lemma OneReturn()
    ensures At(6, Equal([2], 0)) == [] && At(6, Above([2], 0)) == [Config(6, 0, 2)]
    ensures At(6, Equal([], 0)) == [] && At(6, Above([], 0)) == []
  {
    assert [2][..0] == [] && Equal([], 0) == [] && Above([], 0) == [];
  }

  lemma BesideGroup(env: Env, nested: Nested, call: Call)
    requires ValidEnv(env) && env.code == Recursive() && call.open == 0
    requires env.subject == [97] || env.subject == [97, 98]
    ensures Step(env, nested, call, Config(9, 0, 0)) == Go([], [])
    ensures |env.subject| == 2 ==> Step(env, nested, call, Config(6, 0, 2)) == Go([Config(23, 0, 2)], [])
  {
    hide WellFormed;
  }

  lemma TwoStarts(env: Env, p: int)
    requires env.code == Recursive() && p >= 0
    ensures 0 in env.code.brackets && env.code.brackets[0].close == 23
    ensures CallAt(env, 0, p).init == [Config(3, 0, p), Config(9, 0, p)]
  {
    var entries := [Entry(3, 0), Entry(9, 0)];
    assert entries[..1] == [Entry(3, 0)];
    assert Start([], p) == [] && [Entry(3, 0)][..0] == [];
    assert Start([Entry(3, 0)], p) == [Config(3, 0, p)];
  }

  /** On the whole subject the pattern matches both characters; split between them, the called group finds nothing
      in the first part, and the second call finds nothing either. */
  lemma SplitRecursionDiffers(whole: Env, first: Env, second: Env, e: Nested, call2: Call)
    requires ValidEnv(whole) && ValidEnv(first) && ValidEnv(second)
    requires whole.code == Recursive() && whole.subject == [97, 98]
    requires first == whole.(subject := [97]) && second == whole.(subject := [98])
    requires TakesOver(first, Inlined(first, 1), CallAt(whole, 0, 0), call2)
    ensures EndsAt(whole, Inlined(whole, 1), CallAt(whole, 0, 0), 2) && forall q :: !EndsAt(second, e, call2, q)
  {
    hide ValidEnv, Step, Inlined, Reached, TakesOver, Recursive;
    TwoStarts(whole, 0);
    var call := CallAt(whole, 0, 0);
    GroupValue(whole);
    GroupValue(first);
    AroundGroup(whole, Inlined(whole, 1), call);
    AroundGroup(first, Inlined(first, 1), call);
    BesideGroup(whole, Inlined(whole, 1), call);
    BesideGroup(first, Inlined(first, 1), call);
    ReachedInTwo(whole, Inlined(whole, 1), call, Config(3, 0, 0), Config(6, 0, 2), Config(23, 0, 2));
    NothingTakenOver(first, second, Inlined(first, 1), e, call, call2);
  }

  lemma RecursionDecodes()
    ensures Decode(RECURSION, {0, 3, 6, 9, 11, 16, 18, 20, 23}) == Recursive()
  {
    hide Fetch, Linked, Close, Branches, Decode, FetchBracket, Recursive, IsBracketOp;
    RecursionShape();
    RecursionJumps();
    RecursionItems();
    RecursionBrackets();
    DecodesTo(RECURSION, {0, 3, 6, 9, 11, 16, 18, 20, 23}, Recursive());
  }

  lemma RecursionShape()
    ensures Recursive().items.Keys == {0, 3, 6, 9, 11, 16, 18, 20, 23}
    ensures Recursive().brackets
         == map[0 := Bracket(23, [Entry(3, 0), Entry(9, 0)], false), 11 := Bracket(20, [Entry(16, 0)], false)]
    ensures forall o <- {0, 3, 6, 9, 11, 16, 18, 20, 23} :: IsBracketOp(RECURSION[o]) <==> o == 0 || o == 11
  {
  }

  lemma RecursionBrackets()
    ensures Linked(RECURSION, 0) && FetchBracket(RECURSION, 0) == Bracket(23, [Entry(3, 0), Entry(9, 0)], false)
    ensures Linked(RECURSION, 11) && FetchBracket(RECURSION, 11) == Bracket(20, [Entry(16, 0)], false)
  {
    hide Fetch, Linked, Close, Branches;
    RecursionLinks();
  }

  lemma RecursionLinks()
    ensures var p := RECURSION; Linked(p, 0) && Close(p, 0) == 23 && Branches(p, 0, 3) == [3, 9]
    ensures var p := RECURSION; Linked(p, 6) && Close(p, 6) == 23
    ensures var p := RECURSION; Linked(p, 11) && Close(p, 11) == 20 && Branches(p, 11, 5) == [16]
  {
    hide Fetch;
    assert Get2(RECURSION, 1) == 6 && Get2(RECURSION, 7) == 17 && Get2(RECURSION, 12) == 9;
  }

  lemma RecursionJumps()
    ensures forall o <- {0, 6, 11, 20, 23} :: Fetch(RECURSION, o) == Item(Recursive().items[o])
  {
    hide Linked, Close, Branches;
    RecursionLinks();
  }

  lemma RecursionItems()
    ensures forall o <- {3, 9, 16, 18} :: Fetch(RECURSION, o) == Item(Recursive().items[o])
  {
    hide Linked, Close, Branches;
  }
}
