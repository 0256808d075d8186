/** When the matcher goes wrong: an assertion whose nested call has no room, and a possessive range that takes another
    state back, both on a subject where the pattern matches; and an open-ended assertion with which it never does. */
module DfaUnsafe {
  import opened Basics
  import opened DfaProgram
  import opened DfaSemantics
  import opened DfaStates
  import opened DfaCoverage
  import opened DfaCrowd
  import opened DfaRoom
  import opened DfaActions
  import opened DfaProgress
  import opened DfaRun
  import opened DfaMatcher
  import opened DfaDepartures

  // ---------------------------------- an assertion with more starts than the local vector holds

  /** How many alternatives: one more than the local vector holds states. */
  const MANY: nat := 167

  const WIDE_KET := 3 * MANY + 3

  /** Empty alternatives, each an ALT with its link. */
  function Alts(n: nat): (bytes: seq<byte>)
    ensures |bytes| == 3 * n
    ensures forall i :: 0 <= i < n ==> bytes[3 * i] == OP_ALT && bytes[3 * i + 1] == 0 && bytes[3 * i + 2] == 3
  {
    if n == 0 then [] else Alts(n - 1) + [119, 0, 3]
  }

  /** A lookahead with MANY empty alternatives, as bytes: (?=||...|). */
  function WideBytes(): (prog: seq<byte>)
    ensures |prog| == WIDE_KET + 7
  {
    [131, 1, 251, 125, 0, 3] + Alts(MANY - 1) + [120, 1, 245, 120, 1, 251, 0]
  }

  function WideItem(o: int): Item {
    if o == 0 then Jump([3])
    else if o == 3 then Assertion(true, WIDE_KET + 3)
    else if o < WIDE_KET then Jump([WIDE_KET])
    else Jump([o + 3])
  }

  function WideStarts(): (entries: seq<Entry>)
    ensures |entries| == MANY
  {
    seq(MANY, i requires 0 <= i < MANY => Entry(6 + 3 * i, 0))
  }

  function Wide(): Code {
    Code(map o: int | 0 <= o <= WIDE_KET + 3 && o % 3 == 0 :: WideItem(o),
         map[0 := Bracket(WIDE_KET + 3, [Entry(3, 0)], false), 3 := Bracket(WIDE_KET, WideStarts(), false)])
  }

  lemma WideItems()
    ensures forall o :: o in Wide().items <==> 0 <= o <= WIDE_KET + 3 && o % 3 == 0
    ensures forall o :: o in Wide().items ==> Wide().items[o] == WideItem(o)
    ensures Wide().brackets
         == map[0 := Bracket(WIDE_KET + 3, [Entry(3, 0)], false), 3 := Bracket(WIDE_KET, WideStarts(), false)]
  {
  }

  /** What the bytes hold. */
  lemma WideHolds(i: nat)
    requires i <= MANY - 1
    ensures var prog, o := WideBytes(), 3 + 3 * i;
            prog[o] == (if i == 0 then OP_ASSERT else OP_ALT) && Get2(prog, o + 1) == 3
    ensures WideBytes()[0] == OP_BRA && Get2(WideBytes(), 1) == WIDE_KET + 3
    ensures WideBytes()[WIDE_KET] == OP_KET && WideBytes()[WIDE_KET + 3] == OP_KET
  {
    var head, middle, last: seq<byte> := [131, 1, 251, 125, 0, 3], Alts(MANY - 1), [120, 1, 245, 120, 1, 251, 0];
    assert WideBytes() == head + middle + last;
    assert WideBytes()[0] == head[0] && WideBytes()[1] == head[1] && WideBytes()[2] == head[2];
    assert WideBytes()[WIDE_KET] == last[0] && WideBytes()[WIDE_KET + 3] == last[3];
    if i > 0 {
      var j := i - 1;
      assert WideBytes()[6 + 3 * j] == middle[3 * j] && WideBytes()[7 + 3 * j] == middle[3 * j + 1];
      assert WideBytes()[8 + 3 * j] == middle[3 * j + 2];
    }
  }

  /** A link, and what follows it. */
  lemma LinksOn(prog: seq<byte>, o: int, n: int)
    requires 0 <= o && o + 3 <= |prog| && o < n < |prog| && o + Get2(prog, o + 1) == n
    ensures prog[n] != OP_ALT ==> Linked(prog, o) && Close(prog, o) == n && Branches(prog, o, 3) == [o + 3]
    ensures prog[n] == OP_ALT && Linked(prog, n) ==>
              && Linked(prog, o) && Close(prog, o) == Close(prog, n)
              && Branches(prog, o, 3) == [o + 3] + Branches(prog, n, 3)
  {
    hide Get2;
  }

  /** The links from the i-th alternative on. */
  lemma {:induction false} WideLinks(i: nat)
    requires i <= MANY - 1
    ensures var prog, o := WideBytes(), 3 + 3 * i;
            && Linked(prog, o) && Close(prog, o) == WIDE_KET && |Branches(prog, o, 3)| == MANY - i
            && forall k :: 0 <= k < MANY - i ==> Branches(prog, o, 3)[k] == 6 + 3 * (i + k)
    decreases MANY - i
  {
    hide WideBytes, Linked, Close, Branches, Get2;
    WideHolds(i);
    var prog, o := WideBytes(), 3 + 3 * i;
    LinksOn(prog, o, o + 3);
    if i < MANY - 1 {
      WideHolds(i + 1);
      WideLinks(i + 1);
      forall k | 0 <= k < MANY - i ensures Branches(prog, o, 3)[k] == 6 + 3 * (i + k) {
        if k > 0 { assert Branches(prog, o, 3)[k] == Branches(prog, o + 3, 3)[k - 1]; }
      }
    }
  }

  lemma WideDecodes()
    ensures Decode(WideBytes(), Wide().items.Keys) == Wide()
  {
    WideItems();
    hide Wide, WideItem, Decode, Fetch, WideBytes, Linked, FetchBracket;
    forall o | o in Wide().items.Keys
      ensures 0 <= o < |WideBytes()| && Fetch(WideBytes(), o) == Item(Wide().items[o])
    {
      WideFetched(o);
    }
    forall g | g in Wide().items.Keys
      ensures g in Wide().brackets <==> IsBracketOp(WideBytes()[g]) && Linked(WideBytes(), g)
      ensures g in Wide().brackets ==> Linked(WideBytes(), g) && Wide().brackets[g] == FetchBracket(WideBytes(), g)
    {
      WideBracketFetched(g);
    }
    DecodesTo(WideBytes(), Wide().items.Keys, Wide());
  }

  lemma WideWhole()
    ensures Linked(WideBytes(), 0) && Close(WideBytes(), 0) == WIDE_KET + 3 && Branches(WideBytes(), 0, 3) == [3]
  {
    hide WideBytes, Linked, Close, Branches, Get2;
    WideHolds(0);
    LinksOn(WideBytes(), 0, WIDE_KET + 3);
  }

  lemma WideFetched(o: int)
    requires 0 <= o <= WIDE_KET + 3 && o % 3 == 0
    ensures Fetch(WideBytes(), o) == Item(WideItem(o))
  {
    hide WideBytes, Linked, Close, Branches;
    WideWhole();
    WideHolds(0);
    if 3 <= o < WIDE_KET {
      var i := (o - 3) / 3;
      assert o == 3 + 3 * i;
      WideHolds(i);
      WideLinks(i);
    }
  }

  lemma WideBracketFetched(g: int)
    requires 0 <= g <= WIDE_KET + 3 && g % 3 == 0
    ensures g in Wide().brackets <==> IsBracketOp(WideBytes()[g]) && Linked(WideBytes(), g)
    ensures g in Wide().brackets ==> Linked(WideBytes(), g) && Wide().brackets[g] == FetchBracket(WideBytes(), g)
  {
    WideItems();
    hide WideBytes, Linked, Close, Branches, Wide;
    WideWhole();
    WideHolds(0);
    WideHolds(1);
    WideLinks(0);
    if 3 <= g < WIDE_KET {
      var i := (g - 3) / 3;
      assert g == 3 + 3 * i;
      WideHolds(i);
    }
    if g == 3 {
      assert FetchBracket(WideBytes(), 3).entries == WideStarts();
    }
    if g == 0 {
      assert FetchBracket(WideBytes(), 0).entries == [Entry(3, 0)];
    }
  }

  lemma WideIsWellFormed()
    ensures WellFormed(Wide()) && forall o <- Wide().items :: ItemFits(Wide().items[o])
  {
    WideItems();
    hide Wide, WideStarts, BracketOk;
    WideBracketIsOk(0);
    WideBracketIsOk(3);
  }

  lemma WideBracketIsOk(g: int)
    requires g == 0 || g == 3
    ensures g in Wide().brackets && BracketOk(Wide(), g)
  {
    WideItems();
    hide Wide;
    forall o | o in Wide().items && g < o < Wide().brackets[g].close
      ensures forall t <- Targets(o, Wide().items[o]) :: t in Wide().items && g < t <= Wide().brackets[g].close
    {
      assert Wide().items[o] == WideItem(o);
    }
  }

  lemma WideIsTooWide()
    ensures MANY == Capacity(LOCAL_WORKSPACE) + 1
  {
  }

  lemma {:induction false} StartsHere(entries: seq<Entry>, p: nat)
    requires forall e <- entries :: e.back == 0
    ensures |Start(entries, p)| == |entries|
    ensures forall i :: 0 <= i < |entries| ==> Start(entries, p)[i] == Config(entries[i].off, 0, p)
  {
    if entries != [] {
      var last := |entries| - 1;
      assert entries[last] in entries;
      StartsHere(entries[..last], p);
    }
  }

  /** A call whose ket is among its starts, and whose every other start steps there, matches at once. */
  lemma MatchesAtOnce(env: Env, call: Call, p: int)
    requires ValidEnv(env) && call.open in env.code.brackets && 0 <= p <= |env.subject|
    requires var ket := Config(env.code.brackets[call.open].close, 0, p);
             && ket in call.init
             && forall c <- call.init ::
                  && Step(env, Inlined(env, 0), call, c) == Go(if c == ket then [] else [ket], [])
                  && (c.off == ket.off ==> c == ket)
    ensures Inlined(env, 1)(call) == Some([p])
  {
    hide ValidEnv, Step, Reached, Inlined;
    var nested, done := Inlined(env, 0), set c | c in call.init;
    forall c <- done ensures Reached(env, nested, call, c) { ReachedFirst(env, nested, call, c); }
    assert Covers(env, nested, call, done, {});
    ValueOf(env, 0, call, done, [p]);
  }

  /** Every alternative, and so the lookahead, matches at once. */
  lemma WideValue(env: Env, p: nat)
    requires ValidEnv(env) && env.code == Wide() && p <= |env.subject|
    ensures |CallAt(env, 3, p).init| == MANY && Inlined(env, 1)(CallAt(env, 3, p)) == Some([p])
  {
    WideItems();
    hide Wide, WideItem, WellFormed, Inlined, Step;
    var call, ket := CallAt(env, 3, p), Config(WIDE_KET, 0, p);
    StartsHere(WideStarts(), p);
    assert forall i :: 0 <= i < MANY ==> call.init[i] == Config(6 + 3 * i, 0, p);
    assert call.init[MANY - 1] == ket;
    forall c <- call.init
      ensures Step(env, Inlined(env, 0), call, c) == Go(if c == ket then [] else [ket], []) && c.count == 0
      ensures c.pos == p
    {
      var i :| 0 <= i < MANY && call.init[i] == c;
      WideStep(env, Inlined(env, 0), call, i, p);
    }
    MatchesAtOnce(env, call, p);
  }

  lemma WideStep(env: Env, nested: Nested, call: Call, i: nat, p: nat)
    requires ValidEnv(env) && env.code == Wide() && p <= |env.subject| && call.open == 3 && i < MANY
    ensures var c := Config(6 + 3 * i, 0, p);
            Step(env, nested, call, c) == Go(if c.off == WIDE_KET then [] else [Config(WIDE_KET, 0, p)], [])
  {
    WideItems();
    hide WellFormed, Wide;
    assert JumpTo([WIDE_KET], p) == [Config(WIDE_KET, 0, p)];
  }

  lemma WideEnvIsValid(env: Env)
    requires env.code == Wide() && FullTables(env.tables)
    ensures ValidEnv(env)
  {
    WideIsWellFormed();
    hide Wide, WellFormed;
  }

  /** The lookahead matches, but its nested call fails for want of room, and that is taken for a failure to match:
      no state is added. */
  method WideLookaheadIsMissed(subject: seq<byte>, options: Options, newline: byte, tables: Tables, lists: StateLists,
                               p: nat)
    returns (rc: int)
    requires FullTables(tables) && p <= |subject| && lists.Valid()
    modifies lists`activeCount, lists`active, lists`newCount, lists`later, lists.workspace
    ensures rc == OK && Images(lists.active, p) == old(Images(lists.active, p))
    ensures Images(lists.later, p + 1) == old(Images(lists.later, p + 1))
    ensures var env := Env(Wide(), subject, options, newline, tables);
            && ValidEnv(env)
            && Step(env, Inlined(env, 1), CallAt(env, 0, p), Config(3, 0, p)) == Go([Config(WIDE_KET + 3, 0, p)], [])
  {
    hide StateLists.Valid, Inlined, Step, Wide;
    var env := Env(Wide(), subject, options, newline, tables);
    WideEnvIsValid(env);
    WidePlace(env, p);
    hide ValidEnv;
    ghost var call := CallAt(env, 0, p);
    ghost var ends, depth, inner, lost;
    WideValue(env, p);
    WideIsTooWide();
    AroundWide(env, p);
    rc, ends, depth, inner, lost := ActAssertion(env, call, 0, p, {}, lists, Config(3, 0, p), 0);
  }

  lemma WidePlace(env: Env, p: nat)
    requires env.code == Wide()
    ensures 0 in env.code.brackets && env.code.brackets[0].close == WIDE_KET + 3
    ensures 3 in env.code.items && env.code.items[3] == Assertion(true, WIDE_KET + 3)
  {
    WideItems();
    hide Wide;
  }

  lemma AroundWide(env: Env, p: nat)
    requires ValidEnv(env) && env.code == Wide() && p <= |env.subject|
    requires Inlined(env, 1)(CallAt(env, 3, p)) == Some([p])
    ensures Step(env, Inlined(env, 1), CallAt(env, 0, p), Config(3, 0, p)) == Go([Config(WIDE_KET + 3, 0, p)], [])
  {
    hide WellFormed, Inlined;
  }

  // ---------------------------------------------------------------- a possessive range with a minimum

  /** A possessive range takes too much at some count exactly if it has a minimum. */
  lemma MinimumsTakeTooMuch(low: int, high: int)
    ensures low > 0 <==> exists count: nat :: TakesTooMuch(count, true, Range(low, high), true)
  {
    if low > 0 { assert TakesTooMuch(0, true, Range(low, high), true); }
  }

  /** The class of the letters a and b. */
  const A_OR_B: seq<byte> :=
    [0, 0, 0, 0, 0, 0, 0, 0, 0, 0, 0, 0, 6, 0, 0, 0, 0, 0, 0, 0, 0, 0, 0, 0, 0, 0, 0, 0, 0, 0, 0, 0]

  /** At least two of the letters, possessively, or one a: [ab]{2,}+|a. */
  const POSSESSIVE: seq<byte> :=
    [131, 0, 41, 110] + A_OR_B + [109, 0, 2, 0, 0, 119, 0, 5, 29, 97, 120, 0, 46, 0]

  function Possessive(): Code {
    Code(map[0 := Jump([3, 44]), 3 := Repeat(InClass(A_OR_B), Range(2, 0), true, 41), 41 := Jump([46]),
             44 := One(Is(97), 46), 46 := Jump([49])],
         map[0 := Bracket(46, [Entry(3, 0), Entry(44, 0)], false)])
  }

  lemma PossessiveLinks()
    ensures var p := POSSESSIVE; Linked(p, 0) && Close(p, 0) == 46 && Branches(p, 0, 3) == [3, 44]
    ensures var p := POSSESSIVE; Linked(p, 41) && Close(p, 41) == 46
  {
    hide Fetch;
    assert Get2(POSSESSIVE, 1) == 41 && Get2(POSSESSIVE, 42) == 5;
  }

  lemma PossessiveItems()
    ensures forall o <- {0, 3, 41, 44, 46} :: Fetch(POSSESSIVE, o) == Item(Possessive().items[o])
  {
    hide Linked, Close, Branches;
    PossessiveLinks();
    assert POSSESSIVE[4..36] == A_OR_B;
  }

  lemma PossessiveDecodes()
    ensures Decode(POSSESSIVE, {0, 3, 41, 44, 46}) == Possessive()
  {
    hide Fetch, Linked, Close, Branches, Decode;
    PossessiveLinks();
    PossessiveItems();
    assert FetchBracket(POSSESSIVE, 0) == Bracket(46, [Entry(3, 0), Entry(44, 0)], false);
    hide FetchBracket;
    DecodesTo(POSSESSIVE, {0, 3, 41, 44, 46}, Possessive());
  }

  lemma PossessiveShape()
    ensures var code := Possessive();
            && 0 in code.brackets && code.brackets[0].close == 46 && !code.brackets[0].behind && Plain(code)
            && BracketOk(code, 0) && forall g <- code.brackets :: g == 0
    ensures forall o <- Possessive().items :: ItemFits(Possessive().items[o])
  {
  }

  lemma PossessiveEnvIsValid(env: Env)
    requires env.code == Possessive() && FullTables(env.tables)
    ensures ValidEnv(env)
  {
    PossessiveShape();
    hide Possessive, BracketOk;
  }

  lemma OneLetterPasses(env: Env)
    requires ValidEnv(env) && env.subject == [97]
    ensures Passes(env, InClass(A_OR_B), 0)
  {
    hide WellFormed;
    assert Bit(1) == 2;
  }

  lemma PossessiveStarts(env: Env)
    requires env.code == Possessive()
    ensures 0 in env.code.brackets && CallAt(env, 0, 0) == Call(0, 0, [Config(3, 0, 0), Config(44, 0, 0)])
  {
    StartsHere(env.code.brackets[0].entries, 0);
    var init := Start(env.code.brackets[0].entries, 0);
    assert init[0] == Config(3, 0, 0) && init[1] == Config(44, 0, 0);
  }

  /** The steps that the program allows on one letter. */
  lemma PossessiveSteps(env: Env, nested: Nested)
    requires ValidEnv(env) && env.code == Possessive() && env.subject == [97] && 0 in env.code.brackets
    ensures var call := CallAt(env, 0, 0);
            && Step(env, nested, call, Config(3, 0, 0)) == Go([], [Config(3, 1, 1)])
            && Step(env, nested, call, Config(44, 0, 0)) == Go([], [Config(46, 0, 1)])
            && Step(env, nested, call, Config(3, 1, 1)) == Go([], [])
            && Step(env, nested, call, Config(46, 0, 1)) == Go([], [])
  {
    OneLetterPasses(env);
    hide WellFormed, InBitmap;
  }

  /** The pattern matches the one letter. */
  lemma PossessiveMatches(env: Env)
    requires ValidEnv(env) && env.code == Possessive() && env.subject == [97] && 0 in env.code.brackets
    ensures Inlined(env, 1)(CallAt(env, 0, 0)) == Some([1])
  {
    hide ValidEnv, Step, Inlined, Covers, Possessive, CallAt, EndsListed;
    var call, nested := CallAt(env, 0, 0), Inlined(env, 0);
    var a, b, c, d := Config(3, 0, 0), Config(44, 0, 0), Config(3, 1, 1), Config(46, 0, 1);
    PossessiveShape();
    PossessiveSteps(env, nested);
    PossessiveStarts(env);
    TwoByTwo(env, nested, call, a, b, c, d);
    OneEndListed();
    ValueOf(env, 0, call, {a, b, c, d}, [1]);
  }

  lemma OneEndListed()
    ensures EndsListed(46, {Config(3, 0, 0), Config(44, 0, 0), Config(3, 1, 1), Config(46, 0, 1)}, [1])
  {
  }

  /** A call that takes one step from each of its two starts. */
  lemma TwoByTwo(env: Env, nested: Nested, call: Call, a: Config, b: Config, c: Config, d: Config)
    requires ValidEnv(env) && call.init == [a, b]
    requires Step(env, nested, call, a) == Go([], [c]) && Step(env, nested, call, b) == Go([], [d])
    requires Step(env, nested, call, c) == Go([], []) && Step(env, nested, call, d) == Go([], [])
    ensures Covers(env, nested, call, {a, b, c, d}, {})
  {
    hide ValidEnv, Step, Reached;
    ReachedFirst(env, nested, call, a);
    ReachedFirst(env, nested, call, b);
    assert Steps(env, nested, call, a, c) && Steps(env, nested, call, b, d);
    ReachedNext(env, nested, call, a, c);
    ReachedNext(env, nested, call, b, d);
  }

  function FirstLetter(): Pass {
    Pass([Config(3, 0, 0), Config(44, 0, 0)], [], {}, [], false)
  }

  function AtEnd(): Pass {
    Pass([Config(3, 1, 1)], [], {Config(3, 0, 0)}, [], true)
  }

  /** The range, whose count is 0, takes back the state of the second alternative before that is processed; at the
      end of the subject only the range is left, which asks for one letter more. */
  lemma PossessivePasses(env: Env)
    requires ValidEnv(env) && env.code == Possessive() && env.subject == [97] && 0 in env.code.brackets
    ensures var call := CallAt(env, 0, 0);
            && After(env, call, 0, FirstLetter(), 1) == AtEnd().(here := [Config(3, 0, 0)], next := [Config(3, 1, 1)])
            && After(env, call, 1, AtEnd(), 1) == AtEnd().(done := {Config(3, 0, 0), Config(3, 1, 1)})
  {
    OneLetterPasses(env);
    hide WellFormed, InBitmap;
    var call := CallAt(env, 0, 0);
    assert After(env, call, 0, FirstLetter(), 0) == FirstLetter() && After(env, call, 1, AtEnd(), 0) == AtEnd();
    assert FirstLetter().here[..1] == [Config(3, 0, 0)];
  }

  /** No position behind the end of the subject is entered. */
  lemma {:induction false} PossessiveEnters(env: Env, p: int, s: Pass)
    requires ValidEnv(env) && env.code == Possessive() && env.subject == [97] && 0 in env.code.brackets
    requires Enters(env, CallAt(env, 0, 0), 0, p, s)
    ensures (p == 0 && s == FirstLetter()) || (p == 1 && s == AtEnd())
    decreases p
  {
    hide ValidEnv, After, Possessive, CallAt, Goes;
    PossessiveStarts(env);
    PossessivePasses(env);
    var call := CallAt(env, 0, 0);
    if p > 0 {
      var q := p - 1;
      var a, b :| Enters(env, call, 0, q, a) && Goes(env, call, q, a, b) && b.next != []
                  && s == Pass(b.next, [], b.done, b.ends, b.taken);
      PossessiveEnters(env, q, a);
      GoesTo(env, call, q, a, b, 1);
    }
  }

  /** So the scan ends without an end, and three places suffice for it. */
  lemma PossessiveRun(env: Env, stop: int, ends: seq<int>, taken: bool, capacity: nat)
    requires ValidEnv(env) && env.code == Possessive() && env.subject == [97] && 0 in env.code.brackets
    ensures Runs(env, CallAt(env, 0, 0), 0, stop, ends, taken) ==> ends == [] && taken
    ensures capacity >= 3 ==> !RunsOut(env, CallAt(env, 0, 0), 0, capacity)
  {
    PossessivePasses(env);
    hide ValidEnv, Possessive, CallAt, After, Overflows, Enters;
    var call := CallAt(env, 0, 0);
    if Runs(env, call, 0, stop, ends, taken) {
      var a, b :| Enters(env, call, 0, stop, a) && Goes(env, call, stop, a, b) && b.next == [] && b.ends == ends
                  && b.taken == taken;
      PossessiveEnters(env, stop, a);
      GoesTo(env, call, stop, a, b, 1);
    }
    if capacity >= 3 {
      forall p, a, i: nat | Enters(env, call, 0, p, a)
        ensures !Overflows(env, call, capacity, p, i, After(env, call, p, a, i))
      {
        PossessiveEnters(env, p, a);
        PossessiveFits(env, p, i, capacity);
      }
    }
  }

  lemma PossessiveFits(env: Env, p: int, i: nat, capacity: nat)
    requires ValidEnv(env) && env.code == Possessive() && env.subject == [97] && 0 in env.code.brackets
    requires (p == 0 || p == 1) && capacity >= 3
    ensures var call, s := CallAt(env, 0, 0), if p == 0 then FirstLetter() else AtEnd();
            !Overflows(env, call, capacity, p, i, After(env, call, p, s, i))
  {
    PossessivePasses(env);
    var call, s := CallAt(env, 0, 0), if p == 0 then FirstLetter() else AtEnd();
    if i > 0 {
      AfterStays(env, call, p, s, 1, i);
    } else {
      PossessiveSteps(env, Inlined(env, 0));
      hide WellFormed, InBitmap;
      assert After(env, call, p, s, 0) == s;
    }
  }

  /** The pattern matches the letter, and the matcher reports that it does not. */
  method PossessiveRangeLosesMatch(options: Options, newline: byte, tables: Tables, offsets: array<int>,
                                   offsetcount: int, workspace: array<int>, wscount: int)
    returns (rc: int)
    requires FullTables(tables) && 0 <= offsetcount <= offsets.Length
    requires 20 <= wscount <= workspace.Length && offsets != workspace
    modifies offsets, workspace
    ensures rc == PCRE_ERROR_NOMATCH
    ensures var env := Env(Possessive(), [97], options, newline, tables);
            ValidEnv(env) && Means(env, CallAt(env, 0, 0), [1])
  {
    hide Possessive, ValidEnv, CallAt, Means, Answered, Leaves, Runs, RunsOut, Plain, Recorded;
    var env := Env(Possessive(), [97], options, newline, tables);
    PossessiveShape();
    PossessiveEnvIsValid(env);
    PossessiveStarts(env);
    PossessiveIsMeant(env);
    ghost var depth, ends, start, failed;
    var stop: int;
    rc, depth, ends, start, stop, failed := InternalDfaExec(env, 0, 0, 0, {}, offsets, offsetcount, workspace, wscount);
    PossessiveRun(env, stop, ends, failed, Capacity(wscount));
    if rc >= PCRE_ERROR_NOMATCH { RecordedCount(offsets[..], offsetcount, rc, start, ends); }
  }

  lemma PossessiveIsMeant(env: Env)
    requires ValidEnv(env) && env.code == Possessive() && env.subject == [97] && 0 in env.code.brackets
    ensures Means(env, CallAt(env, 0, 0), [1])
  {
    hide ValidEnv, Inlined, Possessive, CallAt;
    PossessiveMatches(env);
  }

  // ---------------------------------------------------------------- an assertion without a limit

  /** A lookahead for a run of a letter, and the letter: (?=a+)a. */
  const OPEN_LOOKAHEAD: seq<byte> := [131, 0, 13, 125, 0, 5, 35, 97, 120, 0, 5, 29, 97, 120, 0, 13, 0]

  function OpenLookahead(): Code {
    Code(map[0 := Jump([3]), 3 := Assertion(true, 11), 6 := Repeat(Is(97), Plus, false, 8), 8 := Jump([11]),
             11 := One(Is(97), 13), 13 := Jump([16])],
         map[0 := Bracket(13, [Entry(3, 0)], false), 3 := Bracket(8, [Entry(6, 0)], false)])
  }

  lemma OpenLookaheadLinks()
    ensures var p := OPEN_LOOKAHEAD; Linked(p, 0) && Close(p, 0) == 13 && Branches(p, 0, 3) == [3]
    ensures var p := OPEN_LOOKAHEAD; Linked(p, 3) && Close(p, 3) == 8 && Branches(p, 3, 3) == [6]
  {
    hide Fetch;
    assert Get2(OPEN_LOOKAHEAD, 1) == 13 && Get2(OPEN_LOOKAHEAD, 4) == 5;
  }

  lemma OpenLookaheadItems()
    ensures forall o <- {0, 3, 6, 8, 11, 13} :: Fetch(OPEN_LOOKAHEAD, o) == Item(OpenLookahead().items[o])
  {
    hide Linked, Close, Branches;
    OpenLookaheadLinks();
  }

  lemma OpenLookaheadBrackets()
    ensures Linked(OPEN_LOOKAHEAD, 0) && FetchBracket(OPEN_LOOKAHEAD, 0) == Bracket(13, [Entry(3, 0)], false)
    ensures Linked(OPEN_LOOKAHEAD, 3) && FetchBracket(OPEN_LOOKAHEAD, 3) == Bracket(8, [Entry(6, 0)], false)
  {
    hide Fetch, Linked, Close, Branches;
    OpenLookaheadLinks();
  }

  lemma OpenLookaheadDecodes()
    ensures Decode(OPEN_LOOKAHEAD, {0, 3, 6, 8, 11, 13}) == OpenLookahead()
  {
    hide Fetch, Linked, Close, Branches, Decode, FetchBracket;
    OpenLookaheadLinks();
    OpenLookaheadItems();
    OpenLookaheadBrackets();
    DecodesTo(OPEN_LOOKAHEAD, {0, 3, 6, 8, 11, 13}, OpenLookahead());
  }

  lemma OpenLookaheadShape()
    ensures forall o <- OpenLookahead().items ::
              var it := OpenLookahead().items[o];
              && !it.Recursion? && (it.Repeat? ==> !it.possessive) && ItemFits(it)
              && (it.Assertion? ==> o == 3 && it.next == 11)
    ensures var code := OpenLookahead();
            && (forall g <- code.brackets :: g == 0 || g == 3)
            && 0 in code.brackets && code.brackets[0] == Bracket(13, [Entry(3, 0)], false)
            && 3 in code.brackets && code.brackets[3] == Bracket(8, [Entry(6, 0)], false)
  {
  }

  lemma OpenLookaheadEnvIsValid(env: Env)
    requires env.code == OpenLookahead() && FullTables(env.tables)
    ensures ValidEnv(env)
  {
    OpenLookaheadShape();
    OpenLookaheadIsOk(0);
    OpenLookaheadIsOk(3);
    hide OpenLookahead, BracketOk;
  }

  lemma OpenLookaheadIsOk(g: int)
    requires g == 0 || g == 3
    ensures g in OpenLookahead().brackets && BracketOk(OpenLookahead(), g)
  {
  }

  /** Where a run of the letters that began at p can be: in the repeat, with their number for its count, or behind. */
  predicate OnRun(env: Env, p: int, c: Config) {
    p <= c.pos <= |env.subject| && ((c.off == 6 && c.count == c.pos - p) || (c.off == 8 && c.count == 0))
  }

  lemma OpenStep(env: Env, nested: Nested, call: Call, p: nat, c: Config)
    requires ValidEnv(env) && env.code == OpenLookahead() && call.open == 3 && OnRun(env, p, c)
    ensures var out := Step(env, nested, call, c);
            && out.Go?
            && |out.here| <= (if c.off == 6 then 1 else 0) && |out.later| <= (if c.off == 6 then 1 else 0)
            && (forall s <- out.here :: s == Config(8, 0, c.pos))
            && (forall s <- out.later :: s == Config(6, c.count + 1, c.pos + 1) && s.pos <= |env.subject|)
  {
    hide WellFormed, Passes;
  }

  lemma {:induction false} OpenReaches(env: Env, nested: Nested, p: nat, n: nat, c: Config)
    requires ValidEnv(env) && env.code == OpenLookahead() && p <= |env.subject| && 3 in env.code.brackets
    requires ReachedIn(env, nested, CallAt(env, 3, p), n, c)
    ensures OnRun(env, p, c)
  {
    hide ValidEnv, Steps, OpenLookahead, CallAt, OnRun;
    OpenStarts(env, p);
    if n > 0 {
      var call := CallAt(env, 3, p);
      var b :| Steps(env, nested, call, b, c) && ReachedIn(env, nested, call, n - 1, b);
      OpenReaches(env, nested, p, n - 1, b);
      OpenGoesOn(env, nested, call, p, b, c);
    }
  }

  lemma OpenStarts(env: Env, p: nat)
    requires env.code == OpenLookahead() && p <= |env.subject| && 3 in env.code.brackets
    ensures CallAt(env, 3, p) == Call(3, p, [Config(6, 0, p)]) && OnRun(env, p, Config(6, 0, p))
  {
    OpenLookaheadShape();
    hide OpenLookahead;
    OneStart(env, 3, Entry(6, 0), p);
  }

  lemma OpenGoesOn(env: Env, nested: Nested, call: Call, p: nat, b: Config, c: Config)
    requires ValidEnv(env) && env.code == OpenLookahead() && call.open == 3 && OnRun(env, p, b)
    requires Steps(env, nested, call, b, c)
    ensures OnRun(env, p, c)
  {
    hide ValidEnv, Step, OpenLookahead;
    OpenStep(env, nested, call, p, b);
  }

  /** At each position only two states need a place. */
  lemma OpenLeft(env: Env, nested: Nested, p: nat, c: Config, q: int)
    requires ValidEnv(env) && env.code == OpenLookahead() && 3 in env.code.brackets && OnRun(env, p, c)
    ensures Left(env, nested, CallAt(env, 3, p), c, q)
            <= if c in {Config(6, q - p, q), Config(6, q - 1 - p, q - 1)} then 1 else 0
  {
    var call := CallAt(env, 3, p);
    OpenStep(env, nested, call, p, c);
    assert !IsPossessive(env, c);
    hide ValidEnv, Step, OpenLookahead;
    var out := Step(env, nested, call, c);
    if c.pos < q - 1 { NoneAhead(out.later, q); }
  }

  /** States that need one place each, if they are among a few, and none otherwise. */
  lemma {:induction false} SumOfFew(env: Env, nested: Nested, call: Call, cs: set<Config>, q: int, few: set<Config>)
    requires ValidEnv(env) && forall c <- cs :: Left(env, nested, call, c, q) <= if c in few then 1 else 0
    ensures Sum(env, nested, call, cs, q) <= |few|
    decreases cs
  {
    hide ValidEnv, Left;
    if cs != {} {
      var c :| c in cs;
      SumAt(env, nested, call, cs, c, q);
      SumOfFew(env, nested, call, cs - {c}, q, few - {c});
    }
  }

  lemma OpenPlaces(env: Env, nested: Nested, p: nat, cs: set<Config>, q: int)
    requires ValidEnv(env) && env.code == OpenLookahead() && p <= |env.subject| && 3 in env.code.brackets
    requires AllReached(env, nested, CallAt(env, 3, p), cs)
    ensures Places(env, nested, CallAt(env, 3, p), cs, q) <= 3
  {
    hide ValidEnv, OpenLookahead, ReachedIn, Left, CallAt;
    OpenStarts(env, p);
    var call, few := CallAt(env, 3, p), {Config(6, q - p, q), Config(6, q - 1 - p, q - 1)};
    forall c <- cs ensures Left(env, nested, call, c, q) <= if c in few then 1 else 0 {
      var n: nat :| ReachedIn(env, nested, call, n, c);
      OpenReaches(env, nested, p, n, c);
      OpenLeft(env, nested, p, c, q);
    }
    SumOfFew(env, nested, call, cs, q, few);
  }

  /** Whatever the subject, the nested call needs three places at most. */
  lemma OpenIsNotCrowded(env: Env, p: nat, capacity: nat)
    requires ValidEnv(env) && env.code == OpenLookahead() && p <= |env.subject| && 3 in env.code.brackets
    requires capacity >= 3
    ensures !Crowded(env, CallAt(env, 3, p), capacity)
  {
    hide ValidEnv, OpenLookahead, Inlined, Places, AllReached, CallAt;
    forall m: nat, cs: set<Config>, q: int | AllReached(env, Inlined(env, m), CallAt(env, 3, p), cs)
      ensures Places(env, Inlined(env, m), CallAt(env, 3, p), cs, q) <= capacity
    {
      OpenPlaces(env, Inlined(env, m), p, cs, q);
    }
  }

  /** So the nested call never fails, and no call goes wrong: the matcher is exact with this program. */
  lemma OpenLookaheadIsSafe(env: Env, call: Call, chain: set<(int, int)>)
    requires ValidEnv(env) && env.code == OpenLookahead()
    ensures !CanBeUnsafe(env, call, chain)
  {
    hide ValidEnv, OpenLookahead, Unsafe;
    forall k: nat ensures !Unsafe(env, k, call, chain) { OpenCallIsSafe(env, k, call, chain); }
  }

  /** The bound computed from the items is not good enough for it when the subject is long. */
  lemma OpenLookaheadIsNotContained(env: Env)
    requires env.code == OpenLookahead() && |env.subject| >= 83
    ensures !Contained(env)
  {
    var items, n := env.code.items, |env.subject|;
    assert Load(items, n, ForHere, 3, 6) >= n + 1 && Load(items, n, ForLater, 3, 6) >= n + 1;
    LoadAbove(items, n, ForHere, 3, 6, 8);
    LoadAbove(items, n, ForLater, 3, 6, 8);
    assert !Fits(env, 3, Capacity(LOCAL_WORKSPACE));
  }

  lemma {:induction false} LoadAbove(items: map<int, Item>, n: nat, kind: Kind, lo: int, mid: int, hi: int)
    requires lo <= mid <= hi
    ensures Load(items, n, kind, lo, mid) <= Load(items, n, kind, lo, hi)
    decreases hi - mid
  {
    hide Counts, Needs;
    if mid < hi { LoadAbove(items, n, kind, lo, mid, hi - 1); }
  }

  lemma {:induction false} OpenCallIsSafe(env: Env, k: nat, call: Call, chain: set<(int, int)>)
    requires ValidEnv(env) && env.code == OpenLookahead()
    ensures !Unsafe(env, k, call, chain)
    decreases k
  {
    OpenLookaheadShape();
    hide WellFormed, OpenLookahead, CanReach, Fails, CallAt, Passes;
    forall c | CanReach(env, call, c) && IsState(env, call, c) ensures !UnsafeAt(env, k, chain, c) {
      if k > 0 && env.code.items[c.off].Assertion? {
        OpenCannotFail(env, k - 1, c.pos, chain);
        OpenCallIsSafe(env, k - 1, CallAt(env, 3, c.pos), chain);
      }
    }
  }

  lemma OpenCannotFail(env: Env, k: nat, p: nat, chain: set<(int, int)>)
    requires ValidEnv(env) && env.code == OpenLookahead() && p <= |env.subject| && 3 in env.code.brackets
    ensures !Fails(env, k, CallAt(env, 3, p), chain, Capacity(LOCAL_WORKSPACE))
  {
    hide ValidEnv, OpenLookahead, Crowded, Fails, CallAt;
    OpenIsNotCrowded(env, p, Capacity(LOCAL_WORKSPACE));
    NotCrowdedCannotFail(env, k, CallAt(env, 3, p), chain, Capacity(LOCAL_WORKSPACE));
  }

  /** There is no recursion that could fail. */
  lemma NotCrowdedCannotFail(env: Env, k: nat, call: Call, chain: set<(int, int)>, capacity: nat)
    requires ValidEnv(env) && env.code == OpenLookahead() && !Crowded(env, call, capacity)
    ensures !Fails(env, k, call, chain, capacity)
  {
    OpenLookaheadShape();
    hide ValidEnv, OpenLookahead, CanReach, Crowded;
  }

  /** Where runs of the whole pattern that began at p can be. */
  predicate AroundRun(env: Env, p: int, c: Config) {
    c == Config(3, 0, p) || c == Config(11, 0, p) || (c == Config(13, 0, p + 1) && p < |env.subject|)
  }

  lemma OuterStep(env: Env, nested: Nested, call: Call, p: nat, c: Config)
    requires ValidEnv(env) && env.code == OpenLookahead() && p <= |env.subject| && 3 in env.code.brackets
    requires call.open == 0 && AroundRun(env, p, c)
    ensures var out := Step(env, nested, call, c);
            && (nested(CallAt(env, 3, p)).Some? ==> out.Go?)
            && (out.Go? ==>
                  && |out.here| <= (if c.off == 3 then 1 else 0) && |out.later| <= (if c.off == 11 then 1 else 0)
                  && (forall s <- out.here :: AroundRun(env, p, s) && s.pos == p)
                  && (forall s <- out.later :: AroundRun(env, p, s) && s.pos == p + 1))
  {
    hide WellFormed, Passes, Start;
  }

  lemma OuterStarts(env: Env, p: nat)
    requires env.code == OpenLookahead() && p <= |env.subject| && 0 in env.code.brackets
    ensures CallAt(env, 0, p) == Call(0, p, [Config(3, 0, p)]) && AroundRun(env, p, Config(3, 0, p))
  {
    OpenLookaheadShape();
    hide OpenLookahead;
    OneStart(env, 0, Entry(3, 0), p);
  }

  lemma OuterGoesOn(env: Env, nested: Nested, call: Call, p: nat, b: Config, c: Config)
    requires ValidEnv(env) && env.code == OpenLookahead() && p <= |env.subject| && 3 in env.code.brackets
    requires call.open == 0 && AroundRun(env, p, b) && Steps(env, nested, call, b, c)
    ensures AroundRun(env, p, c)
  {
    hide ValidEnv, Step, OpenLookahead, AroundRun;
    OuterStep(env, nested, call, p, b);
  }

  lemma {:induction false} OuterReaches(env: Env, nested: Nested, p: nat, n: nat, c: Config)
    requires ValidEnv(env) && env.code == OpenLookahead() && p <= |env.subject|
    requires 0 in env.code.brackets && 3 in env.code.brackets && ReachedIn(env, nested, CallAt(env, 0, p), n, c)
    ensures AroundRun(env, p, c)
  {
    hide ValidEnv, Steps, OpenLookahead, CallAt, AroundRun;
    OuterStarts(env, p);
    if n > 0 {
      var call := CallAt(env, 0, p);
      var b :| Steps(env, nested, call, b, c) && ReachedIn(env, nested, call, n - 1, b);
      OuterReaches(env, nested, p, n - 1, b);
      OuterGoesOn(env, nested, call, p, b, c);
    }
  }

  lemma OuterLeft(env: Env, nested: Nested, call: Call, p: nat, c: Config, q: int)
    requires ValidEnv(env) && env.code == OpenLookahead() && p <= |env.subject| && 3 in env.code.brackets
    requires call.open == 0 && AroundRun(env, p, c)
    ensures Left(env, nested, call, c, q) <= if c in {Config(3, 0, p), Config(11, 0, p)} then 1 else 0
  {
    OuterStep(env, nested, call, p, c);
    assert !IsPossessive(env, c);
    hide ValidEnv, Step, OpenLookahead;
  }

  lemma OuterPlaces(env: Env, nested: Nested, p: nat, cs: set<Config>, q: int)
    requires ValidEnv(env) && env.code == OpenLookahead() && p <= |env.subject|
    requires 0 in env.code.brackets && 3 in env.code.brackets && AllReached(env, nested, CallAt(env, 0, p), cs)
    ensures Places(env, nested, CallAt(env, 0, p), cs, q) <= 3
  {
    hide ValidEnv, OpenLookahead, ReachedIn, Left, CallAt, AroundRun;
    OuterStarts(env, p);
    var call, few := CallAt(env, 0, p), {Config(3, 0, p), Config(11, 0, p)};
    forall c <- cs ensures Left(env, nested, call, c, q) <= if c in few then 1 else 0 {
      var n: nat :| ReachedIn(env, nested, call, n, c);
      OuterReaches(env, nested, p, n, c);
      OuterLeft(env, nested, call, p, c, q);
    }
    SumOfFew(env, nested, call, cs, q, few);
  }

  /** The whole pattern needs three places as well. */
  lemma OuterIsNotCrowded(env: Env, p: nat, capacity: nat)
    requires ValidEnv(env) && env.code == OpenLookahead() && p <= |env.subject|
    requires 0 in env.code.brackets && 3 in env.code.brackets && capacity >= 3
    ensures !Crowded(env, CallAt(env, 0, p), capacity)
  {
    hide ValidEnv, OpenLookahead, Inlined, Places, AllReached, CallAt;
    forall m: nat, cs: set<Config>, q: int | AllReached(env, Inlined(env, m), CallAt(env, 0, p), cs)
      ensures Places(env, Inlined(env, m), CallAt(env, 0, p), cs, q) <= capacity
    {
      OuterPlaces(env, Inlined(env, m), p, cs, q);
    }
  }

  lemma OuterCannotFail(env: Env, p: nat, chain: set<(int, int)>, capacity: nat)
    requires ValidEnv(env) && env.code == OpenLookahead() && p <= |env.subject|
    requires 0 in env.code.brackets && 3 in env.code.brackets && capacity >= 3
    ensures !CanFail(env, CallAt(env, 0, p), chain, capacity)
  {
    hide ValidEnv, OpenLookahead, Crowded, Fails, CallAt;
    OuterIsNotCrowded(env, p, capacity);
    forall k: nat ensures !Fails(env, k, CallAt(env, 0, p), chain, capacity) {
      NotCrowdedCannotFail(env, k, CallAt(env, 0, p), chain, capacity);
    }
  }

  /** It has a meaning: the nested calls never stop, and so neither does the call around them. */
  lemma OuterIsMeant(env: Env, p: nat)
    requires ValidEnv(env) && env.code == OpenLookahead() && p <= |env.subject|
    requires 0 in env.code.brackets && 3 in env.code.brackets
    ensures Inlined(env, 2)(CallAt(env, 0, p)).Some?
  {
    InnerIsMeant(env, p);
    OuterStarts(env, p);
    hide ValidEnv, Step, OpenLookahead, CallAt, ReachedIn, AroundRun;
    var call, nested := CallAt(env, 0, p), Inlined(env, 1);
    forall c | Reached(env, nested, call, c) ensures Step(env, nested, call, c).Go? {
      var n: nat :| ReachedIn(env, nested, call, n, c);
      OuterReaches(env, nested, p, n, c);
      OuterStep(env, nested, call, p, c);
    }
  }

  lemma InnerIsMeant(env: Env, p: nat)
    requires ValidEnv(env) && env.code == OpenLookahead() && p <= |env.subject| && 3 in env.code.brackets
    ensures Inlined(env, 1)(CallAt(env, 3, p)).Some?
  {
    OpenStarts(env, p);
    hide ValidEnv, Step, OpenLookahead, CallAt, ReachedIn, OnRun;
    var call, nested := CallAt(env, 3, p), Inlined(env, 0);
    forall c | Reached(env, nested, call, c) ensures Step(env, nested, call, c).Go? {
      var n: nat :| ReachedIn(env, nested, call, n, c);
      OpenReaches(env, nested, p, n, c);
      OpenStep(env, nested, call, p, c);
    }
  }

  lemma MeantIsNotMeaningless(env: Env, k: nat, call: Call)
    requires ValidEnv(env) && Inlined(env, k)(call).Some?
    ensures !Meaningless(env, call)
  {
    hide ValidEnv, Inlined;
  }

  /** With any vector, on every subject and from every position: the matcher succeeds, with the ends that the pattern
      has there. */
  method OpenLookaheadIsMatched(subject: seq<byte>, options: Options, newline: byte, tables: Tables, p: nat,
                                offsets: array<int>, offsetcount: int, workspace: array<int>, wscount: int)
    returns (rc: int, ghost ends: seq<int>)
    requires FullTables(tables) && p <= |subject| && 0 <= offsetcount <= offsets.Length
    requires 20 <= wscount <= workspace.Length && offsets != workspace
    modifies offsets, workspace
    ensures var env := Env(OpenLookahead(), subject, options, newline, tables);
            && ValidEnv(env) && Means(env, CallAt(env, 0, p), ends)
            && rc >= PCRE_ERROR_NOMATCH && Recorded(offsets[..], offsetcount, rc, p, ends)
  {
    hide OpenLookahead, ValidEnv, CallAt, Means, CanFail, CanBeUnsafe, Leaves, Runs, RunsOut, Plain, Recorded,
         Meaningless, GoesNoFurther, OnlyEnds, Inlined;
    var env := Env(OpenLookahead(), subject, options, newline, tables);
    OpenLookaheadShape();
    OpenLookaheadEnvIsValid(env);
    OuterStarts(env, p);
    OuterCannotFail(env, p, {}, Capacity(wscount));
    OpenLookaheadIsSafe(env, CallAt(env, 0, p), {});
    OuterIsMeant(env, p);
    MeantIsNotMeaningless(env, 2, CallAt(env, 0, p));
    ghost var depth, start, failed;
    var stop: int;
    rc, depth, ends, start, stop, failed := InternalDfaExec(env, 0, p, p, {}, offsets, offsetcount, workspace, wscount);
    FoundIsMeant(env, depth + 1, CallAt(env, 0, p), ends);
  }

  lemma FoundIsMeant(env: Env, k: nat, call: Call, ends: seq<int>)
    requires ValidEnv(env) && Inlined(env, k)(call) == Some(ends)
    ensures Means(env, call, ends)
  {
  }
}
