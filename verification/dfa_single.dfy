/** The matcher on a bracket that holds nothing but one repeat: it never fails, and it ends behind exactly the
    characters that the repeat may match. */
module DfaSingle {
  import opened Basics
  import opened DfaProgram
  import opened DfaSemantics
  import opened DfaStates
  import opened DfaCoverage
  import opened DfaRepeat
  import opened DfaPaths
  import opened DfaCrowd
  import opened DfaActions
  import opened DfaProgress
  import opened DfaRoom
  import opened DfaRun
  import opened DfaMatcher

  /** The bracket at g holds the repeat at o alone. */
  ghost predicate HoldsRepeat(code: Code, g: int, o: int, t: CharTest, q: Quantifier, possessive: bool) {
    && g in code.brackets && !code.brackets[g].behind && code.brackets[g].entries == [Entry(o, 0)]
    && o in code.items && code.items[o] == Repeat(t, q, possessive, code.brackets[g].close)
    && forall x <- code.items :: g < x < code.brackets[g].close ==> x == o
  }

  lemma StartsOnce(env: Env, g: int, o: int, t: CharTest, q: Quantifier, possessive: bool, p: int)
    requires ValidEnv(env) && HoldsRepeat(env.code, g, o, t, q, possessive) && 0 <= p <= |env.subject|
    ensures g in env.code.brackets && !env.code.brackets[g].behind && PlainIn(env.code, g)
    ensures g < o < env.code.brackets[g].close && CallAt(env, g, p) == Call(g, p, [Config(o, 0, p)])
  {
    hide ItemFits;
    assert BracketOk(env.code, g);
    var entries := env.code.brackets[g].entries;
    assert entries[0] == Entry(o, 0) && entries[..0] == [];
    assert Start(entries, p) == Start([], p) + [Config(o, 0, p)];
  }

  // ---------------------------------------------------------------- one state at each position

  /** A position is entered with one state, in the repeat or at the ket, and nothing has been taken back. */
  ghost predicate Alone(env: Env, o: int, close: int, p: int, s: Pass) {
    && |s.here| == 1 && s.next == [] && !s.taken && 0 <= p <= |env.subject|
    && (s.here[0].off == o || s.here[0].off == close) && s.here[0].pos == p
    && forall c <- s.done :: c.pos < p
  }

  /** What a position entered like that is left with. */
  ghost predicate LeftAlone(env: Env, o: int, close: int, p: int, s: Pass) {
    && |s.here| <= 2 && |s.next| <= 1 && !s.taken
    && (forall c <- s.next :: (c.off == o || c.off == close) && c.pos == p + 1 <= |env.subject|)
    && forall c <- s.done :: c.pos <= p
  }

  /** The repeat's step: at most the ket here, and one state for the next position if the character passes. */
  lemma StepAlone(env: Env, call: Call, g: int, o: int, t: CharTest, q: Quantifier, possessive: bool, c: Config)
    requires ValidEnv(env) && HoldsRepeat(env.code, g, o, t, q, possessive) && call.open == g
    requires c.off == o && 0 <= c.pos <= |env.subject|
    ensures var close, out := env.code.brackets[g].close, StepWith(env, call.som, c, []);
            && out.Go? && (out.here == [] || out.here == [Config(close, 0, c.pos)]) && |out.later| <= 1
            && (forall d <- out.later :: (d.off == o || d.off == close) && d.pos == c.pos + 1 <= |env.subject|)
            && DfaCrowd.Takes(env, c, out) <= 1
  {
    hide WellFormed, Passes;
  }

  lemma PassAlone(env: Env, call: Call, g: int, o: int, t: CharTest, q: Quantifier, possessive: bool, p: int, s: Pass)
    requires ValidEnv(env) && HoldsRepeat(env.code, g, o, t, q, possessive) && call.open == g
    requires g < o < env.code.brackets[g].close && Alone(env, o, env.code.brackets[g].close, p, s)
    ensures LeftAlone(env, o, env.code.brackets[g].close, p, After(env, call, p, s, 2))
    ensures |After(env, call, p, s, 1).here| <= 2 && |After(env, call, p, s, 2).here| <= 2
    ensures var a := After(env, call, p, s, 1); |a.here| == 2 ==> !IsState(env, call, a.here[1]) && a.here[1].pos <= p
  {
    hide ValidEnv, StepWith, TooMuch, Takes;
    var c := s.here[0];
    assert env.code.brackets[g].close in env.code.items by { CloseIsItem(env, g); }
    if c.off == o { StepAlone(env, call, g, o, t, q, possessive, c); }
    assert After(env, call, p, s, 0) == s;
    assert After(env, call, p, s, 1) == Processed(env, call, p, 0, s);
  }

  lemma CloseIsItem(env: Env, g: int)
    requires ValidEnv(env) && g in env.code.brackets
    ensures env.code.brackets[g].close in env.code.items && env.code.items[env.code.brackets[g].close].Jump?
  {
    hide ItemFits;
    assert BracketOk(env.code, g);
  }

  lemma {:induction false} EntersAlone(env: Env, call: Call, g: int, o: int, t: CharTest, q: Quantifier,
                                       possessive: bool, start: int, p: int, s: Pass)
    requires ValidEnv(env) && HoldsRepeat(env.code, g, o, t, q, possessive) && call.open == g
    requires g < o < env.code.brackets[g].close && 0 <= start <= |env.subject| && call.init == [Config(o, 0, start)]
    requires Enters(env, call, start, p, s)
    ensures Alone(env, o, env.code.brackets[g].close, p, s)
    decreases p - start
  {
    hide ValidEnv, After, Goes;
    if p > start {
      var k := p - 1;
      var a, b :| Enters(env, call, start, k, a) && Goes(env, call, k, a, b) && b.next != []
                  && s == Pass(b.next, [], b.done, b.ends, b.taken);
      EntersAlone(env, call, g, o, t, q, possessive, start, k, a);
      PassAlone(env, call, g, o, t, q, possessive, k, a);
      GoesTo(env, call, k, a, b, 2);
      assert b.next[0] in b.next;
    }
  }

  /** The scan takes nothing back, and two places suffice for it. */
  lemma RunsAlone(env: Env, call: Call, g: int, o: int, t: CharTest, q: Quantifier, possessive: bool, start: int,
                  stop: int, ends: seq<int>, taken: bool, capacity: nat)
    requires ValidEnv(env) && HoldsRepeat(env.code, g, o, t, q, possessive) && call.open == g
    requires g < o < env.code.brackets[g].close && 0 <= start <= |env.subject| && call.init == [Config(o, 0, start)]
    ensures Runs(env, call, start, stop, ends, taken) ==> !taken
    ensures capacity >= 2 ==> !RunsOut(env, call, start, capacity)
  {
    hide ValidEnv, After, Goes, Enters, Overflows;
    if Runs(env, call, start, stop, ends, taken) {
      var a, b :| Enters(env, call, start, stop, a) && Goes(env, call, stop, a, b) && b.next == [] && b.ends == ends
                  && b.taken == taken;
      EntersAlone(env, call, g, o, t, q, possessive, start, stop, a);
      PassAlone(env, call, g, o, t, q, possessive, stop, a);
      GoesTo(env, call, stop, a, b, 2);
    }
    if capacity >= 2 {
      forall p, a, i: nat | Enters(env, call, start, p, a)
        ensures !Overflows(env, call, capacity, p, i, After(env, call, p, a, i))
      {
        EntersAlone(env, call, g, o, t, q, possessive, start, p, a);
        RoomAlone(env, call, g, o, t, q, possessive, p, i, a, capacity);
      }
    }
  }

  lemma RoomAlone(env: Env, call: Call, g: int, o: int, t: CharTest, q: Quantifier, possessive: bool, p: int, i: nat,
                  s: Pass, capacity: nat)
    requires ValidEnv(env) && HoldsRepeat(env.code, g, o, t, q, possessive) && call.open == g && capacity >= 2
    requires g < o < env.code.brackets[g].close && Alone(env, o, env.code.brackets[g].close, p, s)
    ensures !Overflows(env, call, capacity, p, i, After(env, call, p, s, i))
  {
    hide ValidEnv, StepWith, Takes, Processed;
    PassAlone(env, call, g, o, t, q, possessive, p, s);
    if i >= 2 {
      AfterStays(env, call, p, s, 2, i);
    } else if i == 0 {
      assert After(env, call, p, s, 0) == s;
      if s.here[0].off == o { StepAlone(env, call, g, o, t, q, possessive, s.here[0]); }
    }
  }

  // ---------------------------------------------------------------- the ends

  /** Whatever is reached is reached by staying in the repeat. */
  lemma {:induction false} ReachedByStaying(env: Env, nested: Nested, call: Call, g: int, o: int, t: CharTest,
                                            q: Quantifier, possessive: bool, p: int, n: nat, c: Config)
    requires ValidEnv(env) && HoldsRepeat(env.code, g, o, t, q, possessive) && call.open == g
    requires o != env.code.brackets[g].close && call.init == [Config(o, 0, p)]
    ensures ReachedIn(env, nested, call, n, c) <==> Stays(env, nested, call, o, p, n, c)
  {
    hide WellFormed, Passes, StepRepeat;
    if n > 0 {
      if ReachedIn(env, nested, call, n, c) {
        var b :| Steps(env, nested, call, b, c) && ReachedIn(env, nested, call, n - 1, b);
        ReachedByStaying(env, nested, call, g, o, t, q, possessive, p, n - 1, b);
        if n > 1 {
          var d: Config :| d.off == o && Stays(env, nested, call, o, p, n - 2, d) && Steps(env, nested, call, d, b);
          StepLeadsTo(env, nested, call, g, o, t, q, possessive, d, b);
        }
        assert b.off == o;
      }
      if Stays(env, nested, call, o, p, n, c) {
        var b: Config :| b.off == o && Stays(env, nested, call, o, p, n - 1, b) && Steps(env, nested, call, b, c);
        ReachedByStaying(env, nested, call, g, o, t, q, possessive, p, n - 1, b);
      }
    }
  }

  lemma StepLeadsTo(env: Env, nested: Nested, call: Call, g: int, o: int, t: CharTest, q: Quantifier, possessive: bool,
                    b: Config, c: Config)
    requires ValidEnv(env) && HoldsRepeat(env.code, g, o, t, q, possessive) && call.open == g && b.off == o
    requires o != env.code.brackets[g].close && Steps(env, nested, call, b, c)
    ensures c.off == o || c.off == env.code.brackets[g].close
  {
    hide WellFormed, Passes;
  }

  /** A value of such a call is the positions behind what the repeat may match. */
  lemma ValueOfRepeat(env: Env, k: nat, call: Call, g: int, o: int, t: CharTest, q: Quantifier, possessive: bool,
                      p: int, ends: seq<int>)
    requires ValidEnv(env) && HoldsRepeat(env.code, g, o, t, q, possessive) && call.open == g
    requires g < o < env.code.brackets[g].close && 0 <= p <= |env.subject| && call.init == [Config(o, 0, p)]
    requires Inlined(env, k + 1)(call) == Some(ends)
    ensures Ascending(ends) && forall e :: e in ends <==> e >= p && MayTake(env, t, q, possessive, p, e - p)
  {
    hide ValidEnv, ReachedIn, Stays, Step, MayTake, Ascending;
    var nested, close := Inlined(env, k), env.code.brackets[g].close;
    assert ends == EndsBelow(env, nested, call, |env.subject| + 1);
    EndsBelowAscend(env, nested, call, |env.subject| + 1);
    forall e ensures e in ends <==> e >= p && MayTake(env, t, q, possessive, p, e - p) {
      InEndsBelow(env, nested, call, |env.subject| + 1, e);
      forall n: nat ensures ReachedIn(env, nested, call, n, Config(close, 0, e))
                       <==> Stays(env, nested, call, o, p, n, Config(close, 0, e)) {
        ReachedByStaying(env, nested, call, g, o, t, q, possessive, p, n, Config(close, 0, e));
      }
      RepeatTakes(env, nested, call, o, t, q, possessive, close, p, e);
      if e >= p && MayTake(env, t, q, possessive, p, e - p) { TakesInside(env, t, q, possessive, p, e - p); }
    }
  }

  /** The matcher on such a bracket. */
  method MatchRepeat(env: Env, g: int, som: int, p: int, chain: set<(int, int)>, offsets: array<int>, offsetcount: int,
                     workspace: array<int>, wscount: int,
                     ghost o: int, ghost t: CharTest, ghost q: Quantifier, ghost possessive: bool)
    returns (rc: int, ghost ends: seq<int>)
    requires ValidEnv(env) && HoldsRepeat(env.code, g, o, t, q, possessive) && 0 <= p <= |env.subject|
    requires chain <= AllPairs(|env.subject|)
    requires 0 <= offsetcount <= offsets.Length && 20 <= wscount <= workspace.Length && offsets != workspace
    modifies offsets, workspace
    ensures rc >= PCRE_ERROR_NOMATCH && Recorded(offsets[..], offsetcount, rc, p, ends)
    ensures Ascending(ends) && forall e :: e in ends <==> e >= p && MayTake(env, t, q, possessive, p, e - p)
  {
    hide ValidEnv, HoldsRepeat, Recorded, Leaves, CallAt, Runs, RunsOut, PlainIn, MayTake, Ascending, Meaningless,
         CanFail,
         CanBeUnsafe, OnlyEnds, GoesNoFurther, Fits, Contained, NoNegatives, NoPossessive, NoMinimums, MovesOn,
         PathsEndAt, Inlined;
    StartsOnce(env, g, o, t, q, possessive, p);
    ghost var depth, start, failed;
    var stop: int;
    rc, depth, ends, start, stop, failed :=
      InternalDfaExec(env, g, som, p, chain, offsets, offsetcount, workspace, wscount);
    ghost var call := CallAt(env, g, p).(som := som);
    RunsAlone(env, call, g, o, t, q, possessive, p, stop, ends, failed, Capacity(wscount));
    ValueOfRepeat(env, depth, call, g, o, t, q, possessive, p, ends);
  }
}
