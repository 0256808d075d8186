/** Bookkeeping for the proof that the lists miss nothing and invent nothing: the configurations
    processed so far, and those still waiting in a list. */
module DfaCoverage {
  import opened Basics
  import opened DfaProgram
  import opened DfaSemantics

  /** c starts the call or follows from a processed configuration. */
  ghost predicate Fed(env: Env, nested: Nested, call: Call, done: set<Config>, c: Config)
    requires ValidEnv(env)
  {
    c in call.init || exists b :: b in done && Steps(env, nested, call, b, c)
  }

  /** done is reached and steps only into done or todo; todo is what done and the start feed. */
  ghost predicate Covers(env: Env, nested: Nested, call: Call, done: set<Config>, todo: set<Config>)
    requires ValidEnv(env)
  {
    && (forall c <- call.init :: c in done || c in todo)
    && (forall b <- done :: Reached(env, nested, call, b) && Step(env, nested, call, b).Go?)
    && (forall b, c :: b in done && Steps(env, nested, call, b, c) ==> c in done || c in todo)
    && (forall c <- todo :: Fed(env, nested, call, done, c))
  }

  lemma FedIsReached(env: Env, nested: Nested, call: Call, done: set<Config>, todo: set<Config>, c: Config)
    requires ValidEnv(env) && Covers(env, nested, call, done, todo) && c in todo
    ensures Reached(env, nested, call, c)
  {
    hide Step, Reached, ValidEnv;
    if c in call.init {
      ReachedFirst(env, nested, call, c);
    } else {
      var b :| b in done && Steps(env, nested, call, b, c);
      ReachedNext(env, nested, call, b, c);
    }
  }

  /** Processing c: it moves from todo to done, and what it steps into may be new in todo. */
  lemma CoverStep(env: Env, nested: Nested, call: Call, done: set<Config>, todo: set<Config>, c: Config,
                  todo': set<Config>)
    requires ValidEnv(env) && Covers(env, nested, call, done, todo) && c in todo
    requires Step(env, nested, call, c).Go?
    requires todo <= todo' + {c} + done
    requires todo' <= todo + set s | s in Successors(Step(env, nested, call, c))
    requires forall s <- Successors(Step(env, nested, call, c)) :: s in todo'
    ensures Covers(env, nested, call, done + {c}, todo')
  {
    FedIsReached(env, nested, call, done, todo, c);
    hide Step, Reached, ValidEnv, Successors, Fed;
    forall x <- todo' ensures Fed(env, nested, call, done + {c}, x) {
      FedOn(env, nested, call, done, todo, c, x);
    }
    forall b, x | b in done + {c} && Steps(env, nested, call, b, x) ensures x in done + {c} || x in todo' {
      if b in done { assert x in done || x in todo; }
    }
  }

  lemma FedOn(env: Env, nested: Nested, call: Call, done: set<Config>, todo: set<Config>, c: Config, x: Config)
    requires ValidEnv(env) && (forall y <- todo :: Fed(env, nested, call, done, y))
    requires x in todo || x in Successors(Step(env, nested, call, c))
    ensures Fed(env, nested, call, done + {c}, x)
  {
    hide Step, ValidEnv, Successors;
    if x in todo {
      assert Fed(env, nested, call, done, x);
    } else {
      assert Steps(env, nested, call, c, x);
    }
  }

  /** Dropping from todo what is already done. */
  lemma CoverLess(env: Env, nested: Nested, call: Call, done: set<Config>, todo: set<Config>, todo': set<Config>)
    requires ValidEnv(env) && Covers(env, nested, call, done, todo)
    requires todo' <= todo <= todo' + done
    ensures Covers(env, nested, call, done, todo')
  {
    hide Step, Reached, ValidEnv;
  }

  /** Knowing more about nested calls keeps the coverage. */
  lemma CoverKnowing(env: Env, a: Nested, b: Nested, call: Call, done: set<Config>, todo: set<Config>)
    requires ValidEnv(env) && Covers(env, a, call, done, todo) && Knows(a, b)
    ensures Covers(env, b, call, done, todo)
  {
    hide Step, ValidEnv, Reached, Successors;
    forall x <- done ensures Step(env, b, call, x) == Step(env, a, call, x) && Reached(env, b, call, x) {
      StepIsMonotonic(env, a, b, call, x);
      StaysReached(env, a, b, call, x);
    }
    forall x <- todo ensures Fed(env, b, call, done, x) {
      assert Fed(env, a, call, done, x);
      if x !in call.init {
        var y :| y in done && Steps(env, a, call, y, x);
        assert Steps(env, b, call, y, x);
      }
    }
  }

  lemma StaysReached(env: Env, a: Nested, b: Nested, call: Call, x: Config)
    requires ValidEnv(env) && Knows(a, b) && Reached(env, a, call, x)
    ensures Reached(env, b, call, x)
  {
    hide Step, ValidEnv, Knows;
    var n: nat :| ReachedIn(env, a, call, n, x);
    ReachedIsMonotonic(env, a, b, call, n, x);
  }

  lemma {:induction false} ReachedIsDone(env: Env, nested: Nested, call: Call, done: set<Config>, n: nat, c: Config)
    requires ValidEnv(env) && Covers(env, nested, call, done, {})
    requires ReachedIn(env, nested, call, n, c)
    ensures c in done
  {
    hide Step, ValidEnv, Steps, Fed;
    if n > 0 {
      var b :| Steps(env, nested, call, b, c) && ReachedIn(env, nested, call, n - 1, b);
      ReachedIsDone(env, nested, call, done, n - 1, b);
    }
  }

  /** Once nothing waits, exactly the reachable configurations have been processed. */
  lemma CoverAll(env: Env, nested: Nested, call: Call, done: set<Config>)
    requires ValidEnv(env) && Covers(env, nested, call, done, {})
    ensures forall c :: Reached(env, nested, call, c) <==> c in done
    ensures Defined(env, nested, call)
  {
    hide Step, ValidEnv;
    forall c | Reached(env, nested, call, c) ensures c in done {
      var n: nat :| ReachedIn(env, nested, call, n, c);
      ReachedIsDone(env, nested, call, done, n, c);
    }
  }

  // ---------------------------------------------------------------- the recorded end positions

  predicate Ascending(ends: seq<int>) {
    forall i, j :: 0 <= i < j < |ends| ==> ends[i] < ends[j]
  }

  /** ends lists, ascending, the positions at which the closing ket has been processed. */
  ghost predicate EndsListed(close: int, done: set<Config>, ends: seq<int>) {
    Ascending(ends) && forall q :: q in ends <==> Config(close, 0, q) in done
  }

  lemma WithoutLast(ends: seq<int>)
    requires Ascending(ends) && ends != []
    ensures var last := |ends| - 1;
            && Ascending(ends[..last])
            && forall q :: q in ends[..last] <==> q in ends && q != ends[last]
  {
    var last := |ends| - 1;
    assert ends == ends[..last] + [ends[last]];
  }

  lemma {:induction false} AscendingIsBelow(env: Env, nested: Nested, call: Call, ends: seq<int>, m: nat)
    requires ValidEnv(env) && Ascending(ends)
    requires forall q :: q in ends <==> 0 <= q < m && EndsAt(env, nested, call, q)
    ensures ends == EndsBelow(env, nested, call, m)
  {
    hide ValidEnv, EndsAt, Ascending;
    if m == 0 {
      assert forall q :: q !in ends;
      NoneInEmpty(ends);
    } else if EndsAt(env, nested, call, m - 1) {
      LastIsLargest(ends, m - 1);
      WithoutLast(ends);
      AscendingIsBelow(env, nested, call, ends[..|ends| - 1], m - 1);
    } else {
      AscendingIsBelow(env, nested, call, ends, m - 1);
    }
  }

  lemma NoneInEmpty<T>(s: seq<T>)
    ensures s == [] || exists x :: x in s
  {
    if s != [] {
      var first := s[0];
      assert first in s;
    }
  }

  lemma LastIsLargest(ends: seq<int>, q: int)
    requires Ascending(ends) && q in ends && forall r :: r in ends ==> r <= q
    ensures ends[|ends| - 1] == q && ends == ends[..|ends| - 1] + [q]
  {
    var i :| 0 <= i < |ends| && ends[i] == q;
    assert ends[|ends| - 1] in ends;
  }

  /** With nothing left to do, the listed ends are the meaning of the call. */
  lemma ListedEndsAreTheMeaning(env: Env, k: nat, call: Call, done: set<Config>, ends: seq<int>)
    requires ValidEnv(env) && call.open in env.code.brackets
    requires Covers(env, Inlined(env, k), call, done, {})
    requires EndsListed(env.code.brackets[call.open].close, done, ends)
    requires forall q <- ends :: 0 <= q <= |env.subject|
    ensures Inlined(env, k + 1)(call) == Some(ends)
  {
    hide ValidEnv, Covers, Reached, ReachedIn;
    CoverAll(env, Inlined(env, k), call, done);
    AscendingIsBelow(env, Inlined(env, k), call, ends, |env.subject| + 1);
  }

  // ---------------------------------------------------------------- what losing states keeps

  /** No assertion is negative: a state too few never makes a match too many. */
  ghost predicate NoNegatives(code: Code) {
    forall o <- code.items :: code.items[o].Assertion? ==> code.items[o].positive
  }

  /** If the call has a meaning, it reaches all of these. */
  ghost predicate OnlyReached(env: Env, call: Call, cs: set<Config>)
    requires ValidEnv(env)
  {
    forall m: nat :: Defined(env, Inlined(env, m), call) ==> forall c <- cs :: Reached(env, Inlined(env, m), call, c)
  }

  /** If the call has a meaning, its runs arrive at each of these as at a start, or from an earlier position. */
  ghost predicate OnlyArriving(env: Env, call: Call, cs: set<Config>)
    requires ValidEnv(env)
  {
    forall m: nat :: Defined(env, Inlined(env, m), call) ==>
      forall c <- cs :: Arrives(env, Inlined(env, m), call, c.pos, c)
  }

  /** out holds no successors but those of the step. */
  ghost predicate Lossy(env: Env, call: Call, c: Config, out: Outcome)
    requires ValidEnv(env)
  {
    forall m: nat :: Step(env, Inlined(env, m), call, c).Go? ==>
      forall s <- Successors(out) :: s in Successors(Step(env, Inlined(env, m), call, c))
  }

  /** The ends are ends of the call, whatever it means. */
  ghost predicate OnlyEnds(env: Env, call: Call, ends: seq<int>)
    requires ValidEnv(env)
  {
    forall k: nat, all :: Inlined(env, k)(call) == Some(all) ==> forall q <- ends :: q in all
  }

  lemma StartsAreReached(env: Env, call: Call)
    requires ValidEnv(env)
    ensures OnlyReached(env, call, set c | c in call.init)
  {
    hide ValidEnv, Reached, Inlined, Defined;
    forall m: nat, c | c in call.init ensures Reached(env, Inlined(env, m), call, c) {
      ReachedFirst(env, Inlined(env, m), call, c);
    }
  }

  lemma LossyStep(env: Env, call: Call, cs: set<Config>, c: Config, out: Outcome)
    requires ValidEnv(env) && OnlyReached(env, call, cs) && c in cs && Lossy(env, call, c, out)
    ensures OnlyReached(env, call, cs + set s | s in Successors(out))
  {
    hide ValidEnv, Reached, Inlined, Step, Successors;
    forall m: nat, s | Defined(env, Inlined(env, m), call) && s in Successors(out)
      ensures Reached(env, Inlined(env, m), call, s)
    {
      assert Steps(env, Inlined(env, m), call, c, s);
      ReachedNext(env, Inlined(env, m), call, c, s);
    }
  }

  lemma StartsArrive(env: Env, call: Call)
    requires ValidEnv(env)
    ensures OnlyArriving(env, call, set c | c in call.init)
  {
    hide ValidEnv, Reached, Inlined, Defined;
  }

  /** What a step leads to at later positions arrives there. */
  lemma LossyStepArrives(env: Env, call: Call, cs: set<Config>, early: set<Config>, c: Config, out: Outcome)
    requires ValidEnv(env) && OnlyReached(env, call, cs) && c in cs && Lossy(env, call, c, out)
    requires OnlyArriving(env, call, early) && out.Go? && forall s <- out.later :: s.pos > c.pos
    ensures OnlyArriving(env, call, early + set s | s in out.later)
  {
    hide ValidEnv, Reached, Inlined, Step, Successors;
    forall m: nat, s | Defined(env, Inlined(env, m), call) && s in out.later
      ensures Arrives(env, Inlined(env, m), call, s.pos, s)
    {
      LaterIsSuccessor(out, s);
      assert Steps(env, Inlined(env, m), call, c, s);
    }
  }

  lemma LaterIsSuccessor(out: Outcome, s: Config)
    requires out.Go? && s in out.later
    ensures s in Successors(out)
  {
  }

  lemma FewerArriving(env: Env, call: Call, cs: set<Config>, ds: set<Config>)
    requires ValidEnv(env) && OnlyArriving(env, call, cs) && ds <= cs
    ensures OnlyArriving(env, call, ds)
  {
    hide ValidEnv, Defined, Arrives, Inlined;
  }

  lemma ReachedEndsAreEnds(env: Env, call: Call, done: set<Config>, ends: seq<int>)
    requires ValidEnv(env) && call.open in env.code.brackets && OnlyReached(env, call, done)
    requires EndsListed(env.code.brackets[call.open].close, done, ends) && forall q <- ends :: 0 <= q <= |env.subject|
    ensures OnlyEnds(env, call, ends)
  {
    hide ValidEnv, Reached, Defined;
    forall k: nat, all, q | Inlined(env, k)(call) == Some(all) && q in ends ensures q in all {
      MeaningIsEnds(env, k, call, all);
      assert Config(env.code.brackets[call.open].close, 0, q) in done;
    }
  }

  lemma {:induction false} EndsBelowAre(env: Env, nested: Nested, call: Call, m: nat)
    requires ValidEnv(env)
    ensures forall q :: q in EndsBelow(env, nested, call, m) <==> 0 <= q < m && EndsAt(env, nested, call, q)
  {
    hide ValidEnv, EndsAt;
    if m > 0 { EndsBelowAre(env, nested, call, m - 1); }
  }

  lemma MeaningIsEnds(env: Env, k: nat, call: Call, ends: seq<int>)
    requires ValidEnv(env) && Inlined(env, k)(call) == Some(ends)
    ensures k > 0 && forall q :: q in ends <==> 0 <= q <= |env.subject| && EndsAt(env, Inlined(env, k - 1), call, q)
  {
    hide ValidEnv, EndsAt;
    EndsBelowAre(env, Inlined(env, k - 1), call, |env.subject| + 1);
  }
}
