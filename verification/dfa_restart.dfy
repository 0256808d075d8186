/** Matching a subject that arrives in two parts: restarting from the states that the first call left
    in the vector finds what one call on the whole subject would, if the items are seamless. */
module DfaRestart {
  import opened Basics
  import opened DfaProgram
  import opened DfaSemantics
  import opened DfaStates
  import opened DfaCoverage
  import opened DfaCrowd
  import opened DfaRoom
  import opened DfaActions
  import opened DfaProgress
  import opened DfaRun
  import opened DfaMatcher
  import opened DfaSeam

  function Shifted(c: Config, n: int): Config {
    c.(pos := c.pos + n)
  }

  /** A subject in two parts, and a pattern for which the seam makes no difference. */
  ghost predicate Parts(whole: Env, first: Env, second: Env) {
    && Halves(whole, first, second)
    && forall o <- whole.code.items :: Seamless(whole, first, second, whole.code.items[o])
  }

  lemma PartsArePlain(whole: Env, first: Env, second: Env)
    requires Parts(whole, first, second)
    ensures Plain(whole.code) && first.code == second.code == whole.code
  {
    hide WellFormed;
  }

  lemma StepsMoveOn(env: Env, nested: Nested, call: Call, b: Config, c: Config)
    requires ValidEnv(env) && Plain(env.code) && Steps(env, nested, call, b, c)
    ensures 0 <= b.pos <= c.pos <= |env.subject|
  {
    hide WellFormed, Passes, StepRepeat, Holds;
    match env.code.items[b.off] {
      case Repeat(t, q, possessive, next) =>
        RepeatMovesOn(b.off, b.count, b.pos, b.pos < |env.subject| && Passes(env, t, b.pos), q, possessive, next, c);
      case _ =>
    }
  }

  lemma RepeatMovesOn(o: int, k: int, p: int, passes: bool, q: Quantifier, possessive: bool, next: int, c: Config)
    ensures c in Successors(StepRepeat(o, k, p, passes, q, possessive, next)) ==>
              c.pos == p || (passes && c.pos == p + 1)
  {
  }

  /** Before the seam, the whole subject and its first part allow the same steps. */
  lemma SameStepBefore(whole: Env, first: Env, second: Env, a: Nested, b: Nested, call: Call, c: Config)
    requires Parts(whole, first, second) && c.pos < |first.subject|
    ensures Step(whole, a, call, c) == Step(first, b, call, c)
  {
    if c.off in whole.code.items && c.pos >= 0 && call.open in whole.code.brackets
       && c.off != whole.code.brackets[call.open].close {
      SameItemBefore(whole, first, second, call.som, c);
    }
  }

  lemma SameItemBefore(whole: Env, first: Env, second: Env, som: int, c: Config)
    requires Parts(whole, first, second) && 0 <= c.pos < |first.subject| && c.off in whole.code.items
    ensures StepWith(whole, som, c, []) == StepWith(first, som, c, [])
    ensures NestedCall(whole, c).None?
  {
    hide WellFormed, Holds, StepRepeat, SeamlessTest;
    assert Seamless(whole, first, second, whole.code.items[c.off]);
    match whole.code.items[c.off] {
      case ZeroWidth(op, _) => SameTestBefore(whole, first, second, op, som, c.pos);
      case NewlineSequence(_) => SeamlessNewlineIsExact(whole, first, second);
      case _ =>
    }
  }

  lemma SameStepsBefore(whole: Env, first: Env, second: Env, a: Nested, b: Nested, call: Call, c: Config, d: Config)
    requires Parts(whole, first, second) && c.pos < |first.subject|
    ensures Steps(whole, a, call, c, d) <==> Steps(first, b, call, c, d)
  {
    hide WellFormed, Step, Successors, Seamless;
    SameStepBefore(whole, first, second, a, b, call, c);
  }

  function ShiftAll(cs: seq<Config>, n: int): seq<Config> {
    seq(|cs|, i requires 0 <= i < |cs| => Shifted(cs[i], n))
  }

  lemma ShiftedIsIn(cs: seq<Config>, n: int, c: Config)
    ensures Shifted(c, n) in ShiftAll(cs, n) <==> c in cs
  {
    if c in cs {
      var i :| 0 <= i < |cs| && cs[i] == c;
      assert ShiftAll(cs, n)[i] == Shifted(c, n);
    }
  }

  /** The second call goes on where the first one is at the seam. */
  ghost predicate GoesOn(whole: Env, n: int, call: Call, call2: Call) {
    call2.open == call.open && SameStart(whole.code, n, call.som, call2.som)
  }

  /** The outcome of an item, with all positions shifted. */
  ghost predicate SameShifted(out: Outcome, out2: Outcome, n: int) {
    out.Go? == out2.Go? && (out.Go? ==> out.here == ShiftAll(out2.here, n) && out.later == ShiftAll(out2.later, n))
  }

  lemma SameStepShifted(whole: Env, first: Env, second: Env, a: Nested, b: Nested, call: Call, call2: Call, c: Config)
    requires Parts(whole, first, second) && c.pos >= 0 && GoesOn(whole, |first.subject|, call, call2)
    ensures SameShifted(Step(whole, a, call, Shifted(c, |first.subject|)), Step(second, b, call2, c), |first.subject|)
  {
    if c.off in whole.code.items && c.pos <= |second.subject| && call.open in whole.code.brackets
       && c.off != whole.code.brackets[call.open].close {
      SameItemShifted(whole, first, second, call.som, call2.som, c);
    }
  }

  lemma SameItemShifted(whole: Env, first: Env, second: Env, som: int, som2: int, c: Config)
    requires Parts(whole, first, second) && 0 <= c.pos <= |second.subject| && c.off in whole.code.items
    requires SameStart(whole.code, |first.subject|, som, som2)
    ensures var n := |first.subject|;
            SameShifted(StepWith(whole, som, Shifted(c, n), []), StepWith(second, som2, c, []), n)
    ensures NestedCall(whole, c).None? && NestedCall(whole, Shifted(c, |first.subject|)).None?
  {
    hide WellFormed, Holds, StepRepeat, SeamlessTest, Passes, NewlineLength;
    var n := |first.subject|;
    var it := whole.code.items[c.off];
    assert Seamless(whole, first, second, it);
    var inside := c.pos < |second.subject|;
    if (it.One? || it.Repeat?) && inside {
      SamePassShifted(whole, first, second, it.test, c.pos);
    }
    match it {
      case Jump(ts) => assert JumpTo(ts, c.pos + n) == ShiftAll(JumpTo(ts, c.pos), n);
      case ZeroWidth(op, _) => SameTestAfter(whole, first, second, op, som, som2, c.pos);
      case NewlineSequence(_) => SeamlessNewlineIsExact(whole, first, second);
      case Repeat(t, q, possessive, next) =>
        SameRepeatShifted(c.off, c.count, c.pos, inside && Passes(second, t, c.pos), q, possessive, next, n);
      case _ =>
    }
  }

  lemma SameRepeatShifted(o: int, k: int, p: int, passes: bool, q: Quantifier, possessive: bool, next: int, n: int)
    ensures SameShifted(StepRepeat(o, k, p + n, passes, q, possessive, next),
                        StepRepeat(o, k, p, passes, q, possessive, next), n)
  {
  }

  lemma SamePassShifted(whole: Env, first: Env, second: Env, t: CharTest, p: int)
    requires Halves(whole, first, second) && 0 <= p < |second.subject|
    requires t.InClass? ==> |t.bitmap| == 32
    ensures Passes(whole, t, p + |first.subject|) == Passes(second, t, p)
  {
    hide WellFormed, InBitmap;
  }

  /** From the seam on, the whole subject and its second part allow the same steps. */
  lemma SameStepAfter(whole: Env, first: Env, second: Env, a: Nested, b: Nested, call: Call, call2: Call, c: Config,
                      d: Config)
    requires Parts(whole, first, second) && c.pos >= 0 && GoesOn(whole, |first.subject|, call, call2)
    ensures var n := |first.subject|;
            Steps(whole, a, call, Shifted(c, n), Shifted(d, n)) <==> Steps(second, b, call2, c, d)
  {
    hide WellFormed, Step, Seamless;
    var n := |first.subject|;
    SameStepShifted(whole, first, second, a, b, call, call2, c);
    var out2 := Step(second, b, call2, c);
    if out2.Go? {
      ShiftedIsIn(out2.here, n, d);
      ShiftedIsIn(out2.later, n, d);
    }
  }

  /** Where a step of the whole subject, or of a part, can lead. */
  lemma PartsMoveOn(whole: Env, first: Env, second: Env, nested: Nested, call: Call, d: Config, c: Config)
    requires ValidEnv(whole) && ValidEnv(first) && ValidEnv(second) && Parts(whole, first, second)
    ensures Steps(whole, nested, call, d, c) ==> 0 <= d.pos <= c.pos
    ensures Steps(first, nested, call, d, c) ==> 0 <= d.pos <= c.pos <= |first.subject|
    ensures Steps(second, nested, call, d, c) ==> 0 <= d.pos <= c.pos
  {
    PartsArePlain(whole, first, second);
    hide WellFormed, Plain, Seamless, Steps;
    if Steps(whole, nested, call, d, c) { StepsMoveOn(whole, nested, call, d, c); }
    if Steps(first, nested, call, d, c) { StepsMoveOn(first, nested, call, d, c); }
    if Steps(second, nested, call, d, c) { StepsMoveOn(second, nested, call, d, c); }
  }

  /** What is reached before or at the seam is reached in the first part, and conversely. */
  lemma {:induction false} SameReachedBefore(whole: Env, first: Env, second: Env, a: Nested, b: Nested, call: Call,
                                             k: nat, c: Config)
    requires ValidEnv(whole) && ValidEnv(first) && ValidEnv(second) && Parts(whole, first, second)
    requires c.pos < |first.subject|
    ensures ReachedIn(whole, a, call, k, c) <==> ReachedIn(first, b, call, k, c)
  {
    hide ValidEnv, Parts, Steps;
    if k > 0 {
      if ReachedIn(whole, a, call, k, c) {
        var d :| Steps(whole, a, call, d, c) && ReachedIn(whole, a, call, k - 1, d);
        PartsMoveOn(whole, first, second, a, call, d, c);
        SameReachedBefore(whole, first, second, a, b, call, k - 1, d);
        SameStepsBefore(whole, first, second, a, b, call, d, c);
        assert Steps(first, b, call, d, c) && ReachedIn(first, b, call, k - 1, d);
      }
      if ReachedIn(first, b, call, k, c) {
        var d :| Steps(first, b, call, d, c) && ReachedIn(first, b, call, k - 1, d);
        PartsMoveOn(whole, first, second, b, call, d, c);
        SameReachedBefore(whole, first, second, a, b, call, k - 1, d);
        SameStepsBefore(whole, first, second, a, b, call, d, c);
        assert Steps(whole, a, call, d, c) && ReachedIn(whole, a, call, k - 1, d);
      }
    }
  }

  /** call2 restarts where runs of call arrive at the end of the first part. */
  ghost predicate TakesOver(first: Env, b: Nested, call: Call, call2: Call)
    requires ValidEnv(first)
  {
    && GoesOn(first, |first.subject|, call, call2)
    && (forall c <- call.init :: 0 <= c.pos <= |first.subject|)
    && forall c :: c in call2.init <==> Arrives(first, b, call, |first.subject|, Shifted(c, |first.subject|))
  }

  /** call2 restarts where runs of call arrive at the end of the first part, if not everywhere they do. */
  ghost predicate StartsFrom(first: Env, b: Nested, call: Call, call2: Call)
    requires ValidEnv(first)
  {
    && GoesOn(first, |first.subject|, call, call2)
    && forall c <- call2.init :: Arrives(first, b, call, |first.subject|, Shifted(c, |first.subject|))
  }

  lemma ArrivalIsReached(whole: Env, first: Env, second: Env, a: Nested, b: Nested, call: Call, c: Config)
    requires ValidEnv(whole) && ValidEnv(first) && ValidEnv(second) && Parts(whole, first, second)
    requires Arrives(first, b, call, |first.subject|, c)
    ensures Reached(whole, a, call, c)
  {
    hide ValidEnv, Parts, Steps;
    if c in call.init {
      ReachedFirst(whole, a, call, c);
    } else {
      var d :| Steps(first, b, call, d, c) && Reached(first, b, call, d) && d.pos < |first.subject|;
      var k: nat :| ReachedIn(first, b, call, k, d);
      SameReachedBefore(whole, first, second, a, b, call, k, d);
      SameStepsBefore(whole, first, second, a, b, call, d, c);
      ReachedNext(whole, a, call, d, c);
    }
  }

  /** What the restarted call reaches is reached on the whole subject. */
  lemma {:induction false} RestartedIsReached(whole: Env, first: Env, second: Env, a: Nested, b: Nested, e: Nested,
                                              call: Call, call2: Call, k: nat, c: Config)
    requires ValidEnv(whole) && ValidEnv(first) && ValidEnv(second) && Parts(whole, first, second)
    requires StartsFrom(first, b, call, call2) && GoesOn(whole, |first.subject|, call, call2)
    requires ReachedIn(second, e, call2, k, c)
    ensures c.pos >= 0 && Reached(whole, a, call, Shifted(c, |first.subject|))
  {
    hide ValidEnv, Parts, Steps, GoesOn, Reached, Arrives;
    var n := |first.subject|;
    if k == 0 {
      ArrivalIsAt(first, b, call, n, Shifted(c, n));
      ArrivalIsReached(whole, first, second, a, b, call, Shifted(c, n));
    } else {
      var d :| Steps(second, e, call2, d, c) && ReachedIn(second, e, call2, k - 1, d);
      PartsMoveOn(whole, first, second, e, call2, d, c);
      RestartedIsReached(whole, first, second, a, b, e, call, call2, k - 1, d);
      SameStepAfter(whole, first, second, a, e, call, call2, d, c);
      ReachedNext(whole, a, call, Shifted(d, n), Shifted(c, n));
    }
  }

  lemma ArrivalIsAt(env: Env, nested: Nested, call: Call, p: int, c: Config)
    requires ValidEnv(env) && Arrives(env, nested, call, p, c)
    ensures c.pos == p
  {
  }

  /** What is reached on the whole subject from the seam on is reached by the restarted call. */
  lemma {:induction false} ReachedIsRestarted(whole: Env, first: Env, second: Env, a: Nested, b: Nested, e: Nested,
                                              call: Call, call2: Call, k: nat, c: Config)
    requires ValidEnv(whole) && ValidEnv(first) && ValidEnv(second) && Parts(whole, first, second)
    requires TakesOver(first, b, call, call2) && GoesOn(whole, |first.subject|, call, call2)
    requires c.pos >= 0 && ReachedIn(whole, a, call, k, Shifted(c, |first.subject|))
    ensures Reached(second, e, call2, c)
  {
    hide ValidEnv, Parts, Steps, GoesOn, Reached;
    var n := |first.subject|;
    var at := Shifted(c, n);
    if k == 0 {
      assert Arrives(first, b, call, n, at);
      ReachedFirst(second, e, call2, c);
    } else {
      var d :| Steps(whole, a, call, d, at) && ReachedIn(whole, a, call, k - 1, d);
      PartsMoveOn(whole, first, second, a, call, d, at);
      if d.pos >= n {
        var before := Shifted(d, -n);
        assert Shifted(before, n) == d;
        ReachedIsRestarted(whole, first, second, a, b, e, call, call2, k - 1, before);
        SameStepAfter(whole, first, second, a, e, call, call2, before, c);
        ReachedNext(second, e, call2, before, c);
      } else {
        SameReachedBefore(whole, first, second, a, b, call, k - 1, d);
        SameStepsBefore(whole, first, second, a, b, call, d, at);
        PartsMoveOn(whole, first, second, b, call, d, at);
        CrossedIs(first, b, call, n, k - 1, d, at);
        ReachedFirst(second, e, call2, c);
      }
    }
  }

  lemma CrossedIs(env: Env, nested: Nested, call: Call, n: int, k: nat, d: Config, c: Config)
    requires ValidEnv(env) && ReachedIn(env, nested, call, k, d) && Steps(env, nested, call, d, c) && d.pos < n == c.pos
    ensures Arrives(env, nested, call, n, c)
  {
    hide ValidEnv, Steps;
    assert Reached(env, nested, call, d);
  }

  /** Restart is transparent: the restarted call ends exactly where a call on the whole subject ends
      at or after the seam. */
  lemma RestartIsTransparent(whole: Env, first: Env, second: Env, depth: nat, call: Call, call2: Call,
                             k: nat, ends: seq<int>, k2: nat, ends2: seq<int>)
    requires Parts(whole, first, second) && TakesOver(first, Inlined(first, depth), call, call2)
    requires GoesOn(whole, |first.subject|, call, call2)
    requires Inlined(whole, k)(call) == Some(ends) && Inlined(second, k2)(call2) == Some(ends2)
    ensures forall q :: q in ends2 <==> q >= 0 && |first.subject| + q in ends
  {
    hide Inlined, EndsAt, ValidEnv, Seamless, TakesOver, GoesOn, EndsWith;
    var n := |first.subject|;
    assert |whole.subject| == n + |second.subject|;
    MeaningIsEnds(whole, k, call, ends);
    MeaningIsEnds(second, k2, call2, ends2);
    var a, b, e := Inlined(whole, k - 1), Inlined(first, depth), Inlined(second, k2 - 1);
    hide Parts;
    forall q ensures q in ends2 <==> q >= 0 && n + q in ends {
      if q >= 0 {
        EndsAfterSeam(whole, first, second, a, b, e, call, call2, q);
      }
    }
  }

  /** An end of the restarted call is one of the whole. */
  lemma RestartedEndIsEnd(whole: Env, first: Env, second: Env, a: Nested, b: Nested, e: Nested, call: Call, call2: Call,
                          q: int)
    requires Parts(whole, first, second) && StartsFrom(first, b, call, call2) && EndsAt(second, e, call2, q)
    requires GoesOn(whole, |first.subject|, call, call2)
    ensures EndsAt(whole, a, call, |first.subject| + q)
  {
    hide WellFormed, ReachedIn, Seamless, SameStart, StartsFrom;
    var n, c := |first.subject|, Config(whole.code.brackets[call.open].close, 0, q);
    assert Shifted(c, n) == Config(whole.code.brackets[call.open].close, 0, n + q);
    var k: nat :| ReachedIn(second, e, call2, k, c);
    RestartedIsReached(whole, first, second, a, b, e, call, call2, k, c);
  }

  lemma EndsAfterSeam(whole: Env, first: Env, second: Env, a: Nested, b: Nested, e: Nested, call: Call, call2: Call,
                      q: int)
    requires Parts(whole, first, second) && TakesOver(first, b, call, call2) && q >= 0
    requires GoesOn(whole, |first.subject|, call, call2)
    ensures EndsAt(second, e, call2, q) <==> EndsAt(whole, a, call, |first.subject| + q)
  {
    hide WellFormed, ReachedIn, Seamless, SameStart;
    if call.open !in whole.code.brackets { return; }
    var n := |first.subject|;
    var c := Config(whole.code.brackets[call.open].close, 0, q);
    assert Shifted(c, n) == Config(whole.code.brackets[call.open].close, 0, n + q);
    if EndsAt(second, e, call2, q) {
      RestartedEndIsEnd(whole, first, second, a, b, e, call, call2, q);
    }
    if EndsAt(whole, a, call, n + q) {
      var k: nat :| ReachedIn(whole, a, call, k, Shifted(c, n));
      ReachedIsRestarted(whole, first, second, a, b, e, call, call2, k, c);
    }
  }

  // ---------------------------------------------------------------- the two calls

  /** A call that stopped before the end of the first part goes no further on the whole subject. */
  lemma {:induction false} StopsOnWhole(whole: Env, first: Env, second: Env, a: Nested, depth: nat, call: Call,
                                        stop: int,
                                        k: nat, c: Config)
    requires Parts(whole, first, second) && GoesNoFurther(first, depth, call, stop) && stop < |first.subject|
    requires ReachedIn(whole, a, call, k, c)
    ensures c.pos <= stop && Reached(first, Inlined(first, depth), call, c)
  {
    hide WellFormed, Step, Steps, Inlined, Seamless;
    var b := Inlined(first, depth);
    if k == 0 {
      ReachedFirst(first, b, call, c);
    } else {
      var d :| Steps(whole, a, call, d, c) && ReachedIn(whole, a, call, k - 1, d);
      StopsOnWhole(whole, first, second, a, depth, call, stop, k - 1, d);
      SameStepsBefore(whole, first, second, a, b, call, d, c);
      ReachedNext(first, b, call, d, c);
    }
  }

  /** So it has found everything there is. */
  lemma StoppedHasAll(whole: Env, first: Env, second: Env, depth: nat, call: Call, stop: int, ends: seq<int>,
                      all: seq<int>)
    requires Parts(whole, first, second) && GoesNoFurther(first, depth, call, stop) && stop < |first.subject|
    requires Inlined(first, depth + 1)(call) == Some(ends) && Inlined(whole, 1)(call) == Some(all)
    ensures forall q :: q in ends <==> q in all
  {
    hide WellFormed, Inlined, ReachedIn, GoesNoFurther, Seamless;
    MeaningIsEnds(first, depth + 1, call, ends);
    MeaningIsEnds(whole, 1, call, all);
    var a, b, n := Inlined(whole, 0), Inlined(first, depth), |first.subject|;
    forall q ensures q in ends <==> q in all {
      if call.open in whole.code.brackets {
        var c := Config(whole.code.brackets[call.open].close, 0, q);
        if q in ends {
          Within(first, depth, call, stop, c);
          var k: nat :| ReachedIn(first, b, call, k, c);
          SameReachedBefore(whole, first, second, a, b, call, k, c);
        }
        if q in all {
          var k: nat :| ReachedIn(whole, a, call, k, c);
          StopsOnWhole(whole, first, second, a, depth, call, stop, k, c);
        }
      }
    }
  }

  lemma Within(env: Env, depth: nat, call: Call, stop: int, c: Config)
    requires ValidEnv(env) && GoesNoFurther(env, depth, call, stop) && Reached(env, Inlined(env, depth), call, c)
    ensures c.pos <= stop
  {
  }

  ghost predicate AllOrRest(ends: seq<int>, restarted: bool, n: nat, all: seq<int>) {
    if restarted then forall q :: q in ends <==> q >= 0 && n + q in all
    else forall q :: q in ends <==> q in all
  }

  /** What two calls found is what one call on the whole subject finds: all, or what lies behind the seam. */
  ghost predicate FoundInParts(whole: Env, som: int, n: nat, restarted: bool, ends: seq<int>)
    requires ValidEnv(whole) && 0 in whole.code.brackets
  {
    exists all :: Means(whole, CallAt(whole, 0, 0).(som := som), all) && AllOrRest(ends, restarted, n, all)
  }

  /** Each end that two calls found is one that one call on the whole subject finds. */
  ghost predicate FoundOnly(whole: Env, som: int, n: nat, restarted: bool, ends: seq<int>)
    requires ValidEnv(whole) && 0 in whole.code.brackets
  {
    exists all :: Means(whole, CallAt(whole, 0, 0).(som := som), all) && OnlyOf(ends, restarted, n, all)
  }

  ghost predicate OnlyOf(ends: seq<int>, restarted: bool, n: nat, all: seq<int>) {
    forall q <- ends :: q >= 0 && (if restarted then n + q else q) in all
  }

  /**
   * With this capacity neither call runs out of room: the second starts with the states that the first left,
   * whose counts may come from the first part.
   */
  predicate FitsInParts(first: Env, second: Env, capacity: nat) {
    && Fits(first, 0, capacity) && 0 in second.code.brackets
    && |first.code.brackets[0].entries| + BracketLoad(first, 0, ForWait) + BracketLoad(first, 0, ForLater)
       + LongLoad(first, second, ForHere) + LongLoad(first, second, ForLater) + LongLoad(first, second, ForWait)
       <= capacity
  }

  function LongLoad(first: Env, second: Env, kind: Kind): nat
    requires 0 in second.code.brackets
  {
    Load(second.code.items, |first.subject| + |second.subject|, kind, 0, second.code.brackets[0].close)
  }

  /**
   * Two calls on the two parts of a subject, the second restarting in the vector that the first left. When they
   * succeed, the second reports what one call on the whole subject finds at or after the seam, the longest match
   * first; when the first stopped before the end of its part, it has found all that there is. With enough room
   * they succeed. A possessive range with a minimum can make them find less, never more.
   */
  method MatchInParts(first: Env, second: Env, ghost whole: Env, som: int, som2: int, offsets: array<int>,
                      offsetcount: int, workspace: array<int>, wscount: int)
    returns (rc: int, restarted: bool, ghost ends: seq<int>, ghost failed: bool)
    requires Parts(whole, first, second) && SameStart(whole.code, |first.subject|, som, som2)
    requires 0 <= offsetcount <= offsets.Length && 20 <= wscount <= workspace.Length && offsets != workspace
    modifies offsets, workspace
    ensures rc >= PCRE_ERROR_NOMATCH || IsError(rc)
    ensures rc >= PCRE_ERROR_NOMATCH ==>
              && Recorded(offsets[..], offsetcount, rc, 0, ends)
              && 0 in whole.code.brackets && FoundOnly(whole, som, |first.subject|, restarted, ends)
    ensures NoMinimums(whole.code) ==> !failed
    ensures !failed && FitsInParts(first, second, Capacity(wscount)) ==> rc >= PCRE_ERROR_NOMATCH
    ensures !failed && rc >= PCRE_ERROR_NOMATCH ==>
              0 in whole.code.brackets && FoundInParts(whole, som, |first.subject|, restarted, ends)
  {
    PartsArePlain(whole, first, second);
    hide WellFormed, Seamless, NoMinimums, SameStart, Plain, Inlined, AllInside, GoesNoFurther, FoundInParts, Recorded,
         Contained, Fits, IsFew, Load, Answered, Leaves, Arrives, FoundOnly, OnlyEnds, OnlyArriving, OnlyOf, Runs;
    ghost var depth, start;
    var stop: int;
    restarted := false;
    NothingNested(first);
    rc, depth, ends, start, stop, failed := InternalDfaExec(first, 0, som, 0, {}, offsets, offsetcount, workspace,
                                                            wscount);
    ghost var call := CallAt(first, 0, 0).(som := som);
    StartsInside(first, som, 0);
    PlainIsAnswered(first, call, Capacity(wscount), rc, depth, ends, stop, failed);
    if rc < PCRE_ERROR_NOMATCH { return; }
    ghost var all := WholeMeaning(whole, first, second, som);
    if stop < |first.subject| {
      FirstOnlyFinds(whole, first, second, call, stop, ends, all);
      OnlyFound(whole, som, |first.subject|, restarted, ends, all);
      if !failed {
        StoppedHasAll(whole, first, second, depth, call, stop, ends, all);
        FoundAll(whole, som, |first.subject|, restarted, ends, all);
      }
      return;
    }
    restarted := true;
    LeftAtSeam(first, som, Capacity(wscount), SavedBlocks(workspace[..], Capacity(wscount)), depth, failed);
    ghost var failed2;
    rc, ends, failed2 := RestartOn(first, second, whole, som, som2, offsets, offsetcount, workspace, wscount, depth,
                                   all, failed);
    failed := failed || failed2;
  }

  /** The states in the vector are those where runs of the call arrive at the end of the subject. */
  ghost predicate Saves(env: Env, depth: nat, call: Call, saved: seq<Block>)
    requires ValidEnv(env)
  {
    forall c :: c in Images(saved, |env.subject|) <==> Arrives(env, Inlined(env, depth), call, |env.subject|, c)
  }

  /** What the answer of a call means when nothing is nested. */
  lemma PlainIsAnswered(env: Env, call: Call, capacity: nat, rc: int, depth: nat, ends: seq<int>, stop: int,
                        failed: bool)
    requires ValidEnv(env) && Plain(env.code) && call.open in env.code.brackets
    requires AllInside(env, call.open, call.init, 0)
    requires Answered(env, call, {}, capacity, rc, depth, ends, stop, failed)
    ensures rc >= PCRE_ERROR_NOMATCH || IsError(rc)
    ensures rc >= PCRE_ERROR_NOMATCH ==> OnlyEnds(env, call, ends)
    ensures NoMinimums(env.code) ==> !failed
    ensures !failed ==>
              && rc != PCRE_ERROR_DFA_UITEM
              && (rc >= PCRE_ERROR_NOMATCH ==>
                    Inlined(env, depth + 1)(call) == Some(ends) && GoesNoFurther(env, depth, call, stop))
              && (Roomy(env, call, capacity) ==> rc >= PCRE_ERROR_NOMATCH)
  {
    NothingNested(env);
    PlainIsMeant(env, call);
    PlainIsBounded(env, call, capacity);
    PlainHasNoNegatives(env);
    hide ValidEnv, Plain, NoMinimums, NoNegatives, NoPossessive, CanFail, CanBeUnsafe, Meaningless, OnlyEnds, Contained,
         GoesNoFurther, Inlined, AllInside, Roomy, Bounded;
    if NoMinimums(env.code) { ContainedCannotBeUnsafe(env, call, {}); }
    if Roomy(env, call, capacity) { RoomyCannotFail(env, call, {}, capacity); }
  }

  lemma PlainHasNoNegatives(env: Env)
    requires Plain(env.code)
    ensures NoNegatives(env.code)
  {
  }

  lemma PlainIsBounded(env: Env, call: Call, capacity: nat)
    requires ValidEnv(env) && Plain(env.code) && call.open in env.code.brackets
    requires AllInside(env, call.open, call.init, 0)
    ensures Roomy(env, call, capacity) ==> Bounded(env, call)
  {
    hide WellFormed, AllInside, Tame;
  }

  /** At the end of the first part the vector holds what a second call starts from. */
  lemma LeftAtSeam(first: Env, som: int, capacity: nat, saved: seq<Block>, depth: nat, failed: bool)
    requires ValidEnv(first) && 0 in first.code.brackets && !first.code.brackets[0].behind && Plain(first.code)
    requires Leaves(first, CallAt(first, 0, 0).(som := som), saved, depth, |first.subject|, failed)
    ensures AllInside(first, 0, Images(saved, |first.subject|), |first.subject|)
    ensures OnlyArriving(first, CallAt(first, 0, 0).(som := som), set c | c in Images(saved, |first.subject|))
    ensures !failed ==> Saves(first, depth, CallAt(first, 0, 0).(som := som), saved)
    ensures !failed && Fits(first, 0, capacity) ==>
              IsFew(first, CallAt(first, 0, 0).(som := som), Images(saved, |first.subject|))
  {
    PlainHasNoNegatives(first);
    hide ValidEnv, NoMinimums, AllInside, Arrives, Inlined, IsFew, Bounded, Fits, OnlyArriving, Plain, NoNegatives;
    if Fits(first, 0, capacity) { FitsIsBounded(first, 0, som, 0, capacity); }
  }

  /** The second call. */
  method RestartOn(first: Env, second: Env, ghost whole: Env, som: int, som2: int, offsets: array<int>,
                   offsetcount: int, workspace: array<int>, wscount: int, ghost depth: nat, ghost all: seq<int>,
                   ghost failed1: bool)
    returns (rc: int, ghost ends: seq<int>, ghost failed: bool)
    requires ValidEnv(whole) && ValidEnv(first) && ValidEnv(second) && Parts(whole, first, second)
    requires SameStart(whole.code, |first.subject|, som, som2)
    requires 0 in whole.code.brackets && first.code == second.code == whole.code && Plain(second.code)
    requires 0 <= offsetcount <= offsets.Length && 20 <= wscount <= workspace.Length && offsets != workspace
    requires Inlined(whole, 1)(CallAt(whole, 0, 0).(som := som)) == Some(all)
    requires HandsOver(workspace[..], Capacity(wscount))
    requires var saved, call := SavedBlocks(workspace[..], Capacity(wscount)), CallAt(first, 0, 0).(som := som);
             && AllInside(first, 0, Images(saved, |first.subject|), |first.subject|)
             && OnlyArriving(first, call, set c | c in Images(saved, |first.subject|))
             && (!failed1 ==>
                   && Saves(first, depth, call, saved)
                   && (Fits(first, 0, Capacity(wscount)) ==> IsFew(first, call, Images(saved, |first.subject|))))
    modifies offsets, workspace
    ensures rc >= PCRE_ERROR_NOMATCH || IsError(rc)
    ensures rc >= PCRE_ERROR_NOMATCH ==>
              Recorded(offsets[..], offsetcount, rc, 0, ends) && FoundOnly(whole, som, |first.subject|, true, ends)
    ensures NoMinimums(second.code) ==> !failed
    ensures !failed1 && !failed && FitsInParts(first, second, Capacity(wscount)) ==> rc >= PCRE_ERROR_NOMATCH
    ensures !failed1 && !failed && rc >= PCRE_ERROR_NOMATCH ==>
              FoundInParts(whole, som, |first.subject|, true, ends)
  {
    hide ValidEnv, Parts, NoMinimums, SameStart, Plain, Inlined, AllInside, FoundInParts, Recorded, Answered, Fits,
         Saves, Roomy, IsFew, Images, OnlyEnds, OnlyArriving, OnlyOf, FoundOnly;
    ghost var saved := SavedBlocks(workspace[..], Capacity(wscount));
    ghost var call := CallAt(first, 0, 0).(som := som);
    ghost var call2 := Call(0, som2, Images(saved, 0));
    SavedFitsSecond(whole, first, second, saved);
    if !failed1 && FitsInParts(first, second, Capacity(wscount)) {
      SavedIsRoomy(whole, first, second, call, call2, saved, Capacity(wscount));
    }
    var stop: int;
    ghost var depth2;
    rc, depth2, ends, stop, failed := InternalDfaRestart(second, som2, 0, offsets, offsetcount, workspace, wscount);
    PlainIsAnswered(second, call2, Capacity(wscount), rc, depth2, ends, stop, failed);
    if rc >= PCRE_ERROR_NOMATCH {
      SecondOnlyFinds(whole, first, second, call, call2, saved, ends, all);
      OnlyFound(whole, som, |first.subject|, true, ends, all);
    }
    if !failed1 && !failed && rc >= PCRE_ERROR_NOMATCH {
      SeamIsTakenOver(whole, first, second, depth, call, call2, saved);
      RestartIsTransparent(whole, first, second, depth, call, call2, 1, all, depth2 + 1, ends);
      FoundAll(whole, som, |first.subject|, true, ends, all);
    }
  }

  lemma OnlyFound(whole: Env, som: int, n: nat, restarted: bool, ends: seq<int>, all: seq<int>)
    requires ValidEnv(whole) && 0 in whole.code.brackets
    requires Inlined(whole, 1)(CallAt(whole, 0, 0).(som := som)) == Some(all)
    requires OnlyOf(ends, restarted, n, all)
    ensures FoundOnly(whole, som, n, restarted, ends)
  {
    hide ValidEnv, Inlined, OnlyOf;
    assert Means(whole, CallAt(whole, 0, 0).(som := som), all);
  }

  /** The ends found before the seam are ends on the whole subject. */
  lemma FirstOnlyFinds(whole: Env, first: Env, second: Env, call: Call, stop: int, ends: seq<int>, all: seq<int>)
    requires Parts(whole, first, second) && OnlyEnds(first, call, ends) && call.open in whole.code.brackets
    requires AllInside(first, call.open, call.init, 0) && Inlined(whole, 1)(call) == Some(all)
    requires stop < |first.subject| && forall q <- ends :: 0 <= q <= stop
    ensures OnlyOf(ends, false, |first.subject|, all)
  {
    PartsArePlain(whole, first, second);
    hide WellFormed, Inlined, ReachedIn, Seamless, Plain, OnlyEnds, AllInside;
    PlainCallsHaveAMeaning(first, call);
    var found := Inlined(first, 1)(call).value;
    MeaningIsEnds(first, 1, call, found);
    MeaningIsEnds(whole, 1, call, all);
    forall q <- ends ensures q in all {
      EndIsAmong(first, call, ends, 1, found, q);
      var c := Config(whole.code.brackets[call.open].close, 0, q);
      var k: nat :| ReachedIn(first, Inlined(first, 0), call, k, c);
      SameReachedBefore(whole, first, second, Inlined(whole, 0), Inlined(first, 0), call, k, c);
      assert EndsAt(whole, Inlined(whole, 0), call, q);
    }
  }

  lemma EndIsAmong(env: Env, call: Call, ends: seq<int>, k: nat, all: seq<int>, q: int)
    requires ValidEnv(env) && OnlyEnds(env, call, ends) && Inlined(env, k)(call) == Some(all) && q in ends
    ensures q in all
  {
  }

  /** The ends of the restarted call are ends on the whole subject. */
  lemma SecondOnlyFinds(whole: Env, first: Env, second: Env, call: Call, call2: Call, saved: seq<Block>,
                        ends: seq<int>, all: seq<int>)
    requires Parts(whole, first, second) && OnlyEnds(second, call2, ends) && 0 in whole.code.brackets
    requires call == CallAt(first, 0, 0).(som := call.som) && call2 == Call(0, call2.som, Images(saved, 0))
    requires SameStart(first.code, |first.subject|, call.som, call2.som)
    requires Images(saved, |first.subject|) == ShiftAll(Images(saved, 0), |first.subject|)
    requires AllInside(first, 0, Images(saved, |first.subject|), |first.subject|) && AllInside(second, 0, call2.init, 0)
    requires OnlyArriving(first, call, set c | c in Images(saved, |first.subject|))
    requires Inlined(whole, 1)(call) == Some(all)
    ensures OnlyOf(ends, true, |first.subject|, all)
  {
    PartsArePlain(whole, first, second);
    SeamIsStartedFrom(whole, first, second, call, call2, saved);
    hide ValidEnv, Parts, Inlined, Plain, OnlyEnds, AllInside, StartsFrom, SameStart, OnlyArriving, Images, OnlyOf;
    PlainCallsHaveAMeaning(second, call2);
    RestartOnlyFinds(whole, first, second, call, call2, ends, Inlined(second, 1)(call2).value, all);
  }

  lemma RestartOnlyFinds(whole: Env, first: Env, second: Env, call: Call, call2: Call, ends: seq<int>, found: seq<int>,
                         all: seq<int>)
    requires Parts(whole, first, second) && OnlyEnds(second, call2, ends)
    requires StartsFrom(first, Inlined(first, 0), call, call2) && GoesOn(whole, |first.subject|, call, call2)
    requires Inlined(second, 1)(call2) == Some(found) && Inlined(whole, 1)(call) == Some(all)
    ensures OnlyOf(ends, true, |first.subject|, all)
  {
    hide WellFormed, Inlined, Seamless, OnlyEnds, EndsAt, StartsFrom, GoesOn;
    MeaningIsEnds(second, 1, call2, found);
    MeaningIsEnds(whole, 1, call, all);
    var n := |first.subject|;
    forall q <- ends ensures q >= 0 && n + q in all {
      EndIsAmong(second, call2, ends, 1, found, q);
      RestartedEndIsEnd(whole, first, second, Inlined(whole, 0), Inlined(first, 0), Inlined(second, 0), call, call2, q);
    }
  }

  lemma SeamIsStartedFrom(whole: Env, first: Env, second: Env, call: Call, call2: Call, saved: seq<Block>)
    requires Parts(whole, first, second) && 0 in whole.code.brackets && !whole.code.brackets[0].behind
    requires call == CallAt(first, 0, 0).(som := call.som) && call2 == Call(0, call2.som, Images(saved, 0))
    requires SameStart(first.code, |first.subject|, call.som, call2.som)
    requires Images(saved, |first.subject|) == ShiftAll(Images(saved, 0), |first.subject|)
    requires AllInside(first, 0, Images(saved, |first.subject|), |first.subject|)
    requires OnlyArriving(first, call, set c | c in Images(saved, |first.subject|))
    ensures StartsFrom(first, Inlined(first, 0), call, call2)
  {
    PartsArePlain(whole, first, second);
    hide WellFormed, Inlined, Arrives, Images, Seamless, SameStart, Plain, ReachedIn, Step;
    var n := |first.subject|;
    StartsInside(first, call.som, 0);
    PlainCallsHaveAMeaning(first, call);
    assert Defined(first, Inlined(first, 0), call);
    forall c <- call2.init ensures Arrives(first, Inlined(first, 0), call, n, Shifted(c, n)) {
      ShiftedIsIn(Images(saved, 0), n, c);
      assert Inside(first, 0, Shifted(c, n));
    }
  }

  lemma FoundAll(whole: Env, som: int, n: nat, restarted: bool, ends: seq<int>, all: seq<int>)
    requires ValidEnv(whole) && 0 in whole.code.brackets
    requires Inlined(whole, 1)(CallAt(whole, 0, 0).(som := som)) == Some(all)
    requires AllOrRest(ends, restarted, n, all)
    ensures FoundInParts(whole, som, n, restarted, ends)
  {
    hide ValidEnv, Inlined, AllOrRest;
    assert Means(whole, CallAt(whole, 0, 0).(som := som), all);
  }

  lemma StartsInside(env: Env, som: int, p: int)
    requires ValidEnv(env) && 0 in env.code.brackets && 0 <= p <= |env.subject|
    ensures AllInside(env, 0, CallAt(env, 0, p).(som := som).init, 0)
  {
    hide WellFormed, AllInside;
    EveryBracketIsOk(env, 0);
    StartIsInside(env, 0, env.code.brackets[0].entries, p, 0);
  }

  lemma WholeMeaning(whole: Env, first: Env, second: Env, som: int) returns (all: seq<int>)
    requires Parts(whole, first, second) && 0 in whole.code.brackets && !whole.code.brackets[0].behind
    ensures Inlined(whole, 1)(CallAt(whole, 0, 0).(som := som)) == Some(all)
  {
    PartsArePlain(whole, first, second);
    hide WellFormed, Inlined, AllInside, Seamless, Plain;
    var call := CallAt(whole, 0, 0).(som := som);
    StartsInside(whole, som, 0);
    PlainCallsHaveAMeaning(whole, call);
    all := Inlined(whole, 1)(call).value;
  }

  lemma PlainIsMeant(env: Env, call: Call)
    requires ValidEnv(env) && Plain(env.code) && call.open in env.code.brackets
    requires AllInside(env, call.open, call.init, 0)
    ensures !Meaningless(env, call)
  {
    hide ValidEnv, Inlined, AllInside, Plain;
    PlainCallsHaveAMeaning(env, call);
  }

  lemma NothingNested(env: Env)
    requires ValidEnv(env) && Plain(env.code)
    ensures Contained(env) && 0 in env.code.brackets && !env.code.brackets[0].behind
  {
  }

  /** The states that the first call left start a second call that has room. */
  lemma SavedIsRoomy(whole: Env, first: Env, second: Env, call: Call, call2: Call, saved: seq<Block>, capacity: nat)
    requires Parts(whole, first, second) && FitsInParts(first, second, capacity) && Plain(second.code)
    requires call.open == call2.open == 0 && call.init == CallAt(first, 0, 0).init && call2.init == Images(saved, 0)
    requires Images(saved, |first.subject|) == ShiftAll(Images(saved, 0), |first.subject|)
    requires IsFew(first, call, Images(saved, |first.subject|))
    requires AllInside(first, 0, Images(saved, |first.subject|), |first.subject|) && AllInside(second, 0, call2.init, 0)
    ensures Roomy(second, call2, capacity)
  {
    hide WellFormed, Load, Counts, Seamless, Images, Tame;
    var n, shifted := |first.subject|, Images(saved, |first.subject|);
    StartsAreFew(first.code.brackets[0].entries, 0);
    MostIsAtMost(call.init, 0);
    forall c <- call2.init
      ensures c.off in second.code.items && 0 <= c.count <= n && c.count < Counts(second.code.items[c.off], n)
      ensures c.pos >= 0
    {
      var i :| 0 <= i < |call2.init| && call2.init[i] == c;
      assert shifted[i] in shifted && shifted[i] == Shifted(c, n);
      SavedIsTame(first, call, shifted[i], n);
      assert Inside(second, 0, c);
    }
    MostIsAtMost(call2.init, n);
    forall c <- call2.init ensures Tame(second, call2, c) {
      IsTame(second, call2, c, n);
    }
    var close := second.code.brackets[0].close;
    LoadGrows(second.code.items, Reach(second, call2), n + |second.subject|, ForHere, 0, close);
    LoadGrows(second.code.items, Reach(second, call2), n + |second.subject|, ForLater, 0, close);
    LoadGrows(second.code.items, Reach(second, call2), n + |second.subject|, ForWait, 0, close);
  }

  lemma SavedIsTame(env: Env, call: Call, c: Config, n: nat)
    requires Tame(env, call, c) && MostCount(call.init) == 0 && |env.subject| == n
    requires 0 in env.code.brackets && Inside(env, 0, c)
    ensures 0 <= c.count <= n && c.count < Counts(env.code.items[c.off], n)
  {
    hide Counts;
  }

  lemma IsTame(env: Env, call: Call, c: Config, n: nat)
    requires c in call.init && c.off in env.code.items && c.pos >= 0 && 0 <= c.count < Counts(env.code.items[c.off], n)
    ensures Tame(env, call, c)
  {
    hide Counts;
    CountsStay(env.code.items[c.off], n, Reach(env, call), c.count);
  }

  /** At the seam no saved state waits for more characters, so each fits the start of the second part. */
  lemma SavedFitsSecond(whole: Env, first: Env, second: Env, saved: seq<Block>)
    requires Parts(whole, first, second) && 0 in first.code.brackets
    requires AllInside(first, 0, Images(saved, |first.subject|), |first.subject|)
    ensures AllInside(second, 0, Images(saved, 0), 0)
    ensures Images(saved, |first.subject|) == ShiftAll(Images(saved, 0), |first.subject|)
  {
    hide WellFormed, ValidEnv;
    forall i | 0 <= i < |saved| ensures Inside(second, 0, Images(saved, 0)[i]) && Images(saved, 0)[i].pos >= 0 {
      assert Images(saved, |first.subject|)[i] in Images(saved, |first.subject|);
    }
  }

  lemma SeamIsTakenOver(whole: Env, first: Env, second: Env, depth: nat, call: Call, call2: Call, saved: seq<Block>)
    requires Parts(whole, first, second) && 0 in first.code.brackets
    requires Images(saved, |first.subject|) == ShiftAll(Images(saved, 0), |first.subject|)
    requires Saves(first, depth, call, saved)
    requires call == CallAt(first, 0, 0).(som := call.som) && call2 == Call(0, call2.som, Images(saved, 0))
    requires SameStart(first.code, |first.subject|, call.som, call2.som)
    ensures TakesOver(first, Inlined(first, depth), call, call2)
  {
    hide WellFormed, Inlined, Arrives, Images, Seamless, SameStart;
    var n := |first.subject|;
    forall c ensures c in call2.init <==> Arrives(first, Inlined(first, depth), call, n, Shifted(c, n)) {
      ShiftedIsIn(Images(saved, 0), n, c);
    }
    EveryBracketIsOk(first, 0);
    StartIsInside(first, 0, first.code.brackets[0].entries, 0, 0);
  }

  // ---------------------------------------------------------------- without nested calls there is always a meaning

  lemma PlainStep(env: Env, nested: Nested, call: Call, b: Config)
    requires ValidEnv(env) && Plain(env.code) && call.open in env.code.brackets && Inside(env, call.open, b)
    ensures var out := Step(env, nested, call, b);
            out.Go? && AllInside(env, call.open, out.here, 0) && AllInside(env, call.open, out.later, 0)
  {
    if b.off != env.code.brackets[call.open].close {
      var out := StepWith(env, call.som, b, []);
      assert Step(env, nested, call, b) == out by { hide WellFormed, AllInside; }
      StepStaysInside(env, call.open, call.som, b, []);
    }
  }

  lemma {:induction false} ReachedIsInside(env: Env, nested: Nested, call: Call, n: nat, c: Config)
    requires ValidEnv(env) && Plain(env.code) && call.open in env.code.brackets
    requires AllInside(env, call.open, call.init, 0)
    requires ReachedIn(env, nested, call, n, c)
    ensures Inside(env, call.open, c)
  {
    hide ValidEnv, Step, Inside, Plain;
    if n > 0 {
      var b :| Steps(env, nested, call, b, c) && ReachedIn(env, nested, call, n - 1, b);
      ReachedIsInside(env, nested, call, n - 1, b);
      PlainStep(env, nested, call, b);
    }
  }

  /** No step stops, so inlining is not needed and every call has a meaning. */
  lemma PlainCallsHaveAMeaning(env: Env, call: Call)
    requires ValidEnv(env) && Plain(env.code) && call.open in env.code.brackets
    requires AllInside(env, call.open, call.init, 0)
    ensures Inlined(env, 1)(call).Some?
  {
    hide ValidEnv, Step, Inside, AllInside, ReachedIn, Plain;
    var nested := Inlined(env, 0);
    forall c | Reached(env, nested, call, c) ensures Step(env, nested, call, c).Go? {
      var n: nat :| ReachedIn(env, nested, call, n, c);
      ReachedIsInside(env, nested, call, n, c);
      PlainStep(env, nested, call, c);
    }
  }
}
