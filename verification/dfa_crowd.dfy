/** How many places the lists of a call need, counted from the states that the call can reach; and what follows
    for nested calls: which of them fail, and where that makes an assertion go wrong. */
module DfaCrowd {
  import opened DfaProgram
  import opened DfaSemantics
  import opened DfaStates
  import opened DfaCoverage

  // ---------------------------------------------------------------- states that wait

  /** How many of the configurations are at position q or later. */
  ghost function Ahead(cs: seq<Config>, q: int): (n: nat)
    ensures n <= |cs|
  {
    if cs == [] then 0 else Ahead(cs[..|cs| - 1], q) + if cs[|cs| - 1].pos >= q then 1 else 0
  }

  lemma {:induction false} AheadJoins(a: seq<Config>, b: seq<Config>, q: int)
    ensures Ahead(a + b, q) == Ahead(a, q) + Ahead(b, q)
  {
    if b == [] {
      assert a + b == a;
    } else {
      var last := |b| - 1;
      AheadJoins(a, b[..last], q);
      assert (a + b)[..|a + b| - 1] == a + b[..last];
    }
  }

  lemma {:induction false} NoneAhead(cs: seq<Config>, q: int)
    requires forall c <- cs :: c.pos < q
    ensures Ahead(cs, q) == 0
  {
    if cs != [] {
      assert cs[|cs| - 1] in cs;
      NoneAhead(cs[..|cs| - 1], q);
    }
  }

  lemma {:induction false} AllAhead(cs: seq<Config>, q: int)
    requires forall c <- cs :: c.pos >= q
    ensures Ahead(cs, q) == |cs|
  {
    if cs != [] {
      assert cs[|cs| - 1] in cs;
      AllAhead(cs[..|cs| - 1], q);
    }
  }

  /** The first of the states that are left, and the others. */
  lemma AheadOn(here: seq<Config>, i: nat, q: int)
    requires i < |here|
    ensures Ahead(here[i..], q) == Ahead(here[i + 1..], q) + if here[i].pos >= q then 1 else 0
  {
    AheadJoins([here[i]], here[i + 1..], q);
    assert here[i..] == [here[i]] + here[i + 1..];
    assert [here[i]][..0] == [];
  }

  // ---------------------------------------------------------------- possessive ranges

  /** A possessive range takes a state back even when its count is still too low to have added one. */
  predicate TakesTooMuch(count: int, passes: bool, q: Quantifier, possessive: bool) {
    possessive && passes && q.Range? && 0 <= count < q.low
  }

  /** No possessive range asks for a minimum: then none ever takes too much. */
  ghost predicate NoMinimums(code: Code) {
    forall o <- code.items :: code.items[o].Repeat? && code.items[o].possessive && code.items[o].quantifier.Range? ==>
      code.items[o].quantifier.low <= 0
  }

  /** The item at c takes too much there. */
  predicate TooMuch(env: Env, c: Config)
    requires ValidEnv(env) && c.off in env.code.items && 0 <= c.pos <= |env.subject|
  {
    match env.code.items[c.off]
    case Repeat(t, q, possessive, _) =>
      TakesTooMuch(c.count, c.pos < |env.subject| && Passes(env, t, c.pos), q, possessive)
    case _ => false
  }

  // ---------------------------------------------------------------- the places that states take

  predicate IsPossessive(env: Env, c: Config) {
    c.off in env.code.items && env.code.items[c.off].Repeat? && env.code.items[c.off].possessive
  }

  predicate NoPossessive(code: Code) {
    forall o <- code.items :: code.items[o].Repeat? ==> !code.items[o].possessive
  }

  /** The places that a step takes in the active list, one of them for a moment only when the repeat is possessive. */
  function Takes(env: Env, c: Config, out: Outcome): nat
    requires out.Go?
  {
    if IsPossessive(env, c) then 1 else |out.here|
  }

  /** The places that processing c takes in the active list of position p. */
  ghost function Left(env: Env, nested: Nested, call: Call, c: Config, p: int): nat
    requires ValidEnv(env)
  {
    var out := Step(env, nested, call, c);
    if out.Stop? then 0
    else if c.pos < p then Ahead(out.later, p)
    else if c.pos == p then Takes(env, c, out)
    else 0
  }

  ghost function Sum(env: Env, nested: Nested, call: Call, cs: set<Config>, p: int): nat
    requires ValidEnv(env)
  {
    if cs == {} then 0
    else
      var c :| c in cs;
      Left(env, nested, call, c, p) + Sum(env, nested, call, cs - {c}, p)
  }

  lemma {:induction false} SumAt(env: Env, nested: Nested, call: Call, cs: set<Config>, c: Config, p: int)
    requires ValidEnv(env) && c in cs
    ensures Sum(env, nested, call, cs, p) == Left(env, nested, call, c, p) + Sum(env, nested, call, cs - {c}, p)
    decreases cs
  {
    hide ValidEnv, Left;
    var d :|
      d in cs && Sum(env, nested, call, cs, p) == Left(env, nested, call, d, p) + Sum(env, nested, call, cs - {d}, p);
    if d != c {
      SumAt(env, nested, call, cs - {d}, c, p);
      SumAt(env, nested, call, cs - {c}, d, p);
      assert cs - {d} - {c} == cs - {c} - {d};
    }
  }

  lemma SumOn(env: Env, nested: Nested, call: Call, cs: set<Config>, c: Config, p: int)
    requires ValidEnv(env) && c !in cs
    ensures Sum(env, nested, call, cs + {c}, p) == Sum(env, nested, call, cs, p) + Left(env, nested, call, c, p)
  {
    hide ValidEnv, Left, Sum;
    SumAt(env, nested, call, cs + {c}, c, p);
    assert cs + {c} - {c} == cs;
  }

  /** More states, of which more is known, take no fewer places. */
  lemma {:induction false} SumGrows(env: Env, a: Nested, b: Nested, call: Call, cs: set<Config>, ds: set<Config>,
                                    p: int)
    requires ValidEnv(env) && Knows(a, b) && cs <= ds
    ensures Sum(env, a, call, cs, p) <= Sum(env, b, call, ds, p)
    decreases cs
  {
    hide ValidEnv, Left, Knows;
    if cs != {} {
      var c :| c in cs;
      SumAt(env, a, call, cs, c, p);
      SumAt(env, b, call, ds, c, p);
      LeftGrows(env, a, b, call, c, p);
      SumGrows(env, a, b, call, cs - {c}, ds - {c}, p);
    }
  }

  lemma LeftGrows(env: Env, a: Nested, b: Nested, call: Call, c: Config, p: int)
    requires ValidEnv(env) && Knows(a, b)
    ensures Left(env, a, call, c, p) <= Left(env, b, call, c, p)
    ensures Step(env, a, call, c).Go? ==> Left(env, a, call, c, p) == Left(env, b, call, c, p)
  {
    hide ValidEnv, Step, Knows, Takes;
    if Step(env, a, call, c).Go? { StepIsMonotonic(env, a, b, call, c); }
  }

  lemma {:induction false} SumKnowing(env: Env, a: Nested, b: Nested, call: Call, cs: set<Config>, p: int)
    requires ValidEnv(env) && Knows(a, b) && forall c <- cs :: Step(env, a, call, c).Go?
    ensures Sum(env, a, call, cs, p) == Sum(env, b, call, cs, p)
    decreases cs
  {
    hide ValidEnv, Left, Knows, Step;
    if cs != {} {
      var c :| c in cs;
      SumAt(env, a, call, cs, c, p);
      SumAt(env, b, call, cs, c, p);
      LeftGrows(env, a, b, call, c, p);
      SumKnowing(env, a, b, call, cs - {c}, p);
    }
  }

  /** The places that these states and the starts take in the active list of position p. */
  ghost function Places(env: Env, nested: Nested, call: Call, cs: set<Config>, p: int): nat
    requires ValidEnv(env)
  {
    Ahead(call.init, p) + Sum(env, nested, call, cs, p)
  }

  lemma PlacesOn(env: Env, nested: Nested, call: Call, cs: set<Config>, c: Config, p: int)
    requires ValidEnv(env) && c !in cs
    ensures Places(env, nested, call, cs + {c}, p) == Places(env, nested, call, cs, p) + Left(env, nested, call, c, p)
  {
    hide ValidEnv, Sum, Left;
    SumOn(env, nested, call, cs, c, p);
  }

  // ---------------------------------------------------------------- the accounting of a scan

  /** The states before i have been processed at position p: the active list is as long as they make it, and what
      waits for a later position is what they have left for it. */
  ghost predicate Packed(env: Env, nested: Nested, call: Call, capacity: nat, p: int, i: nat,
                         here: seq<Config>, next: seq<Config>, done: set<Config>)
    requires ValidEnv(env) && i <= |here|
  {
    && |here| <= Places(env, nested, call, done, p)
    && (NoPossessive(env.code) ==> |here| == Places(env, nested, call, done, p))
    && (forall q :: q > p ==> Ahead(next, q) + Ahead(here[i..], q) == Places(env, nested, call, done, q))
    && |next| == Ahead(next, p + 1)
    && (NoPossessive(env.code) ==> forall q :: q < p ==> Places(env, nested, call, done, q) <= capacity)
  }

  lemma PackedAtStart(env: Env, nested: Nested, call: Call, capacity: nat, start: int)
    requires ValidEnv(env) && |call.init| <= capacity && forall c <- call.init :: c.pos >= start
    ensures Packed(env, nested, call, capacity, start, 0, call.init, [], {})
  {
    hide ValidEnv;
    assert call.init[0..] == call.init;
    forall q | q <= start ensures Ahead(call.init, q) == |call.init| { AllAhead(call.init, q); }
  }

  /** A state that waits is passed on. */
  lemma PackedSkip(env: Env, nested: Nested, call: Call, capacity: nat, p: int, i: nat,
                   here: seq<Config>, next: seq<Config>, done: set<Config>)
    requires ValidEnv(env) && i < |here| && Packed(env, nested, call, capacity, p, i, here, next, done)
    requires here[i].pos > p
    ensures Packed(env, nested, call, capacity, p, i + 1, here, next + [here[i]], done)
    ensures |next| < Places(env, nested, call, done, p + 1)
  {
    hide ValidEnv, Places;
    var next' := next + [here[i]];
    forall q | q > p ensures Ahead(next', q) + Ahead(here[i + 1..], q) == Ahead(next, q) + Ahead(here[i..], q) {
      AheadOn(here, i, q);
      assert next'[..|next|] == next;
    }
    assert next'[..|next|] == next;
    AheadOn(here, i, p + 1);
  }

  /** A state is done with, and has added nothing. */
  lemma PackedPass(env: Env, nested: Nested, call: Call, capacity: nat, p: int, i: nat,
                   here: seq<Config>, next: seq<Config>, done: set<Config>)
    requires ValidEnv(env) && i < |here| && Packed(env, nested, call, capacity, p, i, here, next, done)
    requires here[i].pos <= p
    ensures Packed(env, nested, call, capacity, p, i + 1, here, next, done)
  {
    hide ValidEnv, Places;
    forall q | q > p ensures Ahead(here[i + 1..], q) == Ahead(here[i..], q) {
      AheadOn(here, i, q);
    }
  }

  /** A state is processed, its step added. */
  lemma PackedStep(env: Env, nested: Nested, call: Call, capacity: nat, p: int, i: nat,
                   here: seq<Config>, next: seq<Config>, done: set<Config>, out: Outcome)
    requires ValidEnv(env) && i < |here| && Packed(env, nested, call, capacity, p, i, here, next, done)
    requires here[i].pos == p && here[i] !in done && Step(env, nested, call, here[i]) == out && out.Go?
    requires (forall s <- out.here :: s.pos == p) && forall s <- out.later :: s.pos > p
    requires |out.here| <= Takes(env, here[i], out)
    requires NoPossessive(env.code) ==> |out.here| == Takes(env, here[i], out)
    ensures Packed(env, nested, call, capacity, p, i + 1, here + out.here, next + out.later, done + {here[i]})
  {
    hide ValidEnv, Step, Places, Takes, NoPossessive;
    var c := here[i];
    PackedPass(env, nested, call, capacity, p, i, here, next, done);
    assert (here + out.here)[i + 1..] == here[i + 1..] + out.here;
    forall q
      ensures Places(env, nested, call, done + {c}, q)
           == Places(env, nested, call, done, q) + Left(env, nested, call, c, q)
    {
      PlacesOn(env, nested, call, done, c, q);
    }
    forall q | q > p
      ensures Ahead(next + out.later, q) == Ahead(next, q) + Ahead(out.later, q)
      ensures Ahead((here + out.here)[i + 1..], q) == Ahead(here[i + 1..], q)
    {
      AheadJoins(next, out.later, q);
      AheadJoins(here[i + 1..], out.here, q);
      NoneAhead(out.here, q);
    }
    AllAhead(out.later, p + 1);
  }

  /** With a position behind it, the new list becomes the active one. */
  lemma PackedNext(env: Env, nested: Nested, call: Call, capacity: nat, p: int,
                   here: seq<Config>, next: seq<Config>, done: set<Config>)
    requires ValidEnv(env) && Packed(env, nested, call, capacity, p, |here|, here, next, done) && |here| <= capacity
    ensures Packed(env, nested, call, capacity, p + 1, 0, next, [], done)
  {
    hide ValidEnv, Places, NoPossessive;
    assert here[|here|..] == [] && next[0..] == next;
  }

  /** The last state, which has been processed, is taken back. */
  lemma PackedDrop(env: Env, nested: Nested, call: Call, capacity: nat, p: int,
                   here: seq<Config>, next: seq<Config>, done: set<Config>)
    requires ValidEnv(env) && here != [] && Packed(env, nested, call, capacity, p, |here|, here, next, done)
    requires !NoPossessive(env.code)
    ensures Packed(env, nested, call, capacity, p, |here| - 1, here[..|here| - 1], next, done)
  {
    hide ValidEnv, Places, NoPossessive;
    assert here[|here|..] == [] && here[..|here| - 1][|here| - 1..] == [];
  }

  lemma PlacesKnowing(env: Env, a: Nested, b: Nested, call: Call, cs: set<Config>, p: int)
    requires ValidEnv(env) && Knows(a, b) && forall c <- cs :: Step(env, a, call, c).Go?
    ensures Places(env, a, call, cs, p) == Places(env, b, call, cs, p)
  {
    hide ValidEnv, Sum, Knows, Step;
    SumKnowing(env, a, b, call, cs, p);
  }

  lemma PackedKnowing(env: Env, a: Nested, b: Nested, call: Call, capacity: nat, p: int, i: nat,
                      here: seq<Config>, next: seq<Config>, done: set<Config>)
    requires ValidEnv(env) && i <= |here| && Packed(env, a, call, capacity, p, i, here, next, done)
    requires Knows(a, b) && forall c <- done :: Step(env, a, call, c).Go?
    ensures Packed(env, b, call, capacity, p, i, here, next, done)
  {
    hide ValidEnv, Step, Places, Knows, NoPossessive;
    forall q ensures Places(env, a, call, done, q) == Places(env, b, call, done, q) {
      PlacesKnowing(env, a, b, call, done, q);
    }
    assert |here| <= Places(env, b, call, done, p);
  }

  // ---------------------------------------------------------------- which calls fail

  /** The ints of the vector that a nested call gets, and the matches that a recursion can report. */
  const LOCAL_WORKSPACE := 1000
  const LOCAL_MATCHES := 500

  /** Some depth of inlining suffices to reach c. */
  ghost predicate CanReach(env: Env, call: Call, c: Config)
    requires ValidEnv(env)
  {
    exists m: nat :: Reached(env, Inlined(env, m), call, c)
  }

  ghost predicate AllReached(env: Env, nested: Nested, call: Call, cs: set<Config>)
    requires ValidEnv(env)
  {
    forall c <- cs :: Reached(env, nested, call, c)
  }

  /** At some position, states that the call reaches take more places than there are. */
  ghost predicate Crowded(env: Env, call: Call, capacity: nat)
    requires ValidEnv(env)
  {
    exists m: nat, cs: set<Config>, p: int ::
      AllReached(env, Inlined(env, m), call, cs) && Places(env, Inlined(env, m), call, cs, p) > capacity
  }

  /** A call has more ends than a recursion can report. */
  ghost predicate ManyEnds(env: Env, call: Call)
    requires ValidEnv(env)
  {
    exists ends: seq<int> :: Means(env, call, ends) && |ends| > LOCAL_MATCHES
  }

  /** c is a state of the call that has a step. */
  predicate IsState(env: Env, call: Call, c: Config) {
    && call.open in env.code.brackets && c.off in env.code.items && 0 <= c.pos <= |env.subject|
    && c.off != env.code.brackets[call.open].close
  }

  /** The recursion at c, if there is one, is refused, or its nested call fails; k bounds the depth of nesting. */
  ghost predicate RecursionFails(env: Env, k: nat, chain: set<(int, int)>, c: Config)
    requires ValidEnv(env) && c.off in env.code.items
    decreases k, 0
  {
    env.code.items[c.off].Recursion?
    && var group, d := env.code.items[c.off].group, NestedCall(env, c).value;
       || (group, c.pos) in chain
       || ManyEnds(env, d)
       || (k > 0 && Fails(env, k - 1, d, chain + {(group, c.pos)}, Capacity(LOCAL_WORKSPACE)))
  }

  /** The call fails: its lists overflow, or a recursion in it fails. */
  ghost predicate Fails(env: Env, k: nat, call: Call, chain: set<(int, int)>, capacity: nat)
    requires ValidEnv(env)
    decreases k, 1
  {
    || Crowded(env, call, capacity)
    || exists c :: CanReach(env, call, c) && IsState(env, call, c) && RecursionFails(env, k, chain, c)
  }

  /** Processing c can go wrong: a possessive range takes too much there, or the nested call for c is made for an
      assertion and fails, or can itself go wrong. */
  ghost predicate UnsafeAt(env: Env, k: nat, chain: set<(int, int)>, c: Config)
    requires ValidEnv(env) && c.off in env.code.items && 0 <= c.pos <= |env.subject|
    decreases k, 0
  {
    || TooMuch(env, c)
    || (k > 0
        && match env.code.items[c.off]
           case Assertion(_, _) =>
             var d := NestedCall(env, c).value;
             Fails(env, k - 1, d, chain, Capacity(LOCAL_WORKSPACE)) || Unsafe(env, k - 1, d, chain)
           case Recursion(_, group, _) =>
             Unsafe(env, k - 1, NestedCall(env, c).value, chain + {(group, c.pos)})
           case _ => false)
  }

  /** The call reaches a state that can go wrong, in itself or in a nested call. */
  ghost predicate Unsafe(env: Env, k: nat, call: Call, chain: set<(int, int)>)
    requires ValidEnv(env)
    decreases k, 1
  {
    exists c :: CanReach(env, call, c) && IsState(env, call, c) && UnsafeAt(env, k, chain, c)
  }

  /** The same, whatever the depth of nesting. */
  ghost predicate CanFail(env: Env, call: Call, chain: set<(int, int)>, capacity: nat)
    requires ValidEnv(env)
  {
    exists k: nat :: Fails(env, k, call, chain, capacity)
  }

  ghost predicate CanBeUnsafe(env: Env, call: Call, chain: set<(int, int)>)
    requires ValidEnv(env)
  {
    exists k: nat :: Unsafe(env, k, call, chain)
  }

  ghost predicate RecursionCanFail(env: Env, chain: set<(int, int)>, c: Config)
    requires ValidEnv(env) && c.off in env.code.items
  {
    exists k: nat :: RecursionFails(env, k, chain, c)
  }

  ghost predicate CanBeUnsafeAt(env: Env, chain: set<(int, int)>, c: Config)
    requires ValidEnv(env) && c.off in env.code.items && 0 <= c.pos <= |env.subject|
  {
    exists k: nat :: UnsafeAt(env, k, chain, c)
  }

  lemma CrowdedFails(env: Env, call: Call, chain: set<(int, int)>, capacity: nat)
    requires ValidEnv(env) && Crowded(env, call, capacity)
    ensures CanFail(env, call, chain, capacity)
  {
    hide ValidEnv, Crowded;
    assert Fails(env, 0, call, chain, capacity);
  }

  lemma RecursionInCallFails(env: Env, call: Call, chain: set<(int, int)>, capacity: nat, c: Config)
    requires ValidEnv(env) && CanReach(env, call, c) && IsState(env, call, c) && RecursionCanFail(env, chain, c)
    ensures CanFail(env, call, chain, capacity)
  {
    hide ValidEnv, CanReach, RecursionFails, Crowded;
    var k: nat :| RecursionFails(env, k, chain, c);
    assert Fails(env, k, call, chain, capacity);
  }

  lemma StateIsUnsafe(env: Env, call: Call, chain: set<(int, int)>, c: Config)
    requires ValidEnv(env) && CanReach(env, call, c) && IsState(env, call, c) && CanBeUnsafeAt(env, chain, c)
    ensures CanBeUnsafe(env, call, chain)
  {
    hide ValidEnv, CanReach, UnsafeAt;
    var k: nat :| UnsafeAt(env, k, chain, c);
    assert Unsafe(env, k, call, chain);
  }

  lemma TooMuchIsUnsafe(env: Env, chain: set<(int, int)>, c: Config)
    requires ValidEnv(env) && c.off in env.code.items && 0 <= c.pos <= |env.subject| && TooMuch(env, c)
    ensures CanBeUnsafeAt(env, chain, c)
  {
    hide ValidEnv, TooMuch;
    assert UnsafeAt(env, 0, chain, c);
  }

  /** The nested call of an assertion that fails, or is unsafe, makes the assertion so. */
  lemma AssertionIsUnsafe(env: Env, chain: set<(int, int)>, c: Config)
    requires ValidEnv(env) && c.off in env.code.items && 0 <= c.pos <= |env.subject| && env.code.items[c.off].Assertion?
    requires var d := NestedCall(env, c).value;
             CanFail(env, d, chain, Capacity(LOCAL_WORKSPACE)) || CanBeUnsafe(env, d, chain)
    ensures CanBeUnsafeAt(env, chain, c)
  {
    hide WellFormed, Fails, Unsafe, CallAt;
    var d := NestedCall(env, c).value;
    if CanFail(env, d, chain, Capacity(LOCAL_WORKSPACE)) {
      var k: nat :| Fails(env, k, d, chain, Capacity(LOCAL_WORKSPACE));
      assert UnsafeAt(env, k + 1, chain, c);
    } else {
      var k: nat :| Unsafe(env, k, d, chain);
      assert UnsafeAt(env, k + 1, chain, c);
    }
  }

  lemma RecursionIsUnsafe(env: Env, chain: set<(int, int)>, c: Config)
    requires ValidEnv(env) && c.off in env.code.items && 0 <= c.pos <= |env.subject| && env.code.items[c.off].Recursion?
    requires CanBeUnsafe(env, NestedCall(env, c).value, chain + {(env.code.items[c.off].group, c.pos)})
    ensures CanBeUnsafeAt(env, chain, c)
  {
    hide Unsafe, CallAt;
    var k: nat :| Unsafe(env, k, NestedCall(env, c).value, chain + {(env.code.items[c.off].group, c.pos)});
    assert UnsafeAt(env, k + 1, chain, c);
  }

  lemma RecursionMakesFail(env: Env, chain: set<(int, int)>, c: Config)
    requires ValidEnv(env) && c.off in env.code.items && env.code.items[c.off].Recursion?
    requires var group, d := env.code.items[c.off].group, NestedCall(env, c).value;
             || (group, c.pos) in chain
             || ManyEnds(env, d)
             || CanFail(env, d, chain + {(group, c.pos)}, Capacity(LOCAL_WORKSPACE))
    ensures RecursionCanFail(env, chain, c)
  {
    hide ManyEnds, Fails, CallAt;
    var group, d := env.code.items[c.off].group, NestedCall(env, c).value;
    if (group, c.pos) in chain || ManyEnds(env, d) {
      assert RecursionFails(env, 0, chain, c);
    } else {
      var k: nat :| Fails(env, k, d, chain + {(group, c.pos)}, Capacity(LOCAL_WORKSPACE));
      assert RecursionFails(env, k + 1, chain, c);
    }
  }

  /** The nested call for c, if there is one, does not fail, nor does it make an assertion go wrong. */
  ghost predicate Safe(env: Env, chain: set<(int, int)>, c: Config)
    requires ValidEnv(env) && c.off in env.code.items && 0 <= c.pos <= |env.subject|
  {
    !RecursionCanFail(env, chain, c) && !CanBeUnsafeAt(env, chain, c)
  }

  ghost predicate AllSafe(env: Env, call: Call, chain: set<(int, int)>, cs: set<Config>)
    requires ValidEnv(env)
  {
    forall c <- cs :: IsState(env, call, c) ==> Safe(env, chain, c)
  }

  lemma PlainIsSafe(env: Env, chain: set<(int, int)>, c: Config)
    requires ValidEnv(env) && c.off in env.code.items && 0 <= c.pos <= |env.subject| && NestedCall(env, c).None?
    requires NoPossessive(env.code)
    ensures Safe(env, chain, c)
  {
    hide WellFormed, Fails, Unsafe;
  }

  lemma AssertionIsSafe(env: Env, chain: set<(int, int)>, c: Config)
    requires ValidEnv(env) && c.off in env.code.items && 0 <= c.pos <= |env.subject| && env.code.items[c.off].Assertion?
    requires var d := NestedCall(env, c).value;
             !CanFail(env, d, chain, Capacity(LOCAL_WORKSPACE)) && !CanBeUnsafe(env, d, chain)
    ensures Safe(env, chain, c)
  {
    hide WellFormed, Fails, Unsafe, CallAt;
    var d := NestedCall(env, c).value;
    forall k: nat ensures !UnsafeAt(env, k, chain, c) {
      if k > 0 {
        assert !Fails(env, k - 1, d, chain, Capacity(LOCAL_WORKSPACE)) && !Unsafe(env, k - 1, d, chain);
      }
    }
  }

  lemma RecursionIsSafe(env: Env, chain: set<(int, int)>, c: Config)
    requires ValidEnv(env) && c.off in env.code.items && 0 <= c.pos <= |env.subject| && env.code.items[c.off].Recursion?
    requires var group, d := env.code.items[c.off].group, NestedCall(env, c).value;
             && (group, c.pos) !in chain
             && !ManyEnds(env, d)
             && !CanFail(env, d, chain + {(group, c.pos)}, Capacity(LOCAL_WORKSPACE))
             && !CanBeUnsafe(env, d, chain + {(group, c.pos)})
    ensures Safe(env, chain, c)
  {
    hide WellFormed, Fails, Unsafe, CallAt, ManyEnds;
    var group, d := env.code.items[c.off].group, NestedCall(env, c).value;
    forall k: nat ensures !UnsafeAt(env, k, chain, c) && !RecursionFails(env, k, chain, c) {
      if k > 0 {
        assert !Fails(env, k - 1, d, chain + {(group, c.pos)}, Capacity(LOCAL_WORKSPACE));
        assert !Unsafe(env, k - 1, d, chain + {(group, c.pos)});
      }
    }
  }

  /** A call whose states are safe, and take no more places than there are, neither fails nor is unsafe. */
  lemma SafeCannotFail(env: Env, m: nat, call: Call, chain: set<(int, int)>, capacity: nat, done: set<Config>)
    requires ValidEnv(env) && !Crowded(env, call, capacity) && AllSafe(env, call, chain, done)
    requires Defined(env, Inlined(env, m), call)
    requires forall c :: Reached(env, Inlined(env, m), call, c) <==> c in done
    ensures !CanFail(env, call, chain, capacity) && !CanBeUnsafe(env, call, chain)
  {
    hide ValidEnv, Crowded, Reached, Inlined, Defined, RecursionFails, UnsafeAt;
    forall c | CanReach(env, call, c) && IsState(env, call, c) ensures Safe(env, chain, c) {
      var k: nat :| Reached(env, Inlined(env, k), call, c);
      ReachedWhereDefined(env, k, m, call, c);
    }
    forall k: nat ensures !Fails(env, k, call, chain, capacity) && !Unsafe(env, k, call, chain) {}
  }

  lemma ReachedWhereDefined(env: Env, k: nat, m: nat, call: Call, c: Config)
    requires ValidEnv(env) && Reached(env, Inlined(env, k), call, c) && Defined(env, Inlined(env, m), call)
    ensures Reached(env, Inlined(env, m), call, c)
  {
    hide ValidEnv, Step, Inlined, Reached, Defined;
    var most := if k <= m then m else k;
    InliningIsMonotonic(env, k, most);
    InliningIsMonotonic(env, m, most);
    SameReached(env, Inlined(env, m), Inlined(env, most), call);
    StaysReached(env, Inlined(env, k), Inlined(env, most), call, c);
  }

  // ---------------------------------------------------------------- overflow, and the lack of it

  /** There is no room for what a new state needs. */
  lemma OverflowIsCrowded(env: Env, m: nat, call: Call, capacity: nat, p: int, i: nat,
                          here: seq<Config>, next: seq<Config>, done: set<Config>, out: Outcome)
    requires ValidEnv(env) && i < |here| && Packed(env, Inlined(env, m), call, capacity, p, i, here, next, done)
    requires here[i].pos == p && here[i] !in done && Step(env, Inlined(env, m), call, here[i]) == out && out.Go?
    requires AllReached(env, Inlined(env, m), call, done + {here[i]}) && forall s <- out.later :: s.pos > p
    requires |here| + Takes(env, here[i], out) > capacity || |next| + |out.later| > capacity
    ensures Crowded(env, call, capacity)
  {
    hide ValidEnv, Step, Places, Takes, NoPossessive, Inlined, AllReached;
    var nested, c := Inlined(env, m), here[i];
    PlacesOn(env, nested, call, done, c, p);
    PlacesOn(env, nested, call, done, c, p + 1);
    AllAhead(out.later, p + 1);
    if |here| + Takes(env, c, out) > capacity {
      assert Places(env, nested, call, done + {c}, p) > capacity;
    } else {
      assert Places(env, nested, call, done + {c}, p + 1) > capacity;
    }
  }

  /** There is no room for a state that waits. */
  lemma WaitIsCrowded(env: Env, m: nat, call: Call, capacity: nat, p: int, i: nat,
                      here: seq<Config>, next: seq<Config>, done: set<Config>)
    requires ValidEnv(env) && i < |here| && Packed(env, Inlined(env, m), call, capacity, p, i, here, next, done)
    requires here[i].pos > p && AllReached(env, Inlined(env, m), call, done) && |next| >= capacity
    ensures Crowded(env, call, capacity)
  {
    hide ValidEnv, Places, NoPossessive, Inlined, AllReached, Packed;
    PackedSkip(env, Inlined(env, m), call, capacity, p, i, here, next, done);
    assert Places(env, Inlined(env, m), call, done, p + 1) > capacity;
  }

  /** There is no room for the starts. */
  lemma StartsAreCrowded(env: Env, call: Call, capacity: nat, start: int)
    requires ValidEnv(env) && |call.init| > capacity && forall c <- call.init :: c.pos >= start
    ensures Crowded(env, call, capacity)
  {
    hide ValidEnv, Inlined, Reached;
    AllAhead(call.init, start);
    assert AllReached(env, Inlined(env, 0), call, {});
    assert Places(env, Inlined(env, 0), call, {}, start) > capacity;
  }

  /** A scan that has ended well has not been crowded, when no repeat takes a place for a moment only. */
  lemma EndedIsNotCrowded(env: Env, m: nat, call: Call, capacity: nat, p: int, done: set<Config>)
    requires ValidEnv(env) && NoPossessive(env.code)
    requires Packed(env, Inlined(env, m), call, capacity, p, 0, [], [], done)
    requires Defined(env, Inlined(env, m), call)
    requires forall c :: Reached(env, Inlined(env, m), call, c) <==> c in done
    ensures !Crowded(env, call, capacity)
  {
    hide ValidEnv, Step, Inlined, NoPossessive, Reached;
    forall k: nat, cs: set<Config>, q: int | AllReached(env, Inlined(env, k), call, cs)
      ensures Places(env, Inlined(env, k), call, cs, q) <= capacity
    {
      PlacesAreBounded(env, k, m, call, cs, done, q);
      EndPlaces(env, Inlined(env, m), call, capacity, p, done, q);
    }
  }

  lemma EndPlaces(env: Env, nested: Nested, call: Call, capacity: nat, p: int, done: set<Config>, q: int)
    requires ValidEnv(env) && NoPossessive(env.code) && Packed(env, nested, call, capacity, p, 0, [], [], done)
    ensures Places(env, nested, call, done, q) <= capacity
  {
    hide ValidEnv, Places, NoPossessive;
    var none: seq<Config> := [];
    assert none[0..] == [];
    if q > p { assert Ahead(none, q) + Ahead(none[0..], q) == Places(env, nested, call, done, q); }
  }

  /** What is reached at any depth is reached at one where the call is defined, and takes no more places. */
  lemma PlacesAreBounded(env: Env, k: nat, m: nat, call: Call, cs: set<Config>, done: set<Config>, q: int)
    requires ValidEnv(env) && AllReached(env, Inlined(env, k), call, cs) && Defined(env, Inlined(env, m), call)
    requires forall c :: Reached(env, Inlined(env, m), call, c) <==> c in done
    ensures Places(env, Inlined(env, k), call, cs, q) <= Places(env, Inlined(env, m), call, done, q)
  {
    hide ValidEnv, Step, Inlined, Reached, Sum;
    var most := if k <= m then m else k;
    InliningIsMonotonic(env, k, most);
    InliningIsMonotonic(env, m, most);
    SameReached(env, Inlined(env, m), Inlined(env, most), call);
    forall c <- cs ensures c in done { StaysReached(env, Inlined(env, k), Inlined(env, most), call, c); }
    SumGrows(env, Inlined(env, k), Inlined(env, most), call, cs, done, q);
    SumKnowing(env, Inlined(env, m), Inlined(env, most), call, done, q);
  }
}
