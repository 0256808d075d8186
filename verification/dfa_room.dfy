/** How much room a call needs: a bound on the states that its lists can hold at one position, computed
    from the items of its bracket, and the accounting that shows that the lists stay within it. */
module DfaRoom {
  import opened DfaProgram
  import opened DfaSemantics
  import opened DfaStates
  import opened DfaCrowd
  import opened DfaProgress

  // ---------------------------------------------------------------- the bound

  /** The repeat counts of an item stay below this number, on a subject of n characters. */
  function Counts(it: Item, n: nat): (k: nat)
    ensures k > 0
  {
    match it
    case Repeat(_, Plus, _, _) => n + 1
    case Repeat(_, Upto(high), _, _) => Limited(high, n)
    case Repeat(_, Exact(high), _, _) => Limited(high, n)
    case Repeat(_, Range(_, high), _, _) => if high == 0 then n + 1 else Limited(high, n)
    case _ => 1
  }

  function Limited(high: int, n: nat): (k: nat)
    ensures k > 0
  {
    if high <= 1 then 1 else if high <= n then high else n + 1
  }

  /** What a state can need: places in the active list, places in the new list, and places there for one
      position more, while the second character of a newline sequence passes. */
  datatype Kind = ForHere | ForLater | ForWait

  function Needs(kind: Kind, it: Item): nat {
    match it
    case Jump(ts) => if kind == ForHere then |ts| else 0
    case ZeroWidth(_, _) => if kind == ForHere then 1 else 0
    case Assertion(_, _) => if kind == ForHere then 1 else 0
    case One(_, _) => if kind == ForLater then 1 else 0
    case NewlineSequence(_) => if kind == ForHere then 0 else 1
    case Repeat(_, _, _, _) => if kind == ForWait then 0 else 1
    case _ => 0
  }

  /** What all states of the items at offsets above lo, up to hi, need at one position. */
  function Load(items: map<int, Item>, n: nat, kind: Kind, lo: int, hi: int): nat
    decreases hi - lo
  {
    if hi <= lo then 0
    else Load(items, n, kind, lo, hi - 1) + if hi in items then Counts(items[hi], n) * Needs(kind, items[hi]) else 0
  }

  function BracketLoad(env: Env, g: int, kind: Kind): nat
    requires g in env.code.brackets
  {
    Load(env.code.items, |env.subject|, kind, g, env.code.brackets[g].close)
  }

  predicate NoRecursion(env: Env, g: int)
    requires g in env.code.brackets
  {
    forall o <- env.code.items :: g < o <= env.code.brackets[g].close ==> !env.code.items[o].Recursion?
  }

  /** The bracket at g can be matched, from any position, with lists of this capacity. */
  predicate Fits(env: Env, g: int, capacity: nat) {
    && g in env.code.brackets && NoRecursion(env, g)
    && |env.code.brackets[g].entries| + BracketLoad(env, g, ForHere) + BracketLoad(env, g, ForLater)
       + BracketLoad(env, g, ForWait) <= capacity
  }

  /** Every assertion can be matched with the lists that the code gives it. */
  predicate Contained(env: Env) {
    forall o <- env.code.items :: env.code.items[o].Assertion? ==> Fits(env, o, Capacity(LOCAL_WORKSPACE))
  }

  lemma CountsGrow(it: Item, n: nat, m: nat)
    requires n <= m
    ensures Counts(it, n) <= Counts(it, m)
  {
  }

  /** A count below the one bound that a shorter subject can reach is below that for the shorter subject. */
  lemma CountsStay(it: Item, n: nat, m: nat, k: nat)
    requires k < Counts(it, n) && k <= m
    ensures k < Counts(it, m)
  {
  }

  lemma {:induction false} LoadGrows(items: map<int, Item>, n: nat, m: nat, kind: Kind, lo: int, hi: int)
    requires n <= m
    ensures Load(items, n, kind, lo, hi) <= Load(items, m, kind, lo, hi)
    decreases hi - lo
  {
    hide Counts, Needs;
    if hi > lo {
      LoadGrows(items, n, m, kind, lo, hi - 1);
      if hi in items {
        CountsGrow(items[hi], n, m);
        MoreTimes(Counts(items[hi], n), Counts(items[hi], m), Needs(kind, items[hi]));
      }
    }
  }

  predicate NeedAtMost(items: map<int, Item>, n: nat, kind: Kind, most: nat) {
    forall o <- items :: Counts(items[o], n) * Needs(kind, items[o]) <= most
  }

  /** Items that need little make a small bound. */
  lemma {:induction false} SmallLoad(items: map<int, Item>, n: nat, kind: Kind, lo: int, hi: int, most: nat)
    requires lo <= hi && NeedAtMost(items, n, kind, most)
    ensures Load(items, n, kind, lo, hi) <= most * (hi - lo)
    decreases hi - lo
  {
    hide Counts, Needs;
    if hi > lo {
      SmallLoad(items, n, kind, lo, hi - 1, most);
      SuccTimes(hi - 1 - lo, most);
      assert hi in items ==> Counts(items[hi], n) * Needs(kind, items[hi]) <= most;
      hide NeedAtMost;
    }
  }

  lemma SuccTimes(a: nat, b: nat)
    ensures b * (a + 1) == b * a + b
  {
  }

  /** A bracket without recursions fits when it is short: three times its length, times what its items need. */
  lemma ShortBracketFits(env: Env, g: int, most: nat, capacity: nat)
    requires g in env.code.brackets && NoRecursion(env, g) && g <= env.code.brackets[g].close
    requires NeedAtMost(env.code.items, |env.subject|, ForHere, most)
    requires NeedAtMost(env.code.items, |env.subject|, ForLater, most)
    requires NeedAtMost(env.code.items, |env.subject|, ForWait, most)
    requires |env.code.brackets[g].entries| + 3 * (most * (env.code.brackets[g].close - g)) <= capacity
    ensures Fits(env, g, capacity)
  {
    hide Load, Counts, Needs, NoRecursion, NeedAtMost;
    SmallLoad(env.code.items, |env.subject|, ForHere, g, env.code.brackets[g].close, most);
    SmallLoad(env.code.items, |env.subject|, ForLater, g, env.code.brackets[g].close, most);
    SmallLoad(env.code.items, |env.subject|, ForWait, g, env.code.brackets[g].close, most);
  }

  // ---------------------------------------------------------------- the bound for a call

  /** The highest count among the starts of a call: other than 0 for a restarted one. */
  ghost function MostCount(cs: seq<Config>): (k: nat)
    ensures forall c <- cs :: c.count <= k
  {
    if cs == [] then 0
    else
      var k := MostCount(cs[..|cs| - 1]);
      if cs[|cs| - 1].count > k then cs[|cs| - 1].count else k
  }

  /** No count goes beyond this. */
  ghost function Reach(env: Env, call: Call): nat {
    |env.subject| + MostCount(call.init)
  }

  ghost function CallLoad(env: Env, call: Call, kind: Kind): nat
    requires call.open in env.code.brackets
  {
    Load(env.code.items, Reach(env, call), kind, call.open, env.code.brackets[call.open].close)
  }

  /** The count of c is among those its item can have. */
  ghost predicate Tame(env: Env, call: Call, c: Config) {
    c.off in env.code.items && 0 <= c.count < Counts(env.code.items[c.off], Reach(env, call))
    && c.count <= c.pos + MostCount(call.init)
  }

  ghost predicate AllTame(env: Env, call: Call, cs: seq<Config>) {
    forall c <- cs :: Tame(env, call, c)
  }

  /** The call can be made with lists of this capacity. */
  ghost predicate Roomy(env: Env, call: Call, capacity: nat) {
    && call.open in env.code.brackets && NoRecursion(env, call.open) && AllTame(env, call, call.init)
    && |call.init| + CallLoad(env, call, ForHere) + CallLoad(env, call, ForLater) + CallLoad(env, call, ForWait)
       <= capacity
  }

  lemma {:induction false} StartsAreFew(entries: seq<Entry>, p: int)
    ensures |Start(entries, p)| <= |entries|
    ensures forall c <- Start(entries, p) :: c.count == 0 <= c.pos && exists e <- entries :: c.off == e.off
  {
    if entries != [] {
      var last := |entries| - 1;
      StartsAreFew(entries[..last], p);
      assert entries[last] in entries;
    }
  }

  lemma FitsIsRoomy(env: Env, g: int, som: int, p: int, capacity: nat)
    requires Fits(env, g, capacity) && BracketOk(env.code, g)
    ensures Roomy(env, CallAt(env, g, p).(som := som), capacity)
  {
    hide Load, Counts;
    var call := CallAt(env, g, p).(som := som);
    StartsAreFew(env.code.brackets[g].entries, p);
    MostIsAtMost(call.init, 0);
  }

  lemma {:induction false} MostIsAtMost(cs: seq<Config>, k: nat)
    requires forall c <- cs :: c.count <= k
    ensures MostCount(cs) <= k
  {
    if cs != [] {
      assert cs[|cs| - 1] in cs;
      MostIsAtMost(cs[..|cs| - 1], k);
    }
  }

  // ---------------------------------------------------------------- what processed states have needed

  ghost function AtPlace(done: set<Config>, o: int, p: int): set<Config> {
    set c | c in done && c.off == o && c.pos == p
  }

  ghost function Spent(items: map<int, Item>, done: set<Config>, p: int, kind: Kind, lo: int, hi: int): nat
    decreases hi - lo
  {
    if hi <= lo then 0
    else Spent(items, done, p, kind, lo, hi - 1)
         + if hi in items then |AtPlace(done, hi, p)| * Needs(kind, items[hi]) else 0
  }

  lemma {:induction false} SpentGrows(items: map<int, Item>, done: set<Config>, c: Config, kind: Kind, lo: int, hi: int)
    requires c !in done && c.off in items
    ensures Spent(items, done + {c}, c.pos, kind, lo, hi)
            == Spent(items, done, c.pos, kind, lo, hi) + if lo < c.off <= hi then Needs(kind, items[c.off]) else 0
    decreases hi - lo
  {
    hide Needs, AtPlace;
    if hi > lo {
      SpentGrows(items, done, c, kind, lo, hi - 1);
      PlaceGrows(done, c, hi);
      if hi == c.off { Distribute(|AtPlace(done, hi, c.pos)|, Needs(kind, items[hi])); }
    }
  }

  lemma PlaceGrows(done: set<Config>, c: Config, o: int)
    requires c !in done
    ensures |AtPlace(done + {c}, o, c.pos)| == |AtPlace(done, o, c.pos)| + if o == c.off then 1 else 0
  {
    var was, now := AtPlace(done, o, c.pos), AtPlace(done + {c}, o, c.pos);
    assert now == if o == c.off then was + {c} else was;
  }

  lemma Distribute(a: nat, b: nat)
    ensures (a + 1) * b == a * b + b
  {
  }

  lemma {:induction false} NothingSpent(items: map<int, Item>, done: set<Config>, p: int, kind: Kind, lo: int, hi: int)
    requires forall c <- done :: c.pos != p
    ensures Spent(items, done, p, kind, lo, hi) == 0
    decreases hi - lo
  {
    hide Needs;
    if hi > lo {
      NothingSpent(items, done, p, kind, lo, hi - 1);
      assert AtPlace(done, hi, p) == {};
    }
  }

  lemma {:induction false} FewCounts(cs: set<Config>, o: int, p: int, k: nat)
    requires forall c <- cs :: c.off == o && c.pos == p && 0 <= c.count < k
    ensures |cs| <= k
    decreases k
  {
    if k == 0 {
      assert cs == {};
    } else {
      FewCounts(cs - {Config(o, k - 1, p)}, o, p, k - 1);
    }
  }

  /** Together they never need more than the bound. */
  lemma {:induction false} SpentIsBounded(env: Env, call: Call, done: set<Config>, p: int, kind: Kind, lo: int, hi: int)
    requires forall c <- done :: c.pos == p ==> Tame(env, call, c)
    ensures Spent(env.code.items, done, p, kind, lo, hi) <= Load(env.code.items, Reach(env, call), kind, lo, hi)
    decreases hi - lo
  {
    hide Needs, Counts;
    if hi > lo {
      SpentIsBounded(env, call, done, p, kind, lo, hi - 1);
      if hi in env.code.items {
        var k := Counts(env.code.items[hi], Reach(env, call));
        FewCounts(AtPlace(done, hi, p), hi, p, k);
        MoreTimes(|AtPlace(done, hi, p)|, k, Needs(kind, env.code.items[hi]));
      }
    }
  }

  lemma MoreTimes(a: nat, b: nat, c: nat)
    requires a <= b
    ensures a * c <= b * c
  {
  }

  // ---------------------------------------------------------------- what a step needs

  /** How much a step adds, and where. */
  lemma StepNeeds(env: Env, call: Call, c: Config, ends: seq<int>)
    requires ValidEnv(env) && Tame(env, call, c) && 0 <= c.pos <= |env.subject| && !env.code.items[c.off].Recursion?
    requires StepWith(env, call.som, c, ends).Go?
    requires forall t <- Targets(c.off, env.code.items[c.off]) :: t in env.code.items
    ensures var it, out := env.code.items[c.off], StepWith(env, call.som, c, ends);
            && |out.here| <= Needs(ForHere, it) && |out.later| <= Needs(ForLater, it)
            && (forall s <- out.here :: s.pos == c.pos)
            && (forall s <- out.later :: c.pos < s.pos <= c.pos + if it.NewlineSequence? then 2 else 1)
            && AllTame(env, call, out.here) && AllTame(env, call, out.later)
  {
    hide WellFormed, Holds, Passes;
    var it := env.code.items[c.off];
    match it {
      case Jump(ts) =>
        forall s <- JumpTo(ts, c.pos) ensures Tame(env, call, s) && s.pos == c.pos {
          assert s.off in Targets(c.off, it);
        }
      case Repeat(t, q, possessive, next) =>
        assert next in Targets(c.off, it);
        RepeatNeeds(env, call, c, c.pos < |env.subject| && Passes(env, t, c.pos));
      case ZeroWidth(_, next) => assert next in Targets(c.off, it);
      case One(_, next) => assert next in Targets(c.off, it);
      case NewlineSequence(next) => assert next in Targets(c.off, it);
      case Assertion(_, next) => assert next in Targets(c.off, it);
      case _ =>
    }
  }

  lemma RepeatNeeds(env: Env, call: Call, c: Config, passes: bool)
    requires Tame(env, call, c) && c.pos <= |env.subject| && env.code.items[c.off].Repeat?
    requires passes ==> c.pos < |env.subject|
    requires env.code.items[c.off].next in env.code.items
    ensures var Repeat(_, q, possessive, next) := env.code.items[c.off];
            var out := StepRepeat(c.off, c.count, c.pos, passes, q, possessive, next);
            && |out.here| <= 1 && |out.later| <= 1
            && (forall s <- out.here :: s.pos == c.pos) && (forall s <- out.later :: s.pos == c.pos + 1)
            && AllTame(env, call, out.here) && AllTame(env, call, out.later)
  {
  }

  // ---------------------------------------------------------------- the states that a call can reach

  /** A call to which the bound applies: no recursions, and starts inside its bracket. */
  ghost predicate Bounded(env: Env, call: Call)
    requires ValidEnv(env)
  {
    && call.open in env.code.brackets && NoRecursion(env, call.open)
    && AllTame(env, call, call.init) && AllInside(env, call.open, call.init, 0)
  }

  lemma BoundedStep(env: Env, nested: Nested, call: Call, b: Config, c: Config)
    requires ValidEnv(env) && Bounded(env, call) && Tame(env, call, b) && Inside(env, call.open, b)
    requires Steps(env, nested, call, b, c)
    ensures Tame(env, call, c) && Inside(env, call.open, c)
  {
    var ends := if NestedCall(env, b).Some? then nested(NestedCall(env, b).value).value else [];
    EveryBracketIsOk(env, call.open);
    assert Step(env, nested, call, b) == StepWith(env, call.som, b, ends) by { hide WellFormed, Tame; }
    hide WellFormed, Step, Counts, StepRepeat, Holds, Passes;
    StepNeeds(env, call, b, ends);
    StepStaysInside(env, call.open, call.som, b, ends);
  }

  lemma {:induction false} ReachedIsTame(env: Env, nested: Nested, call: Call, n: nat, c: Config)
    requires ValidEnv(env) && Bounded(env, call) && ReachedIn(env, nested, call, n, c)
    ensures Tame(env, call, c) && Inside(env, call.open, c)
  {
    hide ValidEnv, Steps, Tame, Inside, NoRecursion;
    if n > 0 {
      var b :| Steps(env, nested, call, b, c) && ReachedIn(env, nested, call, n - 1, b);
      ReachedIsTame(env, nested, call, n - 1, b);
      BoundedStep(env, nested, call, b, c);
    }
  }

  ghost function SpentIn(env: Env, call: Call, done: set<Config>, p: int, kind: Kind): nat
    requires call.open in env.code.brackets
  {
    Spent(env.code.items, done, p, kind, call.open, env.code.brackets[call.open].close)
  }

  /** What one state leaves for position p. */
  lemma LeftIsBounded(env: Env, nested: Nested, call: Call, c: Config, p: int)
    requires ValidEnv(env) && Bounded(env, call) && Tame(env, call, c) && Inside(env, call.open, c)
    ensures var it := env.code.items[c.off];
            Left(env, nested, call, c, p)
            <= if c.pos == p then Needs(ForHere, it)
               else if c.pos == p - 1 then Needs(ForLater, it)
               else if c.pos == p - 2 then Needs(ForWait, it)
               else 0
  {
    var out := Step(env, nested, call, c);
    EveryBracketIsOk(env, call.open);
    if out.Go? {
      if c.off == env.code.brackets[call.open].close {
        KetTakesNothing(env, call, c);
      } else {
        var ends := if NestedCall(env, c).Some? then nested(NestedCall(env, c).value).value else [];
        assert out == StepWith(env, call.som, c, ends) by { hide WellFormed, Tame; }
        hide WellFormed, Step, Counts, StepRepeat, Holds, Passes, StepWith;
        StepNeeds(env, call, c, ends);
        if c.pos < p - 2 || (c.pos == p - 2 && !env.code.items[c.off].NewlineSequence?) { NoneAhead(out.later, p); }
      }
    }
  }

  /** Together they leave no more than their items need. */
  lemma {:induction false} SumIsBounded(env: Env, nested: Nested, call: Call, cs: set<Config>, p: int)
    requires ValidEnv(env) && Bounded(env, call) && call.open in env.code.brackets
    requires forall c <- cs :: Tame(env, call, c) && Inside(env, call.open, c)
    ensures Sum(env, nested, call, cs, p)
            <= SpentIn(env, call, cs, p, ForHere) + SpentIn(env, call, cs, p - 1, ForLater)
               + SpentIn(env, call, cs, p - 2, ForWait)
    decreases cs
  {
    hide ValidEnv, Bounded, Left, Needs, Spent, Tame;
    if cs != {} {
      var c :| c in cs;
      var rest := cs - {c};
      assert rest + {c} == cs;
      SumAt(env, nested, call, cs, c, p);
      SumIsBounded(env, nested, call, rest, p);
      LeftIsBounded(env, nested, call, c, p);
      SpentWith(env, call, rest, c, p, ForHere);
      SpentWith(env, call, rest, c, p - 1, ForLater);
      SpentWith(env, call, rest, c, p - 2, ForWait);
    }
  }

  lemma SpentWith(env: Env, call: Call, cs: set<Config>, c: Config, p: int, kind: Kind)
    requires call.open in env.code.brackets && c !in cs && Inside(env, call.open, c)
    ensures SpentIn(env, call, cs + {c}, p, kind)
            == SpentIn(env, call, cs, p, kind) + if c.pos == p then Needs(kind, env.code.items[c.off]) else 0
  {
    hide Needs, Spent;
    if c.pos == p {
      SpentGrows(env.code.items, cs, c, kind, call.open, env.code.brackets[call.open].close);
    } else {
      SameSpent(env.code.items, cs, c, p, kind, call.open, env.code.brackets[call.open].close);
    }
  }

  lemma {:induction false} SameSpent(items: map<int, Item>, cs: set<Config>, c: Config, p: int, kind: Kind, lo: int,
                                     hi: int)
    requires c.pos != p
    ensures Spent(items, cs + {c}, p, kind, lo, hi) == Spent(items, cs, p, kind, lo, hi)
    decreases hi - lo
  {
    hide Needs;
    if hi > lo {
      SameSpent(items, cs, c, p, kind, lo, hi - 1);
      assert AtPlace(cs + {c}, hi, p) == AtPlace(cs, hi, p);
    }
  }

  // ---------------------------------------------------------------- what the bound is good for

  lemma NotCrowded(env: Env, call: Call, capacity: nat)
    requires ValidEnv(env) && Bounded(env, call) && Roomy(env, call, capacity)
    ensures !Crowded(env, call, capacity)
  {
    hide ValidEnv, Bounded, Inlined, Tame, Load, Spent, NoRecursion, Reached;
    forall m: nat, cs: set<Config>, p: int | AllReached(env, Inlined(env, m), call, cs)
      ensures Places(env, Inlined(env, m), call, cs, p) <= capacity
    {
      forall c <- cs ensures Tame(env, call, c) && Inside(env, call.open, c) {
        OneReachedIsTame(env, Inlined(env, m), call, c);
      }
      var lo, hi := call.open, env.code.brackets[call.open].close;
      SumIsBounded(env, Inlined(env, m), call, cs, p);
      SpentIsBounded(env, call, cs, p, ForHere, lo, hi);
      SpentIsBounded(env, call, cs, p - 1, ForLater, lo, hi);
      SpentIsBounded(env, call, cs, p - 2, ForWait, lo, hi);
    }
  }

  lemma OneReachedIsTame(env: Env, nested: Nested, call: Call, c: Config)
    requires ValidEnv(env) && Bounded(env, call) && Reached(env, nested, call, c)
    ensures Tame(env, call, c) && Inside(env, call.open, c)
  {
    hide ValidEnv, Bounded, Tame, Inside, ReachedIn;
    var n: nat :| ReachedIn(env, nested, call, n, c);
    ReachedIsTame(env, nested, call, n, c);
  }

  /** A call that has room by the bound does not fail. */
  lemma RoomyCannotFail(env: Env, call: Call, chain: set<(int, int)>, capacity: nat)
    requires ValidEnv(env) && Bounded(env, call) && Roomy(env, call, capacity)
    ensures !CanFail(env, call, chain, capacity)
  {
    NotCrowded(env, call, capacity);
    hide ValidEnv, Bounded, Inlined, Tame, Load, Crowded, Reached, Roomy;
    forall k: nat ensures !Fails(env, k, call, chain, capacity) {
      forall c | CanReach(env, call, c) && IsState(env, call, c) ensures !RecursionFails(env, k, chain, c) {
        NotRecursion(env, call, c);
      }
    }
  }

  lemma NotRecursion(env: Env, call: Call, c: Config)
    requires ValidEnv(env) && Bounded(env, call) && CanReach(env, call, c) && IsState(env, call, c)
    ensures !env.code.items[c.off].Recursion?
  {
    hide ValidEnv, Inlined, Tame, AllTame, AllInside, Reached;
    var m: nat :| Reached(env, Inlined(env, m), call, c);
    OneReachedIsTame(env, Inlined(env, m), call, c);
  }

  lemma FitsIsBounded(env: Env, g: int, som: int, p: int, capacity: nat)
    requires ValidEnv(env) && Fits(env, g, capacity) && 0 <= p <= |env.subject|
    ensures var call := CallAt(env, g, p).(som := som); Bounded(env, call) && Roomy(env, call, capacity)
  {
    hide WellFormed, Load, Tame;
    EveryBracketIsOk(env, g);
    FitsIsRoomy(env, g, som, p, capacity);
    StartIsInside(env, g, env.code.brackets[g].entries, p, 0);
  }

  lemma FitsCannotFail(env: Env, g: int, som: int, p: int, chain: set<(int, int)>, capacity: nat)
    requires ValidEnv(env) && g in env.code.brackets && Fits(env, g, capacity) && 0 <= p <= |env.subject|
    ensures !CanFail(env, CallAt(env, g, p).(som := som), chain, capacity)
  {
    hide ValidEnv, Fits, Bounded, Roomy, CanFail, Fails;
    FitsIsBounded(env, g, som, p, capacity);
    RoomyCannotFail(env, CallAt(env, g, p).(som := som), chain, capacity);
  }

  lemma NothingTooMuch(env: Env, c: Config)
    requires ValidEnv(env) && NoMinimums(env.code) && c.off in env.code.items && 0 <= c.pos <= |env.subject|
    ensures !TooMuch(env, c)
  {
    hide WellFormed, Passes;
  }

  /** In a program whose assertions are contained, without possessive minimums, no call is unsafe. */
  lemma {:induction false} ContainedIsSafe(env: Env, k: nat, call: Call, chain: set<(int, int)>)
    requires ValidEnv(env) && Contained(env) && NoMinimums(env.code)
    ensures !Unsafe(env, k, call, chain)
    decreases k
  {
    hide WellFormed, BracketLoad, CanReach, Fails, NoMinimums, TooMuch;
    forall c | CanReach(env, call, c) && IsState(env, call, c) ensures !UnsafeAt(env, k, chain, c) {
      NothingTooMuch(env, c);
      if k > 0 && NestedCall(env, c).Some? {
        var d := NestedCall(env, c).value;
        match env.code.items[c.off] {
          case Assertion(_, _) =>
            assert !CanFail(env, d, chain, Capacity(LOCAL_WORKSPACE)) by {
              FitsCannotFail(env, c.off, d.som, c.pos, chain, Capacity(LOCAL_WORKSPACE));
              assert CallAt(env, c.off, c.pos).(som := d.som) == d;
            }
            ContainedIsSafe(env, k - 1, d, chain);
          case Recursion(_, group, _) =>
            ContainedIsSafe(env, k - 1, d, chain + {(group, c.pos)});
          case _ =>
        }
      }
    }
  }

  lemma ContainedCannotBeUnsafe(env: Env, call: Call, chain: set<(int, int)>)
    requires ValidEnv(env) && Contained(env) && NoMinimums(env.code)
    ensures !CanBeUnsafe(env, call, chain)
  {
    hide ValidEnv, Contained, Unsafe, NoMinimums;
    forall k: nat ensures !Unsafe(env, k, call, chain) { ContainedIsSafe(env, k, call, chain); }
  }

  /** What a position is entered with: few states, with counts in their range. */
  ghost predicate IsFew(env: Env, call: Call, here: seq<Config>)
    requires call.open in env.code.brackets
  {
    && |here| <= |call.init| + CallLoad(env, call, ForWait) + CallLoad(env, call, ForLater)
    && AllTame(env, call, here)
  }

  lemma EnteredWithFew(env: Env, nested: Nested, call: Call, capacity: nat, p: int, here: seq<Config>,
                       done: set<Config>)
    requires ValidEnv(env) && Bounded(env, call) && call.open in env.code.brackets
    requires Packed(env, nested, call, capacity, p, 0, here, [], done)
    requires AllReached(env, nested, call, done) && (forall c <- here :: Reached(env, nested, call, c))
    requires forall c <- done :: c.pos < p
    ensures IsFew(env, call, here)
  {
    hide ValidEnv, Bounded, Tame, Load, Spent, Reached, Inside;
    var lo, hi := call.open, env.code.brackets[call.open].close;
    forall c | c in done || c in here ensures Tame(env, call, c) && Inside(env, call.open, c) {
      OneReachedIsTame(env, nested, call, c);
    }
    SumIsBounded(env, nested, call, done, p);
    NothingSpent(env.code.items, done, p, ForHere, lo, hi);
    SpentIsBounded(env, call, done, p - 1, ForLater, lo, hi);
    SpentIsBounded(env, call, done, p - 2, ForWait, lo, hi);
  }
}
