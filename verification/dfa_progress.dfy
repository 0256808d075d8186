/** Where a scan stands: what has been processed, what still waits, which ends have been found, and how each
    thing that can happen to a state moves the scan on. */
module DfaProgress {
  import opened Basics
  import opened DfaProgram
  import opened DfaSemantics
  import opened DfaStates
  import opened DfaCrowd
  import opened DfaActions
  import opened DfaCoverage

  // ---------------------------------------------------------------- where states may be

  /** c is a place inside the bracket at g, or its ket; only repeats have counts. */
  ghost predicate Inside(env: Env, g: int, c: Config)
    requires g in env.code.brackets
  {
    && c.off in env.code.items && g < c.off <= env.code.brackets[g].close
    && 0 <= c.pos <= |env.subject| && c.count >= 0
    && (c.count != 0 ==> env.code.items[c.off].Repeat?)
  }

  ghost predicate AllInside(env: Env, g: int, cs: seq<Config>, p: int)
    requires g in env.code.brackets
  {
    forall c <- cs :: Inside(env, g, c) && c.pos >= p
  }

  lemma EqualIsBounded(ps: seq<int>, p: int)
    ensures forall q <- Equal(ps, p) :: q in ps && q == p
  {
  }

  lemma AboveIsBounded(ps: seq<int>, p: int)
    ensures forall q <- Above(ps, p) :: q in ps && q > p
  {
  }

  lemma AtIsThere(off: int, ps: seq<int>)
    ensures forall s <- At(off, ps) :: s.off == off && s.count == 0 && s.pos in ps
  {
  }

  /** Steps stay inside the bracket; what they add here is at the same position, the rest is later. */
  lemma StepStaysInside(env: Env, g: int, som: int, c: Config, ends: seq<int>)
    requires ValidEnv(env) && g in env.code.brackets
    requires Inside(env, g, c) && c.off < env.code.brackets[g].close
    requires env.code.items[c.off].Recursion? ==> forall q <- ends :: c.pos <= q <= |env.subject|
    requires StepWith(env, som, c, ends).Go?
    ensures AllInside(env, g, StepWith(env, som, c, ends).here, c.pos)
    ensures AllInside(env, g, StepWith(env, som, c, ends).later, c.pos + 1)
  {
    assert BracketOk(env.code, g);
    var it := env.code.items[c.off];
    hide WellFormed, Holds, Passes, StepRepeat;
    assert forall t <- Targets(c.off, it) :: t in env.code.items && g < t <= env.code.brackets[g].close;
    match it {
      case Jump(ts) =>
        forall s <- JumpTo(ts, c.pos) ensures Inside(env, g, s) && s.pos >= c.pos {
          assert s.off in Targets(c.off, it);
        }
      case ZeroWidth(_, next) => assert next in Targets(c.off, it);
      case One(_, next) => assert next in Targets(c.off, it);
      case NewlineSequence(next) => assert next in Targets(c.off, it);
      case Repeat(t, q, possessive, next) =>
        assert next in Targets(c.off, it);
        RepeatStays(c.off, c.count, c.pos, c.pos < |env.subject| && Passes(env, t, c.pos), q, possessive, next);
      case Assertion(_, next) => assert next in Targets(c.off, it);
      case Recursion(_, _, next) =>
        assert next in Targets(c.off, it);
        EqualIsBounded(ends, c.pos);
        AboveIsBounded(ends, c.pos);
        AtIsThere(next, Equal(ends, c.pos));
        AtIsThere(next, Above(ends, c.pos));
      case _ =>
    }
  }

  lemma RepeatStays(o: int, count: int, p: int, passes: bool, q: Quantifier, possessive: bool, next: int)
    requires count >= 0
    ensures var out := StepRepeat(o, count, p, passes, q, possessive, next);
            && (forall s <- out.here :: s == Config(next, 0, p))
            && (forall s <- out.later ::
                  passes && s.pos == p + 1 && s.count >= 0 && (s.off == o || (s.off == next && s.count == 0)))
  {
  }

  ghost function Size(env: Env, g: int): int
    requires g in env.code.brackets
  {
    env.code.brackets[g].close - g
  }

  lemma TargetsArePositive(env: Env, g: int, o: int)
    requires ValidEnv(env) && g in env.code.brackets && o in env.code.items
    requires g < o < env.code.brackets[g].close
    ensures o > 0 && forall t <- Targets(o, env.code.items[o]) :: t > 0
  {
    assert BracketOk(env.code, g);
  }

  /** An assertion is a bracket that ends before the one around it does. */
  lemma AssertionNestsInside(env: Env, g: int, o: int)
    requires ValidEnv(env) && g in env.code.brackets && o in env.code.items
    requires g < o < env.code.brackets[g].close && env.code.items[o].Assertion?
    ensures o in env.code.brackets && Size(env, o) < Size(env, g) && env.code.items[o].next > 0
  {
    assert BracketOk(env.code, g);
    assert env.code.items[o].next in Targets(o, env.code.items[o]);
  }

  lemma RecursionIsCallable(env: Env, g: int, o: int)
    requires ValidEnv(env) && g in env.code.brackets && o in env.code.items
    requires g < o < env.code.brackets[g].close && env.code.items[o].Recursion?
    ensures var it := env.code.items[o];
            it.target in env.code.brackets && !env.code.brackets[it.target].behind && 0 <= it.group < 0x10000
            && it.next > 0
  {
    assert BracketOk(env.code, g);
    assert env.code.items[o].next in Targets(o, env.code.items[o]);
  }

  lemma EveryBracketIsOk(env: Env, g: int)
    requires ValidEnv(env) && g in env.code.brackets
    ensures BracketOk(env.code, g)
  {
  }

  lemma {:induction false} StartIsInside(env: Env, g: int, entries: seq<Entry>, p: int, start: int)
    requires g in env.code.brackets && 0 <= start <= p <= |env.subject|
    requires forall e <- entries :: e.off in env.code.items && g < e.off <= env.code.brackets[g].close
    requires forall e <- entries :: e.back <= p ==> p - e.back >= start
    ensures AllInside(env, g, Start(entries, p), start)
  {
    if entries != [] {
      var last := |entries| - 1;
      assert entries[last] in entries;
      StartIsInside(env, g, entries[..last], p, start);
    }
  }

  // ---------------------------------------------------------------- where a scan stands

  /** What has been processed, the ends found, the depth of inlining that explains it, and whether the scan has
      failed: a nested call made for an assertion has, or a possessive range has taken another state than its own
      back. Until it does, what is known is exact. */
  datatype Trail = Trail(done: set<Config>, ends: seq<int>, depth: nat, failed: bool)

  ghost function Waiting(here: seq<Config>, i: nat, next: seq<Config>): set<Config>
    requires i <= |here|
  {
    (set c | c in here[i..]) + (set c | c in next)
  }

  /** At position p the states before i that do not wait have been processed, and no others unless the list is
      through; nothing later has. */
  ghost predicate Placed(start: int, p: int, i: nat, here: seq<Config>, done: set<Config>)
    requires i <= |here|
  {
    && (forall c <- done :: start <= c.pos <= p && (c.pos == p && i < |here| ==> c in here[..i]))
    && (forall j :: 0 <= j < i && here[j].pos == p ==> here[j] in done)
  }

  lemma PlacedOn(start: int, p: int, i: nat, here: seq<Config>, done: set<Config>)
    requires i < |here| && Placed(start, p, i, here, done)
    requires here[i].pos == p ==> here[i] in done
    ensures Placed(start, p, i + 1, here, done)
  {
    assert here[..i + 1] == here[..i] + [here[i]];
  }

  lemma PlacedStep(start: int, p: int, i: nat, here: seq<Config>, done: set<Config>, more: seq<Config>)
    requires i < |here| && Placed(start, p, i, here, done) && here[i].pos == p && start <= p
    ensures Placed(start, p, i + 1, here + more, done + {here[i]})
  {
    assert (here + more)[..i + 1] == here[..i] + [here[i]];
    assert forall j :: 0 <= j <= i ==> (here + more)[j] == here[j];
  }

  /** Of the states at or waiting at position p, those before i have been seen to. */
  ghost predicate Scanned(env: Env, call: Call, start: int, p: int, i: nat,
                          here: seq<Config>, next: seq<Config>, t: Trail)
    requires ValidEnv(env) && call.open in env.code.brackets && i <= |here|
  {
    && AllInside(env, call.open, here, p) && AllInside(env, call.open, next, p + 1)
    && Placed(start, p, i, here, t.done)
    && EndsListed(env.code.brackets[call.open].close, t.done, t.ends)
    && (!t.failed ==> Covers(env, Inlined(env, t.depth), call, t.done, Waiting(here, i, next)))
    && (NoNegatives(env.code) ==>
          OnlyReached(env, call, t.done + Waiting(here, 0, next)) && OnlyArriving(env, call, Early(here, next, p)))
  }

  /** The states that are to be processed at later positions. */
  ghost function Early(here: seq<Config>, next: seq<Config>, p: int): set<Config> {
    (set c | c in here && c.pos > p) + (set c | c in next)
  }

  /** The states of the active list before i have been processed at position p. */
  ghost predicate Progress(env: Env, call: Call, start: int, p: int, i: nat,
                           active: seq<Block>, later: seq<Block>, t: Trail)
    requires ValidEnv(env) && call.open in env.code.brackets && i <= |active|
  {
    && (forall j :: 0 <= j < i && active[j].off < 0 ==> active[j].data > 0)
    && Scanned(env, call, start, p, i, Images(active, p), Images(later, p + 1), t)
  }

  /** A state that still has to wait moves on to the next list. */
  lemma ProgressSkip(env: Env, call: Call, start: int, p: int, i: nat,
                     active: seq<Block>, later: seq<Block>, t: Trail, later': seq<Block>)
    requires ValidEnv(env) && call.open in env.code.brackets && i < |active|
    requires Progress(env, call, start, p, i, active, later, t)
    requires active[i].off < 0 && active[i].data > 0
    requires Grown(later, later', p + 1, [Image(active[i], p)])
    ensures Progress(env, call, start, p, i + 1, active, later', t)
  {
    hide ValidEnv, Covers, EndsListed, Inside, Placed, OnlyReached, OnlyArriving;
    var here, next, next' := Images(active, p), Images(later, p + 1), Images(later', p + 1);
    assert here[i] in here;
    assert here[i..] == [here[i]] + here[i + 1..];
    PlacedOn(start, p, i, here, t.done);
    assert Waiting(here, i, next) == Waiting(here, i + 1, next');
    assert Waiting(here, 0, next) == Waiting(here, 0, next');
    assert Early(here, next, p) == Early(here, next', p);
  }

  /** A state that is due is the same configuration without its sign. */
  lemma ProgressWake(env: Env, call: Call, start: int, p: int, i: nat,
                     active: seq<Block>, later: seq<Block>, t: Trail)
    requires ValidEnv(env) && call.open in env.code.brackets && i < |active|
    requires Progress(env, call, start, p, i, active, later, t)
    requires active[i].off < 0 && active[i].data <= 0
    ensures var woken := active[i := active[i].(off := -active[i].off)];
            Progress(env, call, start, p, i, woken, later, t) && Images(woken, p) == Images(active, p)
  {
    hide Placed, Covers, EndsListed, OnlyReached, OnlyArriving;
    var woken := active[i := active[i].(off := -active[i].off)];
    assert Images(active, p)[i] in Images(active, p);
    assert Image(active[i], p).pos >= p;
    assert Images(woken, p) == Images(active, p);
  }

  lemma OneLessWaits(here: seq<Config>, i: nat, next: seq<Config>)
    requires i < |here|
    ensures Waiting(here, i, next) == Waiting(here, i + 1, next) + {here[i]}
  {
    assert here[i..] == [here[i]] + here[i + 1..];
  }

  /** A duplicate has been processed before. */
  lemma DuplicateIsDone(env: Env, call: Call, start: int, p: int, i: nat,
                        active: seq<Block>, later: seq<Block>, t: Trail, j: nat)
    requires ValidEnv(env) && call.open in env.code.brackets && i < |active|
    requires Progress(env, call, start, p, i, active, later, t)
    requires active[i].off >= 0 && j < i && active[j].off == active[i].off && active[j].count == active[i].count
    ensures Images(active, p)[i] in t.done
  {
    hide ValidEnv, EndsListed, Inside, Covers, AllInside, OnlyReached, OnlyArriving;
    assert Images(active, p)[j] == Images(active, p)[i];
  }

  /** Skipping a state that has been processed loses nothing. */
  lemma ProgressDuplicate(env: Env, call: Call, start: int, p: int, i: nat,
                          active: seq<Block>, later: seq<Block>, t: Trail)
    requires ValidEnv(env) && call.open in env.code.brackets && i < |active|
    requires Progress(env, call, start, p, i, active, later, t)
    requires active[i].off >= 0 && Images(active, p)[i] in t.done
    ensures Progress(env, call, start, p, i + 1, active, later, t)
  {
    hide ValidEnv, EndsListed, Inside, Covers, AllInside, Placed, Waiting, Images, OnlyReached, OnlyArriving;
    var here, next := Images(active, p), Images(later, p + 1);
    OneLessWaits(here, i, next);
    PlacedOn(start, p, i, here, t.done);
    if !t.failed {
      CoverLess(env, Inlined(env, t.depth), call, t.done, Waiting(here, i, next), Waiting(here, i + 1, next));
    }
  }

  /** A state without an earlier duplicate has not been processed. */
  lemma NotDuplicateIsNew(env: Env, call: Call, start: int, p: int, i: nat,
                          active: seq<Block>, later: seq<Block>, t: Trail)
    requires ValidEnv(env) && call.open in env.code.brackets && i < |active|
    requires Progress(env, call, start, p, i, active, later, t)
    requires active[i].off >= 0
    requires forall j :: 0 <= j < i ==> !(active[j].off == active[i].off && active[j].count == active[i].count)
    ensures Image(active[i], p) !in t.done
  {
    hide ValidEnv, EndsListed, Inside, Covers, OnlyReached, OnlyArriving;
    var c := Image(active[i], p);
    forall j | 0 <= j < i ensures Images(active, p)[j] != c {
      assert active[j].off < 0 ==> Image(active[j], p).pos > p;
    }
  }

  /** A new state is processed: its step has been added to the lists. */
  lemma ProgressStep(env: Env, call: Call, start: int, p: int, i: nat,
                     active: seq<Block>, later: seq<Block>, t: Trail,
                     active': seq<Block>, later': seq<Block>, t': Trail, out: Outcome)
    requires ValidEnv(env) && call.open in env.code.brackets && i < |active|
    requires Progress(env, call, start, p, i, active, later, t)
    requires active[i].off >= 0 && Image(active[i], p) !in t.done && start <= p
    requires OutcomeAt(out, p) && Grown(active, active', p, out.here) && Grown(later, later', p + 1, out.later)
    requires AllInside(env, call.open, out.here, p) && AllInside(env, call.open, out.later, p + 1)
    requires t'.done == t.done + {Image(active[i], p)}
    requires t'.ends == t.ends + if active[i].off == env.code.brackets[call.open].close then [p] else []
    requires !t'.failed ==>
               && !t.failed && t.depth <= t'.depth
               && Step(env, Inlined(env, t'.depth), call, Image(active[i], p)) == out
    requires NoNegatives(env.code) ==> Lossy(env, call, Image(active[i], p), out)
    ensures Progress(env, call, start, p, i + 1, active', later', t')
  {
    hide ValidEnv, Scanned, Step, AllInside, Lossy, NoNegatives;
    assert Images(active', p) == Images(active, p) + out.here;
    assert Images(later', p + 1) == Images(later, p + 1) + out.later;
    ScannedStep(env, call, start, p, i, Images(active, p), Images(later, p + 1), t, t', out);
  }

  lemma ScannedStep(env: Env, call: Call, start: int, p: int, i: nat,
                    here: seq<Config>, next: seq<Config>, t: Trail, t': Trail, out: Outcome)
    requires ValidEnv(env) && call.open in env.code.brackets && i < |here|
    requires Scanned(env, call, start, p, i, here, next, t) && here[i].pos == p && here[i] !in t.done && start <= p
    requires OutcomeAt(out, p) && AllInside(env, call.open, out.here, p) && AllInside(env, call.open, out.later, p + 1)
    requires t'.done == t.done + {here[i]}
    requires t'.ends == t.ends + if here[i].off == env.code.brackets[call.open].close then [p] else []
    requires !t'.failed ==>
               && !t.failed && t.depth <= t'.depth
               && Step(env, Inlined(env, t'.depth), call, here[i]) == out
    requires NoNegatives(env.code) ==> Lossy(env, call, here[i], out)
    ensures Scanned(env, call, start, p, i + 1, here + out.here, next + out.later, t')
  {
    hide ValidEnv, Covers, Step, Placed, AllInside, EndsListed, OnlyReached, OnlyArriving, Lossy, NoNegatives, Waiting,
         Inside;
    PlaceOf(env, call.open, start, p, i, here, t.done);
    InsideJoins(env, call.open, here, out.here, p);
    InsideJoins(env, call.open, next, out.later, p + 1);
    PlacedStep(start, p, i, here, t.done, out.here);
    ListedEndsGrow(env, call, start, p, t, here[i]);
    if NoNegatives(env.code) {
      OnlyReachedOn(env, call, here, next, t.done, i, out);
      OnlyArrivingOn(env, call, here, next, t.done, p, i, out);
    }
    if !t'.failed { CoversOn(env, call, here, next, i, t, t', out); }
  }

  lemma CoversOn(env: Env, call: Call, here: seq<Config>, next: seq<Config>, i: nat, t: Trail, t': Trail, out: Outcome)
    requires ValidEnv(env) && i < |here| && out.Go?
    requires Covers(env, Inlined(env, t.depth), call, t.done, Waiting(here, i, next))
    requires t.depth <= t'.depth && Step(env, Inlined(env, t'.depth), call, here[i]) == out
    requires t'.done == t.done + {here[i]}
    ensures Covers(env, Inlined(env, t'.depth), call, t'.done, Waiting(here + out.here, i + 1, next + out.later))
  {
    hide ValidEnv, Covers, Step, Waiting, Inlined;
    OneLessWaits(here, i, next);
    SuccessorsWait(here, i, next, out);
    InliningIsMonotonic(env, t.depth, t'.depth);
    CoverKnowing(env, Inlined(env, t.depth), Inlined(env, t'.depth), call, t.done, Waiting(here, i, next));
    CoverStep(env, Inlined(env, t'.depth), call, t.done, Waiting(here, i, next), here[i],
              Waiting(here + out.here, i + 1, next + out.later));
  }

  lemma OnlyReachedOn(env: Env, call: Call, here: seq<Config>, next: seq<Config>, done: set<Config>, i: nat,
                      out: Outcome)
    requires ValidEnv(env) && i < |here| && OnlyReached(env, call, done + Waiting(here, 0, next))
    requires out.Go? && Lossy(env, call, here[i], out)
    ensures OnlyReached(env, call, done + {here[i]} + Waiting(here + out.here, 0, next + out.later))
  {
    hide ValidEnv, Lossy, OnlyReached, OnlyArriving;
    var cs := done + Waiting(here, 0, next);
    assert here[i] in here[0..] && (here + out.here)[0..] == here[0..] + out.here;
    LossyStep(env, call, cs, here[i], out);
    assert cs + (set s | s in Successors(out)) == done + {here[i]} + Waiting(here + out.here, 0, next + out.later);
  }

  /** A step from position p leads to places there, or later. */
  ghost predicate OutcomeAt(out: Outcome, p: int) {
    out.Go? && (forall s <- out.here :: s.pos == p) && (forall s <- out.later :: s.pos > p)
  }

  lemma OnlyArrivingOn(env: Env, call: Call, here: seq<Config>, next: seq<Config>, done: set<Config>, p: int, i: nat,
                       out: Outcome)
    requires ValidEnv(env) && i < |here| && OnlyReached(env, call, done + Waiting(here, 0, next)) && here[i].pos == p
    requires OnlyArriving(env, call, Early(here, next, p)) && out.Go? && Lossy(env, call, here[i], out)
    requires OutcomeAt(out, p)
    ensures OnlyArriving(env, call, Early(here + out.here, next + out.later, p))
  {
    hide ValidEnv, Lossy, OnlyReached, OnlyArriving;
    assert here[i] in here[0..];
    LossyStepArrives(env, call, done + Waiting(here, 0, next), Early(here, next, p), here[i], out);
    assert Early(here + out.here, next + out.later, p) == Early(here, next, p) + set s | s in out.later;
  }

  lemma FewerReached(env: Env, call: Call, cs: set<Config>, ds: set<Config>)
    requires ValidEnv(env) && OnlyReached(env, call, cs) && ds <= cs
    ensures OnlyReached(env, call, ds)
  {
    hide ValidEnv, Defined, Reached, Inlined;
  }

  /** A possessive range has taken the last active state back although it had not added one. It may be its own. */
  lemma ProgressDrop(env: Env, call: Call, start: int, p: int, i: nat,
                     active: seq<Block>, later: seq<Block>, t: Trail,
                     active': seq<Block>, later': seq<Block>, t': Trail, out: Outcome)
    requires ValidEnv(env) && call.open in env.code.brackets && i < |active|
    requires Progress(env, call, start, p, i, active, later, t)
    requires active[i].off >= 0 && Image(active[i], p) !in t.done && start <= p
    requires active[i].off != env.code.brackets[call.open].close
    requires OutcomeAt(out, p) && out.here == []
    requires active' == active[..|active| - 1] && Grown(later, later', p + 1, out.later)
    requires AllInside(env, call.open, out.later, p + 1)
    requires t'.done == t.done + {Image(active[i], p)} && t'.ends == t.ends
    requires !t'.failed ==>
               && !t.failed && t.depth <= t'.depth && i + 1 == |active|
               && Step(env, Inlined(env, t'.depth), call, Image(active[i], p)) == out
    requires NoNegatives(env.code) ==> Lossy(env, call, Image(active[i], p), out)
    ensures Progress(env, call, start, p, Behind(i, |active'|), active', later', t')
  {
    hide ValidEnv, Scanned, Step, AllInside, Lossy, NoNegatives;
    var here := Images(active, p);
    assert Images(active', p) == here[..|here| - 1] && Images(later', p + 1) == Images(later, p + 1) + out.later;
    ScannedDrop(env, call, start, p, i, here, Images(later, p + 1), t, t', out);
  }

  lemma ScannedDrop(env: Env, call: Call, start: int, p: int, i: nat,
                    here: seq<Config>, next: seq<Config>, t: Trail, t': Trail, out: Outcome)
    requires ValidEnv(env) && call.open in env.code.brackets && i < |here|
    requires Scanned(env, call, start, p, i, here, next, t) && here[i].pos == p && here[i] !in t.done && start <= p
    requires here[i].off != env.code.brackets[call.open].close
    requires OutcomeAt(out, p) && out.here == [] && AllInside(env, call.open, out.later, p + 1)
    requires t'.done == t.done + {here[i]} && t'.ends == t.ends
    requires !t'.failed ==>
               && !t.failed && t.depth <= t'.depth && i + 1 == |here|
               && Step(env, Inlined(env, t'.depth), call, here[i]) == out
    requires NoNegatives(env.code) ==> Lossy(env, call, here[i], out)
    ensures Scanned(env, call, start, p, Behind(i, |here| - 1), here[..|here| - 1], next + out.later, t')
  {
    hide ValidEnv, Step, Placed, EndsListed, OnlyReached, OnlyArriving, Lossy, NoNegatives, Inside, Covers;
    var here', next' := here[..|here| - 1], next + out.later;
    PlaceOf(env, call.open, start, p, i, here, t.done);
    InsideJoins(env, call.open, next, out.later, p + 1);
    PlacedDrop(start, p, i, here, t.done);
    ListedEndsGrow(env, call, start, p, t, here[i]);
    assert t.ends + [] == t.ends;
    if NoNegatives(env.code) {
      OnlyReachedOn(env, call, here, next, t.done, i, out);
      FewerReached(env, call, t'.done + Waiting(here + out.here, 0, next'), t'.done + Waiting(here', 0, next'));
      OnlyArrivingOn(env, call, here, next, t.done, p, i, out);
      FewerArriving(env, call, Early(here + out.here, next', p), Early(here', next', p));
    }
    if !t'.failed {
      CoversOn(env, call, here, next, i, t, t', out);
      assert (here + out.here)[i + 1..] == [] && here'[i..] == [];
      assert Waiting(here + out.here, i + 1, next') == Waiting(here', i, next');
    }
  }

  /** The state after i, if there is one. */
  function Behind(i: nat, n: nat): nat {
    if i + 1 <= n then i + 1 else n
  }

  lemma PlacedDrop(start: int, p: int, i: nat, here: seq<Config>, done: set<Config>)
    requires i < |here| && Placed(start, p, i, here, done) && here[i].pos == p && start <= p
    ensures var here' := here[..|here| - 1];
            Placed(start, p, Behind(i, |here'|), here', done + {here[i]})
  {
    var here' := here[..|here| - 1];
    if i + 1 <= |here'| { assert here'[..i + 1] == here[..i] + [here[i]]; }
  }

  lemma SuccessorsWait(here: seq<Config>, i: nat, next: seq<Config>, out: Outcome)
    requires i < |here| && out.Go?
    ensures Waiting(here + out.here, i + 1, next + out.later)
            == Waiting(here, i + 1, next) + set s | s in Successors(out)
  {
    assert (here + out.here)[i + 1..] == here[i + 1..] + out.here;
  }

  lemma InsideJoins(env: Env, g: int, a: seq<Config>, b: seq<Config>, p: int)
    requires g in env.code.brackets && AllInside(env, g, a, p) && AllInside(env, g, b, p)
    ensures AllInside(env, g, a + b, p)
  {
    hide Inside;
  }

  lemma PlaceOf(env: Env, g: int, start: int, p: int, i: nat, here: seq<Config>, done: set<Config>)
    requires g in env.code.brackets && i < |here| && AllInside(env, g, here, p) && Placed(start, p, i, here, done)
    ensures Inside(env, g, here[i]) && forall d <- done :: d.pos <= p
  {
    hide Inside;
    assert here[i] in here;
  }

  lemma ListedEndsGrow(env: Env, call: Call, start: int, p: int, t: Trail, c: Config)
    requires ValidEnv(env) && call.open in env.code.brackets
    requires EndsListed(env.code.brackets[call.open].close, t.done, t.ends)
    requires forall d <- t.done :: d.pos <= p
    requires Inside(env, call.open, c) && c.pos == p && c !in t.done
    ensures var close := env.code.brackets[call.open].close;
            EndsListed(close, t.done + {c}, t.ends + if c.off == close then [p] else [])
  {
    var close := env.code.brackets[call.open].close;
    assert BracketOk(env.code, call.open);
    assert forall i :: 0 <= i < |t.ends| ==> t.ends[i] in t.ends;
    if c.off == close {
      assert c == Config(close, 0, p);
    }
  }


  lemma GrownIsLonger(was: seq<Block>, bs: seq<Block>, p: int, cs: seq<Config>)
    requires Grown(was, bs, p, cs)
    ensures Images(was, p) <= Images(bs, p)
  {
  }

  /** The state being processed is a place inside the bracket, or its ket. */
  lemma InsideAtState(env: Env, call: Call, start: int, p: int, i: nat, active: seq<Block>, later: seq<Block>, t: Trail)
    requires ValidEnv(env) && call.open in env.code.brackets && i < |active|
    requires Progress(env, call, start, p, i, active, later, t) && active[i].off >= 0
    ensures var c := Config(active[i].off, active[i].count, p);
            && c == Image(active[i], p) && Inside(env, call.open, c)
            && c.off in env.code.items && 0 <= c.pos <= |env.subject|
            && (c.off != env.code.brackets[call.open].close ==> c.off < env.code.brackets[call.open].close)
  {
    assert Images(active, p)[i] in Images(active, p);
  }

  /** A state at the ket is a match: it steps nowhere. */
  lemma ProgressMatch(env: Env, call: Call, start: int, p: int, i: nat,
                      active: seq<Block>, later: seq<Block>, t: Trail, t': Trail)
    requires ValidEnv(env) && call.open in env.code.brackets && i < |active| && start <= p
    requires Progress(env, call, start, p, i, active, later, t)
    requires active[i].off == env.code.brackets[call.open].close >= 0 && Image(active[i], p) !in t.done
    requires t' == t.(done := t.done + {Image(active[i], p)}, ends := t.ends + [p])
    ensures Progress(env, call, start, p, i + 1, active, later, t')
  {
    hide ValidEnv, Progress, NoNegatives;
    InsideAtState(env, call, start, p, i, active, later, t);
    assert Grown(active, active, p, []) && Grown(later, later, p + 1, []);
    ProgressStep(env, call, start, p, i, active, later, t, active, later, t', Go([], []));
  }

  /** t' comes after t while position p is being processed. */
  ghost predicate Onward(p: int, t: Trail, t': Trail) {
    && t.done <= t'.done && (forall c <- t'.done :: c.pos < p ==> c in t.done)
    && (t.failed ==> t'.failed)
    && (!t'.failed ==> t.depth <= t'.depth)
  }

  // ---------------------------------------------------------------- scanning the subject

  /** Before position p is entered: everything earlier is processed, and later holds what comes next. */
  ghost predicate Ready(env: Env, call: Call, start: int, p: int, later: seq<Block>, t: Trail)
    requires ValidEnv(env) && call.open in env.code.brackets
  {
    var next := Images(later, p);
    && AllInside(env, call.open, next, p)
    && (forall c <- t.done :: start <= c.pos < p)
    && EndsListed(env.code.brackets[call.open].close, t.done, t.ends)
    && (!t.failed ==> Covers(env, Inlined(env, t.depth), call, t.done, set c | c in next))
    && (NoNegatives(env.code) ==>
          OnlyReached(env, call, t.done + set c | c in next) && OnlyArriving(env, call, set c | c in next))
  }

  lemma ReadyAtStart(env: Env, call: Call, start: int, later: seq<Block>)
    requires ValidEnv(env) && call.open in env.code.brackets
    requires Images(later, start) == call.init && AllInside(env, call.open, call.init, start)
    ensures Ready(env, call, start, start, later, Trail({}, [], 0, false))
  {
    hide ValidEnv, OnlyReached, OnlyArriving;
    assert forall c <- call.init :: Fed(env, Inlined(env, 0), call, {}, c);
    StartsAreReached(env, call);
    StartsArrive(env, call);
    assert {} + (set c | c in call.init) == set c | c in call.init;
  }

  lemma ReadyIsProgress(env: Env, call: Call, start: int, p: int, active: seq<Block>, t: Trail)
    requires ValidEnv(env) && call.open in env.code.brackets
    requires Ready(env, call, start, p, active, t)
    ensures Progress(env, call, start, p, 0, active, [], t)
  {
    hide ValidEnv, Covers, EndsListed, Inside, OnlyReached, OnlyArriving, NoNegatives;
    var here := Images(active, p);
    assert here[0..] == here;
    assert Waiting(here, 0, Images([], p + 1)) == set c | c in here;
    if NoNegatives(env.code) {
      FewerArriving(env, call, (set c | c in here), Early(here, Images([], p + 1), p));
    }
  }

  lemma ProgressIsReady(env: Env, call: Call, start: int, p: int, active: seq<Block>, later: seq<Block>, t: Trail)
    requires ValidEnv(env) && call.open in env.code.brackets
    requires Progress(env, call, start, p, |active|, active, later, t)
    ensures Ready(env, call, start, p + 1, later, t)
    ensures later != [] ==> p < |env.subject|
  {
    hide ValidEnv, Covers, EndsListed, OnlyReached, OnlyArriving, NoNegatives;
    var here, next := Images(active, p), Images(later, p + 1);
    assert here[|active|..] == [];
    assert Waiting(here, |active|, next) == set c | c in next;
    if NoNegatives(env.code) {
      FewerReached(env, call, t.done + Waiting(here, 0, next), t.done + set c | c in next);
      FewerArriving(env, call, Early(here, next, p), (set c | c in next));
    }
    if later != [] { assert next[0] in next; }
  }

  /** At the end nothing waits, and the ends listed are the meaning of the call; in any case they are among them. */
  lemma FinishedIsMeaning(env: Env, call: Call, start: int, p: int, t: Trail)
    requires ValidEnv(env) && call.open in env.code.brackets && 0 <= start <= p <= |env.subject| + 1
    requires Ready(env, call, start, p, [], t)
    ensures forall q <- t.ends :: start <= q < p
    ensures !t.failed ==>
              && Inlined(env, t.depth + 1)(call) == Some(t.ends) && GoesNoFurther(env, t.depth, call, p - 1)
              && Defined(env, Inlined(env, t.depth), call)
              && forall c :: Reached(env, Inlined(env, t.depth), call, c) <==> c in t.done
    ensures NoNegatives(env.code) ==> OnlyEnds(env, call, t.ends)
  {
    hide ValidEnv, Covers, OnlyReached, OnlyArriving, NoNegatives, OnlyEnds;
    var nothing := Images([], p);
    assert nothing == [] && (set c | c in nothing) == {};
    forall q <- t.ends ensures start <= q < p {
      assert Config(env.code.brackets[call.open].close, 0, q) in t.done;
    }
    if NoNegatives(env.code) {
      assert t.done + {} == t.done;
      ReachedEndsAreEnds(env, call, t.done, t.ends);
    }
    if !t.failed {
      ListedEndsAreTheMeaning(env, t.depth, call, t.done, t.ends);
      CoverAll(env, Inlined(env, t.depth), call, t.done);
    }
  }

  /** No run of the call gets beyond a position. */
  ghost predicate GoesNoFurther(env: Env, depth: nat, call: Call, stop: int)
    requires ValidEnv(env)
  {
    forall c :: Reached(env, Inlined(env, depth), call, c) ==> c.pos <= stop
  }

  /** The states with which a position is entered are those where runs arrive there, or later. */
  lemma EntryIsArrivals(env: Env, call: Call, start: int, n: int, entry: seq<Block>, t: Trail, t': Trail)
    requires ValidEnv(env) && call.open in env.code.brackets && n == |env.subject|
    requires Ready(env, call, start, n, entry, t) && Ready(env, call, start, n + 1, [], t')
    requires Onward(n, t, t') && !t'.failed
    ensures forall c :: c in Images(entry, n) <==> Arrives(env, Inlined(env, t'.depth), call, n, c)
  {
    hide ValidEnv, Step;
    var nested := Inlined(env, t'.depth);
    var here := set c | c in Images(entry, n);
    assert Images([], n + 1) == [];
    InliningIsMonotonic(env, t.depth, t'.depth);
    CoverKnowing(env, Inlined(env, t.depth), nested, call, t.done, here);
    CoverAll(env, nested, call, t'.done);
    hide Reached;
    forall c | c in here ensures Arrives(env, nested, call, n, c) {
      assert Fed(env, nested, call, t.done, c);
    }
  }

  lemma EntryIsInside(env: Env, call: Call, start: int, p: int, entry: seq<Block>, t: Trail)
    requires ValidEnv(env) && call.open in env.code.brackets && Ready(env, call, start, p, entry, t)
    ensures AllInside(env, call.open, Images(entry, p), p)
  {
  }

  /** The lists have grown by the step of c, which stays inside the bracket; a possessive range may have taken the
      last active state back. */
  ghost predicate Added(env: Env, call: Call, c: Config, ends: seq<int>,
                        active: seq<Block>, later: seq<Block>, active': seq<Block>, later': seq<Block>)
    requires ValidEnv(env) && call.open in env.code.brackets && Inside(env, call.open, c)
  {
    var out := StepWith(env, call.som, c, ends);
    && out.Go?
    && Grown(later, later', c.pos + 1, out.later)
    && AllInside(env, call.open, out.here, c.pos) && AllInside(env, call.open, out.later, c.pos + 1)
    && if TooMuch(env, c) then active != [] && active' == active[..|active| - 1]
       else Grown(active, active', c.pos, out.here)
  }

  lemma TooMuchAddsNothing(env: Env, som: int, c: Config, ends: seq<int>)
    requires ValidEnv(env) && c.off in env.code.items && 0 <= c.pos <= |env.subject| && TooMuch(env, c)
    ensures var out := StepWith(env, som, c, ends); out.Go? && out.here == []
    ensures !NoMinimums(env.code) && IsPossessive(env, c) && c.pos < |env.subject|
  {
    hide WellFormed, Passes;
  }

  // ---------------------------------------------------------------- room

  /** The lists are as long as the states processed make them. */
  ghost predicate Spacious(env: Env, call: Call, capacity: nat, p: int, i: nat,
                           active: seq<Block>, later: seq<Block>, t: Trail)
    requires ValidEnv(env) && i <= |active|
  {
    !t.failed ==>
      Packed(env, Inlined(env, t.depth), call, capacity, p, i, Images(active, p), Images(later, p + 1), t.done)
  }

  lemma SpaciousAtStart(env: Env, call: Call, capacity: nat, start: int, active: seq<Block>)
    requires ValidEnv(env) && call.open in env.code.brackets && Images(active, start) == call.init
    requires |active| <= capacity && AllInside(env, call.open, call.init, start)
    ensures Spacious(env, call, capacity, start, 0, active, [], Trail({}, [], 0, false))
  {
    hide ValidEnv, Packed, Inlined;
    PackedAtStart(env, Inlined(env, 0), call, capacity, start);
    assert Images([], start + 1) == [];
  }

  /** A list that is full when a state has to wait is crowded. */
  lemma FullIsCrowded(env: Env, call: Call, start: int, capacity: nat, p: int, i: nat,
                      active: seq<Block>, later: seq<Block>, t: Trail)
    requires ValidEnv(env) && call.open in env.code.brackets && i < |active| && Image(active[i], p).pos > p
    requires Progress(env, call, start, p, i, active, later, t) && Spacious(env, call, capacity, p, i, active, later, t)
    requires |later| >= capacity && !t.failed
    ensures Crowded(env, call, capacity)
  {
    hide ValidEnv, Packed, Inlined, Crowded, EndsListed, AllInside, Placed, OnlyReached, OnlyArriving, Waiting,
         Reached, Step;
    WaitIsCrowded(env, t.depth, call, capacity, p, i, Images(active, p), Images(later, p + 1), t.done);
  }

  lemma SpaciousSkip(env: Env, call: Call, capacity: nat, p: int, i: nat,
                     active: seq<Block>, later: seq<Block>, t: Trail, later': seq<Block>)
    requires ValidEnv(env) && i < |active| && Image(active[i], p).pos > p
    requires Spacious(env, call, capacity, p, i, active, later, t)
    requires Grown(later, later', p + 1, [Image(active[i], p)])
    ensures Spacious(env, call, capacity, p, i + 1, active, later', t)
  {
    hide ValidEnv, Packed, Inlined;
    if !t.failed {
      PackedSkip(env, Inlined(env, t.depth), call, capacity, p, i, Images(active, p), Images(later, p + 1), t.done);
    }
  }

  lemma SpaciousImages(env: Env, call: Call, capacity: nat, p: int, i: nat,
                       active: seq<Block>, active': seq<Block>, later: seq<Block>, t: Trail)
    requires ValidEnv(env) && i <= |active| == |active'| && Images(active, p) == Images(active', p)
    requires Spacious(env, call, capacity, p, i, active, later, t)
    ensures Spacious(env, call, capacity, p, i, active', later, t)
  {
  }

  lemma SpaciousPass(env: Env, call: Call, capacity: nat, p: int, i: nat,
                     active: seq<Block>, later: seq<Block>, t: Trail)
    requires ValidEnv(env) && i < |active| && active[i].off >= 0
    requires Spacious(env, call, capacity, p, i, active, later, t)
    ensures Spacious(env, call, capacity, p, i + 1, active, later, t)
  {
    hide ValidEnv, Packed, Inlined;
    if !t.failed {
      PackedPass(env, Inlined(env, t.depth), call, capacity, p, i, Images(active, p), Images(later, p + 1), t.done);
    }
  }

  /** What is known at one depth of the processed states is known at a greater one. */
  lemma SpaciousDeeper(env: Env, call: Call, start: int, capacity: nat, p: int, i: nat,
                       active: seq<Block>, later: seq<Block>, t: Trail, depth: nat)
    requires ValidEnv(env) && call.open in env.code.brackets && i <= |active| && t.depth <= depth
    requires Progress(env, call, start, p, i, active, later, t) && Spacious(env, call, capacity, p, i, active, later, t)
    requires !t.failed
    ensures Packed(env, Inlined(env, depth), call, capacity, p, i, Images(active, p), Images(later, p + 1), t.done)
    ensures AllReached(env, Inlined(env, depth), call, t.done + Waiting(Images(active, p), i, Images(later, p + 1)))
  {
    hide ValidEnv, Packed, Inlined, EndsListed, AllInside, Placed, OnlyReached, OnlyArriving, Waiting, Step, Reached;
    var here, next := Images(active, p), Images(later, p + 1);
    InliningIsMonotonic(env, t.depth, depth);
    CoverKnowing(env, Inlined(env, t.depth), Inlined(env, depth), call, t.done, Waiting(here, i, next));
    PackedKnowing(env, Inlined(env, t.depth), Inlined(env, depth), call, capacity, p, i, here, next, t.done);
    forall c <- Waiting(here, i, next) ensures Reached(env, Inlined(env, depth), call, c) {
      FedIsReached(env, Inlined(env, depth), call, t.done, Waiting(here, i, next), c);
    }
  }

  /** How a step stands to its position. */
  lemma StepTakes(env: Env, g: int, som: int, c: Config, ends: seq<int>)
    requires ValidEnv(env) && c.off in env.code.items && 0 <= c.pos <= |env.subject|
    requires StepWith(env, som, c, ends).Go?
    ensures var out := StepWith(env, som, c, ends);
            && OutcomeAt(out, c.pos)
            && |out.here| <= Takes(env, c, out)
            && (NoPossessive(env.code) ==> |out.here| == Takes(env, c, out))
  {
    hide WellFormed, Holds, Passes;
    match env.code.items[c.off] {
      case Jump(ts) =>
        assert forall s <- JumpTo(ts, c.pos) :: s.pos == c.pos;
      case Recursion(_, _, next) =>
        EqualIsBounded(ends, c.pos);
        AboveIsBounded(ends, c.pos);
        AtIsThere(next, Equal(ends, c.pos));
        AtIsThere(next, Above(ends, c.pos));
      case _ =>
    }
  }

  /** A step that finds no room shows that the call is crowded. */
  lemma NoRoomIsCrowded(env: Env, call: Call, start: int, capacity: nat, p: int, i: nat,
                        active: seq<Block>, later: seq<Block>, t: Trail, depth: nat, ends: seq<int>)
    requires ValidEnv(env) && call.open in env.code.brackets && i < |active| && t.depth <= depth && !t.failed
    requires Progress(env, call, start, p, i, active, later, t) && Spacious(env, call, capacity, p, i, active, later, t)
    requires active[i].off >= 0 && Image(active[i], p) !in t.done && Inside(env, call.open, Image(active[i], p))
    requires var c, out := Image(active[i], p), StepWith(env, call.som, Image(active[i], p), ends);
             && out.Go? && Step(env, Inlined(env, depth), call, c) == out
             && NoRoom(capacity, active, later, Takes(env, c, out), |out.later|)
    ensures Crowded(env, call, capacity)
  {
    hide ValidEnv, Packed, Inlined, Crowded, Progress, Spacious, Step, Takes, Reached;
    var here, next := Images(active, p), Images(later, p + 1);
    assert here[i] in here[i..];
    SpaciousDeeper(env, call, start, capacity, p, i, active, later, t, depth);
    StepTakes(env, call.open, call.som, here[i], ends);
    OverflowIsCrowded(env, depth, call, capacity, p, i, here, next, t.done, StepWith(env, call.som, here[i], ends));
  }

  /** A step has been added. */
  lemma SpaciousStep(env: Env, call: Call, start: int, capacity: nat, p: int, i: nat,
                     active: seq<Block>, later: seq<Block>, t: Trail,
                     active': seq<Block>, later': seq<Block>, t': Trail, out: Outcome)
    requires ValidEnv(env) && call.open in env.code.brackets && i < |active|
    requires Progress(env, call, start, p, i, active, later, t) && Spacious(env, call, capacity, p, i, active, later, t)
    requires active[i].off >= 0 && Image(active[i], p) !in t.done
    requires OutcomeAt(out, p)
    requires Grown(active, active', p, out.here) && Grown(later, later', p + 1, out.later)
    requires t'.done == t.done + {Image(active[i], p)} && (t.failed ==> t'.failed)
    requires !t'.failed ==> t.depth <= t'.depth && Step(env, Inlined(env, t'.depth), call, Image(active[i], p)) == out
    requires var c := Image(active[i], p);
             |out.here| <= Takes(env, c, out) && (NoPossessive(env.code) ==> |out.here| == Takes(env, c, out))
    ensures i < |active'| && Spacious(env, call, capacity, p, i + 1, active', later', t')
  {
    hide ValidEnv, Packed, Inlined, Progress, Step, Takes, NoPossessive;
    if !t'.failed {
      var here, next := Images(active, p), Images(later, p + 1);
      SpaciousDeeper(env, call, start, capacity, p, i, active, later, t, t'.depth);
      PackedStep(env, Inlined(env, t'.depth), call, capacity, p, i, here, next, t.done, out);
      assert Images(active', p) == here + out.here && Images(later', p + 1) == next + out.later;
    }
  }

  /** A possessive range has taken the last active state back, which was its own. */
  lemma SpaciousDrop(env: Env, call: Call, start: int, capacity: nat, p: int, i: nat,
                     active: seq<Block>, later: seq<Block>, t: Trail,
                     active': seq<Block>, later': seq<Block>, t': Trail, out: Outcome)
    requires ValidEnv(env) && call.open in env.code.brackets && i + 1 == |active|
    requires Progress(env, call, start, p, i, active, later, t) && Spacious(env, call, capacity, p, i, active, later, t)
    requires active[i].off >= 0 && Image(active[i], p) !in t.done && IsPossessive(env, Image(active[i], p))
    requires OutcomeAt(out, p) && out.here == []
    requires active' == active[..|active| - 1] && Grown(later, later', p + 1, out.later)
    requires t'.done == t.done + {Image(active[i], p)} && (t.failed ==> t'.failed)
    requires !t'.failed ==> t.depth <= t'.depth && Step(env, Inlined(env, t'.depth), call, Image(active[i], p)) == out
    ensures Spacious(env, call, capacity, p, i, active', later', t')
  {
    hide ValidEnv, Packed, Inlined, Progress, Step;
    if !t'.failed {
      var here, next := Images(active, p), Images(later, p + 1);
      SpaciousDeeper(env, call, start, capacity, p, i, active, later, t, t'.depth);
      assert here + out.here == here && Images(active', p) == here[..i];
      assert !NoPossessive(env.code);
      hide NoPossessive;
      PackedStep(env, Inlined(env, t'.depth), call, capacity, p, i, here, next, t.done, out);
      PackedDrop(env, Inlined(env, t'.depth), call, capacity, p, here, next + out.later, t'.done);
    }
  }

  /** A match steps nowhere. */
  lemma SpaciousMatch(env: Env, call: Call, start: int, capacity: nat, p: int, i: nat,
                      active: seq<Block>, later: seq<Block>, t: Trail, t': Trail)
    requires ValidEnv(env) && call.open in env.code.brackets && i < |active|
    requires Progress(env, call, start, p, i, active, later, t) && Spacious(env, call, capacity, p, i, active, later, t)
    requires active[i].off == env.code.brackets[call.open].close >= 0 && Image(active[i], p) !in t.done
    requires t'.done == t.done + {Image(active[i], p)} && t'.depth == t.depth && t'.failed == t.failed
    ensures Spacious(env, call, capacity, p, i + 1, active, later, t')
  {
    hide ValidEnv, Progress, Spacious, NoPossessive;
    InsideAtState(env, call, start, p, i, active, later, t);
    assert Grown(active, active, p, []) && Grown(later, later, p + 1, []);
    KetTakesNothing(env, call, Image(active[i], p));
    SpaciousStep(env, call, start, capacity, p, i, active, later, t, active, later, t', Go([], []));
  }

  lemma KetTakesNothing(env: Env, call: Call, c: Config)
    requires ValidEnv(env) && call.open in env.code.brackets && c.off == env.code.brackets[call.open].close
    ensures Takes(env, c, Go([], [])) == 0
  {
    EveryBracketIsOk(env, call.open);
  }

  /** The position is behind us. */
  lemma SpaciousNext(env: Env, call: Call, capacity: nat, p: int, active: seq<Block>, later: seq<Block>, t: Trail)
    requires ValidEnv(env) && |active| <= capacity && Spacious(env, call, capacity, p, |active|, active, later, t)
    ensures Spacious(env, call, capacity, p + 1, 0, later, [], t)
  {
    hide ValidEnv, Packed, Inlined;
    if !t.failed {
      PackedNext(env, Inlined(env, t.depth), call, capacity, p, Images(active, p), Images(later, p + 1), t.done);
      assert Images([], p + 2) == [];
    }
  }

  lemma SpaciousAtEnd(env: Env, call: Call, capacity: nat, p: int, t: Trail)
    requires ValidEnv(env) && Spacious(env, call, capacity, p, 0, [], [], t) && !t.failed && NoPossessive(env.code)
    requires Defined(env, Inlined(env, t.depth), call)
    requires forall c :: Reached(env, Inlined(env, t.depth), call, c) <==> c in t.done
    ensures !Crowded(env, call, capacity)
  {
    hide ValidEnv, Packed, Inlined, Crowded, Reached, Defined;
    assert Images([], p) == [] && Images([], p + 1) == [];
    EndedIsNotCrowded(env, t.depth, call, capacity, p, t.done);
  }

  // ---------------------------------------------------------------- what cannot be matched

  /** However deep nested calls are inlined, the step stops. */
  ghost predicate Stuck(env: Env, call: Call, c: Config)
    requires ValidEnv(env)
  {
    forall k: nat :: Step(env, Inlined(env, k), call, c).Stop?
  }

  /** However deep nested calls are inlined, the call has no meaning. */
  ghost predicate Meaningless(env: Env, call: Call)
    requires ValidEnv(env)
  {
    forall k: nat :: Inlined(env, k)(call).None?
  }

  lemma StuckIsMeaningless(env: Env, depth: nat, call: Call, c: Config)
    requires ValidEnv(env) && Reached(env, Inlined(env, depth), call, c) && Stuck(env, call, c)
    ensures Meaningless(env, call)
  {
    hide ValidEnv, Step, Reached;
    forall k: nat ensures Inlined(env, k)(call).None? {
      if Inlined(env, k)(call).Some? {
        var m := if k - 1 <= depth then depth else k - 1;
        InliningIsMonotonic(env, k - 1, m);
        InliningIsMonotonic(env, depth, m);
        SameReached(env, Inlined(env, k - 1), Inlined(env, m), call);
        StaysReached(env, Inlined(env, depth), Inlined(env, m), call, c);
        assert false;
      }
    }
  }

  /** A state that cannot be processed leaves the call without a meaning. */
  lemma StuckState(env: Env, call: Call, start: int, p: int, i: nat, active: seq<Block>, later: seq<Block>, t: Trail)
    requires ValidEnv(env) && call.open in env.code.brackets && i < |active|
    requires Progress(env, call, start, p, i, active, later, t) && active[i].off >= 0 && !t.failed
    requires Stuck(env, call, Image(active[i], p))
    ensures Meaningless(env, call)
  {
    hide ValidEnv, EndsListed, AllInside, Placed, Covers, Stuck, Meaningless;
    var here, next := Images(active, p), Images(later, p + 1);
    assert here[i] in here[i..];
    FedIsReached(env, Inlined(env, t.depth), call, t.done, Waiting(here, i, next), here[i]);
    StuckIsMeaningless(env, t.depth, call, here[i]);
  }
}
