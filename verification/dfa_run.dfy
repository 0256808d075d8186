/** The matcher without its vector, for programs in which nothing is nested: each position as a function of the lists
    with which it is entered. It says in what order states are processed, and what a possessive range takes back. */
module DfaRun {
  import opened DfaProgram
  import opened DfaSemantics
  import opened DfaStates
  import opened DfaCrowd
  import opened DfaActions
  import opened DfaProgress

  /** No item needs a nested call, none is unsupported. */
  ghost predicate Plain(code: Code) {
    forall o <- code.items ::
      !code.items[o].Assertion? && !code.items[o].Recursion? && !code.items[o].Unsupported?
  }

  /** The same for the items inside one bracket. */
  ghost predicate PlainIn(code: Code, g: int)
    requires g in code.brackets
  {
    forall o <- code.items :: g < o < code.brackets[g].close ==>
      !code.items[o].Assertion? && !code.items[o].Recursion? && !code.items[o].Unsupported?
  }

  /** The states at a position, those for later ones, the states processed and the ends found, and whether a
      possessive range has taken another state back. */
  datatype Pass = Pass(here: seq<Config>, next: seq<Config>, done: set<Config>, ends: seq<int>, taken: bool)

  /** The state at index i is seen to. */
  ghost function Processed(env: Env, call: Call, p: int, i: nat, s: Pass): Pass
    requires ValidEnv(env) && call.open in env.code.brackets && i < |s.here|
  {
    var c := s.here[i];
    if c.pos > p then s.(next := s.next + [c])
    else if c in s.done || c.off !in env.code.items || !(0 <= c.pos <= |env.subject|) then s
    else if c.off == env.code.brackets[call.open].close then s.(done := s.done + {c}, ends := s.ends + [p])
    else
      var out := StepWith(env, call.som, c, []);
      if out.Stop? then s
      else Pass(if TooMuch(env, c) then s.here[..|s.here| - 1] else s.here + out.here, s.next + out.later,
                s.done + {c}, s.ends, s.taken || (TooMuch(env, c) && i + 1 < |s.here|))
  }

  /** The states before i have been seen to, as long as there are so many. */
  ghost function After(env: Env, call: Call, p: int, s: Pass, i: nat): Pass
    requires ValidEnv(env) && call.open in env.code.brackets
  {
    if i == 0 then s
    else
      var t := After(env, call, p, s, i - 1);
      if i - 1 < |t.here| then Processed(env, call, p, i - 1, t) else t
  }

  /** With position p behind it, s has become t. */
  ghost predicate Goes(env: Env, call: Call, p: int, s: Pass, t: Pass)
    requires ValidEnv(env) && call.open in env.code.brackets
  {
    exists i: nat :: i >= |t.here| && t == After(env, call, p, s, i)
  }

  /** Position p is entered with s. */
  ghost predicate Enters(env: Env, call: Call, start: int, p: int, s: Pass)
    requires ValidEnv(env) && call.open in env.code.brackets
    decreases p - start
  {
    if p <= start then p == start && s == Pass(call.init, [], {}, [], false)
    else
      var q := p - 1;
      exists a, b ::
        && Enters(env, call, start, q, a) && Goes(env, call, q, a, b)
        && b.next != [] && s == Pass(b.next, [], b.done, b.ends, b.taken)
  }

  /** The scan from start on stops at the position stop with these ends; taken says whether a possessive range has
      taken another state back. */
  ghost predicate Runs(env: Env, call: Call, start: int, stop: int, ends: seq<int>, taken: bool)
    requires ValidEnv(env) && call.open in env.code.brackets
  {
    exists a, b ::
      Enters(env, call, start, stop, a) && Goes(env, call, stop, a, b) && b.next == [] && b.ends == ends
      && b.taken == taken
  }

  /** There is no room for what the state at index i needs. */
  ghost predicate Overflows(env: Env, call: Call, capacity: nat, p: int, i: nat, s: Pass)
    requires ValidEnv(env)
  {
    && i < |s.here|
    && var c := s.here[i];
       if c.pos > p then |s.next| >= capacity
       else
         && c !in s.done && IsState(env, call, c)
         && var out := StepWith(env, call.som, c, []);
            out.Go? && (|s.here| + Takes(env, c, out) > capacity || |s.next| + |out.later| > capacity)
  }

  /** At some position, some state of the scan finds no room. */
  ghost predicate RunsOut(env: Env, call: Call, start: int, capacity: nat)
    requires ValidEnv(env) && call.open in env.code.brackets
  {
    exists p, a, i: nat ::
      Enters(env, call, start, p, a) && Overflows(env, call, capacity, p, i, After(env, call, p, a, i))
  }

  /** What has been seen to stays so. */
  lemma {:induction false} AfterStays(env: Env, call: Call, p: int, s: Pass, n: nat, i: nat)
    requires ValidEnv(env) && call.open in env.code.brackets && n <= i
    requires |After(env, call, p, s, n).here| <= n
    ensures After(env, call, p, s, i) == After(env, call, p, s, n)
  {
    hide ValidEnv, Processed;
    if n < i { AfterStays(env, call, p, s, n, i - 1); }
  }

  /** A position leaves just one state of the scan behind. */
  lemma GoesTo(env: Env, call: Call, p: int, s: Pass, t: Pass, n: nat)
    requires ValidEnv(env) && call.open in env.code.brackets && Goes(env, call, p, s, t)
    requires |After(env, call, p, s, n).here| <= n
    ensures t == After(env, call, p, s, n)
  {
    hide ValidEnv, Processed;
    var i: nat :| i >= |t.here| && t == After(env, call, p, s, i);
    if n <= i { AfterStays(env, call, p, s, n, i); } else { AfterStays(env, call, p, s, i, n); }
  }

  lemma {:induction false} EntersOne(env: Env, call: Call, start: int, p: int, s: Pass, t: Pass)
    requires ValidEnv(env) && call.open in env.code.brackets
    requires Enters(env, call, start, p, s) && Enters(env, call, start, p, t)
    ensures s == t
    decreases p - start
  {
    hide ValidEnv, After;
    if p > start {
      var q := p - 1;
      var a, b :| Enters(env, call, start, q, a) && Goes(env, call, q, a, b)
                  && s == Pass(b.next, [], b.done, b.ends, b.taken);
      var c, d :| Enters(env, call, start, q, c) && Goes(env, call, q, c, d)
                  && t == Pass(d.next, [], d.done, d.ends, d.taken);
      EntersOne(env, call, start, q, a, c);
      GoesOne(env, call, q, a, b, d);
    }
  }

  lemma GoesOne(env: Env, call: Call, p: int, s: Pass, t: Pass, u: Pass)
    requires ValidEnv(env) && call.open in env.code.brackets && Goes(env, call, p, s, t) && Goes(env, call, p, s, u)
    ensures t == u
  {
    hide ValidEnv, After;
    var i: nat :| i >= |u.here| && u == After(env, call, p, s, i);
    GoesTo(env, call, p, s, t, i);
  }

  /** The lists of the matcher as such a state. */
  ghost function PassOf(p: int, active: seq<Block>, later: seq<Block>, t: Trail): Pass {
    Pass(Images(active, p), Images(later, p + 1), t.done, t.ends, t.failed)
  }

  // ---------------------------------------------------------------- what each thing that can happen to a state does

  lemma SkipIsProcessed(env: Env, call: Call, p: int, i: nat, active: seq<Block>, later: seq<Block>, t: Trail,
                        later': seq<Block>)
    requires ValidEnv(env) && call.open in env.code.brackets && i < |active| && Image(active[i], p).pos > p
    requires Grown(later, later', p + 1, [Image(active[i], p)])
    ensures PassOf(p, active, later', t) == Processed(env, call, p, i, PassOf(p, active, later, t))
  {
    hide ValidEnv, StepWith, TooMuch;
  }

  lemma DuplicateIsProcessed(env: Env, call: Call, p: int, i: nat, active: seq<Block>, later: seq<Block>, t: Trail)
    requires ValidEnv(env) && call.open in env.code.brackets && i < |active|
    requires Image(active[i], p).pos <= p && Image(active[i], p) in t.done
    ensures PassOf(p, active, later, t) == Processed(env, call, p, i, PassOf(p, active, later, t))
  {
    hide ValidEnv, StepWith, TooMuch;
  }

  lemma MatchIsProcessed(env: Env, call: Call, p: int, i: nat, active: seq<Block>, later: seq<Block>, t: Trail,
                         t': Trail)
    requires ValidEnv(env) && call.open in env.code.brackets && i < |active| && active[i].off >= 0
    requires var c := Image(active[i], p);
             && Inside(env, call.open, c) && c !in t.done && c.off == env.code.brackets[call.open].close
             && t' == t.(done := t.done + {c}, ends := t.ends + [p])
    ensures PassOf(p, active, later, t') == Processed(env, call, p, i, PassOf(p, active, later, t))
  {
    hide ValidEnv, StepWith, TooMuch;
  }

  lemma StepIsProcessed(env: Env, call: Call, p: int, i: nat, active: seq<Block>, later: seq<Block>, t: Trail,
                        active': seq<Block>, later': seq<Block>, t': Trail)
    requires ValidEnv(env) && call.open in env.code.brackets && i < |active| && active[i].off >= 0
    requires var c := Image(active[i], p);
             && Inside(env, call.open, c) && c !in t.done && c.off != env.code.brackets[call.open].close
             && Added(env, call, c, [], active, later, active', later')
             && t'.done == t.done + {c} && t'.ends == t.ends
             && t'.failed == (t.failed || (TooMuch(env, c) && i + 1 < |active|))
    ensures PassOf(p, active', later', t') == Processed(env, call, p, i, PassOf(p, active, later, t))
  {
    hide ValidEnv, StepWith, TooMuch, AllInside;
  }

  lemma FullOverflows(env: Env, call: Call, capacity: nat, p: int, i: nat, active: seq<Block>, later: seq<Block>,
                      t: Trail)
    requires ValidEnv(env) && i < |active| && Image(active[i], p).pos > p && |later| >= capacity
    ensures Overflows(env, call, capacity, p, i, PassOf(p, active, later, t))
  {
    hide ValidEnv, StepWith, Takes;
  }

  lemma NoRoomOverflows(env: Env, call: Call, capacity: nat, p: int, i: nat, active: seq<Block>, later: seq<Block>,
                        t: Trail)
    requires ValidEnv(env) && i < |active| && active[i].off >= 0 && IsState(env, call, Image(active[i], p))
    requires var c, out := Image(active[i], p), StepWith(env, call.som, Image(active[i], p), []);
             c !in t.done && out.Go? && NoRoom(capacity, active, later, Takes(env, c, out), |out.later|)
    ensures Overflows(env, call, capacity, p, i, PassOf(p, active, later, t))
  {
    hide ValidEnv, StepWith, Takes;
  }
}
