/** What a program means, item by item: no counts, no lists, no single steps. A path goes from place to place, each
    time over the whole of what an item matches. */
module DfaPaths {
  import opened Basics
  import opened DfaProgram
  import opened DfaSemantics
  import opened DfaCoverage
  import opened DfaItems
  import opened DfaRepeat

  /** In front of the item at an offset, at a position of the subject. */
  datatype Place = Place(off: int, pos: int)

  /** A bracket matched from a position, and the position that \G means. */
  datatype Task = Task(open: int, som: int, at: int)

  ghost function CallOf(env: Env, task: Task): Call
    requires task.open in env.code.brackets
  {
    CallAt(env, task.open, task.at).(som := task.som)
  }

  /** The ends that a nested call is known to find. */
  ghost predicate Finds(nested: Nested, d: Call, q: int) {
    nested(d).Some? && q in nested(d).value
  }

  /** The item at the first place can match from there, and the second place is behind what it matches. */
  ghost predicate Passable(env: Env, nested: Nested, som: int, a: Place, b: Place)
    requires ValidEnv(env)
  {
    && a.off in env.code.items && 0 <= a.pos <= |env.subject|
    && match env.code.items[a.off]
       case Jump(targets) => b.off in targets && b.pos == a.pos
       case ZeroWidth(op, next) => b == Place(next, a.pos) && Stands(env, som, op, a.pos)
       case One(t, next) => b == Place(next, a.pos + 1) && PassesAt(env, t, a.pos)
       case NewlineSequence(next) => b.off == next && IsLineEnd(env, a.pos, b.pos)
       case Repeat(t, q, possessive, next) =>
         b.off == next && b.pos >= a.pos && MayTake(env, t, q, possessive, a.pos, b.pos - a.pos)
       case ForcedFail => false
       case Assertion(positive, next) =>
         var d := CallAt(env, a.off, a.pos);
         b == Place(next, a.pos) && nested(d).Some? && ((exists q :: Finds(nested, d, q)) == positive)
       case Recursion(target, _, next) =>
         b.off == next && b.pos >= a.pos && Finds(nested, CallAt(env, target, a.pos), b.pos)
       case Unsupported => false
  }

  /** An alternative of the bracket starts here. */
  ghost predicate IsStart(env: Env, task: Task, a: Place)
    requires task.open in env.code.brackets
  {
    exists e <- env.code.brackets[task.open].entries :: a.off == e.off && a.pos >= 0 && a.pos + e.back == task.at
  }

  /** n items lead from a start of the bracket to the place, without passing its ket. */
  ghost predicate PathOf(env: Env, nested: Nested, task: Task, n: nat, a: Place)
    requires ValidEnv(env) && task.open in env.code.brackets
  {
    if n == 0 then IsStart(env, task, a)
    else
      exists b ::
        && PathOf(env, nested, task, n - 1, b) && Passable(env, nested, task.som, b, a)
        && b.off != env.code.brackets[task.open].close
  }

  ghost predicate OnPath(env: Env, nested: Nested, task: Task, a: Place)
    requires ValidEnv(env) && task.open in env.code.brackets
  {
    exists n: nat :: PathOf(env, nested, task, n, a)
  }

  /** No repeat is followed by itself. */
  ghost predicate MovesOn(code: Code) {
    forall o <- code.items :: code.items[o].Repeat? ==> code.items[o].next != o
  }

  lemma DecodedGoesOn(prog: seq<byte>, starts: set<int>)
    ensures MovesOn(Decode(prog, starts))
  {
  }

  // ---------------------------------------------------------------- a step of an item that is no repeat

  lemma InJump(targets: seq<int>, p: int, c: Config)
    ensures c in JumpTo(targets, p) <==> c.off in targets && c.count == 0 && c.pos == p
  {
    var cs := JumpTo(targets, p);
    if c.off in targets && c.count == 0 && c.pos == p {
      var i :| 0 <= i < |targets| && targets[i] == c.off;
      assert cs[i] == c;
    }
  }

  lemma InAt(off: int, ps: seq<int>, c: Config)
    ensures c in At(off, ps) <==> c.off == off && c.count == 0 && c.pos in ps
  {
    var cs := At(off, ps);
    if c.off == off && c.count == 0 && c.pos in ps {
      var i :| 0 <= i < |ps| && ps[i] == c.pos;
      assert cs[i] == c;
    }
  }

  lemma {:induction false} InEqualAbove(ps: seq<int>, p: int, q: int)
    ensures q in Equal(ps, p) <==> q in ps && q == p
    ensures q in Above(ps, p) <==> q in ps && q > p
  {
    if ps != [] {
      InEqualAbove(ps[..|ps| - 1], p, q);
      assert ps == ps[..|ps| - 1] + [ps[|ps| - 1]];
    }
  }

  lemma NestedBrackets(env: Env, b: Config)
    requires ValidEnv(env) && b.off in env.code.items
    ensures env.code.items[b.off].Assertion? ==> b.off in env.code.brackets
    ensures env.code.items[b.off].Recursion? ==> env.code.items[b.off].target in env.code.brackets
  {
  }

  lemma OneStep(env: Env, nested: Nested, call: Call, b: Config, c: Config)
    requires ValidEnv(env) && call.open in env.code.brackets && b.off != env.code.brackets[call.open].close
    requires b.off in env.code.items && !env.code.items[b.off].Repeat?
    ensures Steps(env, nested, call, b, c) <==>
            c.count == 0 && Passable(env, nested, call.som, Place(b.off, b.pos), Place(c.off, c.pos))
  {
    NestedBrackets(env, b);
    hide WellFormed, Passes, Admits, Holds, Stands, NewlineLength, IsLineEnd, CallAt;
    if 0 <= b.pos <= |env.subject| {
      match env.code.items[b.off] {
        case Jump(targets) => InJump(targets, b.pos, c);
        case ZeroWidth(op, _) => HoldsIsStands(env, call.som, op, b.pos);
        case One(t, _) => if b.pos < |env.subject| { PassesIsAdmits(env, t, b.pos); }
        case NewlineSequence(_) => NewlineIsLineEnd(env, b.pos, c.pos);
        case Recursion(target, _, next) => RecursionStep(env, nested, call, b, c);
        case Assertion(_, _) =>
          var d := CallAt(env, b.off, b.pos);
          if nested(d).Some? && nested(d).value != [] {
            assert Finds(nested, d, nested(d).value[0]);
          }
        case _ =>
      }
    }
  }

  lemma RecursionStep(env: Env, nested: Nested, call: Call, b: Config, c: Config)
    requires ValidEnv(env) && call.open in env.code.brackets && b.off != env.code.brackets[call.open].close
    requires b.off in env.code.items && env.code.items[b.off].Recursion? && 0 <= b.pos <= |env.subject|
    ensures Steps(env, nested, call, b, c) <==>
            c.count == 0 && Passable(env, nested, call.som, Place(b.off, b.pos), Place(c.off, c.pos))
  {
    NestedBrackets(env, b);
    hide WellFormed, CallAt, Equal, Above, At;
    var it := env.code.items[b.off];
    var d := CallAt(env, it.target, b.pos);
    if nested(d).Some? {
      var ends := nested(d).value;
      InAt(it.next, Equal(ends, b.pos), c);
      InAt(it.next, Above(ends, b.pos), c);
      InEqualAbove(ends, b.pos, c.pos);
    }
  }

  // ---------------------------------------------------------------- runs are paths

  lemma {:induction false} InStart(entries: seq<Entry>, p: int, c: Config)
    ensures c in Start(entries, p) <==>
            c.count == 0 && exists e <- entries :: c.off == e.off && e.back <= p && c.pos == p - e.back
  {
    if entries != [] {
      InStart(entries[..|entries| - 1], p, c);
      assert entries == entries[..|entries| - 1] + [entries[|entries| - 1]];
    }
  }

  /** A run that is in an item has come to it along a path; in a repeat it may have taken some characters. */
  ghost predicate Came(env: Env, nested: Nested, task: Task, c: Config)
    requires ValidEnv(env) && task.open in env.code.brackets
  {
    if c.off in env.code.items && env.code.items[c.off].Repeat? && c.off != env.code.brackets[task.open].close then
      exists p: int, k: nat ::
        OnPath(env, nested, task, Place(c.off, p)) && Stays(env, nested, CallOf(env, task), c.off, p, k, c)
    else c.count == 0 && OnPath(env, nested, task, Place(c.off, c.pos))
  }

  lemma FurtherOnPath(env: Env, nested: Nested, task: Task, a: Place, b: Place)
    requires ValidEnv(env) && task.open in env.code.brackets && OnPath(env, nested, task, a)
    requires Passable(env, nested, task.som, a, b) && a.off != env.code.brackets[task.open].close
    ensures OnPath(env, nested, task, b)
  {
    hide ValidEnv, Passable;
    var n: nat :| PathOf(env, nested, task, n, a);
    assert PathOf(env, nested, task, n + 1, b);
  }

  /** Where the run is now, if it has just come to the item. */
  lemma CameNew(env: Env, nested: Nested, task: Task, c: Config)
    requires ValidEnv(env) && task.open in env.code.brackets && c.count == 0
    requires OnPath(env, nested, task, Place(c.off, c.pos))
    ensures Came(env, nested, task, c)
  {
    hide ValidEnv, OnPath;
    assert Stays(env, nested, CallOf(env, task), c.off, c.pos, 0, c);
  }

  lemma {:induction false} StaysInRange(env: Env, nested: Nested, call: Call, o: int, p: int, k: nat, c: Config)
    requires ValidEnv(env) && Stays(env, nested, call, o, p, k, c) && k > 0
    ensures 0 <= p <= |env.subject|
  {
    var b: Config :| b.off == o && Stays(env, nested, call, o, p, k - 1, b) && Steps(env, nested, call, b, c);
    if k > 1 { StaysInRange(env, nested, call, o, p, k - 1, b); }
  }

  lemma CameFurther(env: Env, nested: Nested, task: Task, b: Config, c: Config)
    requires ValidEnv(env) && task.open in env.code.brackets && MovesOn(env.code)
    requires Came(env, nested, task, b) && Steps(env, nested, CallOf(env, task), b, c)
    ensures Came(env, nested, task, c)
  {
    var call := CallOf(env, task);
    hide WellFormed, StepWith, OnPath, Passable;
    assert b.off in env.code.items && 0 <= b.pos <= |env.subject| && b.off != env.code.brackets[task.open].close;
    if env.code.items[b.off].Repeat? {
      CameFromRepeat(env, nested, task, b, c);
    } else {
      OneStep(env, nested, call, b, c);
      FurtherOnPath(env, nested, task, Place(b.off, b.pos), Place(c.off, c.pos));
      CameNew(env, nested, task, c);
    }
  }

  lemma CameFromRepeat(env: Env, nested: Nested, task: Task, b: Config, c: Config)
    requires ValidEnv(env) && task.open in env.code.brackets && MovesOn(env.code)
    requires Came(env, nested, task, b) && Steps(env, nested, CallOf(env, task), b, c)
    requires b.off in env.code.items && env.code.items[b.off].Repeat? && 0 <= b.pos <= |env.subject|
    requires b.off != env.code.brackets[task.open].close
    ensures Came(env, nested, task, c)
  {
    hide ValidEnv, Steps, OnPath, MayTake;
    var call, o, it := CallOf(env, task), b.off, env.code.items[b.off];
    var p: int, k: nat :| OnPath(env, nested, task, Place(o, p)) && Stays(env, nested, call, o, p, k, b);
    if k > 0 { StaysInRange(env, nested, call, o, p, k, b); }
    assert Stays(env, nested, call, o, p, k + 1, c);
    if c.off != o {
      StaysWhile(env, nested, call, o, it.test, it.quantifier, it.possessive, it.next, p, k, b);
      StepFrom(env, nested, call, o, it.test, it.quantifier, it.possessive, it.next, p, k, c);
      LeavesAfter(env, nested, call, o, it.test, it.quantifier, it.possessive, it.next, p, k + 1, c.pos);
      FurtherOnPath(env, nested, task, Place(o, p), Place(c.off, c.pos));
      CameNew(env, nested, task, c);
    }
  }

  lemma {:induction false} RunIsPath(env: Env, nested: Nested, task: Task, n: nat, c: Config)
    requires ValidEnv(env) && task.open in env.code.brackets && MovesOn(env.code)
    requires ReachedIn(env, nested, CallOf(env, task), n, c)
    ensures Came(env, nested, task, c)
  {
    hide ValidEnv, Steps, Came, MovesOn;
    if n == 0 {
      StartIsPath(env, nested, task, c);
    } else {
      var b :| Steps(env, nested, CallOf(env, task), b, c) && ReachedIn(env, nested, CallOf(env, task), n - 1, b);
      RunIsPath(env, nested, task, n - 1, b);
      CameFurther(env, nested, task, b, c);
    }
  }

  lemma StartIsPath(env: Env, nested: Nested, task: Task, c: Config)
    requires ValidEnv(env) && task.open in env.code.brackets && c in CallOf(env, task).init
    ensures Came(env, nested, task, c)
  {
    hide ValidEnv, Came;
    InStart(env.code.brackets[task.open].entries, task.at, c);
    assert IsStart(env, task, Place(c.off, c.pos));
    assert PathOf(env, nested, task, 0, Place(c.off, c.pos));
    CameNew(env, nested, task, c);
  }

  // ---------------------------------------------------------------- paths are runs

  lemma {:induction false} StaysIsReached(env: Env, nested: Nested, call: Call, o: int, p: int, k: nat, c: Config)
    requires ValidEnv(env) && Reached(env, nested, call, Config(o, 0, p)) && Stays(env, nested, call, o, p, k, c)
    ensures Reached(env, nested, call, c)
  {
    hide ValidEnv, Steps, Reached;
    if k > 0 {
      var b: Config :| b.off == o && Stays(env, nested, call, o, p, k - 1, b) && Steps(env, nested, call, b, c);
      StaysIsReached(env, nested, call, o, p, k - 1, b);
      ReachedNext(env, nested, call, b, c);
    }
  }

  lemma PassedIsReached(env: Env, nested: Nested, task: Task, a: Place, b: Place)
    requires ValidEnv(env) && task.open in env.code.brackets && MovesOn(env.code)
    requires Reached(env, nested, CallOf(env, task), Config(a.off, 0, a.pos))
    requires Passable(env, nested, task.som, a, b) && a.off != env.code.brackets[task.open].close
    ensures Reached(env, nested, CallOf(env, task), Config(b.off, 0, b.pos))
  {
    hide WellFormed, Reached, Stays, Steps, MayTake;
    var call, it := CallOf(env, task), env.code.items[a.off];
    if it.Repeat? {
      RepeatTakes(env, nested, call, a.off, it.test, it.quantifier, it.possessive, it.next, a.pos, b.pos);
      var n: nat :| Stays(env, nested, call, a.off, a.pos, n, Config(it.next, 0, b.pos));
      StaysIsReached(env, nested, call, a.off, a.pos, n, Config(it.next, 0, b.pos));
    } else {
      OneStep(env, nested, call, Config(a.off, 0, a.pos), Config(b.off, 0, b.pos));
      ReachedNext(env, nested, call, Config(a.off, 0, a.pos), Config(b.off, 0, b.pos));
    }
  }

  lemma {:induction false} PathIsRun(env: Env, nested: Nested, task: Task, n: nat, a: Place)
    requires ValidEnv(env) && task.open in env.code.brackets && MovesOn(env.code)
    requires PathOf(env, nested, task, n, a)
    ensures Reached(env, nested, CallOf(env, task), Config(a.off, 0, a.pos))
  {
    hide ValidEnv, Passable, Reached, MovesOn;
    if n == 0 {
      InStart(env.code.brackets[task.open].entries, task.at, Config(a.off, 0, a.pos));
      ReachedFirst(env, nested, CallOf(env, task), Config(a.off, 0, a.pos));
    } else {
      var b :| PathOf(env, nested, task, n - 1, b) && Passable(env, nested, task.som, b, a)
               && b.off != env.code.brackets[task.open].close;
      PathIsRun(env, nested, task, n - 1, b);
      PassedIsReached(env, nested, task, b, a);
    }
  }

  /** A bracket can be matched up to a position exactly when a path leads to its ket there. */
  lemma EndsAreOnPaths(env: Env, nested: Nested, task: Task, q: int)
    requires ValidEnv(env) && task.open in env.code.brackets && MovesOn(env.code)
    ensures EndsAt(env, nested, CallOf(env, task), q) <==>
            OnPath(env, nested, task, Place(env.code.brackets[task.open].close, q))
  {
    hide ValidEnv, PathOf, ReachedIn, MovesOn;
    var close := env.code.brackets[task.open].close;
    var call := CallOf(env, task);
    if EndsAt(env, nested, call, q) {
      var n: nat :| ReachedIn(env, nested, call, n, Config(close, 0, q));
      RunIsPath(env, nested, task, n, Config(close, 0, q));
    }
    if OnPath(env, nested, task, Place(close, q)) {
      var n: nat :| PathOf(env, nested, task, n, Place(close, q));
      PathIsRun(env, nested, task, n, Place(close, q));
    }
  }

  // ---------------------------------------------------------------- the value of a call

  lemma {:induction false} InEndsBelow(env: Env, nested: Nested, call: Call, m: nat, q: int)
    requires ValidEnv(env)
    ensures q in EndsBelow(env, nested, call, m) <==> 0 <= q < m && EndsAt(env, nested, call, q)
  {
    hide ValidEnv, EndsAt;
    if m > 0 { InEndsBelow(env, nested, call, m - 1, q); }
  }

  lemma {:induction false} EndsBelowAscend(env: Env, nested: Nested, call: Call, m: nat)
    requires ValidEnv(env)
    ensures var ends := EndsBelow(env, nested, call, m); Ascending(ends) && forall e <- ends :: e < m
  {
    hide ValidEnv, EndsAt;
    if m > 0 {
      EndsBelowAscend(env, nested, call, m - 1);
      var below := EndsBelow(env, nested, call, m - 1);
      assert forall i :: 0 <= i < |below| ==> below[i] in below;
    }
  }

  /** The positions, ascending, at which paths lead to the ket, nested calls being inlined up to depth k. */
  ghost predicate PathsEndAt(env: Env, k: nat, task: Task, ends: seq<int>)
    requires ValidEnv(env) && task.open in env.code.brackets
  {
    && Ascending(ends)
    && forall q :: q in ends <==> OnPath(env, Inlined(env, k), task, Place(env.code.brackets[task.open].close, q))
  }

  /** If a call has a value, that is where its paths end. */
  lemma ValueIsPaths(env: Env, k: nat, task: Task, ends: seq<int>)
    requires ValidEnv(env) && task.open in env.code.brackets && MovesOn(env.code)
    requires Inlined(env, k + 1)(CallOf(env, task)) == Some(ends)
    ensures PathsEndAt(env, k, task, ends)
  {
    hide WellFormed, MovesOn, OnPath, Reached, Ascending;
    var nested, call := Inlined(env, k), CallOf(env, task);
    assert ends == EndsBelow(env, nested, call, |env.subject| + 1) && Defined(env, nested, call);
    EndsBelowAscend(env, nested, call, |env.subject| + 1);
    forall q ensures q in ends <==> OnPath(env, nested, task, Place(env.code.brackets[task.open].close, q)) {
      InEndsBelow(env, nested, call, |env.subject| + 1, q);
      EndsAreOnPaths(env, nested, task, q);
      if EndsAt(env, nested, call, q) {
        assert Step(env, nested, call, Config(env.code.brackets[task.open].close, 0, q)).Go?;
      }
    }
  }

  /** What a call means is what paths say at some depth of inlining. */
  lemma MeaningIsPaths(env: Env, task: Task, ends: seq<int>)
    requires ValidEnv(env) && task.open in env.code.brackets && MovesOn(env.code)
    requires Means(env, CallOf(env, task), ends)
    ensures exists k: nat :: PathsEndAt(env, k, task, ends)
  {
    hide WellFormed, MovesOn, OnPath, CallAt, PathsEndAt;
    var k: nat :| Inlined(env, k)(CallOf(env, task)) == Some(ends);
    ValueIsPaths(env, k - 1, task, ends);
  }
}
