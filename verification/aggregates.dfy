/** The counting tree of the extension functions, and the aggregates mode, median and quartiles on it. */
module Aggregates {
  import opened Basics
  import opened OrderStatistics

  class Node {
    var data: int
    var count: nat
    var l: Node?
    var r: Node?
    ghost var Repr: set<object>

    ghost predicate Valid()
      reads this, Repr
      decreases Repr
    {
      && this in Repr
      && (l != null ==> l in Repr && l.Repr <= Repr - {this} && l.Valid())
      && (r != null ==> r in Repr && r.Repr <= Repr - {this} && r.Valid())
      && (l != null && r != null ==> l.Repr !! r.Repr)
    }

    /** The values and counts of the tree, from left to right. */
    ghost function Values(): (p: seq<Counted>)
      requires Valid()
      reads this, Repr
      decreases Repr
    {
      (if l == null then [] else l.Values()) + [Counted(data, count)] + (if r == null then [] else r.Values())
    }

    constructor (e: int)
      ensures Valid() && fresh(Repr) && Values() == [Counted(e, 1)]
    {
      data, count, l, r := e, 1, null, null;
      Repr := {this};
    }
  }

  ghost function ValuesOf(n: Node?): seq<Counted>
    requires n != null ==> n.Valid()
    reads if n == null then {} else {n} + n.Repr
  {
    if n == null then [] else n.Values()
  }

  /** Inserting left of, at and right of a root. */
  lemma {:induction false} WithOneLeft(a: seq<Counted>, root: Counted, b: seq<Counted>, e: int)
    requires e < root.value && Ascending(a + [root] + b)
    ensures WithOne(a + [root] + b, e) == WithOne(a, e) + [root] + b
  {
    if a == [] {
      assert a + [root] + b == [root] + b;
    } else {
      assert (a + [root] + b)[1..] == a[1..] + [root] + b;
      if e > a[0].value {
        WithOneLeft(a[1..], root, b, e);
      }
      assert a == [a[0]] + a[1..];
    }
  }

  lemma {:induction false} WithOneRight(a: seq<Counted>, root: Counted, b: seq<Counted>, e: int)
    requires e >= root.value && Ascending(a + [root] + b)
    ensures WithOne(a + [root] + b, e) == if e == root.value then a + [Counted(e, root.count + 1)] + b
                                          else a + [root] + WithOne(b, e)
  {
    var all := a + [root] + b;
    if a == [] {
      assert all == [root] + b && all[1..] == b;
    } else {
      assert all[1..] == a[1..] + [root] + b;
      assert all[|a|] == root && all[0] == a[0];
      WithOneRight(a[1..], root, b, e);
      assert a == [a[0]] + a[1..];
    }
  }

  lemma PartsAscend(a: seq<Counted>, root: Counted, b: seq<Counted>)
    requires Ascending(a + [root] + b)
    ensures Ascending(a) && Ascending(b)
  {
    var all := a + [root] + b;
    assert forall i :: 0 <= i < |a| ==> a[i] == all[i];
    assert forall i :: 0 <= i < |b| ==> b[i] == all[|a| + 1 + i];
  }

  /** node_insert: a new leaf, or one more of a value that is there. */
  method NodeInsert(n: Node?, e: int) returns (root: Node)
    requires n != null ==> n.Valid()
    requires Ascending(ValuesOf(n))
    modifies if n == null then {} else n.Repr
    ensures root.Valid() && root.Values() == WithOne(old(ValuesOf(n)), e)
    ensures n != null ==> root == n
    ensures fresh(root.Repr - old(if n == null then {} else n.Repr))
    decreases if n == null then {} else n.Repr, 1
  {
    if n == null {
      root := new Node(e);
    } else {
      root := n;
      if n.data == e {
        WithOneRight(ValuesOf(n.l), Counted(n.data, n.count), ValuesOf(n.r), e);
        hide WithOne, Ascending;
        CountUp(n);
      } else if n.data > e {
        InsertLeft(n, e);
      } else {
        InsertRight(n, e);
      }
    }
  }

  method CountUp(n: Node)
    requires n.Valid()
    modifies n`count
    ensures n.Valid() && n.Values() == old(ValuesOf(n.l) + [Counted(n.data, n.count + 1)] + ValuesOf(n.r))
  {
    n.count := n.count + 1;
  }

  method AttachLeft(n: Node, child: Node)
    requires n in n.Repr && child.Valid() && n !in child.Repr
    requires n.r != null ==> n.r in n.Repr && n.r.Repr <= n.Repr - {n} && n.r.Valid() && n.r.Repr !! child.Repr
    modifies n
    ensures n.Valid() && n.Repr == old(n.Repr) + child.Repr
    ensures n.Values() == old(child.Values() + [Counted(n.data, n.count)] + ValuesOf(n.r))
  {
    n.l := child;
    n.Repr := n.Repr + child.Repr;
  }

  method AttachRight(n: Node, child: Node)
    requires n in n.Repr && child.Valid() && n !in child.Repr
    requires n.l != null ==> n.l in n.Repr && n.l.Repr <= n.Repr - {n} && n.l.Valid() && n.l.Repr !! child.Repr
    modifies n
    ensures n.Valid() && n.Repr == old(n.Repr) + child.Repr
    ensures n.Values() == old(ValuesOf(n.l) + [Counted(n.data, n.count)] + child.Values())
  {
    n.r := child;
    n.Repr := n.Repr + child.Repr;
  }

  method InsertLeft(n: Node, e: int)
    requires n.Valid() && Ascending(n.Values()) && e < n.data
    modifies n.Repr
    ensures n.Valid() && n.Values() == WithOne(old(n.Values()), e) && fresh(n.Repr - old(n.Repr))
    decreases n.Repr, 0
  {
    ghost var a, b, c := ValuesOf(n.l), ValuesOf(n.r), Counted(n.data, n.count);
    PartsAscend(a, c, b);
    WithOneLeft(a, c, b, e);
    hide WithOne, Ascending;
    var child := NodeInsert(n.l, e);
    assert n.r != null ==> n.r.Valid() && n.r.Repr == old(n.r.Repr);
    assert ValuesOf(n.r) == b;
    AttachLeft(n, child);
  }

  method InsertRight(n: Node, e: int)
    requires n.Valid() && Ascending(n.Values()) && e > n.data
    modifies n.Repr
    ensures n.Valid() && n.Values() == WithOne(old(n.Values()), e) && fresh(n.Repr - old(n.Repr))
    decreases n.Repr, 0
  {
    ghost var a, b, c := ValuesOf(n.l), ValuesOf(n.r), Counted(n.data, n.count);
    PartsAscend(a, c, b);
    WithOneRight(a, c, b, e);
    hide WithOne, Ascending;
    var child := NodeInsert(n.r, e);
    assert n.l != null ==> n.l.Valid() && n.l.Repr == old(n.l.Repr);
    assert ValuesOf(n.l) == a;
    AttachRight(n, child);
  }

  // ---------------------------------------------------------------- the aggregates

  datatype Result = Null | Int(value: int) | Double(real_value: real)

  /** The context of mode, median and quartiles, for integers; pcnt is kept in quarters. */
  class ModeCtx {
    var riM: int
    var cnt: nat
    var quarters: nat
    var mcnt: nat
    var mn: nat
    var done: bool
    var base: Node?
    ghost var input: seq<int>

    ghost predicate Valid()
      reads this, if base == null then {} else {base} + base.Repr
    {
      && (base != null ==> base.Valid() && this !in base.Repr)
      && Counts(ValuesOf(base), input) && cnt == |input|
      && riM == 0 && mcnt == 0 && mn == 0 && !done
    }

    ghost function Footprint(): set<object>
      reads this, base
    {
      {this} + if base == null then {} else base.Repr
    }

    constructor ()
      ensures Valid() && input == [] && base == null
    {
      riM, cnt, quarters, mcnt, mn, done, base, input := 0, 0, 0, 0, 0, false, null, [];
    }

    /** modeStep, for a value that is not NULL. */
    method Step(x: int)
      requires Valid()
      modifies Footprint()
      ensures Valid() && input == old(input) + [x]
      ensures fresh(Footprint() - old(Footprint()))
    {
      hide Counts, Ascending, WithOne;
      OneMoreCounts(ValuesOf(base), input, x);
      CountsAscend(ValuesOf(base), input);
      cnt := cnt + 1;
      var root := NodeInsert(base, x);
      base := root;
      input := input + [x];
    }

    ghost function State(): Walk
      reads this
    {
      Walk(riM, mn, mcnt, done)
    }

    /** medianIterate. */
    method MedianIterate(e: int, c: nat)
      modifies `riM, `mn, `mcnt, `done
      ensures State() == MedianStep(old(State()), Counted(e, c), cnt, quarters)
    {
      if done {
        return;
      }
      var il := mcnt + c;
      var ir := cnt - mcnt;
      if 4 * il >= quarters {
        if 4 * ir >= 4 * cnt - quarters {
          mn := mn + 1;
          riM := riM + Low32(e);
        } else {
          done := true;
        }
      }
      mcnt := mcnt + c;
    }

    /** node_iterate with medianIterate. */
    method IterateMedian(n: Node)
      requires n.Valid() && this !in n.Repr
      modifies `riM, `mn, `mcnt, `done
      ensures State() == MedianWalk(old(State()), n.Values(), cnt, quarters)
      decreases n.Repr
    {
      hide MedianStep, MedianWalk;
      ghost var a, b, e := ValuesOf(n.l), ValuesOf(n.r), Counted(n.data, n.count);
      MedianInOrder(State(), a, e, b, cnt, quarters);
      NoWalk(State(), cnt, quarters);
      if n.l != null {
        IterateMedian(n.l);
      }
      MedianIterate(n.data, n.count);
      NoWalk(State(), cnt, quarters);
      if n.r != null {
        IterateMedian(n.r);
      }
    }

    ghost function Mode(): ModeState
      reads this
    {
      ModeState(riM, mcnt, mn)
    }

    /** modeIterate. */
    method ModeIterate(e: int, c: nat)
      modifies `riM, `mn, `mcnt
      ensures Mode() == ModeStep(old(Mode()), Counted(e, c))
    {
      if mcnt == c {
        mn := mn + 1;
      } else if mcnt < c {
        riM := Low32(e);
        mcnt := c;
        mn := 1;
      }
    }

    /** node_iterate with modeIterate. */
    method IterateMode(n: Node)
      requires n.Valid() && this !in n.Repr
      modifies `riM, `mn, `mcnt
      ensures Mode() == ModeWalk(old(Mode()), n.Values())
      decreases n.Repr
    {
      hide ModeStep, ModeWalk;
      ghost var a, b, e := ValuesOf(n.l), ValuesOf(n.r), Counted(n.data, n.count);
      ModeInOrder(Mode(), a, e, b);
      NoModeWalk(Mode());
      if n.l != null {
        IterateMode(n.l);
      }
      ModeIterate(n.data, n.count);
      NoModeWalk(Mode());
      if n.r != null {
        IterateMode(n.r);
      }
    }

    /** modeFinalize: the mode, if one value occurs more often than every other. */
    method ModeFinalize() returns (r: Result)
      requires Valid()
      modifies this
      ensures r == Null <==> !exists v :: IsMode(old(input), v) && old(input) != []
      ensures forall v :: old(input) != [] && IsMode(old(input), v) ==>
                r == Int(Low32(v)) && (r == Int(v) <==> IsInt32(v))
    {
      hide IsMode, ModeWalk, Counts;
      r := Null;
      if base != null {
        ghost var p := ValuesOf(base);
        NoValues(p, input);
        WalkIsMode(p, input);
        IterateMode(base);
        if mn == 1 {
          r := Int(riM);
        }
      } else {
        NoValues([], input);
      }
    }

    /** The result of _medianFinalize from the sum and the number of the values found. */
    method Average() returns (r: Result)
      requires mn > 0
      ensures r == if mn == 1 then Int(riM) else Double(riM as real / mn as real)
    {
      if mn == 1 {
        r := Int(riM);
      } else {
        r := Double(riM as real / mn as real);
      }
    }

    /** _medianFinalize, with pcnt in quarters: the average of the one or two quantiles. */
    method QuantileFinalize(q: nat) returns (r: Result, ghost vs: seq<int>)
      requires Valid() && q <= 4 * cnt && (cnt > 0 ==> q > 0)
      modifies this
      ensures QuantilesOf(vs, old(input), q)
      ensures if old(input) == [] then r == Null && vs == []
              else if |vs| == 1 then r == Int(Low32(vs[0])) && (r == Int(vs[0]) <==> IsInt32(vs[0]))
              else |vs| == 2 && r == Double((Low32(vs[0]) + Low32(vs[1])) as real / 2.0)
    {
      hide MedianWalk, Counts, Quantiles, QuantilesOf, Low32;
      vs := Quantiles(ValuesOf(base), input, q);
      MedianResult(ValuesOf(base), input, q);
      r := Null;
      if base != null {
        quarters := q;
        done := false;
        IterateMedian(base);
        r := Average();
      }
    }

    /** medianFinalize, lower_quartileFinalize and upper_quartileFinalize. */
    method MedianFinalize() returns (r: Result, ghost vs: seq<int>)
      requires Valid()
      modifies this
      ensures QuantilesOf(vs, old(input), 2 * |old(input)|)
      ensures if old(input) == [] then r == Null
              else if |vs| == 1 then r == Int(Low32(vs[0])) && (r == Int(vs[0]) <==> IsInt32(vs[0]))
              else |vs| == 2 && r == Double((Low32(vs[0]) + Low32(vs[1])) as real / 2.0)
    {
      hide QuantilesOf;
      r, vs := QuantileFinalize(2 * cnt);
    }

    method LowerQuartileFinalize() returns (r: Result, ghost vs: seq<int>)
      requires Valid()
      modifies this
      ensures QuantilesOf(vs, old(input), |old(input)|)
      ensures if old(input) == [] then r == Null
              else if |vs| == 1 then r == Int(Low32(vs[0])) && (r == Int(vs[0]) <==> IsInt32(vs[0]))
              else |vs| == 2 && r == Double((Low32(vs[0]) + Low32(vs[1])) as real / 2.0)
    {
      hide QuantilesOf;
      r, vs := QuantileFinalize(cnt);
    }

    method UpperQuartileFinalize() returns (r: Result, ghost vs: seq<int>)
      requires Valid()
      modifies this
      ensures QuantilesOf(vs, old(input), 3 * |old(input)|)
      ensures if old(input) == [] then r == Null
              else if |vs| == 1 then r == Int(Low32(vs[0])) && (r == Int(vs[0]) <==> IsInt32(vs[0]))
              else |vs| == 2 && r == Double((Low32(vs[0]) + Low32(vs[1])) as real / 2.0)
    {
      hide QuantilesOf;
      r, vs := QuantileFinalize(3 * cnt);
    }
  }

  lemma CountsAscend(p: seq<Counted>, xs: seq<int>)
    requires Counts(p, xs)
    ensures Ascending(p)
  {
  }

  lemma NoValues(p: seq<Counted>, xs: seq<int>)
    requires Counts(p, xs)
    ensures p == [] <==> xs == []
  {
    if xs != [] {
      SomeValue(p, xs);
    }
    if p != [] {
      StandingOf(p, xs, 0);
      assert Total(p) > 0;
    }
  }

  /** What the walk over all values leaves. */
  lemma MedianResult(p: seq<Counted>, xs: seq<int>, q: nat)
    requires Counts(p, xs) && q <= 4 * |xs| && (xs != [] ==> q > 0)
    ensures var vs, w := Quantiles(p, xs, q), MedianWalk(Walk(0, 0, 0, false), p, |xs|, q);
            && QuantilesOf(vs, xs, q) && (p == [] <==> xs == []) && (xs == [] ==> vs == [])
            && (xs != [] ==> w.found == |vs| && 1 <= |vs| <= 2
                             && w.sum == if |vs| == 1 then Low32(vs[0]) else Low32(vs[0]) + Low32(vs[1]))
  {
    hide MedianStep, Quantile, Low32;
    QuantilesAreThose(p, xs, q);
    NoValues(p, xs);
    if xs != [] {
      WalkFindsQuantiles(p, xs, q, |p|);
      assert p[..|p|] == p;
      OneOrTwoQuantiles(p, xs, q);
      SumOfTwo(Quantiles(p, xs, q));
    }
  }

  lemma SumOfTwo(vs: seq<int>)
    ensures |vs| == 1 ==> Sum32(vs) == Low32(vs[0])
    ensures |vs| == 2 ==> Sum32(vs) == Low32(vs[0]) + Low32(vs[1])
  {
    if |vs| == 1 {
      assert vs[..0] == [];
    }
    if |vs| == 2 {
      assert vs[..1] == [vs[0]];
      assert vs[..1][..0] == [];
    }
  }

  lemma {:induction false} MedianWalkJoins(w: Walk, a: seq<Counted>, b: seq<Counted>, n: nat, q: nat)
    ensures MedianWalk(w, a + b, n, q) == MedianWalk(MedianWalk(w, a, n, q), b, n, q)
  {
    if b == [] {
      assert a + b == a;
    } else {
      assert (a + b)[..|a + b| - 1] == a + b[..|b| - 1];
      MedianWalkJoins(w, a, b[..|b| - 1], n, q);
    }
  }

  lemma MedianInOrder(w: Walk, a: seq<Counted>, e: Counted, b: seq<Counted>, n: nat, q: nat)
    ensures MedianWalk(w, a + [e] + b, n, q) == MedianWalk(MedianStep(MedianWalk(w, a, n, q), e, n, q), b, n, q)
  {
    MedianWalkJoins(w, a, [e], n, q);
    MedianWalkJoins(w, a + [e], b, n, q);
    assert [e][..0] == [];
  }

  lemma NoWalk(w: Walk, n: nat, q: nat)
    ensures MedianWalk(w, [], n, q) == w
  {
  }

  lemma NoModeWalk(s: ModeState)
    ensures ModeWalk(s, []) == s
  {
  }

  lemma {:induction false} ModeWalkJoins(s: ModeState, a: seq<Counted>, b: seq<Counted>)
    ensures ModeWalk(s, a + b) == ModeWalk(ModeWalk(s, a), b)
  {
    if b == [] {
      assert a + b == a;
    } else {
      assert (a + b)[..|a + b| - 1] == a + b[..|b| - 1];
      ModeWalkJoins(s, a, b[..|b| - 1]);
    }
  }

  lemma ModeInOrder(s: ModeState, a: seq<Counted>, e: Counted, b: seq<Counted>)
    ensures ModeWalk(s, a + [e] + b) == ModeWalk(ModeStep(ModeWalk(s, a), e), b)
  {
    ModeWalkJoins(s, a, [e]);
    ModeWalkJoins(s, a + [e], b);
    assert [e][..0] == [];
  }
}
