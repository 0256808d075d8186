/** What median, the quartiles and the mode are of a list of integers, and what a walk over its sorted,
    counted values computes. */
module OrderStatistics {
  import opened Basics

  // ---------------------------------------------------------------- counted values

  /** A value and how often it occurs. */
  datatype Counted = Counted(value: int, count: nat)

  predicate Ascending(p: seq<Counted>) {
    && (forall i :: 0 <= i < |p| ==> p[i].count > 0)
    && (forall i, j :: 0 <= i < j < |p| ==> p[i].value < p[j].value)
  }

  function Total(p: seq<Counted>): nat {
    if p == [] then 0 else Total(p[..|p| - 1]) + p[|p| - 1].count
  }

  /** How many of the values are at most v, and at least v. */
  function AtMost(xs: seq<int>, v: int): nat {
    if xs == [] then 0 else AtMost(xs[..|xs| - 1], v) + if xs[|xs| - 1] <= v then 1 else 0
  }

  function AtLeast(xs: seq<int>, v: int): nat {
    if xs == [] then 0 else AtLeast(xs[..|xs| - 1], v) + if xs[|xs| - 1] >= v then 1 else 0
  }

  function Occurrences(xs: seq<int>, v: int): nat {
    if xs == [] then 0 else Occurrences(xs[..|xs| - 1], v) + if xs[|xs| - 1] == v then 1 else 0
  }

  function CountAt(p: seq<Counted>, v: int): nat {
    if p == [] then 0 else CountAt(p[1..], v) + if p[0].value == v then p[0].count else 0
  }

  function CountBelow(p: seq<Counted>, v: int): nat {
    if p == [] then 0 else CountBelow(p[1..], v) + if p[0].value < v then p[0].count else 0
  }

  function CountAbove(p: seq<Counted>, v: int): nat {
    if p == [] then 0 else CountAbove(p[1..], v) + if p[0].value > v then p[0].count else 0
  }

  /** The counted values with one more value. */
  function WithOne(p: seq<Counted>, e: int): seq<Counted> {
    if p == [] then [Counted(e, 1)]
    else if e < p[0].value then [Counted(e, 1)] + p
    else if e == p[0].value then [Counted(e, p[0].count + 1)] + p[1..]
    else [p[0]] + WithOne(p[1..], e)
  }

  predicate AllAbove(p: seq<Counted>, low: int) {
    forall i :: 0 <= i < |p| ==> p[i].value > low
  }

  lemma ConsAscends(h: Counted, t: seq<Counted>)
    requires h.count > 0 && Ascending(t) && AllAbove(t, h.value)
    ensures Ascending([h] + t)
  {
  }

  lemma {:induction false} WithOneAscends(p: seq<Counted>, e: int, low: int)
    requires Ascending(p) && AllAbove(p, low) && e > low
    ensures Ascending(WithOne(p, e)) && AllAbove(WithOne(p, e), low)
  {
    if p != [] {
      var h, rest := p[0], p[1..];
      if e < h.value {
        ConsAscends(Counted(e, 1), p);
      } else if e == h.value {
        ConsAscends(Counted(e, h.count + 1), rest);
      } else {
        WithOneAscends(rest, e, h.value);
        ConsAscends(h, WithOne(rest, e));
      }
    }
  }

  lemma {:induction false} WithOneCounts(p: seq<Counted>, e: int, v: int)
    ensures CountAt(WithOne(p, e), v) == CountAt(p, v) + if e == v then 1 else 0
    ensures CountBelow(WithOne(p, e), v) == CountBelow(p, v) + if e < v then 1 else 0
    ensures CountAbove(WithOne(p, e), v) == CountAbove(p, v) + if e > v then 1 else 0
  {
    if p != [] {
      if e < p[0].value {
        assert ([Counted(e, 1)] + p)[1..] == p;
      } else if e == p[0].value {
        assert ([Counted(e, p[0].count + 1)] + p[1..])[1..] == p[1..];
      } else {
        WithOneCounts(p[1..], e, v);
        assert ([p[0]] + WithOne(p[1..], e))[1..] == WithOne(p[1..], e);
      }
    }
  }

  /** p is the sorted, counted form of the values xs. */
  ghost predicate Counts(p: seq<Counted>, xs: seq<int>) {
    && Ascending(p)
    && forall v :: CountAt(p, v) == Occurrences(xs, v) && CountBelow(p, v) + CountAt(p, v) == AtMost(xs, v)
                   && CountAbove(p, v) + CountAt(p, v) == AtLeast(xs, v)
  }

  lemma OneMoreCounts(p: seq<Counted>, xs: seq<int>, e: int)
    requires Counts(p, xs)
    ensures Counts(WithOne(p, e), xs + [e])
  {
    var low := if p == [] || e <= p[0].value then e - 1 else p[0].value - 1;
    WithOneAscends(p, e, low);
    assert (xs + [e])[..|xs|] == xs;
    forall v
      ensures var q := WithOne(p, e);
              CountAt(q, v) == Occurrences(xs + [e], v) && CountBelow(q, v) + CountAt(q, v) == AtMost(xs + [e], v)
              && CountAbove(q, v) + CountAt(q, v) == AtLeast(xs + [e], v)
    {
      WithOneCounts(p, e, v);
    }
  }

  // ---------------------------------------------------------------- quantiles

  /**
   * v is a quantile: at least q quarters of a value are not above it, and at least 4|xs| - q not below. For the
   * median q is 2|xs|, for the quartiles |xs| and 3|xs|.
   */
  predicate Quantile(xs: seq<int>, q: nat, v: int) {
    4 * AtMost(xs, v) >= q && 4 * AtLeast(xs, v) >= 4 * |xs| - q
  }

  /** The state of the walk of medianIterate. */
  datatype Walk = Walk(sum: int, found: nat, before: nat, done: bool)

  /** medianIterate, with the comparisons to pcnt and cnt - pcnt multiplied by four. */
  function MedianStep(w: Walk, e: Counted, n: nat, q: nat): Walk {
    if w.done then w
    else
      var il, ir := w.before + e.count, n - w.before;
      if 4 * il >= q then
        if 4 * ir >= 4 * n - q then w.(sum := w.sum + Low32(e.value), found := w.found + 1, before := il)
        else w.(done := true, before := il)
      else w.(before := il)
  }

  function MedianWalk(w: Walk, p: seq<Counted>, n: nat, q: nat): Walk {
    if p == [] then w else MedianStep(MedianWalk(w, p[..|p| - 1], n, q), p[|p| - 1], n, q)
  }

  /** The quantiles among the values of p, in order. */
  function Quantiles(p: seq<Counted>, xs: seq<int>, q: nat): (vs: seq<int>)
    ensures forall v :: v in vs <==> (exists e :: e in p && e.value == v) && Quantile(xs, q, v)
  {
    if p == [] then []
    else
      var last := p[|p| - 1];
      Quantiles(p[..|p| - 1], xs, q) + if Quantile(xs, q, last.value) then [last.value] else []
  }

  function Sum32(q: seq<int>): int {
    if q == [] then 0 else Sum32(q[..|q| - 1]) + Low32(q[|q| - 1])
  }

  lemma {:induction false} TotalFromFront(p: seq<Counted>)
    requires p != []
    ensures Total(p) == p[0].count + Total(p[1..])
  {
    if |p| > 1 {
      TotalFromFront(p[..|p| - 1]);
      assert p[..|p| - 1][1..] == p[1..][..|p| - 2];
      assert p[1..][|p| - 2] == p[|p| - 1];
    }
  }

  /** In ascending order the counts below, at and above an entry are those of the entries before, at and behind it. */
  lemma {:induction false} CountsByPlace(p: seq<Counted>, i: nat)
    requires Ascending(p) && i < |p|
    ensures CountBelow(p, p[i].value) == Total(p[..i]) && CountAt(p, p[i].value) == p[i].count
    ensures CountAbove(p, p[i].value) == Total(p) - Total(p[..i + 1])
  {
    TotalFromFront(p);
    if i == 0 {
      NoneBelow(p[1..], p[0].value);
      assert p[..0] == [] && p[..1][..0] == [];
    } else {
      CountsByPlace(p[1..], i - 1);
      assert p[..i][1..] == p[1..][..i - 1] && p[..i + 1][1..] == p[1..][..i];
      TotalFromFront(p[..i]);
      TotalFromFront(p[..i + 1]);
    }
  }

  lemma {:induction false} NoneBelow(p: seq<Counted>, v: int)
    requires AllAbove(p, v)
    ensures CountBelow(p, v) == 0 == CountAt(p, v) && CountAbove(p, v) == Total(p)
  {
    if p != [] {
      TotalFromFront(p);
      NoneBelow(p[1..], v);
    }
  }

  lemma {:induction false} BelowOrAbove(xs: seq<int>, v: int)
    ensures AtMost(xs, v) + AtLeast(xs, v + 1) == |xs|
  {
    if xs != [] {
      BelowOrAbove(xs[..|xs| - 1], v);
    }
  }

  lemma {:induction false} AllBelow(p: seq<Counted>, v: int)
    requires forall i :: 0 <= i < |p| ==> p[i].value < v
    ensures CountAt(p, v) == 0 == CountAbove(p, v)
  {
    if p != [] {
      AllBelow(p[1..], v);
    }
  }

  /** Together the counts are the number of values. */
  lemma TotalIsNumber(p: seq<Counted>, xs: seq<int>)
    requires Counts(p, xs) && p != []
    ensures Total(p) == |xs|
  {
    var n := |p| - 1;
    var last := p[n].value;
    CountsByPlace(p, n);
    assert p[..n + 1] == p;
    AllBelow(p, last + 1);
    hide CountBelow, CountAt, CountAbove, AtMost, AtLeast, Occurrences;
    assert AtLeast(xs, last + 1) == 0;
    assert AtMost(xs, last) == Total(p);
    BelowOrAbove(xs, last);
  }

  /** How the values stand to an entry of their counted form. */
  lemma StandingOf(p: seq<Counted>, xs: seq<int>, i: nat)
    requires Counts(p, xs) && i < |p|
    ensures AtMost(xs, p[i].value) == Total(p[..i + 1])
    ensures AtLeast(xs, p[i].value) == |xs| - Total(p[..i])
    ensures Occurrences(xs, p[i].value) == p[i].count
    ensures Total(p) == |xs|
  {
    TotalIsNumber(p, xs);
    CountsByPlace(p, i);
    TotalOn(p, i);
    hide CountBelow, CountAt, CountAbove, AtMost, AtLeast, Occurrences, Total;
  }

  lemma TotalOn(p: seq<Counted>, i: nat)
    requires i < |p|
    ensures Total(p[..i + 1]) == Total(p[..i]) + p[i].count
  {
    assert p[..i + 1][..i] == p[..i];
  }

  /** Quantiles come when the running total reaches q quarters, and at most once more. */
  lemma {:induction false} QuantileCount(p: seq<Counted>, xs: seq<int>, q: nat, i: nat)
    requires Counts(p, xs) && q > 0 && i <= |p|
    ensures var m, t := |Quantiles(p[..i], xs, q)|, 4 * Total(p[..i]);
            (m == 0 <==> t < q) && (m == 2 ==> t > q) && m <= 2
  {
    if i > 0 {
      QuantileCount(p, xs, q, i - 1);
      StandingOf(p, xs, i - 1);
      TotalOn(p, i - 1);
      assert p[..i][..i - 1] == p[..i - 1];
      assert |Quantiles(p[..i], xs, q)|
          == |Quantiles(p[..i - 1], xs, q)| + if Quantile(xs, q, p[i - 1].value) then 1 else 0;
      hide Total, Quantiles, Counts, AtMost, AtLeast;
    } else {
      assert p[..0] == [];
    }
  }

  /** There are one or two quantiles. */
  lemma OneOrTwoQuantiles(p: seq<Counted>, xs: seq<int>, q: nat)
    requires Counts(p, xs) && 0 < q <= 4 * |xs|
    ensures 1 <= |Quantiles(p, xs, q)| <= 2
  {
    QuantileCount(p, xs, q, |p|);
    assert p[..|p|] == p;
    SomeValue(p, xs);
    StandingOf(p, xs, 0);
  }

  lemma SomeValue(p: seq<Counted>, xs: seq<int>)
    requires Counts(p, xs) && xs != []
    ensures p != []
  {
    var v := xs[|xs| - 1];
    assert CountAt(p, v) == Occurrences(xs, v) > 0;
  }

  /** What is known of the walk after the first i entries: once it is done no later value is a quantile. */
  ghost predicate WalkedTo(w: Walk, vs: seq<int>, p: seq<Counted>, q: nat, i: nat)
    requires i <= |p|
  {
    && w.sum == Sum32(vs) && w.found == |vs|
    && (if w.done then i > 0 && 4 * Total(p[..i - 1]) > q else w.before == Total(p[..i]))
  }

  lemma OneMoreWalked(w: Walk, vs: seq<int>, p: seq<Counted>, xs: seq<int>, q: nat, i: nat)
    requires Counts(p, xs) && i < |p| && WalkedTo(w, vs, p, q, i)
    ensures var found := if Quantile(xs, q, p[i].value) then [p[i].value] else [];
            WalkedTo(MedianStep(w, p[i], |xs|, q), vs + found, p, q, i + 1)
  {
    var v := p[i].value;
    StandingOf(p, xs, i);
    assert p[..i + 1][..i] == p[..i];
    assert Total(p[..i + 1]) == Total(p[..i]) + p[i].count;
    if i > 0 {
      assert p[..i][..i - 1] == p[..i - 1];
      assert Total(p[..i]) == Total(p[..i - 1]) + p[i - 1].count;
    }
    assert (vs + [v])[..|vs|] == vs;
    assert Sum32(vs + [v]) == Sum32(vs) + Low32(v);
    assert vs + [] == vs;
  }

  /** The walk finds exactly the quantiles. */
  lemma {:induction false} WalkFindsQuantiles(p: seq<Counted>, xs: seq<int>, q: nat, i: nat)
    requires Counts(p, xs) && i <= |p|
    ensures WalkedTo(MedianWalk(Walk(0, 0, 0, false), p[..i], |xs|, q), Quantiles(p[..i], xs, q), p, q, i)
  {
    if i > 0 {
      WalkFindsQuantiles(p, xs, q, i - 1);
      assert p[..i][..i - 1] == p[..i - 1];
      hide WalkedTo, MedianStep;
      var w := MedianWalk(Walk(0, 0, 0, false), p[..i - 1], |xs|, q);
      OneMoreWalked(w, Quantiles(p[..i - 1], xs, q), p, xs, q, i - 1);
    } else {
      assert p[..0] == [];
    }
  }

  // ---------------------------------------------------------------- the mode

  /** The state of the walk of modeIterate: the value seen most often, how often, and how many values share that. */
  datatype ModeState = ModeState(value: int, most: nat, sharing: nat)

  function ModeStep(s: ModeState, e: Counted): ModeState {
    if s.most == e.count then s.(sharing := s.sharing + 1)
    else if s.most < e.count then ModeState(Low32(e.value), e.count, 1)
    else s
  }

  function ModeWalk(s: ModeState, p: seq<Counted>): ModeState {
    if p == [] then s else ModeStep(ModeWalk(s, p[..|p| - 1]), p[|p| - 1])
  }

  /** v occurs more often than every other value. */
  ghost predicate IsMode(xs: seq<int>, v: int) {
    forall u :: u != v ==> Occurrences(xs, u) < Occurrences(xs, v)
  }

  /** After i entries: the largest count, the first entry that has it, and whether it is alone. */
  ghost predicate ModeWalkedTo(s: ModeState, p: seq<Counted>, i: nat, at: nat)
    requires i <= |p|
  {
    && (i == 0 ==> s == ModeState(0, 0, 0))
    && (i > 0 ==>
          && at < i && s.most == p[at].count && s.value == Low32(p[at].value) && s.sharing > 0
          && (forall j :: 0 <= j < i ==> p[j].count <= s.most)
          && (s.sharing == 1 <==> forall j :: 0 <= j < i && j != at ==> p[j].count < s.most))
  }

  lemma {:induction false} WalkFindsMode(p: seq<Counted>, i: nat) returns (at: nat)
    requires Ascending(p) && i <= |p|
    ensures ModeWalkedTo(ModeWalk(ModeState(0, 0, 0), p[..i]), p, i, at)
  {
    if i == 0 {
      assert p[..0] == [];
      at := 0;
    } else {
      at := WalkFindsMode(p, i - 1);
      assert p[..i][..i - 1] == p[..i - 1];
      if i == 1 || p[at].count < p[i - 1].count {
        at := i - 1;
      }
    }
  }

  lemma {:induction false} Present(p: seq<Counted>, v: int) returns (i: nat)
    requires CountAt(p, v) > 0
    ensures i < |p| && p[i].value == v
  {
    if p[0].value == v {
      i := 0;
    } else {
      i := Present(p[1..], v);
      i := i + 1;
    }
  }

  /** The walk ends with one value exactly when there is a mode, and then with that. */
  lemma WalkIsMode(p: seq<Counted>, xs: seq<int>)
    requires Counts(p, xs) && xs != []
    ensures var s := ModeWalk(ModeState(0, 0, 0), p);
            && (s.sharing == 1 <==> exists v :: IsMode(xs, v))
            && forall v :: IsMode(xs, v) ==> s.value == Low32(v)
  {
    var at := WalkFindsMode(p, |p|);
    assert p[..|p|] == p;
    SomeValue(p, xs);
    var s := ModeWalk(ModeState(0, 0, 0), p);
    forall j | 0 <= j < |p|
      ensures Occurrences(xs, p[j].value) == p[j].count
    {
      StandingOf(p, xs, j);
    }
    if s.sharing == 1 {
      forall u | u != p[at].value
        ensures Occurrences(xs, u) < Occurrences(xs, p[at].value)
      {
        assert CountAt(p, u) == Occurrences(xs, u);
        if CountAt(p, u) > 0 {
          var j := Present(p, u);
        }
      }
      assert IsMode(xs, p[at].value);
    }
    forall v | IsMode(xs, v)
      ensures s.sharing == 1 && v == p[at].value
    {
      if v != p[at].value {
        assert Occurrences(xs, p[at].value) < Occurrences(xs, v);
        assert CountAt(p, v) == Occurrences(xs, v);
        var j := Present(p, v);
        assert false;
      }
    }
  }

  lemma {:induction false} SomeOccur(xs: seq<int>, v: int)
    ensures v in xs <==> Occurrences(xs, v) > 0
  {
    if xs != [] {
      SomeOccur(xs[..|xs| - 1], v);
    }
  }

  lemma {:induction false} PresentCounts(p: seq<Counted>, e: Counted)
    requires e in p && e.count > 0
    ensures CountAt(p, e.value) > 0
  {
    if p[0] != e {
      PresentCounts(p[1..], e);
    }
  }

  predicate Rising(vs: seq<int>) {
    forall i, j :: 0 <= i < j < |vs| ==> vs[i] < vs[j]
  }

  predicate AllLess(vs: seq<int>, high: int) {
    forall i :: 0 <= i < |vs| ==> vs[i] < high
  }

  /** The quantiles of the values themselves, ascending. */
  ghost predicate QuantilesOf(vs: seq<int>, xs: seq<int>, q: nat) {
    Rising(vs) && forall v :: v in vs <==> v in xs && Quantile(xs, q, v)
  }

  lemma RisingOn(vs: seq<int>, v: int, high: int)
    requires Rising(vs) && AllLess(vs, v) && v < high
    ensures Rising(vs + [v]) && AllLess(vs + [v], high) && AllLess(vs, high)
  {
  }

  lemma {:induction false} QuantilesAscend(p: seq<Counted>, xs: seq<int>, q: nat, i: nat)
    requires Ascending(p) && i <= |p|
    ensures Rising(Quantiles(p[..i], xs, q))
    ensures i < |p| ==> AllLess(Quantiles(p[..i], xs, q), p[i].value)
  {
    if i > 0 {
      QuantilesAscend(p, xs, q, i - 1);
      assert p[..i][..i - 1] == p[..i - 1];
      var v := p[i - 1].value;
      RisingOn(Quantiles(p[..i - 1], xs, q), v, if i < |p| then p[i].value else v + 1);
      hide Rising, AllLess;
      assert Quantiles(p[..i - 1], xs, q) + [] == Quantiles(p[..i - 1], xs, q);
    } else {
      assert p[..0] == [];
    }
  }

  lemma QuantilesAreThose(p: seq<Counted>, xs: seq<int>, q: nat)
    requires Counts(p, xs)
    ensures QuantilesOf(Quantiles(p, xs, q), xs, q)
  {
    QuantilesAscend(p, xs, q, |p|);
    assert p[..|p|] == p;
    forall v
      ensures v in xs <==> exists e :: e in p && e.value == v
    {
      SomeOccur(xs, v);
      assert CountAt(p, v) == Occurrences(xs, v);
      if v in xs {
        var i := Present(p, v);
        assert p[i] in p;
      } else if e :| e in p && e.value == v {
        PresentCounts(p, e);
      }
    }
  }
}
