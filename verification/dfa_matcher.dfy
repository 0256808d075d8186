/** The matcher itself: lists of states, position by position, calling itself for assertions and
    recursions. Each method says what it adds to the lists; together they compute the meaning of a call. */
module DfaMatcher {
  import opened Basics
  import opened DfaProgram
  import opened DfaSemantics
  import opened DfaStates
  import opened DfaActions
  import opened DfaCoverage
  import opened DfaCrowd
  import opened DfaRoom
  import opened DfaProgress
  import opened DfaRun
  import opened DfaPaths

  // ---------------------------------------------------------------- recording matches

  /** The vector holds the longest of the n matches found, as many as fit, longest first; the count
      is NOMATCH for none and 0 when they do not all fit. */
  ghost predicate Recorded(offsets: seq<int>, offsetcount: int, matchCount: int, start: int, ends: seq<int>) {
    var room := offsetcount / 2;
    && 0 <= 2 * room <= |offsets|
    && matchCount == (if ends == [] then PCRE_ERROR_NOMATCH else if |ends| <= room then |ends| else 0)
    && forall j :: 0 <= j < |ends| && j < room ==>
         offsets[2 * j] == start && offsets[2 * j + 1] == ends[|ends| - 1 - j]
  }

  /** The count after one match more, in a vector of which an even number of ints is used. */
  function Counted(matchCount: int, even: int): int {
    if matchCount < 0 then (if even >= 2 then 1 else 0)
    else if matchCount > 0 && (matchCount + 1) * 2 > even then 0
    else if matchCount > 0 then matchCount + 1
    else 0
  }

  lemma CountedOn(matchCount: int, room: nat, n: nat)
    requires matchCount == if n == 0 then PCRE_ERROR_NOMATCH else if n <= room then n else 0
    ensures Counted(matchCount, 2 * room) == if n + 1 <= room then n + 1 else 0
  {
  }

  /** memmove of the first ints of the vector by one pair. */
  method ShiftUp(a: array<int>, moved: int)
    requires moved + 2 <= a.Length
    modifies a
    ensures forall i :: 0 <= i < moved ==> a[i + 2] == old(a[i])
  {
    forall i | 0 <= i < moved {
      a[i + 2] := a[i];
    }
  }

  /** Save a match, shifting the earlier, shorter ones up. */
  method RecordMatch(offsets: array<int>, offsetcount: int, matchCount: int, start: int, end: int, ghost ends: seq<int>)
    returns (count: int)
    requires 0 <= offsetcount <= offsets.Length
    requires Recorded(offsets[..], offsetcount, matchCount, start, ends)
    modifies offsets
    ensures Recorded(offsets[..], offsetcount, count, start, ends + [end])
  {
    var even := offsetcount - offsetcount % 2;
    count := Counted(matchCount, even);
    CountedOn(matchCount, even / 2, |ends|);
    var moved := (if count == 0 then even else count * 2) - 2;
    ShiftUp(offsets, moved);
    if even >= 2 {
      offsets[0] := start;
      offsets[1] := end;
    }
    RecordedOn(old(offsets[..]), offsets[..], offsetcount, matchCount, moved, count, start, end, ends);
  }

  /** The matches moved up behind the new one. */
  lemma RecordedOn(was: seq<int>, now: seq<int>, offsetcount: int, matchCount: int, moved: int, count: int,
                   start: int, end: int, ends: seq<int>)
    requires 0 <= offsetcount <= |was| == |now| && Recorded(was, offsetcount, matchCount, start, ends)
    requires moved + 2 <= |now| && forall i :: 0 <= i < moved ==> now[i + 2] == was[i]
    requires var room := offsetcount / 2;
             && count == (if |ends| + 1 <= room then |ends| + 1 else 0)
             && moved == (if count == 0 then 2 * room else 2 * count) - 2
             && (room > 0 ==> now[0] == start && now[1] == end)
    ensures Recorded(now, offsetcount, count, start, ends + [end])
  {
    var room := offsetcount / 2;
    forall j | 0 <= j < |ends| + 1 && j < room
      ensures now[2 * j] == start && now[2 * j + 1] == (ends + [end])[|ends| - j]
    {
      if j > 0 {
        var i := j - 1;
        assert now[2 * i + 2] == was[2 * i] && now[2 * i + 1 + 2] == was[2 * i + 1];
        assert was[2 * i] == start && was[2 * i + 1] == ends[|ends| - 1 - i];
      }
    }
  }

  // ---------------------------------------------------------------- the matcher

  /** The (group, position) pairs that a chain of recursions can hold. */
  ghost function AllPairs(n: nat): set<(int, int)> {
    set g, p | 0 <= g < 0x10000 && 0 <= p <= n :: (g, p)
  }

  predicate IsError(rc: int) {
    rc == PCRE_ERROR_DFA_UITEM || rc == PCRE_ERROR_DFA_WSSIZE || rc == PCRE_ERROR_DFA_RECURSE
    || rc == PCRE_ERROR_RECURSELOOP
  }

  /** Put the alternatives of the bracket at g into the new list. A backward assertion first moves
      back as far as its longest alternative asks, or as far as the subject goes. */
  method StartLists(env: Env, g: int, p: int, lists: StateLists) returns (rc: int, start: int)
    requires ValidEnv(env) && g in env.code.brackets && 0 <= p <= |env.subject|
    requires lists.Valid() && lists.later == []
    modifies lists`newCount, lists`later, lists.workspace
    ensures lists.Valid()
    ensures lists.workspace[0] == old(lists.workspace[0]) && lists.workspace[1] == old(lists.workspace[1])
    ensures rc == if |CallAt(env, g, p).init| <= lists.capacity then OK else PCRE_ERROR_DFA_WSSIZE
    ensures 0 <= start <= p && (!env.code.brackets[g].behind ==> start == p)
    ensures rc == OK ==> Images(lists.later, start) == CallAt(env, g, p).init
    ensures AllInside(env, g, CallAt(env, g, p).init, start)
  {
    hide WellFormed, StateLists.Holds, AllInside, Images;
    var entries := env.code.brackets[g].entries;
    var behind := env.code.brackets[g].behind;
    assert BracketOk(env.code, g) by { EveryBracketIsOk(env, g); }
    var maxBack := 0;
    if behind { maxBack := LongestBack(entries); }
    var goneBack := if p - maxBack < 0 then p else maxBack;
    start := p - goneBack;
    StartIsInside(env, g, entries, p, start);
    rc := StartAll(lists, entries, behind, goneBack, p);
    return rc, start;
  }

  method StartAll(lists: StateLists, entries: seq<Entry>, behind: bool, goneBack: int, p: int) returns (rc: int)
    requires lists.Valid() && lists.later == [] && 0 <= goneBack <= p
    requires forall e <- entries :: e.off > 0 && (e.back <= goneBack || goneBack == p)
    requires !behind ==> goneBack == 0 && forall e <- entries :: e.back == 0
    modifies lists`newCount, lists`later, lists.workspace
    ensures lists.Valid()
    ensures lists.workspace[0] == old(lists.workspace[0]) && lists.workspace[1] == old(lists.workspace[1])
    ensures rc == if |Start(entries, p)| <= lists.capacity then OK else PCRE_ERROR_DFA_WSSIZE
    ensures rc == OK ==> Images(lists.later, p - goneBack) == Start(entries, p)
  {
    hide StateLists.Holds, Images;
    var i := 0;
    assert Images(lists.later, p - goneBack) == [] && |lists.later| <= lists.capacity;
    while i < |entries|
      invariant 0 <= i <= |entries|
      invariant lists.Valid() && |lists.later| <= lists.capacity
      invariant lists.workspace[0] == old(lists.workspace[0]) && lists.workspace[1] == old(lists.workspace[1])
      invariant Images(lists.later, p - goneBack) == Start(entries[..i], p)
    {
      assert entries[i] in entries;
      assert entries[..i + 1][..i] == entries[..i];
      StartsGrow(entries, i + 1, p);
      rc := StartOne(lists, entries[i], behind, goneBack, p);
      if rc != OK { return; }
      i := i + 1;
    }
    assert entries[..i] == entries;
    return OK;
  }

  lemma {:induction false} StartsGrow(entries: seq<Entry>, i: nat, p: int)
    requires i <= |entries|
    ensures |Start(entries[..i], p)| <= |Start(entries, p)|
    decreases |entries| - i
  {
    if i < |entries| {
      StartsGrow(entries, i + 1, p);
      assert entries[..i + 1][..i] == entries[..i];
    } else {
      assert entries[..i] == entries;
    }
  }

  /** How far back the longest alternative of a backward assertion starts. */
  method LongestBack(entries: seq<Entry>) returns (longest: nat)
    ensures forall e <- entries :: e.back <= longest
  {
    longest := 0;
    var i := 0;
    while i < |entries|
      invariant 0 <= i <= |entries|
      invariant forall j :: 0 <= j < i ==> entries[j].back <= longest
    {
      if entries[i].back > longest { longest := entries[i].back; }
      i := i + 1;
    }
  }

  /** One alternative, if the subject goes back far enough for it. */
  method StartOne(lists: StateLists, e: Entry, behind: bool, goneBack: int, p: int) returns (rc: int)
    requires lists.Valid() && e.off > 0 && 0 <= goneBack <= p
    requires e.back <= goneBack || goneBack == p
    requires !behind ==> e.back == 0 == goneBack
    modifies lists`newCount, lists`later, lists.workspace
    ensures lists.Valid()
    ensures lists.workspace[0] == old(lists.workspace[0]) && lists.workspace[1] == old(lists.workspace[1])
    ensures rc == if e.back <= p && old(|lists.later|) >= lists.capacity then PCRE_ERROR_DFA_WSSIZE else OK
    ensures rc == OK ==> Images(lists.later, p - goneBack) == Images(old(lists.later), p - goneBack)
                         + if e.back <= p then [Config(e.off, 0, p - e.back)] else []
  {
    hide StateLists.Holds;
    rc := OK;
    if !behind {
      rc := PushNext(lists, e.off, 0, p - 1);
    } else if e.back <= goneBack {
      rc := PushWaiting(lists, e.off, 0, goneBack - e.back, p - goneBack - 1);
    }
  }


  /** What processing the state c of a call may do. Its step has been added, as the ends say that a nested call has
      found. If nothing has gone wrong in or with that call, these are its ends; and when the processing itself fails,
      no depth of inlining gives the step a meaning, or a recursion fails, or there is no room for the step. Without
      possessive repeats, processing that succeeds shows that no nested call fails. */
  ghost predicate Acted(env: Env, call: Call, c: Config, chain: set<(int, int)>, capacity: nat, rc: int, ends: seq<int>,
                        depth: nat, depth': nat, failed: bool,
                        active: seq<Block>, later: seq<Block>, active': seq<Block>, later': seq<Block>)
    requires ValidEnv(env) && call.open in env.code.brackets && Inside(env, call.open, c)
  {
    && (rc == OK || IsError(rc))
    && (rc == OK ==> Added(env, call, c, ends, active, later, active', later'))
    && (rc == OK && NoNegatives(env.code) ==> Lossy(env, call, c, StepWith(env, call.som, c, ends)))
    && (failed ==> CanBeUnsafeAt(env, chain, c))
    && (!failed ==>
          && (rc == OK ==> ActedExactly(env, call, c, ends, depth, depth'))
          && (rc == PCRE_ERROR_DFA_UITEM ==> Stuck(env, call, c))
          && (rc != OK && rc != PCRE_ERROR_DFA_UITEM ==>
                RecursionCanFail(env, chain, c)
                || (ActedExactly(env, call, c, ends, depth, depth')
                    && LacksRoom(env, call, c, ends, capacity, active, later)))
          && (rc == OK && NoPossessive(env.code) ==> Safe(env, chain, c)))
  }

  /** The ends are those of the nested call, at a depth that suffices to know them. */
  ghost predicate ActedExactly(env: Env, call: Call, c: Config, ends: seq<int>, depth: nat, depth': nat)
    requires ValidEnv(env) && c.off in env.code.items && 0 <= c.pos <= |env.subject|
  {
    depth <= depth' && Step(env, Inlined(env, depth'), call, c) == StepWith(env, call.som, c, ends)
  }

  ghost predicate LacksRoom(env: Env, call: Call, c: Config, ends: seq<int>, capacity: nat,
                            active: seq<Block>, later: seq<Block>)
    requires ValidEnv(env) && c.off in env.code.items && 0 <= c.pos <= |env.subject|
  {
    var out := StepWith(env, call.som, c, ends);
    out.Go? && NoRoom(capacity, active, later, Takes(env, c, out), |out.later|)
  }

  /** An assertion: the bracket's own match decides. An error other than an unsupported item counts as no match:
      lost says that this has happened, inner that it has for an assertion further inside. */
  method ActAssertion(env: Env, ghost call: Call, open: int, som: int, chain: set<(int, int)>, lists: StateLists,
                      c: Config, ghost depth: nat)
    returns (rc: int, ghost ends: seq<int>, ghost depth': nat, ghost inner: bool, ghost lost: bool)
    requires call.open == open && call.som == som
    requires ValidEnv(env) && call.open in env.code.brackets && lists.Valid()
    requires Inside(env, call.open, c) && c.off < env.code.brackets[call.open].close
    requires chain <= AllPairs(|env.subject|)
    requires env.code.items[c.off].Assertion?
    modifies lists`activeCount, lists`active, lists`newCount, lists`later, lists.workspace
    ensures lists.Valid()
    ensures lists.workspace[0] == old(lists.workspace[0]) && lists.workspace[1] == old(lists.workspace[1])
    ensures Acted(env, call, c, chain, lists.capacity, rc, ends, depth, depth', inner || lost,
                  old(lists.active), old(lists.later), lists.active, lists.later)
    ensures c.off in env.code.brackets
    ensures lost ==> ends == [] && (env.code.items[c.off].positive ==> rc == OK)
    ensures |CallAt(env, c.off, c.pos).init| > Capacity(LOCAL_WORKSPACE) ==> lost
    ensures !inner ==>
              && (lost ==> CanFail(env, CallAt(env, c.off, c.pos), chain, Capacity(LOCAL_WORKSPACE)))
              && DepartsIfMatching(env, call, c, ends, lost)
    decreases AllPairs(|env.subject|) - chain, Size(env, call.open), 1
  {
    hide ValidEnv, StateLists.Valid, StateLists.Holds, Acted, CanFail, NoNegatives, NoPossessive, OnlyEnds,
         AllInside, Inlined, Stuck, Safe, CanBeUnsafeAt, DepartsIfMatching;
    var it := env.code.items[c.off];
    var result;
    result, ends, depth', inner, lost := MatchAssertion(env, call, open, chain, c, depth);
    AssertionNestsInside(env, call.open, c.off);
    if result == PCRE_ERROR_DFA_UITEM {
      StuckActed(env, call, c, chain, lists.capacity, ends, depth, depth', inner, lists.active, lists.later);
      return PCRE_ERROR_DFA_UITEM, ends, depth', inner, lost;
    }
    rc := OK;
    if (result >= 0) == it.positive {
      rc := PushHere(lists, it.next, c.pos);
    }
    StepStaysInside(env, call.open, call.som, c, ends);
    AssertionActed(env, call, c, chain, lists.capacity, rc, ends, depth, depth', inner || lost,
                   old(lists.active), old(lists.later), lists.active, lists.later);
  }

  /** The nested call that an assertion makes, in a vector of its own. */
  method MatchAssertion(env: Env, ghost call: Call, open: int, chain: set<(int, int)>, c: Config, ghost depth: nat)
    returns (result: int, ghost ends: seq<int>, ghost depth': nat, ghost inner: bool, ghost lost: bool)
    requires call.open == open && ValidEnv(env) && call.open in env.code.brackets
    requires Inside(env, call.open, c) && c.off < env.code.brackets[call.open].close
    requires chain <= AllPairs(|env.subject|)
    requires env.code.items[c.off].Assertion?
    ensures c.off in env.code.brackets
    ensures Decided(env, call, c, chain, result, ends, depth, depth', inner, lost)
    ensures |CallAt(env, c.off, c.pos).init| > Capacity(LOCAL_WORKSPACE) ==> lost
    ensures !inner ==>
              && (lost ==> CanFail(env, CallAt(env, c.off, c.pos), chain, Capacity(LOCAL_WORKSPACE)))
              && DepartsIfMatching(env, call, c, ends, lost)
    decreases AllPairs(|env.subject|) - chain, Size(env, call.open), 0
  {
    hide ValidEnv, GoesNoFurther, Fits, Contained, Meaningless, CanFail, CanBeUnsafe, NoNegatives,
         NoPossessive, OnlyEnds, Leaves, CanBeUnsafeAt, Inlined, Stuck, Safe, DepartsIfMatching;
    depth' := depth;
    var localOffsets := new int[2];
    var localWorkspace := new int[LOCAL_WORKSPACE];
    var stop: int;
    ghost var k, start;
    AssertionNestsInside(env, call.open, c.off);
    ghost var d := CallAt(env, c.off, c.pos);
    IsNestedCall(env, c);
    result, k, ends, start, stop, inner :=
      InternalDfaExec(env, c.off, c.pos, c.pos, chain, localOffsets, 2, localWorkspace, LOCAL_WORKSPACE);
    lost := result < PCRE_ERROR_NOMATCH && result != PCRE_ERROR_DFA_UITEM;
    if inner || lost { AssertionIsUnsafe(env, chain, c); }
    if result < PCRE_ERROR_NOMATCH {
      ends := [];
      if result == PCRE_ERROR_DFA_UITEM && !inner { NestedIsStuck(env, call, c, d); }
    } else {
      RecordedCount(localOffsets[..], 2, result, start, ends);
      if !inner {
        depth' := Deepen(env, depth, k + 1, d, ends);
        if NoPossessive(env.code) { AssertionIsSafe(env, chain, c); }
      }
    }
    if !inner { AssertionStepExact(env, call, c, d, k + 1, result, ends, lost); }
  }

  lemma IsNestedCall(env: Env, c: Config)
    requires ValidEnv(env) && c.off in env.code.items && env.code.items[c.off].Assertion? && c.off in env.code.brackets
    ensures NestedCall(env, c) == Some(CallAt(env, c.off, c.pos))
    ensures CallAt(env, c.off, c.pos) == CallAt(env, c.off, c.pos).(som := c.pos)
  {
  }

  /** How the nested call of an assertion has gone, and what is known of the ends it found. */
  ghost predicate Decided(env: Env, call: Call, c: Config, chain: set<(int, int)>, result: int, ends: seq<int>,
                          depth: nat, depth': nat, inner: bool, lost: bool)
    requires ValidEnv(env) && call.open in env.code.brackets && Inside(env, call.open, c) && c.off in env.code.brackets
  {
    && lost == (result < PCRE_ERROR_NOMATCH && result != PCRE_ERROR_DFA_UITEM)
    && (ends != [] <==> result >= 0)
    && (NoNegatives(env.code) ==> ends == [] || OnlyEnds(env, CallAt(env, c.off, c.pos), ends))
    && (inner || lost ==> CanBeUnsafeAt(env, chain, c))
    && (!inner && !lost ==>
          if result == PCRE_ERROR_DFA_UITEM then
            Stuck(env, call, c)
          else
            && depth <= depth' && Inlined(env, depth')(CallAt(env, c.off, c.pos)) == Some(ends)
            && (NoPossessive(env.code) ==> Safe(env, chain, c)))
  }

  /** The step taken with these ends departs from the right one, the one for what the nested call means, exactly if
      the nested call has been lost and there is a match. */
  ghost predicate DepartsIfMatching(env: Env, call: Call, c: Config, ends: seq<int>, lost: bool)
    requires ValidEnv(env) && c.off in env.code.items && 0 <= c.pos <= |env.subject| && c.off in env.code.brackets
  {
    forall m: nat, all :: Inlined(env, m)(CallAt(env, c.off, c.pos)) == Some(all) ==>
      (StepWith(env, call.som, c, ends) != Step(env, Inlined(env, m), call, c) <==> lost && all != [])
  }

  lemma AssertionStepExact(env: Env, call: Call, c: Config, d: Call, k: nat, result: int, ends: seq<int>, lost: bool)
    requires ValidEnv(env) && call.open in env.code.brackets && Inside(env, call.open, c)
    requires c.off != env.code.brackets[call.open].close && env.code.items[c.off].Assertion?
    requires c.off in env.code.brackets && d == CallAt(env, c.off, c.pos)
    requires lost ==> ends == []
    requires !lost ==> if result == PCRE_ERROR_DFA_UITEM then Meaningless(env, d) else Inlined(env, k)(d) == Some(ends)
    ensures DepartsIfMatching(env, call, c, ends, lost)
  {
    hide WellFormed, Inlined;
    forall m: nat, all | Inlined(env, m)(d) == Some(all)
      ensures StepWith(env, call.som, c, ends) != Step(env, Inlined(env, m), call, c) <==> lost && all != []
    {
      if !lost && result != PCRE_ERROR_DFA_UITEM { SameValue(env, d, k, ends, m, all); }
    }
  }

  lemma SameValue(env: Env, d: Call, k: nat, ends: seq<int>, m: nat, all: seq<int>)
    requires ValidEnv(env) && Inlined(env, k)(d) == Some(ends) && Inlined(env, m)(d) == Some(all)
    ensures ends == all
  {
    hide ValidEnv, Inlined;
    assert Means(env, d, ends) && Means(env, d, all);
    MeaningIsUnique(env, d, ends, all);
  }

  lemma StuckActed(env: Env, call: Call, c: Config, chain: set<(int, int)>, capacity: nat, ends: seq<int>,
                   depth: nat, depth': nat, failed: bool, active: seq<Block>, later: seq<Block>)
    requires ValidEnv(env) && call.open in env.code.brackets && Inside(env, call.open, c)
    requires !failed ==> Stuck(env, call, c)
    requires failed ==> CanBeUnsafeAt(env, chain, c)
    ensures Acted(env, call, c, chain, capacity, PCRE_ERROR_DFA_UITEM, ends, depth, depth', failed, active, later,
                  active, later)
  {
    hide ValidEnv, Inside, Stuck, CanBeUnsafeAt;
  }

  /** What an assertion adds when there are, or are not, ends: one state, or none. */
  ghost predicate PushedNext(c: Config, next: int, goes: bool, capacity: nat, rc: int,
                             active: seq<Block>, active': seq<Block>) {
    if goes then
      && rc == (if |active| < capacity then OK else PCRE_ERROR_DFA_WSSIZE)
      && (rc == OK ==> Grown(active, active', c.pos, [Config(next, 0, c.pos)]))
    else rc == OK && active' == active
  }

  /** The match of an assertion's bracket, known at some depth, decides its step. */
  lemma AssertionActed(env: Env, call: Call, c: Config, chain: set<(int, int)>, capacity: nat, rc: int, ends: seq<int>,
                       depth: nat, depth': nat, failed: bool,
                       active: seq<Block>, later: seq<Block>, active': seq<Block>, later': seq<Block>)
    requires ValidEnv(env) && call.open in env.code.brackets && Inside(env, call.open, c)
    requires c.off != env.code.brackets[call.open].close && env.code.items[c.off].Assertion?
    requires c.off in env.code.brackets
    requires failed ==> CanBeUnsafeAt(env, chain, c)
    requires !failed ==> depth <= depth' && Inlined(env, depth')(CallAt(env, c.off, c.pos)) == Some(ends)
    requires !failed && NoPossessive(env.code) ==> Safe(env, chain, c)
    requires NoNegatives(env.code) ==> ends == [] || OnlyEnds(env, CallAt(env, c.off, c.pos), ends)
    requires StepWith(env, call.som, c, ends).Go?
    requires AllInside(env, call.open, StepWith(env, call.som, c, ends).here, c.pos)
    requires var Assertion(positive, next) := env.code.items[c.off];
             PushedNext(c, next, (ends != []) == positive, capacity, rc, active, active')
    requires later' == later
    ensures Acted(env, call, c, chain, capacity, rc, ends, depth, depth', failed, active, later, active', later')
  {
    if NoNegatives(env.code) { AssertionIsLossy(env, call, c, ends); }
    AssertionAdds(env, call, c, capacity, rc, ends, active, later, active', later');
    if !failed { AssertionIsExact(env, call, c, ends, depth, depth'); }
    hide ValidEnv, NoNegatives, NoPossessive, Inlined, Stuck, CanBeUnsafeAt, RecursionCanFail, Safe, Lossy, OnlyEnds,
         Inside, StepWith, PushedNext, Added, LacksRoom, ActedExactly, AllInside;
  }

  lemma AssertionAdds(env: Env, call: Call, c: Config, capacity: nat, rc: int, ends: seq<int>,
                      active: seq<Block>, later: seq<Block>, active': seq<Block>, later': seq<Block>)
    requires ValidEnv(env) && call.open in env.code.brackets && Inside(env, call.open, c)
    requires env.code.items[c.off].Assertion? && StepWith(env, call.som, c, ends).Go?
    requires AllInside(env, call.open, StepWith(env, call.som, c, ends).here, c.pos)
    requires var Assertion(positive, next) := env.code.items[c.off];
             PushedNext(c, next, (ends != []) == positive, capacity, rc, active, active')
    requires later' == later
    ensures rc == OK || rc == PCRE_ERROR_DFA_WSSIZE
    ensures rc == OK ==> Added(env, call, c, ends, active, later, active', later')
    ensures rc != OK ==> LacksRoom(env, call, c, ends, capacity, active, later)
  {
    hide WellFormed, Holds, Passes, StepRepeat, NewlineLength, Equal, Above;
    assert Images(active, c.pos) + [] == Images(active, c.pos);
    assert Images(later, c.pos + 1) + [] == Images(later, c.pos + 1);
  }

  lemma AssertionIsExact(env: Env, call: Call, c: Config, ends: seq<int>, depth: nat, depth': nat)
    requires ValidEnv(env) && call.open in env.code.brackets && Inside(env, call.open, c)
    requires c.off != env.code.brackets[call.open].close && env.code.items[c.off].Assertion?
    requires c.off in env.code.brackets
    requires depth <= depth' && Inlined(env, depth')(CallAt(env, c.off, c.pos)) == Some(ends)
    ensures ActedExactly(env, call, c, ends, depth, depth')
  {
    hide WellFormed, Inlined, Holds, Passes, StepRepeat, NewlineLength, Equal, Above;
    assert NestedCall(env, c) == Some(CallAt(env, c.off, c.pos));
  }

  lemma SomeEnds(env: Env, d: Call, ends: seq<int>, m: nat, all: seq<int>)
    requires ValidEnv(env) && OnlyEnds(env, d, ends) && Inlined(env, m)(d) == Some(all)
    ensures ends != [] ==> all != []
  {
    if ends != [] {
      var q := ends[0];
      assert q in ends;
      assert q in all;
    }
  }

  lemma AssertionIsLossy(env: Env, call: Call, c: Config, ends: seq<int>)
    requires ValidEnv(env) && call.open in env.code.brackets && Inside(env, call.open, c)
    requires c.off != env.code.brackets[call.open].close && env.code.items[c.off].Assertion?
    requires c.off in env.code.brackets && env.code.items[c.off].positive
    requires ends == [] || OnlyEnds(env, CallAt(env, c.off, c.pos), ends)
    ensures Lossy(env, call, c, StepWith(env, call.som, c, ends))
  {
    hide WellFormed, Inlined;
    assert NestedCall(env, c) == Some(CallAt(env, c.off, c.pos));
    var d, out := CallAt(env, c.off, c.pos), StepWith(env, call.som, c, ends);
    forall m: nat, s | Step(env, Inlined(env, m), call, c).Go? && s in Successors(out)
      ensures s in Successors(Step(env, Inlined(env, m), call, c))
    {
      var all := Inlined(env, m)(d).value;
      assert Inlined(env, m)(d) == Some(all);
      if ends != [] {
        SomeEnds(env, d, ends, m, all);
        assert Step(env, Inlined(env, m), call, c) == out;
      }
    }
  }

  /** A nested call without a meaning stops the step that needs it. */
  lemma NestedIsStuck(env: Env, call: Call, c: Config, d: Call)
    requires ValidEnv(env) && call.open in env.code.brackets && Inside(env, call.open, c)
    requires c.off != env.code.brackets[call.open].close && NestedCall(env, c) == Some(d) && Meaningless(env, d)
    ensures Stuck(env, call, c)
  {
    hide ValidEnv, Inlined;
  }

  /** A recursion: the called group's ends become states that wait for their characters to pass. A
      group that is already being matched at this position is an error. */
  method ActRecursion(env: Env, ghost call: Call, open: int, som: int, chain: set<(int, int)>, lists: StateLists,
                      c: Config, ghost depth: nat)
    returns (rc: int, ghost ends: seq<int>, ghost depth': nat, ghost failed: bool)
    requires call.open == open && call.som == som
    requires ValidEnv(env) && call.open in env.code.brackets && lists.Valid()
    requires Inside(env, call.open, c) && c.off < env.code.brackets[call.open].close
    requires chain <= AllPairs(|env.subject|)
    requires env.code.items[c.off].Recursion?
    modifies lists`activeCount, lists`active, lists`newCount, lists`later, lists.workspace
    ensures lists.Valid()
    ensures lists.workspace[0] == old(lists.workspace[0]) && lists.workspace[1] == old(lists.workspace[1])
    ensures Acted(env, call, c, chain, lists.capacity, rc, ends, depth, depth', failed,
                  old(lists.active), old(lists.later), lists.active, lists.later)
    ensures (env.code.items[c.off].group, c.pos) in chain ==> rc == PCRE_ERROR_RECURSELOOP
    decreases AllPairs(|env.subject|) - chain, Size(env, call.open), 1
  {
    hide ValidEnv, StateLists.Valid, StateLists.Holds, Acted, NoNegatives, NoPossessive, OnlyEnds, AllInside,
         Inlined, Stuck, Safe, CanBeUnsafeAt, RecursionCanFail, Recorded;
    ends, depth', failed := [], depth, false;
    var it := env.code.items[c.off];
    RecursionIsCallable(env, call.open, c.off);
    if (it.group, c.pos) in chain {
      IsCalled(env, c);
      RecursionMakesFail(env, chain, c);
      RecursionFailed(env, call, c, chain, lists.capacity, PCRE_ERROR_RECURSELOOP, ends, depth, depth', false,
                      lists.active, lists.later);
      return PCRE_ERROR_RECURSELOOP, ends, depth', failed;
    }
    var localOffsets := new int[1000];
    var result;
    result, ends, depth', failed := MatchGroup(env, call, open, chain, c, localOffsets, depth);
    if result == PCRE_ERROR_DFA_UITEM {
      StuckActed(env, call, c, chain, lists.capacity, ends, depth, depth', failed, lists.active, lists.later);
      return result, ends, depth', failed;
    }
    if result == 0 || result < PCRE_ERROR_NOMATCH {
      rc := if result == 0 then PCRE_ERROR_DFA_RECURSE else result;
      RecursionFailed(env, call, c, chain, lists.capacity, rc, ends, depth, depth', failed, lists.active, lists.later);
      return rc, ends, depth', failed;
    }
    IsCalled(env, c);
    StepStaysInside(env, call.open, call.som, c, ends);
    rc := AddReturns(env, lists, it.next, c.pos, localOffsets, result, ends);
    RecursionActed(env, call, c, CallAt(env, it.target, c.pos), chain, lists.capacity, rc, ends, depth, depth', failed,
                   old(lists.active), old(lists.later), lists.active, lists.later);
  }

  /** The nested call that a recursion makes, in a vector of its own. */
  method MatchGroup(env: Env, ghost call: Call, open: int, chain: set<(int, int)>, c: Config, localOffsets: array<int>,
                    ghost depth: nat)
    returns (result: int, ghost ends: seq<int>, ghost depth': nat, ghost failed: bool)
    requires call.open == open && ValidEnv(env) && call.open in env.code.brackets
    requires Inside(env, call.open, c) && c.off < env.code.brackets[call.open].close
    requires chain <= AllPairs(|env.subject|) && localOffsets.Length == 1000
    requires env.code.items[c.off].Recursion? && env.code.items[c.off].target in env.code.brackets
    requires (env.code.items[c.off].group, c.pos) !in chain
    modifies localOffsets
    ensures Found(env, call, c, chain, result, ends, depth, depth', failed)
    ensures result >= PCRE_ERROR_NOMATCH ==>
              && Recorded(localOffsets[..], 1000, result, c.pos, ends)
              && forall q <- ends :: c.pos <= q <= |env.subject|
    decreases AllPairs(|env.subject|) - chain, Size(env, call.open), 0
  {
    hide ValidEnv, GoesNoFurther, Fits, Contained, Meaningless, CanFail, CanBeUnsafe, NoNegatives,
         NoPossessive, OnlyEnds, Leaves, CanBeUnsafeAt, Inlined, Stuck, Safe, RecursionCanFail, ManyEnds, Recorded;
    depth' := depth;
    var it := env.code.items[c.off];
    var localWorkspace := new int[LOCAL_WORKSPACE];
    var stop: int;
    ghost var k, start;
    RecursionIsCallable(env, call.open, c.off);
    IsCalled(env, c);
    ghost var d := CallAt(env, it.target, c.pos);
    result, k, ends, start, stop, failed :=
      InternalDfaExec(env, it.target, c.pos, c.pos, chain + {(it.group, c.pos)}, localOffsets, 1000,
                      localWorkspace, LOCAL_WORKSPACE);
    if failed {
      RecursionIsUnsafe(env, chain, c);
    } else if result == PCRE_ERROR_DFA_UITEM {
      NestedIsStuck(env, call, c, d);
    } else if result == 0 || result < PCRE_ERROR_NOMATCH {
      if result == 0 { TooManyEnds(env, d, k + 1, ends, localOffsets[..]); }
      RecursionMakesFail(env, chain, c);
    } else {
      depth' := Deepen(env, depth, k + 1, d, ends);
      if NoPossessive(env.code) {
        FewEnds(env, d, k + 1, ends, result, localOffsets[..]);
        RecursionIsSafe(env, chain, c);
      }
    }
  }

  lemma IsCalled(env: Env, c: Config)
    requires ValidEnv(env) && c.off in env.code.items && env.code.items[c.off].Recursion?
    requires env.code.items[c.off].target in env.code.brackets
    ensures var d := CallAt(env, env.code.items[c.off].target, c.pos);
            NestedCall(env, c) == Some(d) && d == d.(som := c.pos)
  {
  }

  /** How the nested call of a recursion has gone, and what is known of the ends it found. */
  ghost predicate Found(env: Env, call: Call, c: Config, chain: set<(int, int)>, result: int, ends: seq<int>,
                        depth: nat, depth': nat, failed: bool)
    requires ValidEnv(env) && call.open in env.code.brackets && Inside(env, call.open, c)
    requires env.code.items[c.off].Recursion? && env.code.items[c.off].target in env.code.brackets
  {
    var d := CallAt(env, env.code.items[c.off].target, c.pos);
    && (result >= PCRE_ERROR_NOMATCH || IsError(result))
    && (NoNegatives(env.code) && result >= PCRE_ERROR_NOMATCH ==> OnlyEnds(env, d, ends))
    && (failed ==> CanBeUnsafeAt(env, chain, c))
    && (!failed ==>
          if result == PCRE_ERROR_DFA_UITEM then
            Stuck(env, call, c)
          else if result == 0 || result < PCRE_ERROR_NOMATCH then
            RecursionCanFail(env, chain, c)
          else
            && depth <= depth' && Inlined(env, depth')(d) == Some(ends)
            && (NoPossessive(env.code) ==> Safe(env, chain, c)))
  }

  lemma TooManyEnds(env: Env, d: Call, k: nat, ends: seq<int>, offsets: seq<int>)
    requires ValidEnv(env) && Inlined(env, k)(d) == Some(ends)
    requires Recorded(offsets, 1000, 0, d.som, ends)
    ensures ManyEnds(env, d)
  {
    hide ValidEnv, Inlined;
    assert Means(env, d, ends);
  }

  lemma FewEnds(env: Env, d: Call, k: nat, ends: seq<int>, result: int, offsets: seq<int>)
    requires ValidEnv(env) && Inlined(env, k)(d) == Some(ends)
    requires result != 0 && Recorded(offsets, 1000, result, d.som, ends)
    ensures !ManyEnds(env, d)
  {
    hide ValidEnv, Inlined;
    assert Means(env, d, ends);
    forall all: seq<int> | Means(env, d, all) ensures |all| <= LOCAL_MATCHES { MeaningIsUnique(env, d, ends, all); }
  }

  lemma RecursionFailed(env: Env, call: Call, c: Config, chain: set<(int, int)>, capacity: nat, rc: int, ends: seq<int>,
                        depth: nat, depth': nat, failed: bool, active: seq<Block>, later: seq<Block>)
    requires ValidEnv(env) && call.open in env.code.brackets && Inside(env, call.open, c)
    requires IsError(rc) && rc != PCRE_ERROR_DFA_UITEM
    requires failed ==> CanBeUnsafeAt(env, chain, c)
    requires !failed ==> RecursionCanFail(env, chain, c)
    ensures Acted(env, call, c, chain, capacity, rc, ends, depth, depth', failed, active, later, active, later)
  {
    hide ValidEnv, Inside, Stuck, CanBeUnsafeAt, RecursionCanFail;
  }

  /** The ends of the called group make the step of a recursion. */
  lemma RecursionActed(env: Env, call: Call, c: Config, d: Call, chain: set<(int, int)>, capacity: nat, rc: int,
                       ends: seq<int>, depth: nat, depth': nat, failed: bool,
                       active: seq<Block>, later: seq<Block>, active': seq<Block>, later': seq<Block>)
    requires ValidEnv(env) && call.open in env.code.brackets && Inside(env, call.open, c)
    requires c.off != env.code.brackets[call.open].close && env.code.items[c.off].Recursion?
    requires NestedCall(env, c) == Some(d)
    requires failed ==> CanBeUnsafeAt(env, chain, c)
    requires !failed ==> depth <= depth' && Inlined(env, depth')(d) == Some(ends)
    requires !failed && NoPossessive(env.code) ==> Safe(env, chain, c)
    requires NoNegatives(env.code) ==> OnlyEnds(env, d, ends)
    requires StepWith(env, call.som, c, ends).Go?
    requires var out := StepWith(env, call.som, c, ends);
             && AllInside(env, call.open, out.here, c.pos) && AllInside(env, call.open, out.later, c.pos + 1)
    requires rc == OK || rc == PCRE_ERROR_DFA_WSSIZE
    requires var p, next := c.pos, env.code.items[c.off].next;
             if rc == OK then Returned(active, later, active', later', next, p, ends)
             else NoRoom(capacity, active, later, |Equal(ends, p)|, |Above(ends, p)|)
    ensures Acted(env, call, c, chain, capacity, rc, ends, depth, depth', failed, active, later, active', later')
  {
    if NoNegatives(env.code) { RecursionIsLossy(env, call, c, d, ends); }
    RecursionAdds(env, call, c, capacity, rc, ends, active, later, active', later');
    if !failed { RecursionIsExact(env, call, c, d, ends, depth, depth'); }
    hide ValidEnv, NoNegatives, NoPossessive, Inlined, Stuck, CanBeUnsafeAt, RecursionCanFail, Safe, Lossy, OnlyEnds,
         Inside, StepWith, Returned, NoRoom, Added, LacksRoom, ActedExactly, AllInside, Equal, Above;
  }

  lemma RecursionAdds(env: Env, call: Call, c: Config, capacity: nat, rc: int, ends: seq<int>,
                      active: seq<Block>, later: seq<Block>, active': seq<Block>, later': seq<Block>)
    requires ValidEnv(env) && call.open in env.code.brackets && Inside(env, call.open, c)
    requires env.code.items[c.off].Recursion?
    requires var out := StepWith(env, call.som, c, ends);
             out.Go? && AllInside(env, call.open, out.here, c.pos) && AllInside(env, call.open, out.later, c.pos + 1)
    requires rc == OK || rc == PCRE_ERROR_DFA_WSSIZE
    requires var p, next := c.pos, env.code.items[c.off].next;
             if rc == OK then Returned(active, later, active', later', next, p, ends)
             else NoRoom(capacity, active, later, |Equal(ends, p)|, |Above(ends, p)|)
    ensures rc == OK ==> Added(env, call, c, ends, active, later, active', later')
    ensures rc != OK ==> LacksRoom(env, call, c, ends, capacity, active, later)
  {
    hide WellFormed, Holds, Passes, StepRepeat, NewlineLength, Equal, Above, AllInside, Grown;
  }

  lemma RecursionIsExact(env: Env, call: Call, c: Config, d: Call, ends: seq<int>, depth: nat, depth': nat)
    requires ValidEnv(env) && call.open in env.code.brackets && Inside(env, call.open, c)
    requires c.off != env.code.brackets[call.open].close && env.code.items[c.off].Recursion?
    requires NestedCall(env, c) == Some(d) && depth <= depth' && Inlined(env, depth')(d) == Some(ends)
    ensures ActedExactly(env, call, c, ends, depth, depth')
  {
    hide WellFormed, Inlined, Holds, Passes, StepRepeat, NewlineLength, Equal, Above;
  }

  lemma RecursionIsLossy(env: Env, call: Call, c: Config, d: Call, ends: seq<int>)
    requires ValidEnv(env) && call.open in env.code.brackets && Inside(env, call.open, c)
    requires c.off != env.code.brackets[call.open].close && env.code.items[c.off].Recursion?
    requires NestedCall(env, c) == Some(d) && OnlyEnds(env, d, ends)
    ensures Lossy(env, call, c, StepWith(env, call.som, c, ends))
  {
    hide WellFormed, Inlined;
    var p, next, out := c.pos, env.code.items[c.off].next, StepWith(env, call.som, c, ends);
    forall m: nat, s | Step(env, Inlined(env, m), call, c).Go? && s in Successors(out)
      ensures s in Successors(Step(env, Inlined(env, m), call, c))
    {
      var all := Inlined(env, m)(d).value;
      MoreReturns(next, ends, all, p, s);
    }
  }

  lemma MoreReturns(next: int, ends: seq<int>, all: seq<int>, p: int, s: Config)
    requires forall q <- ends :: q in all
    requires s in At(next, Equal(ends, p)) + At(next, Above(ends, p))
    ensures s in At(next, Equal(all, p)) + At(next, Above(all, p))
  {
    AtIsThere(next, Equal(ends, p));
    AtIsThere(next, Above(ends, p));
    EqualIsBounded(ends, p);
    AboveIsBounded(ends, p);
    InEqualOrAbove(all, p, s.pos);
    var i :| if s.pos == p then 0 <= i < |Equal(all, p)| && Equal(all, p)[i] == s.pos
             else 0 <= i < |Above(all, p)| && Above(all, p)[i] == s.pos;
    if s.pos == p {
      assert At(next, Equal(all, p))[i] == s;
    } else {
      assert At(next, Above(all, p))[i] == s;
    }
  }

  lemma {:induction false} InEqualOrAbove(ps: seq<int>, p: int, q: int)
    requires q in ps && q >= p
    ensures if q == p then q in Equal(ps, p) else q in Above(ps, p)
  {
    var last := |ps| - 1;
    if ps[last] != q {
      assert q in ps[..last];
      InEqualOrAbove(ps[..last], p, q);
    }
  }

  /** Nested calls for assertions and recursions; every other item acts on its own. */
  method Act(env: Env, ghost call: Call, open: int, som: int, chain: set<(int, int)>, lists: StateLists, c: Config,
             ghost depth: nat)
    returns (rc: int, ghost ends: seq<int>, ghost depth': nat, ghost failed: bool)
    requires call.open == open && call.som == som
    requires ValidEnv(env) && call.open in env.code.brackets && lists.Valid() && lists.active != []
    requires Inside(env, call.open, c) && c.off < env.code.brackets[call.open].close
    requires chain <= AllPairs(|env.subject|)
    modifies lists`activeCount, lists`active, lists`newCount, lists`later, lists.workspace
    ensures lists.Valid()
    ensures lists.workspace[0] == old(lists.workspace[0]) && lists.workspace[1] == old(lists.workspace[1])
    ensures Acted(env, call, c, chain, lists.capacity, rc, ends, depth, depth', failed,
                  old(lists.active), old(lists.later), lists.active, lists.later)
    ensures NestedCall(env, c).None? ==>
              ends == [] && !failed && (rc == OK || rc == PCRE_ERROR_DFA_WSSIZE || rc == PCRE_ERROR_DFA_UITEM)
    decreases AllPairs(|env.subject|) - chain, Size(env, call.open), 2
  {
    hide ValidEnv, StateLists.Valid, StateLists.Holds, NoNegatives, Acted, AllInside, CanFail;
    match env.code.items[c.off] {
      case Assertion(_, _) =>
        ghost var inner, lost;
        rc, ends, depth', inner, lost := ActAssertion(env, call, open, som, chain, lists, c, depth);
        failed := inner || lost;
      case Recursion(_, _, _) =>
        rc, ends, depth', failed := ActRecursion(env, call, open, som, chain, lists, c, depth);
      case _ =>
        ends, depth', failed := [], depth, false;
        TargetsArePositive(env, call.open, c.off);
        rc := ActPlain(env, som, lists, c);
        if rc == OK { StepStaysInside(env, call.open, call.som, c, ends); }
        PlainActed(env, call, c, chain, lists.capacity, rc, depth,
                   old(lists.active), old(lists.later), lists.active, lists.later);
    }
  }

  lemma PlainActed(env: Env, call: Call, c: Config, chain: set<(int, int)>, capacity: nat, rc: int, depth: nat,
                   active: seq<Block>, later: seq<Block>, active': seq<Block>, later': seq<Block>)
    requires ValidEnv(env) && call.open in env.code.brackets && Inside(env, call.open, c) && active != []
    requires c.off != env.code.brackets[call.open].close && NestedCall(env, c).None?
    requires rc == OK || rc == PCRE_ERROR_DFA_WSSIZE || rc == PCRE_ERROR_DFA_UITEM
    requires var out := StepWith(env, call.som, c, []);
             if rc == OK then
               && out.Go? && Grown(later, later', c.pos + 1, out.later)
               && AllInside(env, call.open, out.here, c.pos) && AllInside(env, call.open, out.later, c.pos + 1)
               && (if TooMuch(env, c) then active' == active[..|active| - 1]
                   else Grown(active, active', c.pos, out.here))
             else if rc == PCRE_ERROR_DFA_UITEM then out.Stop?
             else out.Go? && NoRoom(capacity, active, later, Takes(env, c, out), |out.later|)
    ensures Acted(env, call, c, chain, capacity, rc, [], depth, depth, false, active, later, active', later')
  {
    if NoPossessive(env.code) { PlainIsSafe(env, chain, c); }
    hide WellFormed, NoNegatives, NoPossessive, Inlined, CanBeUnsafeAt, RecursionCanFail, Safe, StepWith,
         AllInside, Takes, TooMuch;
  }

  /** A depth that suffices for what is known at depth and for the nested call explained at depth k. */
  lemma Deepen(env: Env, depth: nat, k: nat, d: Call, ends: seq<int>) returns (m: nat)
    requires ValidEnv(env) && Inlined(env, k)(d) == Some(ends)
    ensures depth <= m && Inlined(env, m)(d) == Some(ends)
  {
    m := if k <= depth then depth else k;
    InliningIsMonotonic(env, k, m);
  }

  /** After a recursion: one state for each end it found, the shortest first, each waiting until the
      characters it took have passed. */
  method AddReturns(env: Env, lists: StateLists, next: int, p: int, offsets: array<int>, result: int,
                    ghost ends: seq<int>)
    returns (rc: int)
    requires lists.Valid() && next > 0 && offsets != lists.workspace
    requires result != 0 && Recorded(offsets[..], 1000, result, p, ends) && forall q <- ends :: q >= p
    modifies lists`activeCount, lists`active, lists`newCount, lists`later, lists.workspace
    ensures lists.Valid()
    ensures lists.workspace[0] == old(lists.workspace[0]) && lists.workspace[1] == old(lists.workspace[1])
    ensures rc == OK || rc == PCRE_ERROR_DFA_WSSIZE
    ensures rc == OK ==> Returned(old(lists.active), old(lists.later), lists.active, lists.later, next, p, ends)
    ensures rc != OK ==>
              NoRoom(lists.capacity, old(lists.active), old(lists.later), |Equal(ends, p)|, |Above(ends, p)|)
  {
    hide StateLists.Holds, Returned, NoRoom, Equal, Above;
    NoneReturned(lists.active, lists.later, next, p, ends);
    if result < 0 { return OK; }
    var j := result;
    while j > 0
      invariant 0 <= j <= result == |ends|
      invariant lists.Valid() && offsets[..] == old(offsets[..])
      invariant lists.workspace[0] == old(lists.workspace[0]) && lists.workspace[1] == old(lists.workspace[1])
      invariant Returned(old(lists.active), old(lists.later), lists.active, lists.later, next, p, ends[..result - j])
    {
      ghost var active, later, m := lists.active, lists.later, result - j;
      j := j - 1;
      assert offsets[2 * j] == p && offsets[2 * j + 1] == ends[m] && ends[m] in ends;
      rc := AddReturn(lists, next, p, offsets[2 * j + 1] - offsets[2 * j]);
      if rc != OK {
        NoRoomForReturn(lists.capacity, old(lists.active), old(lists.later), active, later, next, p, ends, m);
        return;
      }
      ReturnedOn(old(lists.active), old(lists.later), active, later, lists.active, lists.later, next, p, ends, m);
    }
    assert ends[..result] == ends;
    return OK;
  }

  /** One state after a recursion that took charcount characters. */
  method AddReturn(lists: StateLists, next: int, p: int, charcount: int) returns (rc: int)
    requires lists.Valid() && next > 0 && charcount >= 0
    modifies lists`activeCount, lists`active, lists`newCount, lists`later, lists.workspace
    ensures lists.Valid()
    ensures lists.workspace[0] == old(lists.workspace[0]) && lists.workspace[1] == old(lists.workspace[1])
    ensures rc == if (if charcount > 0 then old(|lists.later|) else old(|lists.active|)) < lists.capacity then OK
                  else PCRE_ERROR_DFA_WSSIZE
    ensures rc == OK ==>
              if charcount > 0 then
                && lists.active == old(lists.active)
                && Grown(old(lists.later), lists.later, p + 1, [Config(next, 0, p + charcount)])
              else
                && lists.later == old(lists.later)
                && Grown(old(lists.active), lists.active, p, [Config(next, 0, p)])
  {
    hide StateLists.Holds, StateLists.Valid, Grown;
    if charcount > 0 {
      rc := PushWaiting(lists, next, 0, charcount - 1, p);
    } else {
      rc := PushHere(lists, next, p);
    }
  }

  /** The states behind a recursion with these ends have been added. */
  ghost predicate Returned(active: seq<Block>, later: seq<Block>, active': seq<Block>, later': seq<Block>,
                           next: int, p: int, ends: seq<int>) {
    && Grown(active, active', p, At(next, Equal(ends, p)))
    && Grown(later, later', p + 1, At(next, Above(ends, p)))
  }

  lemma NoneReturned(active: seq<Block>, later: seq<Block>, next: int, p: int, ends: seq<int>)
    ensures Returned(active, later, active, later, next, p, ends[..0])
    ensures ends == [] ==> Returned(active, later, active, later, next, p, ends)
  {
    assert At(next, []) == [];
    assert Images(active, p) + [] == Images(active, p) && Images(later, p + 1) + [] == Images(later, p + 1);
  }

  lemma ReturnedOn(a0: seq<Block>, b0: seq<Block>, a1: seq<Block>, b1: seq<Block>, a2: seq<Block>, b2: seq<Block>,
                   next: int, p: int, ends: seq<int>, m: nat)
    requires m < |ends| && ends[m] >= p && Returned(a0, b0, a1, b1, next, p, ends[..m])
    requires if ends[m] > p then a2 == a1 && Grown(b1, b2, p + 1, [Config(next, 0, ends[m])])
             else b2 == b1 && Grown(a1, a2, p, [Config(next, 0, p)])
    ensures Returned(a0, b0, a2, b2, next, p, ends[..m + 1])
  {
    hide Grown;
    assert ends[..m + 1][..m] == ends[..m];
    if ends[m] > p {
      GrownTwice(b0, b1, b2, p + 1, At(next, Above(ends[..m], p)), [Config(next, 0, ends[m])]);
      assert At(next, Above(ends[..m + 1], p)) == At(next, Above(ends[..m], p)) + [Config(next, 0, ends[m])];
      assert Equal(ends[..m], p) + [] == Equal(ends[..m], p);
    } else {
      GrownTwice(a0, a1, a2, p, At(next, Equal(ends[..m], p)), [Config(next, 0, p)]);
      assert At(next, Equal(ends[..m + 1], p)) == At(next, Equal(ends[..m], p)) + [Config(next, 0, p)];
      assert Above(ends[..m], p) + [] == Above(ends[..m], p);
    }
  }

  lemma NoRoomForReturn(capacity: nat, a0: seq<Block>, b0: seq<Block>, a1: seq<Block>, b1: seq<Block>,
                        next: int, p: int, ends: seq<int>, m: nat)
    requires m < |ends| && ends[m] >= p && Returned(a0, b0, a1, b1, next, p, ends[..m])
    requires (if ends[m] > p then |b1| else |a1|) >= capacity
    ensures NoRoom(capacity, a0, b0, |Equal(ends, p)|, |Above(ends, p)|)
  {
    ReturnsGrow(ends, m + 1, p);
    assert ends[..m + 1][..m] == ends[..m];
    assert |Images(a1, p)| == |Images(a0, p)| + |Equal(ends[..m], p)|;
    assert |Images(b1, p + 1)| == |Images(b0, p + 1)| + |Above(ends[..m], p)|;
  }

  lemma {:induction false} ReturnsGrow(ends: seq<int>, m: nat, p: int)
    requires m <= |ends|
    ensures |Equal(ends[..m], p)| <= |Equal(ends, p)| && |Above(ends[..m], p)| <= |Above(ends, p)|
    decreases |ends| - m
  {
    if m < |ends| {
      assert ends[..m + 1][..m] == ends[..m];
      ReturnsGrow(ends, m + 1, p);
    } else {
      assert ends[..m] == ends;
    }
  }

  /** A waiting state that is not due moves on to the new list. */
  method PassOn(env: Env, ghost call: Call, ghost start: int, p: int, i: nat, lists: StateLists, ghost t: Trail)
    returns (rc: int)
    requires ValidEnv(env) && call.open in env.code.brackets && lists.Valid()
    requires start <= p && i < lists.activeCount && lists.active[i].off < 0 && lists.active[i].data > 0
    requires Progress(env, call, start, p, i, lists.active, lists.later, t)
    requires Spacious(env, call, lists.capacity, p, i, lists.active, lists.later, t)
    modifies lists`newCount, lists`later, lists.workspace
    ensures lists.Valid()
    ensures lists.workspace[0] == old(lists.workspace[0]) && lists.workspace[1] == old(lists.workspace[1])
    ensures rc == OK || (rc == PCRE_ERROR_DFA_WSSIZE && (!t.failed ==> Crowded(env, call, lists.capacity)))
    ensures rc != OK ==> Overflows(env, call, lists.capacity, p, i, old(PassOf(p, lists.active, lists.later, t)))
    ensures rc == OK ==>
              && Progress(env, call, start, p, i + 1, lists.active, lists.later, t)
              && Spacious(env, call, lists.capacity, p, i + 1, lists.active, lists.later, t)
              && PassOf(p, lists.active, lists.later, t)
                 == Processed(env, call, p, i, old(PassOf(p, lists.active, lists.later, t)))
  {
    hide ValidEnv, StateLists.Holds, LieAt, Progress, Spacious, Crowded, Processed, PassOf, Overflows;
    var b := lists.Get(i);
    if |lists.later| >= lists.capacity {
      FullOverflows(env, call, lists.capacity, p, i, lists.active, lists.later, t);
    }
    if !t.failed && |lists.later| >= lists.capacity {
      FullIsCrowded(env, call, start, lists.capacity, p, i, lists.active, lists.later, t);
    }
    rc := PushWaiting(lists, -b.off, b.count, b.data - 1, p);
    if rc == OK {
      ProgressSkip(env, call, start, p, i, lists.active, old(lists.later), t, lists.later);
      SpaciousSkip(env, call, lists.capacity, p, i, lists.active, old(lists.later), t, lists.later);
      SkipIsProcessed(env, call, p, i, lists.active, old(lists.later), t, lists.later);
    }
  }

  /** A waiting state that is not due moves on; one that is due loses its sign; a duplicate of an
      earlier state is skipped. Otherwise the state is a new one and still to be processed. */
  method Settle(env: Env, ghost call: Call, ghost start: int, p: int, i: nat, lists: StateLists, ghost t: Trail)
    returns (rc: int, settled: bool)
    requires ValidEnv(env) && call.open in env.code.brackets && lists.Valid()
    requires start <= p && i < lists.activeCount
    requires Progress(env, call, start, p, i, lists.active, lists.later, t)
    requires Spacious(env, call, lists.capacity, p, i, lists.active, lists.later, t)
    modifies lists`active, lists`newCount, lists`later, lists.workspace
    ensures lists.Valid() && Images(lists.active, p) == old(Images(lists.active, p))
    ensures lists.workspace[0] == old(lists.workspace[0]) && lists.workspace[1] == old(lists.workspace[1])
    ensures rc == OK || (rc == PCRE_ERROR_DFA_WSSIZE && (!t.failed ==> Crowded(env, call, lists.capacity)))
    ensures rc != OK ==> Overflows(env, call, lists.capacity, p, i, old(PassOf(p, lists.active, lists.later, t)))
    ensures rc == OK ==>
              && Progress(env, call, start, p, if settled then i + 1 else i, lists.active, lists.later, t)
              && Spacious(env, call, lists.capacity, p, if settled then i + 1 else i, lists.active, lists.later, t)
    ensures rc == OK && !settled ==>
              && lists.active[i].off >= 0 && Image(lists.active[i], p) !in t.done
    ensures rc == OK ==>
              var was := old(PassOf(p, lists.active, lists.later, t));
              PassOf(p, lists.active, lists.later, t) == if settled then Processed(env, call, p, i, was) else was
  {
    hide ValidEnv, StateLists.Holds, LieAt, Progress, Spacious, Crowded, Processed, Overflows;
    var b := lists.Get(i);
    if b.off < 0 {
      if b.data > 0 {
        rc := PassOn(env, call, start, p, i, lists, t);
        return rc, true;
      }
      ProgressWake(env, call, start, p, i, lists.active, lists.later, t);
      SpaciousImages(env, call, lists.capacity, p, i, lists.active, lists.active[i := b.(off := -b.off)], lists.later,
                     t);
      lists.Wake(i);
      b := lists.Get(i);
    }
    var duplicate := lists.IsDuplicate(i, b.off, b.count);
    if duplicate {
      ghost var j :| 0 <= j < i && lists.active[j].off == b.off && lists.active[j].count == b.count;
      DuplicateIsDone(env, call, start, p, i, lists.active, lists.later, t, j);
      ProgressDuplicate(env, call, start, p, i, lists.active, lists.later, t);
      SpaciousPass(env, call, lists.capacity, p, i, lists.active, lists.later, t);
      DuplicateIsProcessed(env, call, p, i, lists.active, lists.later, t);
    } else {
      NotDuplicateIsNew(env, call, start, p, i, lists.active, lists.later, t);
    }
    return OK, duplicate;
  }

  /** What is known of the states processed so far: something has gone wrong only if the call can be unsafe; and
      without possessive repeats each of them is safe. */
  ghost predicate Warned(env: Env, call: Call, chain: set<(int, int)>, t: Trail)
    requires ValidEnv(env)
  {
    && (t.failed ==> CanBeUnsafe(env, call, chain))
    && (!t.failed && NoPossessive(env.code) ==> AllSafe(env, call, chain, t.done))
  }

  /** How processing ends. If nothing has gone wrong, it ends with an error only if that means that the call has no
      meaning, or one that the call fails. */
  ghost predicate Ended(env: Env, call: Call, chain: set<(int, int)>, capacity: nat, rc: int, t: Trail)
    requires ValidEnv(env)
  {
    && (rc == OK || IsError(rc))
    && (t.failed ==> CanBeUnsafe(env, call, chain))
    && (rc == OK ==> Warned(env, call, chain, t))
    && (rc == PCRE_ERROR_DFA_UITEM && !t.failed ==> Meaningless(env, call))
    && (rc != OK && rc != PCRE_ERROR_DFA_UITEM && !t.failed ==> CanFail(env, call, chain, capacity))
  }

  /** Process the state at index i of the active list. */
  method ProcessState(env: Env, ghost call: Call, open: int, som: int, start: int, p: int, i: nat,
                      chain: set<(int, int)>, lists: StateLists,
                      offsets: array<int>, offsetcount: int, matchCount: int, ghost t: Trail)
    returns (rc: int, count: int, ghost t': Trail)
    requires call.open == open && call.som == som
    requires ValidEnv(env) && call.open in env.code.brackets && lists.Valid()
    requires chain <= AllPairs(|env.subject|)
    requires 0 <= start <= p <= |env.subject| && i < lists.activeCount
    requires Progress(env, call, start, p, i, lists.active, lists.later, t) && Warned(env, call, chain, t)
    requires Spacious(env, call, lists.capacity, p, i, lists.active, lists.later, t)
    requires offsets != lists.workspace && 0 <= offsetcount <= offsets.Length
    requires Recorded(offsets[..], offsetcount, matchCount, start, t.ends)
    modifies lists`activeCount, lists`active, lists`newCount, lists`later, lists.workspace, offsets
    ensures lists.Valid()
    ensures lists.workspace[0] == old(lists.workspace[0]) && lists.workspace[1] == old(lists.workspace[1])
    ensures Ended(env, call, chain, lists.capacity, rc, t')
    ensures rc == OK ==>
              && i <= lists.activeCount
              && Progress(env, call, start, p, Behind(i, lists.activeCount), lists.active, lists.later, t')
              && Spacious(env, call, lists.capacity, p, Behind(i, lists.activeCount), lists.active, lists.later, t')
              && Recorded(offsets[..], offsetcount, count, start, t'.ends)
              && Onward(p, t, t')
              && (KeepsActive(env, p) ==> old(Images(lists.active, p)) <= Images(lists.active, p))
              && (PlainIn(env.code, call.open) ==>
                    PassOf(p, lists.active, lists.later, t')
                    == Processed(env, call, p, i, old(PassOf(p, lists.active, lists.later, t))))
    ensures rc != OK && PlainIn(env.code, call.open) ==>
              rc == PCRE_ERROR_DFA_WSSIZE
              && Overflows(env, call, lists.capacity, p, i, old(PassOf(p, lists.active, lists.later, t)))
    decreases AllPairs(|env.subject|) - chain, Size(env, call.open), 3
  {
    hide ValidEnv, StateLists.Holds, Progress, Spacious, Inside, Recorded, Images, Warned, Acted, KeepsActive,
         Processed,
         PassOf, PlainIn, Overflows;
    count, t' := matchCount, t;
    var settled;
    rc, settled := Settle(env, call, start, p, i, lists, t);
    if rc != OK || settled {
      SettledEnds(env, call, chain, lists.capacity, rc, t);
      return;
    }
    var b := lists.Get(i);
    var c := Config(b.off, b.count, p);
    ghost var active, later := lists.active, lists.later;
    InsideAtState(env, call, start, p, i, active, later, t);
    if b.off == env.code.brackets[open].close {
      count := RecordMatch(offsets, offsetcount, matchCount, start, p, t.ends);
      t' := t.(done := t.done + {c}, ends := t.ends + [p]);
      ProgressMatch(env, call, start, p, i, active, later, t, t');
      SpaciousMatch(env, call, start, lists.capacity, p, i, active, later, t, t');
      MatchIsProcessed(env, call, p, i, active, later, t, t');
      MatchEnds(env, call, chain, lists.capacity, p, t, c, t');
    } else {
      ghost var ends, depth', failed;
      rc, ends, depth', failed := Act(env, call, open, som, chain, lists, c, t.depth);
      t' := Trail(t.done + {c}, t.ends, depth', t.failed || failed || TakesAnother(env, c, i, |active|));
      ActedEnds(env, call, start, p, i, chain, lists.capacity, rc, ends, active, later, t, lists.active, lists.later,
                failed, t');
      if rc != OK {
        if PlainIn(env.code, call.open) {
          PlainOverflows(env, call, p, i, chain, lists.capacity, rc, ends, active, later, t, depth', lists.active,
                         lists.later, failed);
        }
      } else {
        ActedOn(env, call, start, p, i, chain, lists.capacity, ends, active, later, t, lists.active, lists.later,
                failed, t');
        if PlainIn(env.code, call.open) {
          PlainIsProcessed(env, call, p, i, chain, lists.capacity, ends, active, later, t, lists.active, lists.later,
                           failed, t');
        }
      }
    }
  }

  /** Processing at position p takes no state away from the active list. */
  ghost predicate KeepsActive(env: Env, p: int) {
    NoMinimums(env.code) || p == |env.subject|
  }

  lemma SettledEnds(env: Env, call: Call, chain: set<(int, int)>, capacity: nat, rc: int, t: Trail)
    requires ValidEnv(env) && Warned(env, call, chain, t)
    requires rc == OK || (rc == PCRE_ERROR_DFA_WSSIZE && (!t.failed ==> Crowded(env, call, capacity)))
    ensures Ended(env, call, chain, capacity, rc, t)
  {
    hide ValidEnv, Crowded, CanBeUnsafe, AllSafe, NoPossessive;
    if rc != OK && !t.failed { CrowdedFails(env, call, chain, capacity); }
  }

  lemma MatchEnds(env: Env, call: Call, chain: set<(int, int)>, capacity: nat, p: int, t: Trail, c: Config, t': Trail)
    requires ValidEnv(env) && Warned(env, call, chain, t) && call.open in env.code.brackets && c.pos == p
    requires c.off == env.code.brackets[call.open].close
    requires t' == t.(done := t.done + {c}, ends := t.ends + [p])
    ensures Ended(env, call, chain, capacity, OK, t') && Onward(p, t, t')
  {
    hide ValidEnv, Safe, CanBeUnsafe, NoPossessive;
  }

  /** A state of the active list that is still to be processed can be reached. */
  lemma StateCanBeReached(env: Env, call: Call, start: int, p: int, i: nat,
                          active: seq<Block>, later: seq<Block>, t: Trail)
    requires ValidEnv(env) && call.open in env.code.brackets && i < |active|
    requires Progress(env, call, start, p, i, active, later, t) && active[i].off >= 0 && !t.failed
    ensures CanReach(env, call, Image(active[i], p))
  {
    hide ValidEnv, EndsListed, AllInside, Placed, Covers, Reached, OnlyReached;
    var here, next := Images(active, p), Images(later, p + 1);
    assert here[i] in here[i..];
    FedIsReached(env, Inlined(env, t.depth), call, t.done, Waiting(here, i, next), here[i]);
  }

  /** What the action of a state says about the call. */
  lemma ActedEnds(env: Env, call: Call, start: int, p: int, i: nat, chain: set<(int, int)>, capacity: nat, rc: int,
                  ends: seq<int>, active: seq<Block>, later: seq<Block>, t: Trail,
                  active': seq<Block>, later': seq<Block>, failed: bool, t': Trail)
    requires ValidEnv(env) && call.open in env.code.brackets && i < |active| && start <= p
    requires Progress(env, call, start, p, i, active, later, t) && Spacious(env, call, capacity, p, i, active, later, t)
    requires active[i].off >= 0 && Image(active[i], p) !in t.done && Inside(env, call.open, Image(active[i], p))
    requires active[i].off != env.code.brackets[call.open].close && Warned(env, call, chain, t)
    requires Acted(env, call, Image(active[i], p), chain, capacity, rc, ends, t.depth, t'.depth, failed,
                   active, later, active', later')
    requires t'.done == t.done + {Image(active[i], p)}
    requires t'.failed == (t.failed || failed || TakesAnother(env, Image(active[i], p), i, |active|))
    ensures Ended(env, call, chain, capacity, rc, t')
  {
    hide ValidEnv, Progress, Spacious, Step, NoRoom, Stuck, Meaningless, Images, Safe, CanBeUnsafe, CanFail,
         NoPossessive, CanReach, Takes, CanBeUnsafeAt, RecursionCanFail;
    var c := Image(active[i], p);
    if !t.failed {
      StateCanBeReached(env, call, start, p, i, active, later, t);
      if t'.failed {
        if TooMuch(env, c) { TooMuchIsUnsafe(env, chain, c); }
        StateIsUnsafe(env, call, chain, c);
      } else if rc == PCRE_ERROR_DFA_UITEM {
        StuckState(env, call, start, p, i, active, later, t);
      } else if rc != OK {
        if RecursionCanFail(env, chain, c) {
          RecursionInCallFails(env, call, chain, capacity, c);
        } else {
          NoRoomIsCrowded(env, call, start, capacity, p, i, active, later, t, t'.depth, ends);
          CrowdedFails(env, call, chain, capacity);
        }
      }
    }
  }

  /** What the action of a state does to the scan. */
  lemma ActedOn(env: Env, call: Call, start: int, p: int, i: nat, chain: set<(int, int)>, capacity: nat, ends: seq<int>,
                active: seq<Block>, later: seq<Block>, t: Trail, active': seq<Block>, later': seq<Block>, failed: bool,
                t': Trail)
    requires ValidEnv(env) && call.open in env.code.brackets && i < |active| && start <= p
    requires Progress(env, call, start, p, i, active, later, t) && Spacious(env, call, capacity, p, i, active, later, t)
    requires active[i].off >= 0 && Image(active[i], p) !in t.done && Inside(env, call.open, Image(active[i], p))
    requires active[i].off != env.code.brackets[call.open].close
    requires Acted(env, call, Image(active[i], p), chain, capacity, OK, ends, t.depth, t'.depth, failed,
                   active, later, active', later')
    requires t'.done == t.done + {Image(active[i], p)} && t'.ends == t.ends
    requires t'.failed == (t.failed || failed || TakesAnother(env, Image(active[i], p), i, |active|))
    ensures i <= |active'| && Progress(env, call, start, p, Behind(i, |active'|), active', later', t')
    ensures Spacious(env, call, capacity, p, Behind(i, |active'|), active', later', t')
    ensures Onward(p, t, t')
    ensures KeepsActive(env, p) ==> Images(active, p) <= Images(active', p)
  {
    hide ValidEnv, Progress, Spacious, Step, NoRoom, Images, Safe, NoPossessive, Takes, CanBeUnsafeAt,
         TooMuch, NoNegatives, Lossy, AllInside;
    var c := Image(active[i], p);
    var out := StepWith(env, call.som, c, ends);
    assert t.ends + [] == t.ends;
    StepTakes(env, call.open, call.som, c, ends);
    if TooMuch(env, c) {
      TooMuchAddsNothing(env, call.som, c, ends);
      ProgressDrop(env, call, start, p, i, active, later, t, active', later', t', out);
      if i + 1 == |active| {
        SpaciousDrop(env, call, start, capacity, p, i, active, later, t, active', later', t', out);
      } else {
        NotSpacious(env, call, capacity, p, Behind(i, |active'|), active', later', t');
      }
    } else {
      GrownIsLonger(active, active', p, out.here);
      ProgressStep(env, call, start, p, i, active, later, t, active', later', t', out);
      SpaciousStep(env, call, start, capacity, p, i, active, later, t, active', later', t', out);
    }
  }

  lemma PlainOverflows(env: Env, call: Call, p: int, i: nat, chain: set<(int, int)>, capacity: nat, rc: int,
                       ends: seq<int>, active: seq<Block>, later: seq<Block>, t: Trail, depth': nat,
                       active': seq<Block>, later': seq<Block>, failed: bool)
    requires ValidEnv(env) && call.open in env.code.brackets && i < |active| && active[i].off >= 0
    requires PlainIn(env.code, call.open)
    requires Inside(env, call.open, Image(active[i], p)) && Image(active[i], p) !in t.done && rc != OK
    requires active[i].off != env.code.brackets[call.open].close
    requires Acted(env, call, Image(active[i], p), chain, capacity, rc, ends, t.depth, depth', failed,
                   active, later, active', later')
    requires NestedCall(env, Image(active[i], p)).None? ==>
               ends == [] && !failed && (rc == PCRE_ERROR_DFA_WSSIZE || rc == PCRE_ERROR_DFA_UITEM)
    ensures rc == PCRE_ERROR_DFA_WSSIZE
    ensures Overflows(env, call, capacity, p, i, PassOf(p, active, later, t))
  {
    hide WellFormed, Added, PassOf, Safe, NoNegatives, Lossy, CanBeUnsafeAt, ActedExactly, CallAt, Takes, Overflows;
    var c := Image(active[i], p);
    assert NestedCall(env, c).None?;
    NotStuck(env, call, c);
    assert !RecursionCanFail(env, chain, c);
    NoRoomOverflows(env, call, capacity, p, i, active, later, t);
  }

  lemma NotStuck(env: Env, call: Call, c: Config)
    requires ValidEnv(env) && call.open in env.code.brackets && Inside(env, call.open, c)
    requires PlainIn(env.code, call.open)
    requires c.off != env.code.brackets[call.open].close
    ensures !Stuck(env, call, c)
  {
    hide WellFormed, Holds, Passes, NewlineLength;
    assert Step(env, Inlined(env, 0), call, c).Go?;
  }

  lemma PlainIsProcessed(env: Env, call: Call, p: int, i: nat, chain: set<(int, int)>, capacity: nat, ends: seq<int>,
                         active: seq<Block>, later: seq<Block>, t: Trail,
                         active': seq<Block>, later': seq<Block>, failed: bool, t': Trail)
    requires ValidEnv(env) && call.open in env.code.brackets && i < |active| && active[i].off >= 0
    requires PlainIn(env.code, call.open)
    requires Inside(env, call.open, Image(active[i], p)) && Image(active[i], p) !in t.done
    requires active[i].off != env.code.brackets[call.open].close
    requires Acted(env, call, Image(active[i], p), chain, capacity, OK, ends, t.depth, t'.depth, failed,
                   active, later, active', later')
    requires NestedCall(env, Image(active[i], p)).None? ==> ends == [] && !failed
    requires t'.done == t.done + {Image(active[i], p)} && t'.ends == t.ends
    requires t'.failed == (t.failed || failed || TakesAnother(env, Image(active[i], p), i, |active|))
    ensures PassOf(p, active', later', t') == Processed(env, call, p, i, PassOf(p, active, later, t))
  {
    hide ValidEnv, Added, Processed, PassOf, Safe, NoNegatives, Lossy, CanBeUnsafeAt, ActedExactly, CallAt;
    assert NestedCall(env, Image(active[i], p)).None?;
    StepIsProcessed(env, call, p, i, active, later, t, active', later', t');
  }

  /** At index i of n states, the item takes too much, and the last state is not its own. */
  ghost predicate TakesAnother(env: Env, c: Config, i: nat, n: nat)
    requires ValidEnv(env) && c.off in env.code.items && 0 <= c.pos <= |env.subject|
  {
    TooMuch(env, c) && i + 1 < n
  }

  lemma NotSpacious(env: Env, call: Call, capacity: nat, p: int, i: nat,
                    active: seq<Block>, later: seq<Block>, t: Trail)
    requires ValidEnv(env) && i <= |active| && t.failed
    ensures Spacious(env, call, capacity, p, i, active, later, t)
  {
  }

  /** Process every state of the active list, including those that the processing adds. */
  method ScanPosition(env: Env, ghost call: Call, open: int, som: int, start: int, p: int, chain: set<(int, int)>,
                      lists: StateLists,
                      offsets: array<int>, offsetcount: int, matchCount: int, ghost t: Trail)
    returns (rc: int, count: int, ghost t': Trail)
    requires call.open == open && call.som == som
    requires ValidEnv(env) && call.open in env.code.brackets && lists.Valid()
    requires chain <= AllPairs(|env.subject|)
    requires 0 <= start <= p <= |env.subject|
    requires Progress(env, call, start, p, 0, lists.active, lists.later, t) && Warned(env, call, chain, t)
    requires Spacious(env, call, lists.capacity, p, 0, lists.active, lists.later, t)
    requires offsets != lists.workspace && 0 <= offsetcount <= offsets.Length
    requires Recorded(offsets[..], offsetcount, matchCount, start, t.ends)
    modifies lists`activeCount, lists`active, lists`newCount, lists`later, lists.workspace, offsets
    ensures lists.Valid()
    ensures lists.workspace[0] == old(lists.workspace[0]) && lists.workspace[1] == old(lists.workspace[1])
    ensures Ended(env, call, chain, lists.capacity, rc, t')
    ensures rc == OK ==>
              && Progress(env, call, start, p, lists.activeCount, lists.active, lists.later, t')
              && Spacious(env, call, lists.capacity, p, lists.activeCount, lists.active, lists.later, t')
              && Recorded(offsets[..], offsetcount, count, start, t'.ends)
              && Onward(p, t, t')
              && (KeepsActive(env, p) ==> old(Images(lists.active, p)) <= Images(lists.active, p))
              && (PlainIn(env.code, call.open) ==>
                    Goes(env, call, p, old(PassOf(p, lists.active, lists.later, t)),
                         PassOf(p, lists.active, lists.later, t')))
    ensures rc != OK && PlainIn(env.code, call.open) ==>
              var s := old(PassOf(p, lists.active, lists.later, t));
              exists i: nat :: Overflows(env, call, lists.capacity, p, i, After(env, call, p, s, i))
    decreases AllPairs(|env.subject|) - chain, Size(env, call.open), 4
  {
    hide ValidEnv, StateLists.Holds, Progress, Spacious, Recorded, Warned, KeepsActive, Meaningless, CanFail, Processed,
         PlainIn, Overflows;
    ghost var entered := PassOf(p, lists.active, lists.later, t);
    count, t' := matchCount, t;
    var i := 0;
    while i < lists.activeCount
      invariant lists.Valid() && 0 <= i <= lists.activeCount + 1
      invariant lists.workspace[0] == old(lists.workspace[0]) && lists.workspace[1] == old(lists.workspace[1])
      invariant Progress(env, call, start, p, AtMost(i, lists.activeCount), lists.active, lists.later, t')
      invariant Spacious(env, call, lists.capacity, p, AtMost(i, lists.activeCount), lists.active, lists.later, t')
      invariant Recorded(offsets[..], offsetcount, count, start, t'.ends)
      invariant Warned(env, call, chain, t') && Onward(p, t, t')
      invariant KeepsActive(env, p) ==> old(Images(lists.active, p)) <= Images(lists.active, p)
      invariant PlainIn(env.code, call.open) ==>
                  PassOf(p, lists.active, lists.later, t') == After(env, call, p, entered, i)
      decreases lists.capacity + 1 - i
    {
      ghost var before := t';
      rc, count, t' := ProcessState(env, call, open, som, start, p, i, chain, lists, offsets, offsetcount, count, t');
      if rc != OK { return; }
      FurtherOnward(p, t, before, t');
      i := i + 1;
    }
    SettledEnds(env, call, chain, lists.capacity, OK, t');
    return OK, count, t';
  }

  lemma FurtherOnward(p: int, a: Trail, b: Trail, c: Trail)
    requires Onward(p, a, b) && Onward(p, b, c)
    ensures Onward(p, a, c)
  {
  }

  function AtMost(i: nat, n: nat): nat {
    if i <= n then i else n
  }

  // ---------------------------------------------------------------- scanning the subject

  /**
   * What a call answers. The flag says whether something has gone wrong: a nested call made for an assertion has
   * failed, or a possessive range has taken another state back, in this call or in a nested one. That happens only if
   * the call can be unsafe. If it has not, success means that the ends are those of the call; an unsupported item,
   * that the call has no meaning; another error, that the call fails. Without possessive repeats, success also means
   * that the call does not fail and is not unsafe. Without negative assertions the ends found are ends of the call,
   * whatever goes wrong.
   */
  ghost predicate Answered(env: Env, call: Call, chain: set<(int, int)>, capacity: nat, rc: int, depth: nat,
                           ends: seq<int>, stop: int, failed: bool)
    requires ValidEnv(env)
  {
    && (rc >= PCRE_ERROR_NOMATCH || IsError(rc))
    && (NoNegatives(env.code) && rc >= PCRE_ERROR_NOMATCH ==> OnlyEnds(env, call, ends))
    && (failed ==> CanBeUnsafe(env, call, chain))
    && (!failed ==>
          && (rc >= PCRE_ERROR_NOMATCH ==>
                Inlined(env, depth + 1)(call) == Some(ends) && GoesNoFurther(env, depth, call, stop))
          && (rc == PCRE_ERROR_DFA_UITEM ==> Meaningless(env, call))
          && (rc < PCRE_ERROR_NOMATCH && rc != PCRE_ERROR_DFA_UITEM ==> CanFail(env, call, chain, capacity))
          && (rc >= PCRE_ERROR_NOMATCH && NoPossessive(env.code) ==>
                !CanFail(env, call, chain, capacity) && !CanBeUnsafe(env, call, chain)))
  }

  /** Scan the subject from start on: the bracket's matches are recorded, the longest first. */
  method Scan(env: Env, ghost call: Call, open: int, som: int, start: int, chain: set<(int, int)>, lists: StateLists,
              offsets: array<int>, offsetcount: int)
    returns (rc: int, ghost depth: nat, ghost ends: seq<int>, stop: int, ghost failed: bool)
    requires call.open == open && call.som == som
    requires ValidEnv(env) && call.open in env.code.brackets && lists.Valid()
    requires lists.ParityNamesActive()
    requires chain <= AllPairs(|env.subject|)
    requires 0 <= start <= |env.subject|
    requires Images(lists.later, start) == call.init && AllInside(env, call.open, call.init, start)
    requires offsets != lists.workspace && 0 <= offsetcount <= offsets.Length
    modifies lists, lists.workspace, offsets
    ensures Answered(env, call, chain, lists.capacity, rc, depth, ends, stop, failed)
    ensures rc >= PCRE_ERROR_NOMATCH ==>
              && Recorded(offsets[..], offsetcount, rc, start, ends)
              && (forall q <- ends :: start <= q <= stop)
              && HandsOver(lists.workspace[..], lists.capacity)
              && start <= stop <= |env.subject|
              && Leaves(env, call, SavedBlocks(lists.workspace[..], lists.capacity), depth, stop, failed)
              && (PlainIn(env.code, open) ==> Runs(env, call, start, stop, ends, failed))
    ensures rc < PCRE_ERROR_NOMATCH && PlainIn(env.code, call.open) ==> RunsOut(env, call, start, lists.capacity)
    decreases AllPairs(|env.subject|) - chain, Size(env, call.open), 5
  {
    hide ValidEnv, StateLists.Holds, Progress, Spacious, Ready, Recorded, Warned, KeepsActive, Meaningless,
         CanFail, Answered, Leaves, AllInside, Enters, Goes, PlainIn, Overflows, After;
    var count, p := PCRE_ERROR_NOMATCH, start;
    ghost var t := Trail({}, [], 0, false);
    depth, ends, stop, failed := 0, [], p, false;
    ReadyAtStart(env, call, start, lists.later);
    SpaciousAtStart(env, call, lists.capacity, start, lists.later);
    NothingRecorded(offsets[..], offsetcount, start);
    WarnedAtStart(env, call, chain);
    EntersFirst(env, call, start, lists.later);
    while true
      invariant lists.Valid() && lists.ParityNamesActive() && start <= p <= |env.subject|
      invariant Ready(env, call, start, p, lists.later, t)
      invariant Spacious(env, call, lists.capacity, p, 0, lists.later, [], t)
      invariant Recorded(offsets[..], offsetcount, count, start, t.ends) && Warned(env, call, chain, t)
      invariant PlainIn(env.code, call.open) ==> Enters(env, call, start, p, PassOf(p, lists.later, [], t))
      decreases |env.subject| - p
    {
      lists.Swap();
      ghost var entry, before := lists.active, t;
      ReadyIsProgress(env, call, start, p, lists.active, t);
      rc, count, t := ScanPosition(env, call, open, som, start, p, chain, lists, offsets, offsetcount, count, t);
      if rc != OK {
        failed := t.failed;
        ErrorIsAnswer(env, call, chain, lists.capacity, rc, depth, ends, stop, t);
        return;
      }
      ProgressIsReady(env, call, start, p, lists.active, lists.later, t);
      SpaciousNext(env, call, lists.capacity, p, lists.active, lists.later, t);
      if lists.newCount <= 0 {
        assert lists.later == [];
        RecordedCount(offsets[..], offsetcount, count, start, t.ends);
        FinishedIsAnswer(env, call, start, chain, lists.capacity, count, p, t);
        lists.HandsOn();
        ghost var saved := SavedBlocks(lists.workspace[..], lists.capacity);
        if KeepsActive(env, p) {
          lists.SavedAreActive();
          assert Images(saved, p) == Images(entry, p);
        }
        LeavesEntry(env, call, start, lists.capacity, p, entry, before, t, saved);
        assert Images([], p + 1) == [];
        depth, ends, stop, failed := t.depth, t.ends, p, t.failed;
        return count, depth, ends, stop, failed;
      }
      if PlainIn(env.code, call.open) {
        EntersNext(env, call, start, p, entry, before, lists.active, lists.later, t);
      }
      p := p + 1;
    }
  }

  lemma EntersFirst(env: Env, call: Call, start: int, later: seq<Block>)
    requires ValidEnv(env) && call.open in env.code.brackets && Images(later, start) == call.init
    ensures Enters(env, call, start, start, PassOf(start, later, [], Trail({}, [], 0, false)))
  {
    assert Images([], start + 1) == [];
  }

  lemma EntersNext(env: Env, call: Call, start: int, p: int, entry: seq<Block>, t: Trail,
                   active: seq<Block>, later: seq<Block>, t': Trail)
    requires ValidEnv(env) && call.open in env.code.brackets && start <= p && later != []
    requires Enters(env, call, start, p, PassOf(p, entry, [], t))
    requires Goes(env, call, p, PassOf(p, entry, [], t), PassOf(p, active, later, t'))
    ensures Enters(env, call, start, p + 1, PassOf(p + 1, later, [], t'))
  {
    hide ValidEnv, Goes;
    assert Images([], p + 2) == [];
    assert Images(later, p + 1) != [];
  }

  lemma NothingRecorded(offsets: seq<int>, offsetcount: int, start: int)
    requires 0 <= offsetcount <= |offsets|
    ensures Recorded(offsets, offsetcount, PCRE_ERROR_NOMATCH, start, [])
  {
  }

  lemma RecordedCount(offsets: seq<int>, offsetcount: int, rc: int, start: int, ends: seq<int>)
    requires Recorded(offsets, offsetcount, rc, start, ends)
    ensures rc >= PCRE_ERROR_NOMATCH && (rc == PCRE_ERROR_NOMATCH <==> ends == [])
  {
  }

  lemma WarnedAtStart(env: Env, call: Call, chain: set<(int, int)>)
    requires ValidEnv(env)
    ensures Warned(env, call, chain, Trail({}, [], 0, false))
  {
  }

  lemma ErrorIsAnswer(env: Env, call: Call, chain: set<(int, int)>, capacity: nat, rc: int, depth: nat, ends: seq<int>,
                      stop: int, t: Trail)
    requires ValidEnv(env) && rc != OK && Ended(env, call, chain, capacity, rc, t)
    ensures Answered(env, call, chain, capacity, rc, depth, ends, stop, t.failed)
  {
    hide ValidEnv, Meaningless, CanFail, CanBeUnsafe, NoPossessive, NoNegatives, AllSafe;
  }

  lemma FinishedIsAnswer(env: Env, call: Call, start: int, chain: set<(int, int)>, capacity: nat, rc: int, p: int,
                         t: Trail)
    requires ValidEnv(env) && call.open in env.code.brackets && 0 <= start <= p <= |env.subject|
    requires Ready(env, call, start, p + 1, [], t) && Spacious(env, call, capacity, p + 1, 0, [], [], t)
    requires Warned(env, call, chain, t) && rc >= PCRE_ERROR_NOMATCH
    ensures Answered(env, call, chain, capacity, rc, t.depth, t.ends, p, t.failed)
    ensures forall q <- t.ends :: start <= q <= p
  {
    hide ValidEnv, Ready, Spacious, Meaningless, CanFail, CanBeUnsafe, NoPossessive, NoNegatives, AllSafe,
         OnlyEnds, GoesNoFurther, Inlined, Reached, Defined, Crowded;
    FinishedIsMeaning(env, call, start, p + 1, t);
    if !t.failed && NoPossessive(env.code) {
      SpaciousAtEnd(env, call, capacity, p + 1, t);
      SafeCannotFail(env, t.depth, call, chain, capacity, t.done);
    }
  }

  /** What the vector hands over: states inside the bracket, where runs of the call arrive; at the end of the subject
      just those; and few when the bound on the call applies. */
  ghost predicate Leaves(env: Env, call: Call, saved: seq<Block>, depth: nat, stop: int, failed: bool)
    requires ValidEnv(env) && call.open in env.code.brackets
  {
    && (KeepsActive(env, stop) ==>
          && AllInside(env, call.open, Images(saved, stop), stop)
          && (NoNegatives(env.code) ==> OnlyArriving(env, call, set c | c in Images(saved, stop))))
    && (!failed && KeepsActive(env, stop) ==>
          && (stop == |env.subject| ==>
                forall c :: c in Images(saved, stop) <==> Arrives(env, Inlined(env, depth), call, stop, c))
          && (Bounded(env, call) ==> IsFew(env, call, Images(saved, stop))))
  }

  lemma LeavesEntry(env: Env, call: Call, start: int, capacity: nat, p: int, entry: seq<Block>, t: Trail, t': Trail,
                    saved: seq<Block>)
    requires ValidEnv(env) && call.open in env.code.brackets && start <= p <= |env.subject|
    requires Ready(env, call, start, p, entry, t) && Ready(env, call, start, p + 1, [], t')
    requires Spacious(env, call, capacity, p, 0, entry, [], t) && Onward(p, t, t')
    requires KeepsActive(env, p) ==> Images(saved, p) == Images(entry, p)
    ensures Leaves(env, call, saved, t'.depth, p, t'.failed)
  {
    hide ValidEnv, Ready, Spacious, AllInside, Arrives, Inlined, Bounded, IsFew, NoNegatives, OnlyArriving;
    EntryIsInside(env, call, start, p, entry, t);
    EntryArrives(env, call, start, p, entry, t);
    if !t'.failed {
      if p == |env.subject| { EntryIsArrivals(env, call, start, p, entry, t, t'); }
      if Bounded(env, call) { EntryIsFew(env, call, start, capacity, p, entry, t); }
    }
  }

  lemma EntryArrives(env: Env, call: Call, start: int, p: int, entry: seq<Block>, t: Trail)
    requires ValidEnv(env) && call.open in env.code.brackets && Ready(env, call, start, p, entry, t)
    ensures NoNegatives(env.code) ==> OnlyArriving(env, call, set c | c in Images(entry, p))
  {
    hide ValidEnv, OnlyArriving, OnlyReached, Covers, NoNegatives;
  }

  lemma EntryIsFew(env: Env, call: Call, start: int, capacity: nat, p: int, entry: seq<Block>, t: Trail)
    requires ValidEnv(env) && call.open in env.code.brackets && Bounded(env, call) && !t.failed
    requires Ready(env, call, start, p, entry, t) && Spacious(env, call, capacity, p, 0, entry, [], t)
    ensures IsFew(env, call, Images(entry, p))
  {
    hide ValidEnv, Progress, Spacious, AllInside, Inlined, Bounded, IsFew, Packed, Covers, Reached;
    ReadyIsProgress(env, call, start, p, entry, t);
    SpaciousDeeper(env, call, start, capacity, p, 0, entry, [], t, t.depth);
    assert Images(entry, p)[0..] == Images(entry, p) && Images([], p + 1) == [];
    EnteredWithFew(env, Inlined(env, t.depth), call, capacity, p, Images(entry, p), t.done);
  }

  /** Match the bracket at open from position p. */
  method InternalDfaExec(env: Env, open: int, som: int, p: int, chain: set<(int, int)>, offsets: array<int>,
                         offsetcount: int,
                         workspace: array<int>, wscount: int)
    returns (rc: int, ghost depth: nat, ghost ends: seq<int>, ghost start: int, stop: int, ghost failed: bool)
    requires ValidEnv(env) && open in env.code.brackets && 0 <= p <= |env.subject|
    requires chain <= AllPairs(|env.subject|)
    requires 0 <= offsetcount <= offsets.Length && 20 <= wscount <= workspace.Length && offsets != workspace
    modifies offsets, workspace
    ensures Answered(env, CallAt(env, open, p).(som := som), chain, Capacity(wscount), rc, depth, ends, stop, failed)
    ensures |CallAt(env, open, p).init| > Capacity(wscount) ==> rc == PCRE_ERROR_DFA_WSSIZE
    ensures !failed && rc >= PCRE_ERROR_NOMATCH && MovesOn(env.code) ==>
              PathsEndAt(env, depth, Task(open, som, p), ends)
    ensures 0 <= start <= p && (!env.code.brackets[open].behind ==> start == p)
    ensures rc < PCRE_ERROR_NOMATCH && PlainIn(env.code, open) && |CallAt(env, open, p).init| <= Capacity(wscount) ==>
              RunsOut(env, CallAt(env, open, p).(som := som), start, Capacity(wscount))
    ensures rc >= PCRE_ERROR_NOMATCH ==>
              && Recorded(offsets[..], offsetcount, rc, start, ends)
              && start <= stop <= |env.subject| && (forall q <- ends :: start <= q <= stop)
              && HandsOver(workspace[..], Capacity(wscount))
              && Leaves(env, CallAt(env, open, p).(som := som), SavedBlocks(workspace[..], Capacity(wscount)), depth,
                        stop, failed)
              && (PlainIn(env.code, open) ==> Runs(env, CallAt(env, open, p).(som := som), start, stop, ends, failed))
    ensures NoMinimums(env.code) && Contained(env) ==> !failed
    ensures !failed && Fits(env, open, Capacity(wscount)) ==> rc >= PCRE_ERROR_NOMATCH || rc == PCRE_ERROR_DFA_UITEM
    decreases AllPairs(|env.subject|) - chain, Size(env, open), 6
  {
    hide ValidEnv, StateLists.Holds, Meaningless, CanFail, Answered, Leaves, AllInside, Recorded, Contained, Fits,
         NoMinimums, Runs, RunsOut, PlainIn, MovesOn, PathsEndAt;
    depth, ends, stop, failed := 0, [], 0, false;
    workspace[0] := 0;
    var lists := new StateLists(workspace, wscount);
    var first: int;
    rc, first := StartLists(env, open, p, lists);
    start := first;
    ghost var call := CallAt(env, open, p).(som := som);
    if rc != OK {
      NoStart(env, call, chain, lists.capacity, first, depth, ends, stop);
    } else {
      rc, depth, ends, stop, failed := Scan(env, call, open, som, first, chain, lists, offsets, offsetcount);
    }
    AnswerOfContained(env, open, som, p, chain, Capacity(wscount), rc, depth, ends, stop, failed);
    AnswerIsPaths(env, Task(open, som, p), chain, Capacity(wscount), rc, depth, ends, stop, failed);
  }

  /** The ends that the matcher finds are those of the paths through the bracket. */
  lemma AnswerIsPaths(env: Env, task: Task, chain: set<(int, int)>, capacity: nat, rc: int, depth: nat, ends: seq<int>,
                      stop: int, failed: bool)
    requires ValidEnv(env) && task.open in env.code.brackets
    requires Answered(env, CallOf(env, task), chain, capacity, rc, depth, ends, stop, failed)
    ensures !failed && rc >= PCRE_ERROR_NOMATCH && MovesOn(env.code) ==> PathsEndAt(env, depth, task, ends)
  {
    hide ValidEnv, MovesOn, PathsEndAt, CallAt, Inlined, CanFail, CanBeUnsafe, Meaningless, OnlyEnds, GoesNoFurther,
         NoNegatives, NoPossessive;
    if !failed && rc >= PCRE_ERROR_NOMATCH && MovesOn(env.code) {
      ValueIsPaths(env, depth, task, ends);
    }
  }

  /** The starts do not fit into the list. */
  lemma NoStart(env: Env, call: Call, chain: set<(int, int)>, capacity: nat, start: int, depth: nat, ends: seq<int>,
                stop: int)
    requires ValidEnv(env) && call.open in env.code.brackets && |call.init| > capacity
    requires AllInside(env, call.open, call.init, start)
    ensures Answered(env, call, chain, capacity, PCRE_ERROR_DFA_WSSIZE, depth, ends, stop, false)
  {
    StartsAreCrowded(env, call, capacity, start);
    hide ValidEnv, AllInside, Crowded;
    CrowdedFails(env, call, chain, capacity);
  }

  /** In a program whose assertions are contained nothing goes wrong, and what has room does not fail. */
  lemma AnswerOfContained(env: Env, open: int, som: int, p: int, chain: set<(int, int)>, capacity: nat, rc: int,
                          depth: nat, ends: seq<int>, stop: int, failed: bool)
    requires ValidEnv(env) && open in env.code.brackets && 0 <= p <= |env.subject|
    requires Answered(env, CallAt(env, open, p).(som := som), chain, capacity, rc, depth, ends, stop, failed)
    ensures NoMinimums(env.code) && Contained(env) ==> !failed
    ensures !failed && Fits(env, open, capacity) ==> rc >= PCRE_ERROR_NOMATCH || rc == PCRE_ERROR_DFA_UITEM
  {
    hide ValidEnv, Contained, Fits, NoMinimums, NoNegatives, NoPossessive, CanFail, CanBeUnsafe, Meaningless, OnlyEnds,
         GoesNoFurther, Inlined;
    if NoMinimums(env.code) && Contained(env) {
      ContainedCannotBeUnsafe(env, CallAt(env, open, p).(som := som), chain);
    }
    if Fits(env, open, capacity) { FitsCannotFail(env, open, som, p, chain, capacity); }
  }

  /** PCRE_DFA_RESTART: carry on from the states that an earlier call left in the vector. */
  method InternalDfaRestart(env: Env, som: int, p: int, offsets: array<int>, offsetcount: int,
                            workspace: array<int>, wscount: int)
    returns (rc: int, ghost depth: nat, ghost ends: seq<int>, stop: int, ghost failed: bool)
    requires ValidEnv(env) && 0 in env.code.brackets && 0 <= p <= |env.subject|
    requires 0 <= offsetcount <= offsets.Length && 20 <= wscount <= workspace.Length && offsets != workspace
    requires HandsOver(workspace[..], Capacity(wscount))
    requires AllInside(env, 0, Images(SavedBlocks(workspace[..], Capacity(wscount)), p), p)
    modifies offsets, workspace
    ensures rc >= PCRE_ERROR_NOMATCH ==> Recorded(offsets[..], offsetcount, rc, p, ends)
    ensures Answered(env, Call(0, som, old(Images(SavedBlocks(workspace[..], Capacity(wscount)), p))), {},
                     Capacity(wscount), rc, depth, ends, stop, failed)
  {
    hide ValidEnv, StateLists.Holds, Answered, Leaves, AllInside, Recorded;
    var lists := new StateLists(workspace, wscount);
    lists.Restore();
    ghost var call := Call(0, som, Images(lists.later, p));
    rc, depth, ends, stop, failed := Scan(env, call, 0, som, p, {}, lists, offsets, offsetcount);
  }
}
