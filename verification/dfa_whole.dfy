/** From a pattern to the matcher's answer: the bytes of the pattern, decoded and matched, give what it matches. */
module DfaWhole {
  import opened Basics
  import opened DfaSemantics
  import opened DfaStates
  import opened DfaCoverage
  import opened DfaCrowd
  import opened DfaActions
  import opened DfaProgress
  import opened DfaRoom
  import opened DfaRun
  import opened DfaPaths
  import opened DfaPattern
  import opened DfaValid
  import opened DfaLanguage
  import opened DfaMatcher
  import opened DfaExec
  import opened DfaRestart

  /** All that the pattern matches from p on. */
  ghost predicate AreMatches(env: Env, som: int, c: Choice, p: int, ends: seq<int>) {
    Ascending(ends) && forall q :: q in ends <==> ChoiceMatches(env, som, c, p, q)
  }

  lemma CompiledIsPlain(c: Choice)
    requires ChoiceOk(c) && Is16(KetOf(c))
    ensures Plain(CompiledCode(c)) && MovesOn(CompiledCode(c))
  {
    DecodedGoesOn(ProgramBytes(c), ProgramOffsets(c));
    CompiledItems(c);
    hide CompiledCode, ItemFits, Just;
  }

  /** What a call of the program means is what the pattern matches. */
  lemma ValueIsMatches(env: Env, k: nat, c: Choice, som: int, p: int, ends: seq<int>)
    requires ChoiceOk(c) && Is16(KetOf(c)) && env.code == CompiledCode(c) && ValidEnv(env) && FullTables(env.tables)
    requires 0 <= p <= |env.subject| && 0 in env.code.brackets
    requires Inlined(env, k + 1)(CallOf(env, Task(0, som, p))) == Some(ends)
    ensures AreMatches(env, som, c, p, ends)
  {
    hide ValidEnv, CompiledCode, Ascending, OnPath, ChoiceMatches, KetOf, MovesOn, Inlined, CallAt;
    var task, w := Task(0, som, p), World(env, Inlined(env, k), som);
    CompiledIsPlain(c);
    ValueIsPaths(env, k, task, ends);
    forall q ensures q in ends <==> ChoiceMatches(env, som, c, p, q) {
      PathsMatch(w, c, task, q);
    }
  }

  /** The matcher on the program of a pattern. */
  method MatchPattern(c: Choice, subject: seq<byte>, options: Options, newline: byte, tables: Tables, som: int, p: int,
                      offsets: array<int>, offsetcount: int, workspace: array<int>, wscount: int)
    returns (rc: int, ghost ends: seq<int>, ghost failed: bool)
    requires ChoiceOk(c) && Is16(KetOf(c)) && FullTables(tables) && 0 <= p <= |subject|
    requires 0 <= offsetcount <= offsets.Length && 20 <= wscount <= workspace.Length && offsets != workspace
    modifies offsets, workspace
    ensures var env := Env(CompiledCode(c), subject, options, newline, tables);
            && ValidEnv(env) && 0 in env.code.brackets
            && (rc >= PCRE_ERROR_NOMATCH || IsError(rc))
            && (!failed && rc >= PCRE_ERROR_NOMATCH ==>
                  Recorded(offsets[..], offsetcount, rc, p, ends) && AreMatches(env, som, c, p, ends))
            && (NoMinimums(env.code) ==> !failed)
            && (!failed && Fits(env, 0, Capacity(wscount)) ==> rc >= PCRE_ERROR_NOMATCH)
  {
    hide ValidEnv, CompiledCode, Recorded, NoMinimums, Fits, AreMatches, Answered, Leaves, HandsOver, KetOf;
    var env := Env(CompiledCode(c), subject, options, newline, tables);
    CompiledIsValid(env, c);
    WholeIsABracket(env);
    ghost var depth, start;
    var stop: int;
    rc, depth, ends, start, stop, failed :=
      InternalDfaExec(env, 0, som, p, {}, offsets, offsetcount, workspace, wscount);
    AnswerIsMatches(env, c, som, p, Capacity(wscount), rc, depth, ends, stop, failed);
  }

  /** What the answer of a plain program says. */
  lemma PlainAnswer(env: Env, som: int, p: int, capacity: nat, rc: int, depth: nat, ends: seq<int>, stop: int,
                    failed: bool)
    requires ValidEnv(env) && Plain(env.code) && 0 <= p <= |env.subject| && 0 in env.code.brackets
    requires Answered(env, CallOf(env, Task(0, som, p)), {}, capacity, rc, depth, ends, stop, failed)
    ensures rc >= PCRE_ERROR_NOMATCH || IsError(rc)
    ensures NoMinimums(env.code) ==> !failed
    ensures !failed ==> rc != PCRE_ERROR_DFA_UITEM
    ensures !failed && rc >= PCRE_ERROR_NOMATCH ==>
              Inlined(env, depth + 1)(CallOf(env, Task(0, som, p))) == Some(ends)
  {
    hide ValidEnv, NoMinimums, Plain, OnlyEnds, Roomy, Inlined, AllInside, Answered, GoesNoFurther;
    StartsInside(env, som, p);
    PlainIsAnswered(env, CallOf(env, Task(0, som, p)), capacity, rc, depth, ends, stop, failed);
  }

  lemma AnswerIsMatches(env: Env, c: Choice, som: int, p: int, capacity: nat, rc: int, depth: nat, ends: seq<int>,
                        stop: int, failed: bool)
    requires ChoiceOk(c) && Is16(KetOf(c)) && env.code == CompiledCode(c) && ValidEnv(env) && FullTables(env.tables)
    requires 0 <= p <= |env.subject| && 0 in env.code.brackets
    requires Answered(env, CallOf(env, Task(0, som, p)), {}, capacity, rc, depth, ends, stop, failed)
    ensures rc >= PCRE_ERROR_NOMATCH || IsError(rc)
    ensures !failed && rc >= PCRE_ERROR_NOMATCH ==> AreMatches(env, som, c, p, ends)
    ensures NoMinimums(env.code) ==> !failed
    ensures !failed ==> rc != PCRE_ERROR_DFA_UITEM
  {
    hide CompiledCode, NoMinimums, AreMatches, Plain, MovesOn, KetOf, ValidEnv, Inlined, CallOf, Answered;
    CompiledIsPlain(c);
    PlainAnswer(env, som, p, capacity, rc, depth, ends, stop, failed);
    if !failed && rc >= PCRE_ERROR_NOMATCH { ValueIsMatches(env, depth, c, som, p, ends); }
  }

  // ---------------------------------------------------------------- searching

  /** The pattern matches some text that begins at s. */
  ghost predicate MatchesFrom(env: Env, som: int, c: Choice, s: int) {
    exists q :: ChoiceMatches(env, som, c, s, q)
  }

  /** A start position at which the program matches is one from which the pattern does. */
  lemma MatchesIsPattern(env: Env, c: Choice, som: int, s: int)
    requires ChoiceOk(c) && Is16(KetOf(c)) && env.code == CompiledCode(c) && ValidEnv(env) && FullTables(env.tables)
    requires 0 <= s <= |env.subject|
    ensures Matches(env, som, s) <==> MatchesFrom(env, som, c, s)
  {
    hide CompiledCode, ValidEnv, Inlined, Start, ChoiceMatches, Plain, KetOf, AllInside, MovesOn;
    WholeIsABracket(env);
    CompiledIsPlain(c);
    StartsInside(env, som, s);
    var call := CallOf(env, Task(0, som, s));
    PlainCallsHaveAMeaning(env, call);
    var all := Inlined(env, 1)(call).value;
    ValueIsMatches(env, 0, c, som, s, all);
    assert Means(env, call, all);
    forall ends: seq<int> | Means(env, call, ends) ensures ends == all {
      MeaningIsUnique(env, call, ends, all);
    }
    assert call == TopCall(env, som, s);
    if all != [] {
      assert all[0] in all && ChoiceMatches(env, som, c, s, all[0]);
    } else {
      forall q ensures !ChoiceMatches(env, som, c, s, q) {
        assert q !in all;
      }
    }
  }

  /** No candidate before limit is one from which the pattern matches. */
  ghost predicate NoneMatchesBefore(env: Env, hints: Hints, som: int, c: Choice, limit: int) {
    forall s :: Candidate(env, hints, som, s) && s < limit ==> !MatchesFrom(env, som, c, s)
  }

  /** The leftmost candidate from which the pattern matches, with all that it matches there; or that there is none. */
  ghost predicate IsLeftmost(env: Env, hints: Hints, som: int, c: Choice, rc: int, start: int, ends: seq<int>) {
    && (rc >= 0 ==>
          && Candidate(env, hints, som, start) && ends != [] && AreMatches(env, som, c, start, ends)
          && NoneMatchesBefore(env, hints, som, c, start))
    && (rc == PCRE_ERROR_NOMATCH ==> NoneMatchesBefore(env, hints, som, c, |env.subject| + 1))
  }

  lemma SearchedIsLeftmost(env: Env, hints: Hints, c: Choice, som: int, capacity: nat, rc: int, start: int,
                           ends: seq<int>)
    requires ChoiceOk(c) && Is16(KetOf(c)) && env.code == CompiledCode(c) && ValidEnv(env) && FullTables(env.tables)
    requires 0 <= som && Searched(env, hints, som, capacity, rc, start, ends, false)
    ensures IsLeftmost(env, hints, som, c, rc, start, ends)
  {
    hide CompiledCode, ValidEnv, Inlined, CallAt, KetOf, AreMatches, MatchesFrom, Matches, OnlyEnds, CanFail,
         Meaningless;
    WholeIsABracket(env);
    forall s | Candidate(env, hints, som, s) ensures Matches(env, som, s) <==> MatchesFrom(env, som, c, s) {
      MatchesIsPattern(env, c, som, s);
    }
    if rc >= 0 {
      var k: nat :| Inlined(env, k)(CallOf(env, Task(0, som, start))) == Some(ends);
      DeeperIsKnown(env, k, CallOf(env, Task(0, som, start)), ends);
      ValueIsMatches(env, k, c, som, start, ends);
    }
  }

  lemma DeeperIsKnown(env: Env, k: nat, call: Call, ends: seq<int>)
    requires ValidEnv(env) && Inlined(env, k)(call) == Some(ends)
    ensures Inlined(env, k + 1)(call) == Some(ends)
  {
    hide ValidEnv, Inlined;
    InliningIsMonotonic(env, k, k + 1);
  }

  /** pcre_dfa_exec on the program of a pattern. */
  method SearchPattern(c: Choice, subject: seq<byte>, options: Options, newline: byte, tables: Tables, hints: Hints,
                       startOffset: int, offsets: array<int>, offsetcount: int, workspace: array<int>, wscount: int)
    returns (rc: int, ghost start: int, ghost ends: seq<int>, ghost failed: bool)
    requires ChoiceOk(c) && Is16(KetOf(c)) && FullTables(tables)
    requires var env := Env(CompiledCode(c), subject, options, newline, tables);
             ValidEnv(env) ==> Sound(env, hints, startOffset)
    requires 0 <= startOffset <= |subject| && 0 <= offsetcount <= offsets.Length
    requires 20 <= wscount <= workspace.Length && offsets != workspace
    modifies offsets, workspace
    ensures var env := Env(CompiledCode(c), subject, options, newline, tables);
            && ValidEnv(env) && 0 in env.code.brackets && (rc >= PCRE_ERROR_NOMATCH || IsError(rc))
            && (!failed ==> IsLeftmost(env, hints, startOffset, c, rc, start, ends))
            && (rc >= 0 ==> Recorded(offsets[..], offsetcount, rc, start, ends))
            && (NoMinimums(env.code) ==> !failed)
            && (!failed && Fits(env, 0, Capacity(wscount)) ==> rc >= PCRE_ERROR_NOMATCH)
  {
    hide ValidEnv, CompiledCode, Recorded, NoMinimums, Fits, KetOf, Sound, IsLeftmost, Searched, Contained, Plain;
    var env := Env(CompiledCode(c), subject, options, newline, tables);
    CompiledIsValid(env, c);
    CompiledIsPlain(c);
    WholeIsABracket(env);
    NothingNested(env);
    rc, start, ends, failed := PcreDfaExec(env, hints, startOffset, offsets, offsetcount, workspace, wscount);
    SearchedIsError(env, hints, startOffset, Capacity(wscount), rc, start, ends, failed);
    if !failed {
      SearchedIsLeftmost(env, hints, c, startOffset, Capacity(wscount), rc, start, ends);
      SearchedIsMeant(env, hints, startOffset, Capacity(wscount), rc, start, ends);
    }
  }

  /** A plain program has no unsupported item. */
  lemma SearchedIsMeant(env: Env, hints: Hints, som: int, capacity: nat, rc: int, start: int, ends: seq<int>)
    requires ValidEnv(env) && Plain(env.code) && 0 <= start <= |env.subject|
    requires Searched(env, hints, som, capacity, rc, start, ends, false)
    ensures rc != PCRE_ERROR_DFA_UITEM
  {
    hide ValidEnv, Plain, Inlined, AllInside, Candidate, OnlyEnds, CanFail, NoneBefore, Means, NoNegatives;
    WholeIsABracket(env);
    StartsInside(env, som, start);
    PlainCallsHaveAMeaning(env, TopCall(env, som, start));
  }

  lemma SearchedIsError(env: Env, hints: Hints, som: int, capacity: nat, rc: int, start: int, ends: seq<int>,
                        failed: bool)
    requires ValidEnv(env) && Searched(env, hints, som, capacity, rc, start, ends, failed)
    ensures rc >= PCRE_ERROR_NOMATCH || IsError(rc)
  {
  }
}
