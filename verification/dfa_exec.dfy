/** The outer function: it tries start positions from left to right, skipping those that facts known
    about the pattern rule out. Skipping never changes the answer. */
module DfaExec {
  import opened Basics
  import opened DfaSemantics
  import opened DfaStates
  import opened DfaCoverage
  import opened DfaCrowd
  import opened DfaRoom
  import opened DfaActions
  import opened DfaProgress
  import opened DfaMatcher

  const PCRE_ERROR_BADCOUNT := -15
  const PCRE_ERROR_BADOFFSET := -24
  const REQ_BYTE_MAX := 1000

  /** What compiling and studying recorded about a pattern; characters come with their other case. */
  datatype Hints = Hints(
    anchored: bool,
    firstLine: bool,
    startLine: bool,
    noStartOptimize: bool,
    firstChar: Option<(byte, byte)>,
    startBits: Option<seq<bool>>,
    reqChar: Option<(byte, byte)>,
    minLength: Option<nat>)

  predicate IsOneOf(c: byte, pair: (byte, byte)) {
    c == pair.0 || c == pair.1
  }

  /** The call of the whole pattern from start position s. */
  function TopCall(env: Env, som: int, s: int): Call
    requires 0 in env.code.brackets
  {
    CallAt(env, 0, s).(som := som)
  }

  /** The pattern matches somewhere from start position s. */
  ghost predicate Matches(env: Env, som: int, s: int)
    requires ValidEnv(env)
  {
    exists ends: seq<int> :: ends != [] && Means(env, TopCall(env, som, s), ends)
  }

  /** The start positions that may be tried at all. */
  ghost predicate Candidate(env: Env, hints: Hints, som: int, s: int) {
    && som <= s <= |env.subject|
    && (hints.anchored ==> s == som)
    && (hints.firstLine ==> forall i :: som <= i < s ==> !IsNewline(env, i))
  }

  /** The recorded facts are true of every start position from which the pattern matches. */
  ghost predicate Sound(env: Env, hints: Hints, som: int)
    requires ValidEnv(env)
  {
    && (hints.startBits.Some? ==> |hints.startBits.value| == 256)
    && forall s :: 0 <= som <= s <= |env.subject| && Matches(env, som, s) ==> SoundAt(env, hints, som, s)
  }

  ghost predicate SoundAt(env: Env, hints: Hints, som: int, s: int)
    requires 0 <= s <= |env.subject|
    requires hints.startBits.Some? ==> |hints.startBits.value| == 256
  {
    var n := |env.subject|;
    && (hints.firstChar.Some? ==> s < n && IsOneOf(env.subject[s], hints.firstChar.value))
    && (hints.startLine && s > som ==> WasNewline(env, s))
    && (hints.startBits.Some? ==> s < n && hints.startBits.value[env.subject[s]])
    && (hints.minLength.Some? ==> n - s >= hints.minLength.value)
    && (hints.reqChar.Some? ==> HasRequired(env, hints, s + if hints.firstChar.Some? then 1 else 0))
  }

  /** The required character is in the subject at or after from. */
  ghost predicate HasRequired(env: Env, hints: Hints, from: int)
    requires hints.reqChar.Some?
  {
    exists i :: 0 <= from <= i < |env.subject| && IsOneOf(env.subject[i], hints.reqChar.value)
  }

  /** Where scanning for a start stops: at the first newline when the match must start in the first line. */
  method ScanLimit(env: Env, hints: Hints, from: nat) returns (end: nat)
    requires from <= |env.subject|
    ensures from <= end <= |env.subject|
    ensures hints.firstLine ==> forall i :: from <= i < end ==> !IsNewline(env, i)
  {
    end := |env.subject|;
    if hints.firstLine {
      end := from;
      while end < |env.subject| && !IsNewline(env, end)
        invariant from <= end <= |env.subject|
        invariant forall i :: from <= i < end ==> !IsNewline(env, i)
      {
        end := end + 1;
      }
    }
  }

  /** Advance to a known first character, or to just after a newline, or to a possible first character. */
  method SkipAhead(env: Env, hints: Hints, som: nat, from: nat) returns (at: nat)
    requires som <= from <= |env.subject|
    requires hints.startBits.Some? ==> |hints.startBits.value| == 256
    ensures from <= at <= |env.subject| && (hints.anchored ==> at == from || from > som)
    ensures hints.firstLine ==> forall i :: from <= i < at ==> !IsNewline(env, i)
    ensures forall s :: from <= s < at ==> !SoundAt(env, hints, som, s)
  {
    var end := ScanLimit(env, hints, from);
    at := from;
    if hints.firstChar.Some? && !hints.anchored {
      while at < end && !IsOneOf(env.subject[at], hints.firstChar.value)
        invariant from <= at <= end
        invariant forall s :: from <= s < at ==> !SoundAt(env, hints, som, s)
      {
        at := at + 1;
      }
    } else if hints.startLine {
      if at > som {
        while at < end && !WasNewline(env, at)
          invariant from <= at <= end
          invariant forall s :: from <= s < at ==> !SoundAt(env, hints, som, s)
        {
          at := at + 1;
        }
      }
    } else if hints.startBits.Some? && !hints.anchored {
      while at < end && !hints.startBits.value[env.subject[at]]
        invariant from <= at <= end
        invariant forall s :: from <= s < at ==> !SoundAt(env, hints, som, s)
      {
        at := at + 1;
      }
    }
  }

  /** Look for the required character from p on; the place of the last one found is remembered. */
  method FindRequired(env: Env, hints: Hints, p: nat, reqPtr: int) returns (found: bool, reqPtr': int)
    requires hints.reqChar.Some?
    requires reqPtr >= p ==> reqPtr < |env.subject| && IsOneOf(env.subject[reqPtr], hints.reqChar.value)
    ensures found <==> HasRequired(env, hints, p)
    ensures found ==> 0 <= reqPtr' < |env.subject| && IsOneOf(env.subject[reqPtr'], hints.reqChar.value)
  {
    reqPtr' := reqPtr;
    if p > reqPtr {
      var q := p;
      while q < |env.subject| && !IsOneOf(env.subject[q], hints.reqChar.value)
        invariant p <= q
        invariant forall i :: p <= i < q && i < |env.subject| ==> !IsOneOf(env.subject[i], hints.reqChar.value)
      {
        q := q + 1;
      }
      if q >= |env.subject| { return false, reqPtr'; }
      reqPtr' := q;
    }
    found := true;
  }

  /** No candidate before limit matches. */
  ghost predicate NoneBefore(env: Env, hints: Hints, som: int, limit: int)
    requires ValidEnv(env)
  {
    forall s :: Candidate(env, hints, som, s) && s < limit ==> !Matches(env, som, s)
  }

  /** Once a call is known to have no ends, its start position does not match. */
  lemma NoEndsNoMatch(env: Env, som: int, s: int, depth: nat)
    requires ValidEnv(env) && Inlined(env, depth)(TopCall(env, som, s)) == Some([])
    ensures !Matches(env, som, s)
  {
    WholeIsABracket(env);
    hide ValidEnv, Inlined;
    assert Means(env, TopCall(env, som, s), []);
    forall ends: seq<int> | Means(env, TopCall(env, som, s), ends) ensures ends == [] {
      MeaningIsUnique(env, TopCall(env, som, s), ends, []);
    }
  }

  lemma NotSoundNoMatch(env: Env, hints: Hints, som: int, s: int)
    requires ValidEnv(env) && Sound(env, hints, som) && 0 <= som <= s <= |env.subject|
    ensures SoundAt(env, hints, som, s) || !Matches(env, som, s)
  {
    hide ValidEnv, Matches, SoundAt;
  }

  /** The two tests that can end the search at once: too little subject left, or no required character. */
  method WorthTrying(env: Env, hints: Hints, ghost som: int, cur: nat, reqPtr: int) returns (worth: bool, reqPtr': int)
    requires ValidEnv(env) && Sound(env, hints, som) && 0 <= som <= cur <= |env.subject|
    requires reqPtr < cur || (hints.reqChar.Some? && reqPtr < |env.subject|
                              && IsOneOf(env.subject[reqPtr], hints.reqChar.value))
    ensures !worth ==> forall s :: cur <= s <= |env.subject| ==> !Matches(env, som, s)
    ensures worth ==> reqPtr' < cur || (hints.reqChar.Some? && reqPtr' < |env.subject|
                                        && IsOneOf(env.subject[reqPtr'], hints.reqChar.value))
  {
    hide ValidEnv, Matches;
    worth, reqPtr' := true, reqPtr;
    if hints.minLength.Some? && |env.subject| - cur < hints.minLength.value {
      return false, reqPtr';
    }
    if hints.reqChar.Some? && |env.subject| - cur < REQ_BYTE_MAX {
      var p := cur + if hints.firstChar.Some? && !hints.anchored then 1 else 0;
      worth, reqPtr' := FindRequired(env, hints, p, reqPtr);
      if !worth {
        forall s | cur <= s <= |env.subject| ensures !Matches(env, som, s) {
          NotSoundNoMatch(env, hints, som, s);
        }
      }
    }
  }

  /** What the answer for one start position means: as Answered says, in terms of matches. */
  ghost predicate Tried(env: Env, som: int, s: int, capacity: nat, rc: int, ends: seq<int>, failed: bool)
    requires ValidEnv(env)
  {
    var call := TopCall(env, som, s);
    && (rc >= PCRE_ERROR_NOMATCH || IsError(rc))
    && (NoNegatives(env.code) && rc >= PCRE_ERROR_NOMATCH ==> OnlyEnds(env, call, ends))
    && (failed ==> CanBeUnsafe(env, call, {}))
    && (!failed ==>
          && (rc >= 0 ==> Means(env, call, ends))
          && (rc == PCRE_ERROR_NOMATCH ==> !Matches(env, som, s))
          && (rc == PCRE_ERROR_DFA_UITEM ==> Meaningless(env, call))
          && (rc < PCRE_ERROR_NOMATCH && rc != PCRE_ERROR_DFA_UITEM ==> CanFail(env, call, {}, capacity)))
  }

  lemma AnswerIsTried(env: Env, som: int, s: int, capacity: nat, rc: int, depth: nat, ends: seq<int>, stop: int,
                      failed: bool)
    requires ValidEnv(env)
    requires Answered(env, TopCall(env, som, s), {}, capacity, rc, depth, ends, stop, failed)
    requires rc == PCRE_ERROR_NOMATCH ==> ends == []
    ensures Tried(env, som, s, capacity, rc, ends, failed)
  {
    WholeIsABracket(env);
    hide ValidEnv, NoNegatives, NoMinimums, NoPossessive, OnlyEnds, CanBeUnsafe, CanFail, Meaningless, Matches, Means,
         GoesNoFurther, Inlined;
    if !failed && rc >= PCRE_ERROR_NOMATCH {
      KnownIsMeant(env, TopCall(env, som, s), depth + 1, ends);
      if rc == PCRE_ERROR_NOMATCH { NoEndsNoMatch(env, som, s, depth + 1); }
    }
  }

  /** One start position. */
  method TryAt(env: Env, som: nat, s: nat, offsets: array<int>, offsetcount: int, workspace: array<int>, wscount: int)
    returns (rc: int, ghost ends: seq<int>, ghost failed: bool)
    requires ValidEnv(env) && 0 in env.code.brackets && !env.code.brackets[0].behind
    requires s <= |env.subject| && 0 <= offsetcount <= offsets.Length
    requires 20 <= wscount <= workspace.Length && offsets != workspace
    modifies offsets, workspace
    ensures Tried(env, som, s, Capacity(wscount), rc, ends, failed)
    ensures rc >= PCRE_ERROR_NOMATCH ==> Recorded(offsets[..], offsetcount, rc, s, ends)
    ensures NoMinimums(env.code) && Contained(env) ==> !failed
    ensures !failed && Fits(env, 0, Capacity(wscount)) ==> rc >= PCRE_ERROR_NOMATCH || rc == PCRE_ERROR_DFA_UITEM
  {
    hide ValidEnv, NoMinimums, Recorded, Contained, Fits, Leaves, Answered, Tried;
    ghost var depth, first;
    var stop: int;
    rc, depth, ends, first, stop, failed := InternalDfaExec(env, 0, som, s, {}, offsets, offsetcount, workspace,
                                                            wscount);
    if rc >= PCRE_ERROR_NOMATCH { RecordedCount(offsets[..], offsetcount, rc, s, ends); }
    AnswerIsTried(env, som, s, Capacity(wscount), rc, depth, ends, stop, failed);
  }

  /** A start position up to limit has been tried whose call can be unsafe. */
  ghost predicate TriedUnsafe(env: Env, hints: Hints, som: int, limit: int)
    requires ValidEnv(env)
  {
    exists s :: Candidate(env, hints, som, s) && s <= limit && CanBeUnsafe(env, TopCall(env, som, s), {})
  }

  /** What a complete search gives. The flag says whether something has gone wrong at some start position. If not, the
      answer is the leftmost candidate that matches, with its ends, or that there is none; or else the start position
      that stopped the search has no meaning, or its call fails. */
  ghost predicate Searched(env: Env, hints: Hints, som: int, capacity: nat, rc: int, start: int, ends: seq<int>,
                           failed: bool)
    requires ValidEnv(env)
  {
    && (rc >= PCRE_ERROR_NOMATCH || IsError(rc))
    && (rc >= 0 ==> Candidate(env, hints, som, start) && ends != [])
    && (NoNegatives(env.code) && rc >= 0 ==> OnlyEnds(env, TopCall(env, som, start), ends))
    && (failed ==> TriedUnsafe(env, hints, som, start))
    && (!failed ==>
          && (rc >= 0 ==> NoneBefore(env, hints, som, start) && Means(env, TopCall(env, som, start), ends))
          && (rc == PCRE_ERROR_NOMATCH ==> NoneBefore(env, hints, som, |env.subject| + 1))
          && (rc == PCRE_ERROR_DFA_UITEM ==> Meaningless(env, TopCall(env, som, start)))
          && (rc < PCRE_ERROR_NOMATCH && rc != PCRE_ERROR_DFA_UITEM ==>
                CanFail(env, TopCall(env, som, start), {}, capacity)))
  }

  /** How far the search has come: the starts before cur have been tried, or cannot match. */
  ghost predicate Searching(env: Env, hints: Hints, som: int, cur: int, start: int, failed: bool)
    requires ValidEnv(env)
  {
    && (failed ==> TriedUnsafe(env, hints, som, start))
    && (!failed ==> NoneBefore(env, hints, som, cur))
  }

  /** pcre_dfa_exec without partial matching and restart. */
  method PcreDfaExec(env: Env, hints: Hints, startOffset: int, offsets: array<int>, offsetcount: int,
                     workspace: array<int>, wscount: int)
    returns (rc: int, ghost start: int, ghost ends: seq<int>, ghost failed: bool)
    requires ValidEnv(env) && Sound(env, hints, startOffset)
    requires offsetcount <= offsets.Length && wscount <= workspace.Length && offsets != workspace
    modifies offsets, workspace
    ensures if offsetcount < 0 then rc == PCRE_ERROR_BADCOUNT
            else if wscount < 20 then rc == PCRE_ERROR_DFA_WSSIZE
            else if startOffset < 0 || startOffset > |env.subject| then rc == PCRE_ERROR_BADOFFSET
            else
              && Searched(env, hints, startOffset, Capacity(wscount), rc, start, ends, failed)
              && startOffset <= start <= |env.subject|
              && (rc >= 0 ==> Recorded(offsets[..], offsetcount, rc, start, ends))
              && (NoMinimums(env.code) && Contained(env) ==> !failed)
              && (!failed && Fits(env, 0, Capacity(wscount)) ==> rc >= PCRE_ERROR_NOMATCH || rc == PCRE_ERROR_DFA_UITEM)
  {
    hide ValidEnv, NoMinimums, Sound, SoundAt, Recorded, Contained, Fits, Searched, Searching, Tried, Candidate;
    start, ends, failed := startOffset, [], false;
    if offsetcount < 0 { return PCRE_ERROR_BADCOUNT, start, ends, failed; }
    if wscount < 20 { return PCRE_ERROR_DFA_WSSIZE, start, ends, failed; }
    if startOffset < 0 || startOffset > |env.subject| { return PCRE_ERROR_BADOFFSET, start, ends, failed; }
    WholeIsABracket(env);
    SearchStarts(env, hints, startOffset);
    var cur: nat := startOffset;
    var reqPtr := cur - 1;
    while true
      invariant startOffset <= start <= cur <= |env.subject| && (hints.anchored ==> cur == startOffset)
      invariant hints.firstLine ==> forall i :: startOffset <= i < cur ==> !IsNewline(env, i)
      invariant Searching(env, hints, startOffset, cur, start, failed)
      invariant NoMinimums(env.code) && Contained(env) ==> !failed
      invariant reqPtr < cur || (hints.reqChar.Some? && reqPtr < |env.subject|
                                 && IsOneOf(env.subject[reqPtr], hints.reqChar.value))
      decreases |env.subject| - cur
    {
      if !hints.noStartOptimize {
        var skipped := cur;
        BitsFit(env, hints, startOffset);
        cur := SkipAhead(env, hints, startOffset, cur);
        SkippedDoNotMatch(env, hints, startOffset, skipped, cur);
        SearchSkips(env, hints, startOffset, skipped, cur, start, failed);
        var worth;
        worth, reqPtr := WorthTrying(env, hints, startOffset, cur, reqPtr);
        if !worth {
          SearchIsOver(env, hints, startOffset, Capacity(wscount), cur, start, ends, failed);
          return PCRE_ERROR_NOMATCH, start, ends, failed;
        }
      }
      ghost var last, was, now := start, failed, false;
      start := cur;
      rc, ends, now := TryAt(env, startOffset, cur, offsets, offsetcount, workspace, wscount);
      if rc >= PCRE_ERROR_NOMATCH { RecordedCount(offsets[..], offsetcount, rc, cur, ends); }
      failed := was || now;
      IsCandidate(env, hints, startOffset, cur);
      SearchGoesOn(env, hints, startOffset, Capacity(wscount), rc, cur, last, was, ends, now);
      if rc != PCRE_ERROR_NOMATCH { return; }
      if hints.anchored || (hints.firstLine && IsNewline(env, cur)) || cur == |env.subject| {
        LastCandidate(env, hints, startOffset, cur);
        SearchIsOver(env, hints, startOffset, Capacity(wscount), cur + 1, start, ends, failed);
        return;
      }
      cur := cur + 1;
    }
  }

  lemma SearchStarts(env: Env, hints: Hints, som: int)
    requires ValidEnv(env)
    ensures Searching(env, hints, som, som, som, false)
  {
    hide ValidEnv, Matches;
  }

  /** Starts that cannot match are passed over. */
  lemma SearchSkips(env: Env, hints: Hints, som: int, from: int, to: int, start: int, failed: bool)
    requires ValidEnv(env) && Searching(env, hints, som, from, start, failed)
    requires forall s :: from <= s < to ==> !Matches(env, som, s)
    ensures Searching(env, hints, som, to, start, failed)
  {
    hide ValidEnv, Matches, Candidate, TriedUnsafe;
  }

  /** One start has been tried: the search ends with its answer, or goes on behind it. */
  lemma SearchGoesOn(env: Env, hints: Hints, som: int, capacity: nat, rc: int, cur: int, last: int, was: bool,
                     ends: seq<int>, now: bool)
    requires ValidEnv(env) && Searching(env, hints, som, cur, last, was) && last <= cur
    requires Tried(env, som, cur, capacity, rc, ends, now) && Candidate(env, hints, som, cur)
    requires rc >= 0 ==> ends != []
    ensures rc != PCRE_ERROR_NOMATCH ==> Searched(env, hints, som, capacity, rc, cur, ends, was || now)
    ensures rc == PCRE_ERROR_NOMATCH ==> Searching(env, hints, som, cur + 1, cur, was || now)
  {
    hide ValidEnv, Matches, Candidate, CanBeUnsafe, CanFail, Meaningless, Means, NoMinimums, NoNegatives, OnlyEnds;
  }

  /** No candidate is left that could match. */
  lemma SearchIsOver(env: Env, hints: Hints, som: int, capacity: nat, cur: int, start: int, ends: seq<int>,
                     failed: bool)
    requires ValidEnv(env) && Searching(env, hints, som, cur, start, failed)
    requires forall s :: Candidate(env, hints, som, s) && cur <= s <= |env.subject| ==> !Matches(env, som, s)
    ensures Searched(env, hints, som, capacity, PCRE_ERROR_NOMATCH, start, ends, failed)
  {
    hide ValidEnv, Matches, Candidate, TriedUnsafe, CanFail, Meaningless, Means, NoMinimums, NoNegatives, OnlyEnds;
  }

  /** Where the search may stop there is no further candidate. */
  lemma LastCandidate(env: Env, hints: Hints, som: int, cur: int)
    requires som <= cur <= |env.subject|
    requires hints.anchored || (hints.firstLine && IsNewline(env, cur)) || cur == |env.subject|
    ensures forall s :: Candidate(env, hints, som, s) ==> s <= cur
  {
  }

  lemma IsCandidate(env: Env, hints: Hints, som: int, cur: int)
    requires som <= cur <= |env.subject| && (hints.anchored ==> cur == som)
    requires hints.firstLine ==> forall i :: som <= i < cur ==> !IsNewline(env, i)
    ensures Candidate(env, hints, som, cur)
  {
  }

  lemma WholeIsABracket(env: Env)
    requires ValidEnv(env)
    ensures 0 in env.code.brackets && !env.code.brackets[0].behind
  {
  }

  lemma BitsFit(env: Env, hints: Hints, som: int)
    requires ValidEnv(env) && Sound(env, hints, som)
    ensures hints.startBits.Some? ==> |hints.startBits.value| == 256
  {
  }

  lemma SkippedDoNotMatch(env: Env, hints: Hints, som: int, from: int, to: int)
    requires ValidEnv(env) && Sound(env, hints, som) && 0 <= som <= from <= to <= |env.subject|
    requires forall s :: from <= s < to ==> !SoundAt(env, hints, som, s)
    ensures forall s :: from <= s < to ==> !Matches(env, som, s)
  {
    hide ValidEnv, Matches;
  }

  lemma KnownIsMeant(env: Env, call: Call, depth: nat, ends: seq<int>)
    requires ValidEnv(env) && Inlined(env, depth)(call) == Some(ends)
    ensures Means(env, call, ends)
  {
  }
}
