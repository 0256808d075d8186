# A model of sqlite-android's native code

The repository wraps SQLite for Android. Under its Java layer lie several self-contained pieces of C and C++: a
regular expression matcher, a page encryption codec with its own AES, MD5 and SHA-2, a hash table for full-text
search, aggregate functions over a counting tree, a tokenizer, and the loop that fills a cursor window. The modules
here model these pieces with the state they change, and prove what they promise.

**Regular expressions** (`dfa_*.dfy`). `DfaProgram` decodes compiled patterns, `DfaSemantics` gives them a meaning: a
relation of single steps on (offset, count, position), with nested calls for assertions and recursions inlined to
any depth. `DfaStates` is the vector of integers with its two lists, `DfaActions` what each item adds to them,
`DfaCoverage` why the lists reach exactly what the relation reaches, `DfaCrowd` how many places states take, which
calls fail for want of them and where that makes an assertion go wrong, `DfaProgress` where a scan stands, `DfaRoom` a
bound on the places that is computed from the program, `DfaRun` the scan as a function, `DfaMatcher` the matcher itself.
What that means is said a second time, independently: `DfaItems` says what each item asks of the subject, `DfaRepeat`
how many characters a repeat takes, `DfaPaths` what a program matches as paths over whole items. `DfaPattern` has
patterns, the texts they match and their bytes; `DfaCompiled` and `DfaValid` decode those, `DfaLanguage` proves that
their paths match what the pattern matches, and `DfaWhole` puts pattern and matcher together. `DfaSingle` is about
brackets with one repeat. `DfaSeam` and `DfaRestart` are about matching a subject in two parts, `DfaExec` about the
outer loop with its shortcuts.
`DfaDepartures` holds patterns for which matching in parts is not matching the whole, `DfaUnsafe` programs with which
the matcher goes wrong, and one with which it never does.

**Encryption** (`aes_*.dfy`, `codec_*.dfy`). From the field with 256 elements and the cipher of FIPS 197 to the table
lookups that compute it, the key schedule written in place, the example of the standard, the modes of operation and
padding over byte buffers, the initial vectors, the pages with the special first one and what `CodecChain` promises of
their bytes, the codec's calls from the pager, and the change of keys of a whole database as one transaction of the
pager.

**Digests** (`block_hash.dfy`, `md5*.dfy`, `sha256*.dfy`). The standards' functions of whole messages, the
optimised transformations, digests that the standards give, and the contexts that take a message in pieces.

**Hash table** (`fts_hash.dfy`). Linked elements and buckets that are segments of one list, against a finite map.

**Aggregates** (`order_statistics.dfy`, `aggregates.dfy`). The tree as a sorted list of counted values; the walks
that find quantiles and the mode.

**Tokenizer** (`tokenizer.dfy`) and **cursor window** (`cursor_window.dfy`).

Bytes are `bv8` where the code computes with bits and numbers below 256 elsewhere; machine words are `bv32` or
numbers with the wrap-around written out. What the code gets from elsewhere - failures of allocation and of reads
and writes, tables of characters, the room in a window, facts recorded when a pattern was compiled - is a parameter.

## Model

| member | source | states |
|---|---|---|
| DfaMatcher.InternalDfaExec | sqlite-android/src/main/jni/sqlite/pcre-8.38/pcre_dfa_exec.c:397-3144 | For every well-formed program and every subject it ends, and the vector holds the ends found, longest first. A flag says whether something has gone wrong: a nested call made for an assertion has failed other than for an unsupported item, or a possessive range has taken another state back, in this call or a nested one. That happens only if the call can be unsafe, which is said of the step relation alone. If it has not happened, the ends are exactly those that the step relation, with nested calls inlined, gives this bracket from this position; an unsupported item means that the call has no meaning; any other error, that the call fails: it reaches states that need more places than there are, or a recursion that does. Without possessive repeats success means conversely that the call does not fail and is not unsafe. Without negative assertions each end is an end of the call, whatever goes wrong. Said without steps: they are the positions at which paths over whole items lead to the ket (DfaPaths.PathsEndAt). With nothing nested inside the bracket the run is that of DfaRun, errors and the flag included |
| DfaWhole.MatchPattern | sqlite-android/src/main/jni/sqlite/pcre-8.38/pcre_dfa_exec.c:397-3144 | From the pattern to the answer: on the bytes of any pattern built of characters, types, classes, places, newline sequences, their repeats, and groups of alternatives that are matched once, optionally, or any number of times, the matcher lists exactly the ends, ascending, of the texts from the start position that the pattern matches, by a definition that knows no bytes, offsets, counts or steps. Nothing goes wrong unless a class has a possessive range with a minimum, and there is no error when the program fits the vector |
| DfaWhole.SearchPattern | sqlite-android/src/main/jni/sqlite/pcre-8.38/pcre_dfa_exec.c:3177-3671 | The outer function on such a program: the leftmost candidate from which the pattern matches, with all the ends there, or NOMATCH exactly when there is no candidate from which it does |
| DfaWhole.MatchesIsPattern | sqlite-android/src/main/jni/sqlite/pcre-8.38/pcre_dfa_exec.c:3610-3640 | A start position at which the program matches is exactly one from which the pattern does |
| DfaLanguage.PathsMatch | sqlite-android/src/main/jni/sqlite/pcre-8.38/pcre_dfa_exec.c:771-860 | Paths through the bytes of a pattern lead to the closing ket at exactly the positions up to which the pattern matches |
| DfaLanguage.TermExits | sqlite-android/src/main/jni/sqlite/pcre-8.38/pcre_dfa_exec.c:771-860 | A walk that enters the bytes of a term leaves them only behind, and only where the term matches |
| DfaLanguage.ChoiceExits | sqlite-android/src/main/jni/sqlite/pcre-8.38/pcre_dfa_exec.c:818-838 | A walk that enters an alternative leaves the bracket only at its ket, where some alternative matches |
| DfaLanguage.GroupExits | sqlite-android/src/main/jni/sqlite/pcre-8.38/pcre_dfa_exec.c:771-860 | A walk that enters a group leaves it behind its ket where the group matches as often as its ket and what stands in front of it allow |
| DfaLanguage.TermWalks | sqlite-android/src/main/jni/sqlite/pcre-8.38/pcre_dfa_exec.c:771-860 | Conversely every match of a term is walked |
| DfaLanguage.ChoiceWalks | sqlite-android/src/main/jni/sqlite/pcre-8.38/pcre_dfa_exec.c:818-838 | So is every match of an alternative, from its start to the ket |
| DfaLanguage.TimesWalked | sqlite-android/src/main/jni/sqlite/pcre-8.38/pcre_dfa_exec.c:771-782 | And any number of matches of a repeated group, the ket leading back each time but the last |
| DfaValid.CompiledIsValid | sqlite-android/src/main/jni/sqlite/pcre-8.38/pcre_dfa_exec.c:818-860 | The bytes of every pattern whose links fit into two bytes are a well-formed program: each bracket closes, its alternatives start inside it, and all items inside hand on to items inside |
| DfaCompiled.ChoiceLinks | sqlite-android/src/main/jni/sqlite/pcre-8.38/pcre_dfa_exec.c:818-835 | The links lead from the opening item to each alternative in turn and then to the ket |
| DfaCompiled.GroupItems | sqlite-android/src/main/jni/sqlite/pcre-8.38/pcre_dfa_exec.c:771-860 | What the opening item, the ket and an optional group's prefix lead to |
| DfaPattern.AtomDecodes | sqlite-android/src/main/jni/sqlite/pcre-8.38/pcre_internal.h:1887-2130 | Every character, type, class, place and repeat is decoded as it was encoded, in its greedy, lazy and possessive forms, whatever follows that is no quantifier of a class |
| DfaPaths.EndsAreOnPaths | sqlite-android/src/main/jni/sqlite/pcre-8.38/pcre_dfa_exec.c:638-3092 | For any program, with assertions and recursions too: the step relation lets a bracket end at a position exactly if a path over whole items leads to its ket there |
| DfaPaths.OneStep | sqlite-android/src/main/jni/sqlite/pcre-8.38/pcre_dfa_exec.c:818-2867 | An item that is no repeat leads exactly to the places behind what it matches, as its meaning says that without steps |
| DfaPaths.MeaningIsPaths | sqlite-android/src/main/jni/sqlite/pcre-8.38/pcre_dfa_exec.c:638-3092 | Whatever a call means, it is the positions, ascending, at which such paths end |
| DfaRepeat.RepeatTakes | sqlite-android/src/main/jni/sqlite/pcre-8.38/pcre_dfa_exec.c:1163-2643 | For every test, quantifier and subject, without the step: runs that enter a repeat at a position with count 0 leave it exactly behind k characters that all pass, k being any, at least one, at most one, at most or exactly the limit, or from the minimum on up to the limit if there is one; a possessive one only behind the largest such number |
| DfaSingle.MatchRepeat | sqlite-android/src/main/jni/sqlite/pcre-8.38/pcre_dfa_exec.c:1163-2643 | The matcher on a bracket that holds one repeat, possessive or not, with any vector permitted: it never fails and ends exactly there |
| DfaSingle.RunsAlone | sqlite-android/src/main/jni/sqlite/pcre-8.38/pcre_dfa_exec.c:1163-2643 | Each position of that scan is entered with one state, so nothing is taken back from another and two places suffice |
| DfaItems.PassesIsAdmits | sqlite-android/src/main/jni/sqlite/pcre-8.38/pcre_dfa_exec.c:990-1006 | A test passes exactly the characters it admits: a type and its negation are complements, and a class admits a set of characters |
| DfaItems.BitmapTells | sqlite-android/src/main/jni/sqlite/pcre-8.38/pcre_dfa_exec.c:2545-2551 | The bit of a character in a class is set exactly if the character is in the set whose bitmap it is |
| DfaItems.HoldsIsStands | sqlite-android/src/main/jni/sqlite/pcre-8.38/pcre_dfa_exec.c:863-1060 | The tests of a position, said by the text before and behind it |
| DfaItems.NewlineIsLineEnd | sqlite-android/src/main/jni/sqlite/pcre-8.38/pcre_dfa_exec.c:2190-2224 | A newline sequence is taken exactly if the text is one; CR takes a following LF with it |
| DfaMatcher.MatchAssertion | sqlite-android/src/main/jni/sqlite/pcre-8.38/pcre_dfa_exec.c:2657-2684 | The nested call of an assertion: it is taken for a failure to match exactly after an error other than an unsupported item, and then, unless something has gone wrong deeper inside, the nested call fails; with more starts than the local vector holds that is always so |
| DfaMatcher.AssertionStepExact | sqlite-android/src/main/jni/sqlite/pcre-8.38/pcre_dfa_exec.c:2680-2684 | The step that an assertion takes differs from the one its meaning asks for exactly if its nested call has been lost in that way and its bracket does match there |
| DfaCrowd.PackedStep | sqlite-android/src/main/jni/sqlite/pcre-8.38/pcre_dfa_exec.c:638-3092 | Processing a state keeps the accounting: the active list is as long as the states processed make it, and what waits for a later position is what they have left for it |
| DfaCrowd.PackedNext | sqlite-android/src/main/jni/sqlite/pcre-8.38/pcre_dfa_exec.c:589-596 | So does moving on to the next position |
| DfaCrowd.OverflowIsCrowded | sqlite-android/src/main/jni/sqlite/pcre-8.38/pcre_dfa_exec.c:352-393 | When a list has no room for what a state needs, states that the call reaches need more places at that position than there are |
| DfaCrowd.EndedIsNotCrowded | sqlite-android/src/main/jni/sqlite/pcre-8.38/pcre_dfa_exec.c:352-393 | A scan that has come to its end shows that no reachable states of the call, at any depth of inlining, need more places than there are, if no repeat takes a place for a moment only |
| DfaCrowd.SafeCannotFail | sqlite-android/src/main/jni/sqlite/pcre-8.38/pcre_dfa_exec.c:2680-2684 | A call that needs no more places than there are, and whose states have nested calls that do not fail, does not fail and is not unsafe |
| DfaRoom.SpentIsBounded | sqlite-android/src/main/jni/sqlite/pcre-8.38/pcre_dfa_exec.c:638-688 | What the distinct states processed at one position have needed is at most the bound: an item has no more distinct counts than the bound allows it |
| DfaRoom.SumIsBounded | sqlite-android/src/main/jni/sqlite/pcre-8.38/pcre_dfa_exec.c:352-393 | The places that reachable states take at a position are at most what their items need there and at the two positions before |
| DfaRoom.RoomyCannotFail | sqlite-android/src/main/jni/sqlite/pcre-8.38/pcre_dfa_exec.c:436-440 | A call that stays within the bound computed from its items does not fail |
| DfaRoom.ContainedIsSafe | sqlite-android/src/main/jni/sqlite/pcre-8.38/pcre_dfa_exec.c:2657-2684 | In a program all of whose assertions stay within the bound, without possessive minimums, no call is unsafe at any depth of nesting |
| DfaRoom.ShortBracketFits | sqlite-android/src/main/jni/sqlite/pcre-8.38/pcre_dfa_exec.c:436-440 | A bracket without recursions fits when three times its length, times the most that one of its items needs, is within the capacity |
| DfaProgress.StuckIsMeaningless | sqlite-android/src/main/jni/sqlite/pcre-8.38/pcre_dfa_exec.c:2663-2684 | A reachable state whose step stops leaves the call without a meaning at every depth of inlining |
| DfaUnsafe.WideLookaheadIsMissed | sqlite-android/src/main/jni/sqlite/pcre-8.38/pcre_dfa_exec.c:2657-2684 | A lookahead with 167 empty alternatives always matches; its nested call runs out of room, the code takes that for a failure to match, and adds no state |
| DfaUnsafe.WideValue | sqlite-android/src/main/jni/sqlite/pcre-8.38/pcre_dfa_exec.c:2657-2684 | What that lookahead means: a match at once, of no characters |
| DfaUnsafe.WideDecodes | sqlite-android/src/main/jni/sqlite/pcre-8.38/pcre_dfa_exec.c:818-832 | It is a program in bytes |
| DfaUnsafe.OpenIsNotCrowded | sqlite-android/src/main/jni/sqlite/pcre-8.38/pcre_dfa_exec.c:2657-2684 | The nested call of (?=a+)a needs three places at any position of any subject |
| DfaUnsafe.OpenLookaheadIsSafe | sqlite-android/src/main/jni/sqlite/pcre-8.38/pcre_dfa_exec.c:2657-2684 | So with this program nothing ever goes wrong, and the matcher is exact on every subject |
| DfaUnsafe.OpenLookaheadIsMatched | sqlite-android/src/main/jni/sqlite/pcre-8.38/pcre_dfa_exec.c:397-3144 | The matcher itself on it: with a vector of any permitted size, on every subject and from every position it succeeds, with exactly the ends that the pattern has there |
| DfaUnsafe.OpenLookaheadIsNotContained | sqlite-android/src/main/jni/sqlite/pcre-8.38/pcre_dfa_exec.c:2657-2684 | The bound computed from the items does not show that for subjects of 83 characters or more |
| DfaUnsafe.OpenLookaheadDecodes | sqlite-android/src/main/jni/sqlite/pcre-8.38/pcre_dfa_exec.c:2306-2325 | It is a program in bytes |
| DfaDepartures.LookaheadFits | sqlite-android/src/main/jni/sqlite/pcre-8.38/pcre_dfa_exec.c:2657-2684 | A lookahead without repeats stays within the bound on every subject |
| DfaMatcher.Scan | sqlite-android/src/main/jni/sqlite/pcre-8.38/pcre_dfa_exec.c:571-3135 | The loop over positions, from any start list, with the same conclusions; at the end of the subject the vector holds exactly the states with which runs arrive there, unless something has gone wrong |
| DfaMatcher.ScanPosition | sqlite-android/src/main/jni/sqlite/pcre-8.38/pcre_dfa_exec.c:638-3092 | One position: every state of the active list, which grows and may shrink meanwhile, is processed once; until something goes wrong processed and waiting states together cover what is reachable, and the lists are as long as the states processed make them |
| DfaMatcher.ProcessState | sqlite-android/src/main/jni/sqlite/pcre-8.38/pcre_dfa_exec.c:638-866 | One state: it waits, is dropped as a duplicate of a state already processed, is a match, or acts; in each case the covering and the accounting of the lists are kept, an unsupported item leaves the whole call without a meaning, and any other error makes it one that fails |
| DfaProgress.NotDuplicateIsNew | sqlite-android/src/main/jni/sqlite/pcre-8.38/pcre_dfa_exec.c:679-688 | A state that the duplicate check lets pass has not been processed before, at this position or an earlier one |
| DfaProgress.ProgressDuplicate | sqlite-android/src/main/jni/sqlite/pcre-8.38/pcre_dfa_exec.c:679-688 | Skipping a state whose offset and count are already in the list loses nothing |
| DfaProgress.ProgressSkip | sqlite-android/src/main/jni/sqlite/pcre-8.38/pcre_dfa_exec.c:659-668 | A state with negative offset and data d stands for the state d positions further on: passing it on with d - 1 leaves what it stands for unchanged |
| DfaProgress.ProgressWake | sqlite-android/src/main/jni/sqlite/pcre-8.38/pcre_dfa_exec.c:669-672 | A wait that has run down gives the state its offset back and nothing else changes |
| DfaProgress.ProgressStep | sqlite-android/src/main/jni/sqlite/pcre-8.38/pcre_dfa_exec.c:2306-2527 | A processed state whose successors were all added leaves processed and waiting states covering what is reachable |
| DfaProgress.ProgressDrop | sqlite-android/src/main/jni/sqlite/pcre-8.38/pcre_dfa_exec.c:2619-2643 | So does a possessive range that takes its own state back; taking back another one loses that state and no more |
| DfaCoverage.LossyStep | sqlite-android/src/main/jni/sqlite/pcre-8.38/pcre_dfa_exec.c:2306-2867 | A step that adds only successors, if not all, adds only what is reachable |
| DfaCoverage.ReachedEndsAreEnds | sqlite-android/src/main/jni/sqlite/pcre-8.38/pcre_dfa_exec.c:771-811 | If only reachable states have been processed, each end recorded is one of the call |
| DfaMatcher.RecordMatch | sqlite-android/src/main/jni/sqlite/pcre-8.38/pcre_dfa_exec.c:783-811 | For any vector size, odd ones too: the vector goes from holding the longest matches that fit to holding them with the new one in front; the count is the number of matches, or 0 when they do not fit |
| DfaMatcher.ActRecursion | sqlite-android/src/main/jni/sqlite/pcre-8.38/pcre_dfa_exec.c:2790-2867 | A recursion adds, for every end found of the called group, the state behind it, waiting for the characters between; unless something has gone wrong in the nested call these are the ends of the group, a group without a meaning stops the step, and any other error means that the recursion fails: its nested call does, has more ends than fit, or is already on the chain, which never holds a (group, position) twice |
| DfaMatcher.ActAssertion | sqlite-android/src/main/jni/sqlite/pcre-8.38/pcre_dfa_exec.c:2657-2684 | An assertion adds the state behind it exactly if its bracket matches here (or does not, when negative), unless its nested call is lost or something has gone wrong inside that; its step departs from the right one exactly if the call is lost and there is a match |
| DfaMatcher.StartLists | sqlite-android/src/main/jni/sqlite/pcre-8.38/pcre_dfa_exec.c:467-565 | The start list: one state for each alternative, and for lookbehinds one for each alternative whose distance the subject allows, waiting until it is due; it fails exactly when there are more than fit |
| DfaProgress.StepStaysInside | sqlite-android/src/main/jni/sqlite/pcre-8.38/pcre_dfa_exec.c:818-2867 | What a place inside a bracket leads to is inside it or its ket, at the same position or later, inside the subject |
| DfaProgress.FinishedIsMeaning | sqlite-android/src/main/jni/sqlite/pcre-8.38/pcre_dfa_exec.c:3107-3135 | When no state waits and nothing has gone wrong, the recorded ends are the meaning of the call |
| DfaProgress.EntryIsArrivals | sqlite-android/src/main/jni/sqlite/pcre-8.38/pcre_dfa_exec.c:589-596 | The list with which the last position was entered holds exactly the places where runs arrive there |
| DfaMatcher.InternalDfaRestart | sqlite-android/src/main/jni/sqlite/pcre-8.38/pcre_dfa_exec.c:543-548 | A restarted call answers in the same way for the call that starts in the saved states |
| DfaCoverage.CoverAll | sqlite-android/src/main/jni/sqlite/pcre-8.38/pcre_dfa_exec.c:638-3092 | A set of processed configurations that holds its starts and all successors is exactly the set of reachable ones, and no reachable step stops |
| DfaCoverage.CoverStep | sqlite-android/src/main/jni/sqlite/pcre-8.38/pcre_dfa_exec.c:638-866 | Moving one configuration from waiting to processed, its successors being listed, keeps the covering |
| DfaCoverage.ReachedIsDone | sqlite-android/src/main/jni/sqlite/pcre-8.38/pcre_dfa_exec.c:638-3092 | By induction on the number of steps: with nothing waiting, whatever is reachable has been processed |
| DfaCoverage.ListedEndsAreTheMeaning | sqlite-android/src/main/jni/sqlite/pcre-8.38/pcre_dfa_exec.c:771-811 | Ends listed in ascending order, one for each processed closing ket, are the value that the semantics gives the call |
| DfaSemantics.InliningIsMonotonic | sqlite-android/src/main/jni/sqlite/pcre-8.38/pcre_dfa_exec.c:2790-2867 | Inlining recursions and assertions deeper never changes an answer already found |
| DfaSemantics.MeaningIsUnique | sqlite-android/src/main/jni/sqlite/pcre-8.38/pcre_dfa_exec.c:2790-2867 | A call means at most one sequence of ends, whatever the depth of inlining |
| DfaActions.ActRepeat | sqlite-android/src/main/jni/sqlite/pcre-8.38/pcre_dfa_exec.c:2306-2643 | STAR, PLUS, QUERY, EXACT, UPTO and class ranges, greedy and possessive, add exactly the successors of the step relation, which DfaRepeat.RepeatTakes characterises, although possessive ones add and take back; a possessive range whose count is below its minimum loses the last active state instead |
| DfaRun.GoesTo | sqlite-android/src/main/jni/sqlite/pcre-8.38/pcre_dfa_exec.c:638-3092 | The order in which the states of a position are processed, and what possessive ranges take back, leave just one possible result |
| DfaRun.EntersOne | sqlite-android/src/main/jni/sqlite/pcre-8.38/pcre_dfa_exec.c:571-3135 | So each position can be entered in one way only |
| DfaUnsafe.MinimumsTakeTooMuch | sqlite-android/src/main/jni/sqlite/pcre-8.38/pcre_dfa_exec.c:2619-2643 | A possessive range takes too much at some count exactly if it has a minimum |
| DfaUnsafe.PossessiveRangeLosesMatch | sqlite-android/src/main/jni/sqlite/pcre-8.38/pcre_dfa_exec.c:2619-2643 | The pattern with the alternatives [ab]{2,}+ and a means a match of one letter on the subject a, and the matcher, called on it with a vector of any permitted size, answers that there is none: the range takes back the state of the other alternative before that is processed |
| DfaUnsafe.PossessiveMatches | sqlite-android/src/main/jni/sqlite/pcre-8.38/pcre_dfa_exec.c:2619-2643 | What that program means there |
| DfaUnsafe.PossessiveRun | sqlite-android/src/main/jni/sqlite/pcre-8.38/pcre_dfa_exec.c:2619-2643 | The run of the scan on it: no end is found, a state is taken back, and three places suffice |
| DfaUnsafe.PossessiveDecodes | sqlite-android/src/main/jni/sqlite/pcre-8.38/pcre_dfa_exec.c:2545-2643 | It is a program in bytes |
| DfaActions.ActPlain | sqlite-android/src/main/jni/sqlite/pcre-8.38/pcre_dfa_exec.c:818-2655 | Every item without a nested call adds exactly the successors of its step, but for a possessive range below its minimum, or reports an unsupported item, or the lists have no room for what the item needs |
| DfaActions.PushAll | sqlite-android/src/main/jni/sqlite/pcre-8.38/pcre_dfa_exec.c:818-860 | Brackets, kets, alternatives and the zero-repeat items add one state for each offset they lead to |
| DfaStates.StateLists.Swap | sqlite-android/src/main/jni/sqlite/pcre-8.38/pcre_dfa_exec.c:589-596 | The new list becomes the active one, and word 0 of the vector names the half that holds it |
| DfaStates.StateLists.AddActive | sqlite-android/src/main/jni/sqlite/pcre-8.38/pcre_dfa_exec.c:352-360 | A state is appended, inside its half and without touching the other, exactly when there is room |
| DfaStates.StateLists.AddNewData | sqlite-android/src/main/jni/sqlite/pcre-8.38/pcre_dfa_exec.c:383-393 | The same for the other half, with a wait |
| DfaStates.StateLists.IsDuplicate | sqlite-android/src/main/jni/sqlite/pcre-8.38/pcre_dfa_exec.c:679-688 | Found exactly if an earlier state of the list has this offset and count |
| DfaStates.StateLists.SavedAreActive | sqlite-android/src/main/jni/sqlite/pcre-8.38/pcre_dfa_exec.c:589-596 | The words of the vector name, after any swap, exactly the states with which the position was entered |
| DfaStates.StateLists.Restore | sqlite-android/src/main/jni/sqlite/pcre-8.38/pcre_dfa_exec.c:543-548 | Restarting finds exactly the saved states, in either half, copied when they lie in the one to be written |
| DfaRestart.RestartIsTransparent | sqlite-android/src/main/jni/sqlite/pcre-8.38/pcre_dfa_exec.c:543-596 | For a pattern whose items are seamless: the restarted call on s2 ends at q exactly if one call on s1 + s2 ends q characters behind s1 |
| DfaSeam.SeamlessTestIsExact | sqlite-android/src/main/jni/sqlite/pcre-8.38/pcre_dfa_exec.c:863-1060 | For each test of the position (start and end of subject and line, word boundaries) a condition on the two parts, to be seen before the call, that holds exactly if the test means the same in the parts as on the whole, at every position |
| DfaSeam.SeamlessNewlineIsExact | sqlite-android/src/main/jni/sqlite/pcre-8.38/pcre_dfa_exec.c:2190-2224 | The same for newline sequences: the seam does not split CR from LF |
| DfaRestart.MatchInParts | sqlite-android/src/main/jni/sqlite/pcre-8.38/pcre_dfa_exec.c:543-596 | The two calls themselves, for every program with seamless items: each end reported is one that one call on the whole subject finds, the restarted one counting from the seam; unless a possessive range has taken another state back, neither fails with enough room, computed beforehand, and they report, longest first, exactly what that call finds from the seam on, or, when the first stops before the seam, exactly all it finds |
| DfaRestart.RestartedEndIsEnd | sqlite-android/src/main/jni/sqlite/pcre-8.38/pcre_dfa_exec.c:543-596 | An end of a call restarted where runs arrive is an end on the whole subject, also when it is not restarted everywhere they do |
| DfaRestart.StopsOnWhole | sqlite-android/src/main/jni/sqlite/pcre-8.38/pcre_dfa_exec.c:3107-3135 | A call that ran out of states before the end of the first part reaches nothing more on a longer subject |
| DfaRestart.PlainCallsHaveAMeaning | sqlite-android/src/main/jni/sqlite/pcre-8.38/pcre_dfa_exec.c:569-3135 | Without assertions, recursions and unsupported items every call on every subject has a meaning, so that there is something for the two calls to agree with |
| DfaDepartures.SplitNewlineDiffers | sqlite-android/src/main/jni/sqlite/pcre-8.38/pcre_dfa_exec.c:2190-2224 | Why the seam matters: with CR LF split between the parts the first part is matched up to the CR, while the whole is matched to the end |
| DfaDepartures.SplitLookaheadDiffers | sqlite-android/src/main/jni/sqlite/pcre-8.38/pcre_dfa_exec.c:2657-2684 | A lookahead that would have to see across the seam fails in the first part: the whole is matched, the parts are not |
| DfaDepartures.SplitRecursionDiffers | sqlite-android/src/main/jni/sqlite/pcre-8.38/pcre_dfa_exec.c:2790-2867 | A recursion that would have to match across the seam finds nothing in the first part: the whole is matched, the parts are not |
| DfaDepartures.LookaheadDecodes | sqlite-android/src/main/jni/sqlite/pcre-8.38/pcre_dfa_exec.c:2657-2684 | The lookahead is a program in bytes |
| DfaDepartures.RecursionDecodes | sqlite-android/src/main/jni/sqlite/pcre-8.38/pcre_dfa_exec.c:2790-2867 | So is the recursion |
| DfaDepartures.NewlineGroupDecodes | sqlite-android/src/main/jni/sqlite/pcre-8.38/pcre_dfa_exec.c:2190-2224 | The example is a program in bytes, and the decoder reads it as the model does |
| DfaExec.PcreDfaExec | sqlite-android/src/main/jni/sqlite/pcre-8.38/pcre_dfa_exec.c:3177-3671 | With true facts about the pattern the optimised loop gives, unless something goes wrong at a start position whose call can be unsafe, the leftmost start position that matches, with its ends, and NOMATCH only when none does; an unsupported item only where the call has no meaning, and another error only where it fails. Bad arguments are refused in the order the code looks. When the assertions are contained and there are no possessive minimums nothing goes wrong; when the program fits the vector its only error is an unsupported item |
| DfaExec.SearchGoesOn | sqlite-android/src/main/jni/sqlite/pcre-8.38/pcre_dfa_exec.c:3610-3671 | One start position more: the search goes on behind it with nothing missed, or ends with its answer |
| DfaExec.SkipAhead | sqlite-android/src/main/jni/sqlite/pcre-8.38/pcre_dfa_exec.c:3444-3539 | Skipping to a first character, a line start or a possible first character passes over no start at which the facts hold, and stays in the first line when it must |
| DfaExec.FindRequired | sqlite-android/src/main/jni/sqlite/pcre-8.38/pcre_dfa_exec.c:3571-3606 | The required character is found at or after the given place, or is not there; the place remembered from an earlier call is used only while it lies ahead |
| DfaExec.WorthTrying | sqlite-android/src/main/jni/sqlite/pcre-8.38/pcre_dfa_exec.c:3554-3607 | When too little subject is left or the required character is missing, no later start matches |
| AesField.TablesUndoEachOther | sqlite-android/src/main/jni/sqlite/rijndael.c:57-75 | The two substitution tables are inverse to each other, for every byte |
| AesCipher.MixColumnsUndone | sqlite-android/src/main/jni/sqlite/rijndael.c:1545-1619 | The inverse column mix undoes the mix and conversely, from linearity and the 256 single bytes |
| AesCipher.InvRoundsMeetRounds | sqlite-android/src/main/jni/sqlite/rijndael.c:1470-1619 | For any number of rounds and any keys: going backwards from the ciphertext, the inverse cipher passes through the states of the cipher |
| AesCipher.InverseUndoesCipher | sqlite-android/src/main/jni/sqlite/rijndael.c:1470-1619 | The straightforward inverse cipher (section 5.3 of FIPS 197) undoes the cipher, for any round count from 1 on and any keys |
| AesCipher.EquivalentInverseUndoesCipher | sqlite-android/src/main/jni/sqlite/rijndael.c:1452-1619 | So does the equivalent inverse cipher (section 5.3.5 of FIPS 197) under unmixed round keys |
| AesCipher.CipherUndoesInverse | sqlite-android/src/main/jni/sqlite/rijndael.c:1470-1619 | The cipher undoes the inverse: encryption is a bijection on blocks |
| Rijndael.LookupIsRound | sqlite-android/src/main/jni/sqlite/rijndael.c:1479-1518 | Four table lookups for each column are SubBytes, ShiftRows and MixColumns |
| Rijndael.InvLookupIsRound | sqlite-android/src/main/jni/sqlite/rijndael.c:1555-1593 | The lookups of decryption are InvSubBytes, InvShiftRows and InvMixColumns |
| Rijndael.KeyLookupIsInvMix | sqlite-android/src/main/jni/sqlite/rijndael.c:1452-1468 | The lookups applied to round keys are InvMixColumns |
| Rijndael.Cipherer.Encrypt | sqlite-android/src/main/jni/sqlite/rijndael.c:1470-1543 | The table-driven loop computes the cipher of section 5.1 of FIPS 197 |
| Rijndael.Cipherer.Decrypt | sqlite-android/src/main/jni/sqlite/rijndael.c:1545-1619 | The table-driven loop computes the equivalent inverse cipher |
| Rijndael.Cipherer.KeyEncToDec | sqlite-android/src/main/jni/sqlite/rijndael.c:1452-1468 | In place, the inner round keys are unmixed and the outer two stay |
| AesKeys.KeySched | sqlite-android/src/main/jni/sqlite/rijndael.c:1372-1450 | For keys of 4, 6 and 8 words the rounds 0 to m_uRounds are filled with the words of the recurrence of section 5.2 of FIPS 197; written out byte by byte: at each multiple of the key length byte b of a word is that of the word a key length back plus S of byte b + 1 modulo 4 of the word before, the first with the constant; half way through keys of eight words S of the same byte; else the byte itself |
| AesKeys.ScheduledIsExpanded | sqlite-android/src/main/jni/sqlite/rijndael.c:1411-1436 | Words are so made, byte by byte, exactly if they are those of the recurrence |
| AesExample.AppendixB | sqlite-android/src/main/jni/sqlite/rijndael.c:1372-1543 | The key, block and ciphertext of appendix B of FIPS 197, through its round keys and states |
| AesKeys.NextWords | sqlite-android/src/main/jni/sqlite/rijndael.c:1411-1436 | The in-place loop turns one group of key words into the next one of the recurrence |
| AesKeys.CopyOut | sqlite-android/src/main/jni/sqlite/rijndael.c:1394-1407 | Copying continues where it stopped, in round r at word t, and never beyond the last round |
| AesKeys.RconTableIsRight | sqlite-android/src/main/jni/sqlite/rijndael.c:962-969 | The table of round constants holds the powers of x in the field |
| AesCbc.DecipherUndoes | sqlite-android/src/main/jni/sqlite/rijndael.c:1372-1619 | For every key of 4, 6 or 8 words, decryption under the schedule and its unmixed form undoes encryption, and conversely |
| AesCbc.CbcUndone | sqlite-android/src/main/jni/sqlite/rijndael.c:1075-1247 | Chained decryption undoes chained encryption (section 6.2 of NIST SP 800-38A) |
| AesCbc.CbcRedone | sqlite-android/src/main/jni/sqlite/rijndael.c:1075-1247 | And conversely: every string of blocks is the encryption of exactly one |
| AesModes.Context.Init | sqlite-android/src/main/jni/sqlite/rijndael.c:983-1051 | The first complaint, in the order the code looks, or success with a schedule for the direction; the object is usable exactly after success |
| AesModes.Context.BlockEncrypt | sqlite-android/src/main/jni/sqlite/rijndael.c:1053-1137 | ECB and CBC, to another buffer or in place: the blocks written are the encryption of those that were there, all other bytes stay |
| AesModes.Context.EncryptChain | sqlite-android/src/main/jni/sqlite/rijndael.c:1075-1092 | The CBC loop reads the block before from the output it has written, also in place |
| AesModes.Context.BlockDecrypt | sqlite-android/src/main/jni/sqlite/rijndael.c:1197-1292 | The same for decryption, where a block written in place is still needed as the next vector |
| AesModes.BlocksOfModes | sqlite-android/src/main/jni/sqlite/rijndael.c:1053-1292 | Block by block: deciphering what block j is encrypted to gives it back, in CBC mode plus the encrypted block before or the vector; and decryption gives block j deciphered, in CBC mode plus the block before |
| AesModes.ModesUndone | sqlite-android/src/main/jni/sqlite/rijndael.c:1053-1292 | In each mode what one direction makes of blocks the other one takes back |
| AesPadding.PadEncrypt | sqlite-android/src/main/jni/sqlite/rijndael.c:1139-1195 | The bytes with their padding are encrypted; the answer is the length with padding; the errors of a wrong state or mode |
| AesPadding.PadDecrypt | sqlite-android/src/main/jni/sqlite/rijndael.c:1294-1364 | A good padding is taken off; a bad one is reported after all blocks but the last have been written |
| AesPadding.PaddingUndone | sqlite-android/src/main/jni/sqlite/rijndael.c:1139-1364 | What was padded and encrypted comes back: in CBC mode always; in ECB mode exactly when the bytes do not fill whole blocks, since a padding of 16 is written but refused |
| AesPadding.OnlyEncryptedIsTaken | sqlite-android/src/main/jni/sqlite/rijndael.c:1343-1355 | In CBC mode decryption gives s exactly for the blocks that s encrypts to |
| AesPadding.PaddingComesOff | sqlite-android/src/main/jni/sqlite/rijndael.c:1319-1355 | Which paddings come off again, in both modes |
| Md5.Transform | sqlite-android/src/main/jni/sqlite/codec.c:264-345 | The 64 steps written out compute the four rounds of section 3.4 of RFC 1321 |
| Md5.F1 | sqlite-android/src/main/jni/sqlite/codec.c:249-250 | The shortened selection function is the one of the RFC |
| Md5.F2 | sqlite-android/src/main/jni/sqlite/codec.c:251-251 | The second function as a turned first one is the one of the RFC |
| Md5.StepsJoin | sqlite-android/src/main/jni/sqlite/codec.c:256-345 | Steps lo to mid and then mid to hi are steps lo to hi |
| Md5Context.CarrySeen | sqlite-android/src/main/jni/sqlite/codec.c:206-209 | Comparing the sum with the old word detects exactly the carry |
| Md5Context.CountsOn | sqlite-android/src/main/jni/sqlite/codec.c:206-210 | The two words hold eight times the number of bytes modulo 2^64 after any piece |
| Md5Context.WaitingBytes | sqlite-android/src/main/jni/sqlite/codec.c:212-212 | The low word knows how many bytes wait in the buffer |
| Md5Context.Context.Update | sqlite-android/src/main/jni/sqlite/codec.c:199-246 | A piece of any length continues the message, whatever waits in the buffer |
| Md5Context.Context.Final | sqlite-android/src/main/jni/sqlite/codec.c:144-186 | The digest is that of the whole message with the padding and length of sections 3.1 and 3.2 of RFC 1321 |
| Md5Context.PaddingTakesOneMore | sqlite-android/src/main/jni/sqlite/codec.c:160-180 | Behind 56 bytes or more the padding fills the block and takes one more |
| Md5Context.HashPieces | sqlite-android/src/main/jni/sqlite/codec.c:144-246 | However a message is cut into pieces, the digest is that of the concatenation |
| BlockHash.FoldJoins | sqlite-android/src/main/jni/sqlite/codec.c:232-241 | Folding a compression function over a concatenation is folding over its parts in turn |
| BlockHash.AbsorbBlock | sqlite-android/src/main/jni/sqlite/codec.c:214-228 | Waiting bytes and those that complete their block are absorbed together |
| BlockHash.LittleEndianIsInjective | sqlite-android/src/main/jni/sqlite/codec.c:178-184 | Different values are written as different bytes |
| Md5Example.EmptyDigest | sqlite-android/src/main/jni/sqlite/codec.c:144-345 | The digest of no bytes, as in section A.5 of RFC 1321 |
| Md5Example.AbcDigest | sqlite-android/src/main/jni/sqlite/codec.c:144-345 | The digest of abc |
| Sha256Example.AppendixB1 | sqlite-android/src/main/jni/sqlite/sha2.c:212-424 | The digest of abc, as in appendix B.1 of FIPS 180-2 |
| Sha256.Transf | sqlite-android/src/main/jni/sqlite/sha2.c:212-325 | Over any number of blocks, rolled or unrolled: the computation of section 6.2 of FIPS 180-2 |
| Sha256.MixRolled | sqlite-android/src/main/jni/sqlite/sha2.c:237-253 | 64 rounds in which all variables move on |
| Sha256.MixUnrolled | sqlite-android/src/main/jni/sqlite/sha2.c:281-317 | Eight rounds at a time with turning roles compute the same |
| Sha256.TurnOn | sqlite-android/src/main/jni/sqlite/sha2.c:112-119 | A round that changes two variables in place and turns the roles is the round that moves all variables, seen through the turn |
| Sha256.ExpandBlock | sqlite-android/src/main/jni/sqlite/sha2.c:229-235 | The 64 words of the message schedule |
| Sha256Context.Context.Update | sqlite-android/src/main/jni/sqlite/sha2.c:354-385 | A piece continues the message: h has absorbed its whole blocks, the buffer holds the rest, tot_len counts the absorbed bytes |
| Sha256Context.Context.Final | sqlite-android/src/main/jni/sqlite/sha2.c:388-424 | The digest of the message with the padding the code writes, which below 2^29 bytes is that of FIPS 180-2; the same for SHA-224 |
| Sha256Context.CodePaddingIsStandard | sqlite-android/src/main/jni/sqlite/sha2.c:398-406 | The code keeps 32 bits of the length: its padding is that of section 5.1.1 of FIPS 180-2 exactly for messages under 2^29 bytes |
| Sha256Context.AbsorbAll | sqlite-android/src/main/jni/sqlite/sha2.c:366-384 | The completed block and the whole blocks after it are absorbed, the rest waits |
| Sha256Context.HashPieces | sqlite-android/src/main/jni/sqlite/sha2.c:336-424 | However a message under 2^29 bytes is cut into pieces, the digest is that of the concatenation |
| BlockHash.PaddedFold | sqlite-android/src/main/jni/sqlite/sha2.c:404-408 | The digest of a padded message is that of the waiting bytes with the padding, from the absorbed value on |
| CodecVector.ModMult | sqlite-android/src/main/jni/sqlite/codec.c:413-413 | The step computes 40692 z mod 2147483399 for every 0 <= z < 2^31, and no value on the way leaves 32 bits |
| CodecVector.StepIsInjective | sqlite-android/src/main/jni/sqlite/codec.c:413-413 | One step maps two seeds to the same value exactly if they are the same modulo m |
| CodecVector.InitKeysDiffer | sqlite-android/src/main/jni/sqlite/codec.c:415-430 | Two pages give the same 16 seed bytes exactly if their numbers are the same modulo m |
| CodecVector.PagesBelowDiffer | sqlite-android/src/main/jni/sqlite/codec.c:415-430 | All pages with page + 1 < m have different seed bytes |
| CodecVector.GenerateInitialVector | sqlite-android/src/main/jni/sqlite/codec.c:415-430 | The vector is the MD5 digest of these bytes |
| CodecPage.Codec.Aes | sqlite-android/src/main/jni/sqlite/codec.c:432-486 | CBC in place on a part of the page under the key of the page; the rest of the page stays |
| CodecPage.Codec.Encrypt | sqlite-android/src/main/jni/sqlite/codec.c:702-720 | What becomes of a page, with the header of page 1 moved; and in blocks: deciphering block j of the result, under the digest of key, page number and sAlT, gives the old block j plus the block before, the first plus the vector of the page; bytes behind the whole blocks stay; page 1 in two chains |
| CodecPage.Codec.Decrypt | sqlite-android/src/main/jni/sqlite/codec.c:722-747 | What becomes of an encrypted page, with the test of the header; and in blocks: the new block j is the deciphered old one plus the old block before, or the vector |
| CodecPage.EncryptedIsChained | sqlite-android/src/main/jni/sqlite/codec.c:432-486 | Cipher block chaining of a page in bytes, for every page, key and length |
| CodecPage.DecryptedIsUnchained | sqlite-android/src/main/jni/sqlite/codec.c:432-486 | And its converse |
| CodecPage.PageComesBack | sqlite-android/src/main/jni/sqlite/codec.c:702-747 | Decryption undoes encryption for every page but the first |
| CodecPage.PageOneComesBack | sqlite-android/src/main/jni/sqlite/codec.c:702-747 | Page 1, its header passing the test, comes back exactly if it starts with the file header of SQLite; in any case everything from byte 16 on comes back |
| CodecPage.PageOneWithoutHeader | sqlite-android/src/main/jni/sqlite/codec.c:702-747 | A first page whose header fails the test is decrypted as it stands, and comes back exactly if, compared with the page encrypted in one chain, the start of the second chain is what belongs in bytes 8 to 15, the readable header what belongs in bytes 16 to 23, and the rest agrees; the first eight bytes always do |
| CodecPage.PageSizes | sqlite-android/src/main/jni/sqlite/codec.c:731-733 | The test accepts exactly the page sizes that are powers of two from 512 on |
| CodecPage.HeaderStays | sqlite-android/src/main/jni/sqlite/codec.c:708-719 | Bytes 16 to 23 of page 1 stay readable in the file |
| CodecPage.RoundTrip | sqlite-android/src/main/jni/sqlite/codec.c:702-747 | Encrypting and decrypting a buffer in place with equal keys gives any page back under exactly these conditions |
| CodecPage.RunIsLocal | sqlite-android/src/main/jni/sqlite/codec.c:432-486 | What becomes of the encrypted part depends on this part alone |
| CodecRekey.PagerCodec.Call | sqlite-android/src/main/jni/sqlite/codecext.c:30-86 | Each mode of sqlite3Codec; writing to the file or the journal never changes the page of the caller |
| CodecRekey.PagesAreChained | sqlite-android/src/main/jni/sqlite/codecext.c:67-83 | What the pager gets for the file is the page chained under the write key, for the journal under the read key, and plain without one |
| CodecRekey.JournalComesBack | sqlite-android/src/main/jni/sqlite/codecext.c:67-83 | Replaying gives back what the journal was given, whatever happens to the write key |
| CodecDatabase.Database.Rekey | sqlite-android/src/main/jni/sqlite/codecext.c:215-393 | The answer is the first error of a pager call that is made, and OK if and only if none fails. On success every page but the one for the locks reads back as before, under the new keys, and in the file stands its encryption under the new key in blocks, or the page itself; after a failure anywhere the file is what it was, and so are the keys when the database was to be encrypted or encrypted anew |
| CodecDatabase.RekeySucceeds | sqlite-android/src/main/jni/sqlite/codecext.c:312-337 | The answer is OK if and only if begin, each get and write that is made, and commit all succeed |
| CodecDatabase.NoErrorIfNoneFails | sqlite-android/src/main/jni/sqlite/codecext.c:312-331 | The loop ends without an error if and only if no page but that for the locks fails to be read or written |
| CodecDatabase.WrittenIsStored | sqlite-android/src/main/jni/sqlite/codecext.c:67-83 | Pages written with a key stand in the file in its chains |
| CodecDatabase.Database.Transact | sqlite-android/src/main/jni/sqlite/codecext.c:312-346 | Begin, all pages, and commit or rollback: committed if and only if nothing fails |
| CodecDatabase.Database.RewritePages | sqlite-android/src/main/jni/sqlite/codecext.c:312-331 | The loop stops at the first error and answers it. However the loop ends and whatever the pager writes early, the transaction can still be undone |
| CodecDatabase.Database.Write | sqlite-android/src/main/jni/sqlite/codecext.c:67-83 | A page goes into the journal under the key it was read with, before it may be changed |
| CodecDatabase.Database.Rollback | sqlite-android/src/main/jni/sqlite/codecext.c:338-346 | Replaying the journal gives back the file as it was before the transaction |
| CodecDatabase.Database.Commit | sqlite-android/src/main/jni/sqlite/codecext.c:333-337 | The answer is the pager's. After a successful commit each journalled page is in the file under the write key, each other page untouched |
| CodecDatabase.RewrittenFile | sqlite-android/src/main/jni/sqlite/codecext.c:312-362 | Pages all written with the new key are those that the final keys read |
| CodecDatabase.SameAfterFailure | sqlite-android/src/main/jni/sqlite/codecext.c:363-374 | The keys left after a failure read the old file, also when the key was to be removed |
| FtsHash.Table.Insert | sqlite-android/src/main/jni/sqlite/fts3_hash.c:325-381 | Insert, replace and remove as in a finite map, with the old value as answer; exactly what happens when memory is short, and on a table that has lost its count that way |
| FtsHash.Table.Find | sqlite-android/src/main/jni/sqlite/fts3_hash.c:282-308 | The value of the key in the map, or nothing |
| FtsHash.Table.Clear | sqlite-android/src/main/jni/sqlite/fts3_hash.c:74-92 | The empty map, without buckets |
| FtsHash.Table.Rehash | sqlite-android/src/main/jni/sqlite/fts3_hash.c:196-214 | The elements, linked anew in place, are the same with the same data, each in the segment of its new bucket |
| FtsHash.Table.InsertElement | sqlite-android/src/main/jni/sqlite/fts3_hash.c:166-187 | The element goes to the head of the segment of its bucket, or to the front of the list when the bucket is empty; list and buckets still agree |
| FtsHash.Table.FindElementByHash | sqlite-android/src/main/jni/sqlite/fts3_hash.c:220-243 | At most count steps from the head of the bucket find the element if the table has one with this key |
| FtsHash.Table.RemoveElementByHash | sqlite-android/src/main/jni/sqlite/fts3_hash.c:248-280 | The element leaves list and bucket; when the count says that nothing is left all is cleared |
| FtsHash.Table.RemoveAfterFailedGrowth | sqlite-android/src/main/jni/sqlite/fts3_hash.c:317-359 | The failure to grow is documented to leave the table unchanged; the code sets the count to 0 and the next removal removes all entries |
| FtsHash.Table.InsertAfterFailedGrowth | sqlite-android/src/main/jni/sqlite/fts3_hash.c:353-381 | The next insertion is in the map like the others, but the table does not grow and has more entries than buckets |
| FtsHash.Table.CountsEntries | sqlite-android/src/main/jni/sqlite/fts3_hash.c:325-381 | The count of a sound table is the number of entries of the map |
| FtsHash.SegmentsInsert | sqlite-android/src/main/jni/sqlite/fts3_hash.c:172-186 | Putting an element at the head of its segment keeps every bucket one segment |
| FtsHash.SegmentsRemove | sqlite-android/src/main/jni/sqlite/fts3_hash.c:262-269 | Taking one out keeps every bucket one segment |
| FtsHash.LinkedInsert | sqlite-android/src/main/jni/sqlite/fts3_hash.c:172-184 | The pointer changes make the list with the element in it, prev and next still inverse |
| FtsHash.LinkedRemove | sqlite-android/src/main/jni/sqlite/fts3_hash.c:254-261 | The pointer changes make the list without the element |
| Aggregates.NodeInsert | sqlite-android/src/main/jni/sqlite/extensionfunctions.c:1636-1655 | Inserting into the tree is inserting into the sorted, counted list of its values; a value already there is counted |
| Aggregates.ModeCtx.Step | sqlite-android/src/main/jni/sqlite/extensionfunctions.c:1181-1222 | The tree holds each value received with its multiplicity |
| Aggregates.ModeCtx.IterateMedian | sqlite-android/src/main/jni/sqlite/extensionfunctions.c:1662-1670 | The traversal visits values ascending, each once with its count |
| Aggregates.ModeCtx.ModeFinalize | sqlite-android/src/main/jni/sqlite/extensionfunctions.c:1299-1314 | The mode if one value occurs more often than every other one, else NULL; the value itself exactly if it is a 32-bit one |
| Aggregates.ModeCtx.MedianFinalize | sqlite-android/src/main/jni/sqlite/extensionfunctions.c:1341-1348 | The average of the one or two medians of the values received; a single one itself exactly if it is a 32-bit one |
| Aggregates.ModeCtx.LowerQuartileFinalize | sqlite-android/src/main/jni/sqlite/extensionfunctions.c:1353-1360 | The average of the one or two lower quartiles |
| Aggregates.ModeCtx.UpperQuartileFinalize | sqlite-android/src/main/jni/sqlite/extensionfunctions.c:1365-1372 | The average of the one or two upper quartiles |
| Aggregates.MedianResult | sqlite-android/src/main/jni/sqlite/extensionfunctions.c:1262-1336 | The walk over all values ends with the sum and the number of the quantiles |
| OrderStatistics.WalkFindsQuantiles | sqlite-android/src/main/jni/sqlite/extensionfunctions.c:1262-1294 | Over any sorted, counted list the walk adds up exactly the quantiles and stops after them |
| OrderStatistics.OneOrTwoQuantiles | sqlite-android/src/main/jni/sqlite/extensionfunctions.c:1319-1336 | There is always one quantile or two, so the result is never divided by zero |
| OrderStatistics.QuantilesAreThose | sqlite-android/src/main/jni/sqlite/extensionfunctions.c:1262-1294 | The quantiles found are exactly the values received that have q quarters at or below and the others at or above them |
| OrderStatistics.WalkIsMode | sqlite-android/src/main/jni/sqlite/extensionfunctions.c:1229-1255 | The walk ends with one sharing value exactly if there is a mode, and then with that |
| OrderStatistics.WithOneCounts | sqlite-android/src/main/jni/sqlite/extensionfunctions.c:1636-1655 | Insertion changes, for every value, the numbers of equal, smaller and larger values as it must |
| OrderStatistics.StandingOf | sqlite-android/src/main/jni/sqlite/extensionfunctions.c:1262-1294 | The running total before and after an entry tells how many values are below and above it |
| CursorWindow.Fill | sqlite-android/src/main/jni/sqlite/android_database_SQLiteConnection.cpp:741-829 | The window holds a run of rows without a gap; if the required row exists and is not before the start, and rows up to it fit an empty window, it is in it; the answer combines the first row and the total, or the row at which counting stopped. When the columns always fit, whether all rows are counted or not, the first row in the window is the one place where packing begins, and the window is full: it holds all rows from there, or the next one does not fit; when a column never fits, the answer is that nothing was packed |
| CursorWindow.BeginsOnce | sqlite-android/src/main/jni/sqlite/android_database_SQLiteConnection.cpp:793-816 | There is just one row at which a window can begin |
| CursorWindow.PlaceRow | sqlite-android/src/main/jni/sqlite/android_database_SQLiteConnection.cpp:793-813 | One row: copied, or copied to a cleared window, or refused; the window still holds a run without a gap |
| CursorWindow.Window.CopyRow | sqlite-android/src/main/jni/sqlite/android_database_SQLiteConnection.cpp:642-700 | A row is added as a whole or not at all |
| Tokenizer.Tokenize | sqlite-android/src/main/jni/sqlite/fts3_html_tokenizer.c:668-897 | Until it is done, unicodeNext gives all tokens of a text without tags: the maximal runs in order, numbered, with disjoint byte ranges, passing over no token character; and the code points read from a token's text are what those of its run fold to, where that is something, U+FFFD standing for those that may not be written |
| Tokenizer.FoldedCodes | sqlite-android/src/main/jni/sqlite/fts3_html_tokenizer.c:762-869 | The code points of a folded text are the folded code points |
| Tokenizer.CodesOfWritten | sqlite-android/src/main/jni/sqlite/fts3_html_tokenizer.c:387-417 | A code point written before a text is the first one read, and the others follow |
| Tokenizer.Cursor.Next | sqlite-android/src/main/jni/sqlite/fts3_html_tokenizer.c:668-897 | One call: the next run, its folded text, its bytes and number, and where the next search begins; none exactly if no token character is left |
| Tokenizer.SkipsNone | sqlite-android/src/main/jni/sqlite/fts3_html_tokenizer.c:694-755 | The search stops at the start of a character and passes no token character |
| Tokenizer.RunsOn | sqlite-android/src/main/jni/sqlite/fts3_html_tokenizer.c:762-869 | A run holds only token and diacritic characters |
| Tokenizer.OneMoreToken | sqlite-android/src/main/jni/sqlite/fts3_html_tokenizer.c:668-897 | After any number of calls, one more adds the next run and moves on |
| Tokenizer.UnicodeTokenizer.AddExceptions | sqlite-android/src/main/jni/sqlite/fts3_html_tokenizer.c:474-523 | The exceptions are those there were and those the option asks for; the array stays sorted |
| Tokenizer.UnicodeTokenizer.InsertSorted | sqlite-android/src/main/jni/sqlite/fts3_html_tokenizer.c:512-515 | In place, a code is put where it belongs |
| Tokenizer.UnicodeTokenizer.IsException | sqlite-android/src/main/jni/sqlite/fts3_html_tokenizer.c:528-547 | Binary search decides membership |
| Tokenizer.UnicodeTokenizer.IsAlnum | sqlite-android/src/main/jni/sqlite/fts3_html_tokenizer.c:553-556 | A token character is an alphanumeric one or an exception, not both |
| Tokenizer.Create | sqlite-android/src/main/jni/sqlite/fts3_html_tokenizer.c:561-609 | Whatever the options and their order, the codes whose class is inverted are those some option asks to have the other class |
| Tokenizer.ReadsWritten | sqlite-android/src/main/jni/sqlite/fts3_html_tokenizer.c:387-417 | A code point below 2^21 is read back as written exactly if it is no surrogate and neither U+FFFE nor U+FFFF; those are read as U+FFFD |

## Left out

Where the code and what is said about it differ, the model follows the code:

- DfaRestart.RestartIsTransparent: for patterns whose items are seamless (DfaSeam.Seamless). For tests of the position and newline sequences the condition is exact for the item; \A needs an empty first part, and \G the same position in both calls. Assertions and recursions are excluded whatever the subject, since their nested calls see one part only, as SplitLookaheadDiffers and SplitRecursionDiffers show. A pattern whose item is not seamless can still behave well when that item is never reached.
- DfaMatcher.InternalDfaExec: exact unless something goes wrong. An assertion takes every error of its nested call but one for a failure to match (pcre_dfa_exec.c:2680-2682); WideLookaheadIsMissed shows what that does. That nothing goes wrong where the call is not unsafe is proved for all programs, the converse for those without possessive repeats. The bound of DfaRoom.Contained, to be computed before a call, is sufficient and not necessary, as OpenLookaheadIsNotContained and OpenLookaheadIsSafe show.
- DfaPattern.AtomDecodes: for the characters, types, classes, places and repeats that the decoder reads (AtomOk); a repeat of a type may be of digits, white space, word characters or any character, as in DfaProgram.
- DfaWhole.MatchPattern: for patterns without assertions, recursions, atomic groups and possessive groups, whose links fit into two bytes (the code's LINK_SIZE); programs with assertions and recursions are covered by DfaPaths.MeaningIsPaths. The bytes are laid out as the matcher reads them; that the compiler lays them out so is not part of this model.
- DfaMatcher.Scan: when a possessive range with a minimum is in the program and the scan stops before the end of the subject, the states left in the vector are not described.
- DfaActions.ActRepeat: a possessive range of a class with a minimum (OP_CRPOSRANGE) takes back a state it has not added while its count is below the minimum (pcre_dfa_exec.c:2623-2632). That is harmless when the state is its own, which has been processed; PossessiveRangeLosesMatch shows a match that is lost when it is not. A call is counted as unsafe when it reaches such a range where a character passes below the minimum, whether or not that loses a state.
- DfaUnsafe.MinimumsTakeTooMuch: says when the item can take too much, not when a match is lost by it.
- DfaExec.PcreDfaExec: the facts about the pattern are assumed to be true of it (Sound), since the compiler and pcre_study are not part of this model; newlines are one byte.
- CodecDatabase.Database.Rekey: when the key was to be removed and that fails, the code does not set hasWriteKey again (codecext.c:269, 366-369); the contract says so.
- FtsHash.Table.Insert: a failure to get new buckets loses the count (fts3_hash.c:354-359) although the comment before it promises an unchanged table; the contract says exactly what is left, then and after a further call.
- AesPadding.PaddingUndone: in ECB mode a padding of a whole block is written but refused (rijndael.c:1160-1163, 1320-1321), so whole blocks do not come back.
- Sha256Context.Context.Final: the code writes only 32 bits of the length in bits (sha2.c:401-406), so the digest is the standard's for messages under 2^29 bytes.
- Sha256Context.Context.Update: pieces of 2^31 bytes or more, for which the code's int arithmetic overflows, are excluded.
- CodecPage.PageOneComesBack: for a first page whose bytes 16 to 23 pass the header test; the others are the subject of PageOneWithoutHeader.
- CursorWindow.Fill: a negative start position or required row, which the arguments of type jint could carry, is excluded.
- Aggregates.ModeCtx.MedianFinalize: values are inserted as 64-bit integers but read as 32-bit ones (extensionfunctions.c:1235, 1283); results are stated on the low 32 bits, and are the values themselves exactly when these are 32-bit ones. Values of type REAL and the rounding of floating-point division are not modelled, nor counts of 2^31 and more that medianIterate narrows to int.
- Rijndael.LookupIsRound: the lookup tables are given by what their columns hold, not transcribed; the substitution tables are transcribed, but not derived from inversion in the field.
- AesModes.Context.BlockDecrypt: like BlockEncrypt for an object in ECB or CBC mode only.
- AesModes.Context.BlockEncrypt: for an object in ECB or CBC mode only; in CBC mode the code writes one block even when fewer than 128 bits are given (rijndael.c:1076-1081); so does the model.

Not modelled:

- Regular expressions: the compiler (patterns are laid out in bytes by DfaPattern, and a predicate says which programs are well formed), partial matching (the model returns the position at which it stopped instead), PCRE_NOTEMPTY and PCRE_DFA_SHORTEST, UTF and Unicode properties, callouts, conditions, atomic and possessive groups, repeated newline and space sequences, newlines of two bytes, options set inside patterns.
- Rijndael: the mode CFB1, whose loop never moves on; null pointers for input and output.
- SHA-384 and SHA-512: the same context code with 64-bit words and blocks of 128 bytes; the proofs would repeat those of SHA-256.
- Codec: keys from passwords, the variant with AES-256 and SHA-256, giving back memory, and overwriting keys and contexts with zeros.
- Pager: write-ahead log, change counter of page 1, sector neighbours that are journalled together, hot journals, errors during rollback.
- Hash table: string keys, copies of keys, giving back memory; the mask by size - 1 is written as a remainder.
- Tokenizer: skipping of tags, the stemmer, the output buffer and its growth; the Unicode tables are any functions on code points.
- Cursor window: errors and busy retries of stepping the statement, and how the window stores values; whether a value fits is a parameter.
- JNI layer, logging, registration, and the rest of SQLite.
