/** What a program means, without any lists: a nondeterministic step relation on configurations
    (code offset, repeat count, subject position), and the end positions that runs of steps reach. */
module DfaSemantics {
  import opened Basics
  import opened DfaProgram

  datatype CharType = CharType(digit: bool, space: bool, word: bool)

  /** The character tables: lower case, flipped case and character types by code. */
  datatype Tables = Tables(lcc: seq<byte>, fcc: seq<byte>, ctypes: seq<CharType>)

  /** The tables have an entry for every code. */
  predicate FullTables(tables: Tables) {
    |tables.lcc| == |tables.fcc| == |tables.ctypes| == 256
  }

  datatype Options = Options(notBol: bool, notEol: bool, dollarEndonly: bool, bsrAnycrlf: bool)

  /** Everything a match depends on that does not change while it runs. */
  datatype Env = Env(code: Code, subject: seq<byte>, options: Options, newline: byte, tables: Tables)

  ghost predicate ValidEnv(env: Env) {
    && WellFormed(env.code)
    && |env.tables.lcc| == |env.tables.fcc| == |env.tables.ctypes| == 256
    && forall o <- env.code.items :: ItemFits(env.code.items[o])
  }

  predicate ItemFits(it: Item) {
    match it
    case One(t, _) => t.InClass? ==> |t.bitmap| == 32
    case Repeat(t, _, _, _) => t.InClass? ==> |t.bitmap| == 32
    case _ => true
  }

  /** At code offset off, with count repeats already matched, at subject position pos. */
  datatype Config = Config(off: int, count: int, pos: int)

  /** One call of the matcher: the bracket it matches, the position that \G means, and where it starts. */
  datatype Call = Call(open: int, som: int, init: seq<Config>)

  // ---------------------------------------------------------------- tests on characters

  predicate IsNewline(env: Env, p: int) {
    0 <= p < |env.subject| && env.subject[p] == env.newline
  }

  predicate WasNewline(env: Env, p: int) {
    1 <= p <= |env.subject| && env.subject[p - 1] == env.newline
  }

  predicate IsWordAt(env: Env, p: int)
    requires |env.tables.ctypes| == 256
  {
    0 <= p < |env.subject| && env.tables.ctypes[env.subject[p]].word
  }

  predicate IsHSpace(c: byte) { c == 0x09 || c == 0x20 || c == 0xa0 }

  predicate IsVSpace(c: byte) { 0x0a <= c <= 0x0d || c == 0x85 }

  predicate InBitmap(bitmap: seq<byte>, c: byte)
    requires |bitmap| == 32
  {
    bitmap[c / 8] / Bit(c % 8) % 2 == 1
  }

  function Bit(i: int): (b: int)
    requires 0 <= i < 8
    ensures b > 0
  {
    if i == 0 then 1 else 2 * Bit(i - 1)
  }

  /** Does the character at p, which is inside the subject, pass the test? */
  predicate Passes(env: Env, t: CharTest, p: int)
    requires 0 <= p < |env.subject|
    requires |env.tables.lcc| == |env.tables.fcc| == |env.tables.ctypes| == 256
    requires t.InClass? ==> |t.bitmap| == 32
  {
    var c := env.subject[p];
    match t
    case Is(d) => c == d
    case SameLetter(d) => env.tables.lcc[c] == env.tables.lcc[d]
    case IsEither(d) => c == d || c == env.tables.fcc[d]
    case IsNot(d, caseless) => c != d && (caseless ==> c != env.tables.fcc[d])
    case InClass(bitmap) => InBitmap(bitmap, c)
    case OfType(op) =>
      if op == OP_NOT_DIGIT then !env.tables.ctypes[c].digit
      else if op == OP_DIGIT then env.tables.ctypes[c].digit
      else if op == OP_NOT_WHITESPACE then !env.tables.ctypes[c].space
      else if op == OP_WHITESPACE then env.tables.ctypes[c].space
      else if op == OP_NOT_WORDCHAR then !env.tables.ctypes[c].word
      else if op == OP_WORDCHAR then env.tables.ctypes[c].word
      else if op == OP_ANY then !IsNewline(env, p)
      else if op == OP_ALLANY then true
      else if op == OP_NOT_HSPACE then !IsHSpace(c)
      else if op == OP_HSPACE then IsHSpace(c)
      else if op == OP_NOT_VSPACE then !IsVSpace(c)
      else op == OP_VSPACE && IsVSpace(c)
  }

  /** The items that look at the position only. som is the position that \G matches. */
  predicate Holds(env: Env, som: int, op: int, p: int)
    requires |env.tables.ctypes| == 256
  {
    var n := |env.subject|;
    if op == OP_CIRC then p == 0 && !env.options.notBol
    else if op == OP_CIRCM then (p == 0 && !env.options.notBol) || (p != n && WasNewline(env, p))
    else if op == OP_EOD then p >= n
    else if op == OP_SOD then p == 0
    else if op == OP_SOM then p == som
    else if op == OP_EODN then p >= n || (IsNewline(env, p) && p == n - 1)
    else if op == OP_DOLL then
      !env.options.notEol
      && (p >= n || (!env.options.dollarEndonly && IsNewline(env, p) && p == n - 1))
    else if op == OP_DOLLM then
      if !env.options.notEol then p >= n || (!env.options.dollarEndonly && IsNewline(env, p))
      else IsNewline(env, p)
    else
      (IsWordAt(env, p - 1) == IsWordAt(env, p)) == (op == OP_NOT_WORD_BOUNDARY)
  }

  /** How many characters a newline sequence takes at p: 0 when there is none. */
  function NewlineLength(env: Env, p: int): (k: int)
    ensures 0 <= k <= 2 && (k > 0 ==> 0 <= p && p + k <= |env.subject|)
  {
    var n := |env.subject|;
    if !(0 <= p < n) then 0 else
    var c := env.subject[p];
    if c == 0x0a then 1
    else if c == 0x0d then (if p + 1 < n && env.subject[p + 1] == 0x0a then 2 else 1)
    else if (c == 0x0b || c == 0x0c || c == 0x85) && !env.options.bsrAnycrlf then 1
    else 0
  }

  // ---------------------------------------------------------------- steps

  /** What one configuration leads to: configurations at the same position, then at later ones. */
  datatype Outcome = Stop | Go(here: seq<Config>, later: seq<Config>)

  function Successors(out: Outcome): seq<Config> {
    if out.Go? then out.here + out.later else []
  }

  function StepRepeat(o: int, n: int, p: int, passes: bool, q: Quantifier, possessive: bool, next: int): Outcome {
    match q
    case Star =>
      Go(if passes && possessive then [] else [Config(next, 0, p)],
         if passes then [Config(o, 0, p + 1)] else [])
    case Plus =>
      Go(if n > 0 && !(passes && possessive) then [Config(next, 0, p)] else [],
         if passes then [Config(o, n + 1, p + 1)] else [])
    case Query =>
      Go(if passes && possessive then [] else [Config(next, 0, p)],
         if passes then [Config(next, 0, p + 1)] else [])
    case Upto(high) =>
      Go(if passes && possessive then [] else [Config(next, 0, p)],
         if passes then [if n + 1 >= high then Config(next, 0, p + 1) else Config(o, n + 1, p + 1)] else [])
    case Exact(high) =>
      Go([],
         if passes then [if n + 1 >= high then Config(next, 0, p + 1) else Config(o, n + 1, p + 1)] else [])
    case Range(low, high) =>
      Go(if n >= low && !(passes && possessive) then [Config(next, 0, p)] else [],
         if passes then [if n + 1 >= high && high != 0 then Config(next, 0, p + 1) else Config(o, n + 1, p + 1)]
         else [])
  }

  /** The configurations at offset off and the given positions. */
  function At(off: int, ps: seq<int>): seq<Config> {
    seq(|ps|, i requires 0 <= i < |ps| => Config(off, 0, ps[i]))
  }

  function JumpTo(targets: seq<int>, p: int): seq<Config> {
    seq(|targets|, i requires 0 <= i < |targets| => Config(targets[i], 0, p))
  }

  /** The positions among ps equal to p, and those above it, in order. */
  function Equal(ps: seq<int>, p: int): seq<int> {
    if ps == [] then []
    else Equal(ps[..|ps| - 1], p) + if ps[|ps| - 1] == p then [p] else []
  }

  function Above(ps: seq<int>, p: int): seq<int> {
    if ps == [] then []
    else Above(ps[..|ps| - 1], p) + if ps[|ps| - 1] > p then [ps[|ps| - 1]] else []
  }

  /** The nested call that the item at a configuration needs, if any. */
  function NestedCall(env: Env, c: Config): Option<Call>
    requires ValidEnv(env) && c.off in env.code.items
  {
    match env.code.items[c.off]
    case Assertion(_, _) => Some(CallAt(env, c.off, c.pos))
    case Recursion(t, _, _) => Some(CallAt(env, t, c.pos))
    case _ => None
  }

  /** A call of the bracket at g from position p: each alternative starts as far back as it asks for,
      if the subject goes back that far. */
  function CallAt(env: Env, g: int, p: int): Call
    requires g in env.code.brackets
  {
    Call(g, p, Start(env.code.brackets[g].entries, p))
  }

  function Start(entries: seq<Entry>, p: int): (cs: seq<Config>) {
    if entries == [] then []
    else
      var e := entries[|entries| - 1];
      Start(entries[..|entries| - 1], p) + if e.back <= p then [Config(e.off, 0, p - e.back)] else []
  }

  /** One step, given the ends that the nested call found. */
  function StepWith(env: Env, som: int, c: Config, ends: seq<int>): Outcome
    requires ValidEnv(env) && c.off in env.code.items && 0 <= c.pos <= |env.subject|
  {
    var p := c.pos;
    var inside := p < |env.subject|;
    match env.code.items[c.off]
    case Jump(ts) => Go(JumpTo(ts, p), [])
    case ZeroWidth(op, next) => Go(if Holds(env, som, op, p) then [Config(next, 0, p)] else [], [])
    case One(t, next) => Go([], if inside && Passes(env, t, p) then [Config(next, 0, p + 1)] else [])
    case NewlineSequence(next) =>
      var k := NewlineLength(env, p);
      Go([], if k > 0 then [Config(next, 0, p + k)] else [])
    case Repeat(t, q, possessive, next) =>
      StepRepeat(c.off, c.count, p, inside && Passes(env, t, p), q, possessive, next)
    case ForcedFail => Go([], [])
    case Assertion(positive, next) => Go(if (ends != []) == positive then [Config(next, 0, p)] else [], [])
    case Recursion(_, _, next) => Go(At(next, Equal(ends, p)), At(next, Above(ends, p)))
    case Unsupported => Stop
  }

  /** What nested calls are taken to mean: their end positions, ascending, or None. */
  type Nested = Call -> Option<seq<int>>

  /** One step of a call. A configuration at the ket of the bracket being matched leads nowhere: it is
      a match. */
  ghost function Step(env: Env, nested: Nested, call: Call, c: Config): Outcome
    requires ValidEnv(env)
  {
    if !(c.off in env.code.items && 0 <= c.pos <= |env.subject| && call.open in env.code.brackets) then Stop
    else if c.off == env.code.brackets[call.open].close then Go([], [])
    else
      match NestedCall(env, c)
      case None => StepWith(env, call.som, c, [])
      case Some(d) =>
        match nested(d)
        case None => Stop
        case Some(ends) => StepWith(env, call.som, c, ends)
  }

  ghost predicate Steps(env: Env, nested: Nested, call: Call, b: Config, c: Config)
    requires ValidEnv(env)
  {
    c in Successors(Step(env, nested, call, b))
  }

  /** c is reached from the start of the call in exactly n steps. */
  ghost predicate ReachedIn(env: Env, nested: Nested, call: Call, n: nat, c: Config)
    requires ValidEnv(env)
  {
    if n == 0 then c in call.init
    else exists b :: Steps(env, nested, call, b, c) && ReachedIn(env, nested, call, n - 1, b)
  }

  ghost predicate Reached(env: Env, nested: Nested, call: Call, c: Config)
    requires ValidEnv(env)
  {
    exists n: nat :: ReachedIn(env, nested, call, n, c)
  }

  /** No reachable configuration stops the match. */
  ghost predicate Defined(env: Env, nested: Nested, call: Call)
    requires ValidEnv(env)
  {
    forall c :: Reached(env, nested, call, c) ==> Step(env, nested, call, c).Go?
  }

  /** The call's bracket can be matched up to position q. */
  ghost predicate EndsAt(env: Env, nested: Nested, call: Call, q: int)
    requires ValidEnv(env)
  {
    call.open in env.code.brackets && Reached(env, nested, call, Config(env.code.brackets[call.open].close, 0, q))
  }

  /** The end positions below m, ascending. */
  ghost function EndsBelow(env: Env, nested: Nested, call: Call, m: nat): (ends: seq<int>)
    requires ValidEnv(env)
  {
    if m == 0 then []
    else EndsBelow(env, nested, call, m - 1) + if EndsAt(env, nested, call, m - 1) then [m - 1] else []
  }

  /** All the end positions of a call, ascending, or None when some reachable step stops. */
  ghost function EndsWith(env: Env, nested: Nested, call: Call): Option<seq<int>>
    requires ValidEnv(env)
  {
    if Defined(env, nested, call) then Some(EndsBelow(env, nested, call, |env.subject| + 1)) else None
  }

  /** The meaning of calls when nested calls are inlined up to depth k. */
  ghost function Inlined(env: Env, k: nat): Nested
    requires ValidEnv(env)
  {
    if k == 0 then c => None else c => EndsWith(env, Inlined(env, k - 1), c)
  }

  /** A call means ends: at some depth of inlining, these are its end positions. */
  ghost predicate Means(env: Env, call: Call, ends: seq<int>)
    requires ValidEnv(env)
  {
    exists k: nat :: Inlined(env, k)(call) == Some(ends)
  }

  // ---------------------------------------------------------------- more depth changes nothing

  /** b knows at least the meanings that a knows. */
  ghost predicate Knows(a: Nested, b: Nested) {
    forall c :: a(c).Some? ==> b(c) == a(c)
  }

  lemma ReachedNext(env: Env, nested: Nested, call: Call, b: Config, c: Config)
    requires ValidEnv(env)
    requires Reached(env, nested, call, b) && Steps(env, nested, call, b, c)
    ensures Reached(env, nested, call, c)
  {
    var n: nat :| ReachedIn(env, nested, call, n, b);
    assert ReachedIn(env, nested, call, n + 1, c);
  }

  lemma ReachedFirst(env: Env, nested: Nested, call: Call, c: Config)
    requires ValidEnv(env) && c in call.init
    ensures Reached(env, nested, call, c)
  {
    assert ReachedIn(env, nested, call, 0, c);
  }

  lemma StepIsMonotonic(env: Env, a: Nested, b: Nested, call: Call, c: Config)
    requires ValidEnv(env) && Knows(a, b)
    requires Step(env, a, call, c).Go?
    ensures Step(env, b, call, c) == Step(env, a, call, c)
  {
  }

  lemma StepsAreKept(env: Env, a: Nested, b: Nested, call: Call, d: Config, c: Config)
    requires ValidEnv(env) && Knows(a, b) && Steps(env, a, call, d, c)
    ensures Steps(env, b, call, d, c)
  {
    hide Step, ValidEnv, Knows;
    StepIsMonotonic(env, a, b, call, d);
  }

  lemma {:induction false} ReachedIsMonotonic(env: Env, a: Nested, b: Nested, call: Call, n: nat, c: Config)
    requires ValidEnv(env) && Knows(a, b)
    requires ReachedIn(env, a, call, n, c)
    ensures ReachedIn(env, b, call, n, c)
  {
    hide Steps, ValidEnv, Knows;
    if n > 0 {
      var d :| Steps(env, a, call, d, c) && ReachedIn(env, a, call, n - 1, d);
      ReachedIsMonotonic(env, a, b, call, n - 1, d);
      StepsAreKept(env, a, b, call, d, c);
    }
  }

  /** From a place that a reaches, the richer b makes no other steps when nothing stops for a. */
  lemma NoStepIsNew(env: Env, a: Nested, b: Nested, call: Call, d: Config, c: Config)
    requires ValidEnv(env) && Knows(a, b)
    requires Defined(env, a, call) && Reached(env, a, call, d)
    requires Steps(env, b, call, d, c)
    ensures Steps(env, a, call, d, c)
  {
    hide Step, ValidEnv, Reached, Knows;
    assert Step(env, a, call, d).Go?;
    StepIsMonotonic(env, a, b, call, d);
  }

  /** When nothing stops for a, the richer b reaches nothing new. */
  lemma {:induction false} NothingNewIsReached(env: Env, a: Nested, b: Nested, call: Call, n: nat, c: Config)
    requires ValidEnv(env) && Knows(a, b)
    requires Defined(env, a, call)
    requires ReachedIn(env, b, call, n, c)
    ensures Reached(env, a, call, c)
  {
    hide Steps, ValidEnv, Defined, Reached, Knows;
    if n == 0 {
      ReachedFirst(env, a, call, c);
    } else {
      var d :| Steps(env, b, call, d, c) && ReachedIn(env, b, call, n - 1, d);
      NothingNewIsReached(env, a, b, call, n - 1, d);
      NoStepIsNew(env, a, b, call, d, c);
      ReachedNext(env, a, call, d, c);
    }
  }

  lemma SameReached(env: Env, a: Nested, b: Nested, call: Call)
    requires ValidEnv(env) && Knows(a, b) && Defined(env, a, call)
    ensures forall c :: Reached(env, a, call, c) <==> Reached(env, b, call, c)
    ensures Defined(env, b, call)
  {
    forall c | Reached(env, a, call, c) ensures Reached(env, b, call, c) {
      var n: nat :| ReachedIn(env, a, call, n, c);
      ReachedIsMonotonic(env, a, b, call, n, c);
    }
    forall c | Reached(env, b, call, c) ensures Reached(env, a, call, c) {
      var n: nat :| ReachedIn(env, b, call, n, c);
      NothingNewIsReached(env, a, b, call, n, c);
    }
  }

  lemma {:induction false} SameEndsBelow(env: Env, a: Nested, b: Nested, call: Call, m: nat)
    requires ValidEnv(env)
    requires forall c :: Reached(env, a, call, c) <==> Reached(env, b, call, c)
    ensures EndsBelow(env, a, call, m) == EndsBelow(env, b, call, m)
  {
    if m > 0 {
      SameEndsBelow(env, a, b, call, m - 1);
    }
  }

  /** Once a call has a meaning, knowing more about nested calls does not change it. */
  lemma KnowingMoreKeepsEnds(env: Env, a: Nested, b: Nested, call: Call)
    requires ValidEnv(env) && Knows(a, b)
    requires EndsWith(env, a, call).Some?
    ensures EndsWith(env, b, call) == EndsWith(env, a, call)
  {
    SameReached(env, a, b, call);
    SameEndsBelow(env, a, b, call, |env.subject| + 1);
  }

  /** Inlining deeper keeps every meaning that a shallower inlining has found. */
  lemma {:induction false} InliningIsMonotonic(env: Env, k: nat, m: nat)
    requires ValidEnv(env) && k <= m
    ensures Knows(Inlined(env, k), Inlined(env, m))
  {
    if k > 0 {
      InliningIsMonotonic(env, k - 1, m - 1);
      forall c | Inlined(env, k)(c).Some?
        ensures Inlined(env, m)(c) == Inlined(env, k)(c)
      {
        KnowingMoreKeepsEnds(env, Inlined(env, k - 1), Inlined(env, m - 1), c);
      }
    }
  }

  /** A call means at most one thing. */
  lemma MeaningIsUnique(env: Env, call: Call, e1: seq<int>, e2: seq<int>)
    requires ValidEnv(env)
    requires Means(env, call, e1) && Means(env, call, e2)
    ensures e1 == e2
  {
    var k: nat :| Inlined(env, k)(call) == Some(e1);
    var m: nat :| Inlined(env, m)(call) == Some(e2);
    if k <= m {
      InliningIsMonotonic(env, k, m);
    } else {
      InliningIsMonotonic(env, m, k);
    }
  }

  /** c is where a run arrives at position p: as a start, or by a step from an earlier position. */
  ghost predicate Arrives(env: Env, nested: Nested, call: Call, p: int, c: Config)
    requires ValidEnv(env)
  {
    c.pos == p
    && (c in call.init || exists b :: Steps(env, nested, call, b, c) && Reached(env, nested, call, b) && b.pos < p)
  }
}
