/** A subject that arrives in two parts: for which items of a pattern the parts allow the steps that the
    whole allows. What must hold at the seam can be read off the parts before a call. */
module DfaSeam {
  import opened DfaProgram
  import opened DfaSemantics

  /** The same pattern and tables for three subjects, the whole and its two parts. The first part may be
      matched with another notEol, the second with another notBol. */
  ghost predicate Halves(whole: Env, first: Env, second: Env) {
    && ValidEnv(whole) && ValidEnv(first) && ValidEnv(second)
    && first == whole.(subject := first.subject, options := whole.options.(notEol := first.options.notEol))
    && second == whole.(subject := second.subject, options := whole.options.(notBol := second.options.notBol))
    && whole.subject == first.subject + second.subject
  }

  predicate EndsInNewline(env: Env) {
    env.subject != [] && env.subject[|env.subject| - 1] == env.newline
  }

  /** What must hold at the seam for a test of the position. */
  predicate SeamlessTest(whole: Env, first: Env, second: Env, op: int)
    requires |first.tables.ctypes| == 256
  {
    var n, m := |first.subject|, |second.subject|;
    if op == OP_CIRC then second.options.notBol == (n > 0 || whole.options.notBol)
    else if op == OP_CIRCM then
      !second.options.notBol == ((n == 0 && !whole.options.notBol) || (m > 0 && EndsInNewline(first)))
    else if op == OP_EOD || op == OP_SOM then true
    else if op == OP_SOD then n == 0
    else if op == OP_EODN then m == 0 || !EndsInNewline(first)
    else if op == OP_DOLL then
      EndsInNewline(first) && !whole.options.dollarEndonly ==> first.options.notEol == (whole.options.notEol || m > 0)
    else if op == OP_DOLLM then
      first.options.notEol == whole.options.notEol || !whole.options.dollarEndonly || whole.newline !in first.subject
    else n == 0 || !IsWordAt(first, n - 1)
  }

  /** For a newline sequence: the seam does not split CR from LF. */
  predicate SeamlessNewline(first: Env, second: Env) {
    var n := |first.subject|;
    !(n > 0 && first.subject[n - 1] == 0x0d && second.subject != [] && second.subject[0] == 0x0a)
  }

  /** Items with which the parts do what the whole does. Assertions and recursions are matched inside one
      part, by calls that cannot see the other; the matcher refuses what it does not support. */
  predicate Seamless(whole: Env, first: Env, second: Env, it: Item)
    requires |first.tables.ctypes| == 256
  {
    match it
    case NewlineSequence(_) => SeamlessNewline(first, second)
    case ZeroWidth(op, _) => SeamlessTest(whole, first, second, op)
    case Assertion(_, _) => false
    case Recursion(_, _, _) => false
    case Unsupported => false
    case _ => true
  }

  /** \G means the same position. */
  ghost predicate SameStart(code: Code, n: int, som: int, som2: int) {
    (exists o <- code.items :: code.items[o].ZeroWidth? && code.items[o].op == OP_SOM) ==> som == n + som2
  }

  // ---------------------------------------------------------------- the conditions are exact

  /** A test means the same in the parts, at every position, exactly under the condition given for it. */
  lemma SeamlessTestIsExact(whole: Env, first: Env, second: Env, op: int, som: int, som2: int)
    requires Halves(whole, first, second) && (op == OP_SOM ==> som == |first.subject| + som2)
    ensures SeamlessTest(whole, first, second, op) <==>
            && (forall p :: 0 <= p < |first.subject| ==> Holds(whole, som, op, p) == Holds(first, som, op, p))
            && (forall p :: 0 <= p <= |second.subject| ==>
                  Holds(whole, som, op, |first.subject| + p) == Holds(second, som2, op, p))
  {
    hide WellFormed, Holds, EndsInNewline;
    var n, m := |first.subject|, |second.subject|;
    if SeamlessTest(whole, first, second, op) {
      forall p | 0 <= p < n ensures Holds(whole, som, op, p) == Holds(first, som, op, p) {
        SameTestBefore(whole, first, second, op, som, p);
      }
      forall p | 0 <= p <= m ensures Holds(whole, som, op, n + p) == Holds(second, som2, op, p) {
        SameTestAfter(whole, first, second, op, som, som2, p);
      }
    } else {
      var p := TestDiffers(whole, first, second, op, som, som2);
    }
  }

  /** Where a test differs when the condition for it fails. */
  lemma TestDiffers(whole: Env, first: Env, second: Env, op: int, som: int, som2: int) returns (p: int)
    requires Halves(whole, first, second) && !SeamlessTest(whole, first, second, op)
    ensures (0 <= p < |first.subject| && Holds(whole, som, op, p) != Holds(first, som, op, p))
            || (0 <= p <= |second.subject| && Holds(whole, som, op, |first.subject| + p) != Holds(second, som2, op, p))
  {
    hide WellFormed;
    var n := |first.subject|;
    if op == OP_DOLLM {
      p :| 0 <= p < n && first.subject[p] == whole.newline;
    } else {
      p := if op == OP_EODN || op == OP_DOLL then n - 1 else 0;
    }
  }

  lemma SameTestBefore(whole: Env, first: Env, second: Env, op: int, som: int, p: int)
    requires Halves(whole, first, second) && SeamlessTest(whole, first, second, op) && p < |first.subject|
    ensures Holds(whole, som, op, p) == Holds(first, som, op, p)
  {
    hide ValidEnv;
  }

  lemma SameTestAfter(whole: Env, first: Env, second: Env, op: int, som: int, som2: int, p: int)
    requires Halves(whole, first, second) && SeamlessTest(whole, first, second, op)
    requires 0 <= p && (op == OP_SOM ==> som == |first.subject| + som2)
    ensures Holds(whole, som, op, |first.subject| + p) == Holds(second, som2, op, p)
  {
    hide ValidEnv;
  }

  /** A newline sequence takes as much in the parts, at every position, exactly if the seam does not split
      CR from LF. */
  lemma SeamlessNewlineIsExact(whole: Env, first: Env, second: Env)
    requires Halves(whole, first, second)
    ensures SeamlessNewline(first, second) <==>
            && (forall p :: 0 <= p < |first.subject| ==> NewlineLength(whole, p) == NewlineLength(first, p))
            && (forall p :: 0 <= p <= |second.subject| ==>
                  NewlineLength(whole, |first.subject| + p) == NewlineLength(second, p))
  {
    hide ValidEnv;
    var n := |first.subject|;
    if !SeamlessNewline(first, second) {
      assert NewlineLength(whole, n - 1) != NewlineLength(first, n - 1);
    }
  }
}
