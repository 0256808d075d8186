/** What a repeat matches: how many characters it takes, said without its steps. */
module DfaRepeat {
  import opened DfaProgram
  import opened DfaSemantics
  import opened DfaItems

  // ---------------------------------------------------------------- what a repeat stands for

  /** An upper limit of less than one still lets one character pass. */
  function Most(high: int): (m: int)
    ensures m >= 1
  {
    if high < 1 then 1 else high
  }

  /** The quantifier allows k characters. */
  predicate Allows(q: Quantifier, k: nat) {
    match q
    case Star => true
    case Plus => k >= 1
    case Query => k <= 1
    case Upto(high) => k <= Most(high)
    case Exact(high) => k == Most(high)
    case Range(low, high) => if high == 0 then k >= low else low <= k < Most(high) || k == Most(high)
  }

  /** There is a character at p, and it passes the test. */
  ghost predicate PassesAt(env: Env, t: CharTest, p: int) {
    FullTables(env.tables) && 0 <= p < |env.subject| && Admits(env, t, env.subject[p])
  }

  /** All k characters from p on pass the test. */
  ghost predicate AllPass(env: Env, t: CharTest, p: int, k: nat) {
    forall i :: p <= i < p + k ==> PassesAt(env, t, i)
  }

  /** A repeat may match the k characters from p on; a possessive one only if it may not match more of them. */
  ghost predicate MayTake(env: Env, t: CharTest, q: Quantifier, possessive: bool, p: int, k: nat) {
    AllPass(env, t, p, k) && Allows(q, k)
    && (possessive ==> forall l: nat :: l > k && AllPass(env, t, p, l) ==> !Allows(q, l))
  }

  lemma TakesInside(env: Env, t: CharTest, q: Quantifier, possessive: bool, p: int, k: nat)
    requires 0 <= p <= |env.subject| && MayTake(env, t, q, possessive, p, k)
    ensures p + k <= |env.subject|
  {
    assert k > 0 ==> PassesAt(env, t, p + k - 1);
  }

  // ---------------------------------------------------------------- runs through a repeat

  /** A run of n steps through the item at o, from position p and count 0 on, leads to c. */
  ghost predicate Stays(env: Env, nested: Nested, call: Call, o: int, p: int, n: nat, c: Config)
    requires ValidEnv(env)
  {
    if n == 0 then c == Config(o, 0, p)
    else exists b: Config :: b.off == o && Stays(env, nested, call, o, p, n - 1, b) && Steps(env, nested, call, b, c)
  }

  /** Such a run leaves the item for the offset next at position e. */
  ghost predicate LeavesAt(env: Env, nested: Nested, call: Call, o: int, p: int, next: int, e: int)
    requires ValidEnv(env)
  {
    exists n: nat :: Stays(env, nested, call, o, p, n, Config(next, 0, e))
  }

  /** The item at o is this repeat, and it leads out of itself. */
  ghost predicate IsRepeat(env: Env, call: Call, o: int, t: CharTest, q: Quantifier, possessive: bool, next: int)
  {
    o in env.code.items && env.code.items[o] == Repeat(t, q, possessive, next) && next != o
    && call.open in env.code.brackets && o != env.code.brackets[call.open].close
  }

  /** How many characters a run can have taken while it is still in the item. */
  predicate StillIn(q: Quantifier, n: nat) {
    match q
    case Star => true
    case Plus => true
    case Query => n < 1
    case Upto(high) => n < Most(high)
    case Exact(high) => n < Most(high)
    case Range(_, high) => high == 0 || n < Most(high)
  }

  function Taken(q: Quantifier, o: int, p: int, n: nat): Config {
    Config(o, if q.Star? then 0 else n, p + n)
  }

  /** The step of a repeat that has taken n characters. */
  lemma StepOfRepeat(o: int, q: Quantifier, possessive: bool, next: int, p: int, n: nat, passes: bool, c: Config)
    requires StillIn(q, n)
    ensures c in Successors(StepRepeat(o, Taken(q, o, p, n).count, p + n, passes, q, possessive, next)) <==>
            || (passes && StillIn(q, n + 1) && c == Taken(q, o, p, n + 1))
            || (passes && !StillIn(q, n + 1) && c == Config(next, 0, p + n + 1))
            || (Allows(q, n) && !(passes && possessive) && c == Config(next, 0, p + n))
  {
  }

  /** One step from inside the item. */
  lemma StepFrom(env: Env, nested: Nested, call: Call, o: int, t: CharTest, q: Quantifier, possessive: bool, next: int,
                 p: int, n: nat, c: Config)
    requires ValidEnv(env) && IsRepeat(env, call, o, t, q, possessive, next)
    requires 0 <= p <= |env.subject| && AllPass(env, t, p, n) && StillIn(q, n)
    ensures Steps(env, nested, call, Taken(q, o, p, n), c) <==>
            var passes := PassesAt(env, t, p + n);
            || (passes && StillIn(q, n + 1) && c == Taken(q, o, p, n + 1))
            || (passes && !StillIn(q, n + 1) && c == Config(next, 0, p + n + 1))
            || (Allows(q, n) && !(passes && possessive) && c == Config(next, 0, p + n))
  {
    hide WellFormed, Passes, Admits, StepRepeat, StillIn, Allows;
    assert n > 0 ==> PassesAt(env, t, p + n - 1);
    if p + n < |env.subject| { PassesIsAdmits(env, t, p + n); }
    StepOfRepeat(o, q, possessive, next, p, n, PassesAt(env, t, p + n), c);
  }

  /** After n steps a run is still in the item exactly when it has taken n characters and may go on. */
  lemma {:induction false} StaysWhile(env: Env, nested: Nested, call: Call, o: int, t: CharTest, q: Quantifier,
                                      possessive: bool, next: int, p: int, n: nat, c: Config)
    requires ValidEnv(env) && IsRepeat(env, call, o, t, q, possessive, next) && 0 <= p <= |env.subject|
    ensures c.off == o ==>
              (Stays(env, nested, call, o, p, n, c)
               <==> c == Taken(q, o, p, n) && AllPass(env, t, p, n) && StillIn(q, n))
  {
    hide ValidEnv, Steps, PassesAt;
    if n > 0 && c.off == o {
      var b := Taken(q, o, p, n - 1);
      StaysWhile(env, nested, call, o, t, q, possessive, next, p, n - 1, b);
      if Stays(env, nested, call, o, p, n, c) {
        var d: Config :| d.off == o && Stays(env, nested, call, o, p, n - 1, d) && Steps(env, nested, call, d, c);
        StaysWhile(env, nested, call, o, t, q, possessive, next, p, n - 1, d);
        StepFrom(env, nested, call, o, t, q, possessive, next, p, n - 1, c);
      }
      if c == Taken(q, o, p, n) && AllPass(env, t, p, n) && StillIn(q, n) {
        StepFrom(env, nested, call, o, t, q, possessive, next, p, n - 1, c);
        assert b.off == o && Stays(env, nested, call, o, p, n - 1, b) && Steps(env, nested, call, b, c);
      }
    }
  }

  /** Where a run leaves from after n steps in the item. */
  lemma LeavesAfter(env: Env, nested: Nested, call: Call, o: int, t: CharTest, q: Quantifier, possessive: bool,
                    next: int, p: int, n: nat, e: int)
    requires ValidEnv(env) && IsRepeat(env, call, o, t, q, possessive, next) && 0 <= p <= |env.subject|
    requires Stays(env, nested, call, o, p, n, Config(next, 0, e))
    ensures e >= p && MayTake(env, t, q, possessive, p, e - p)
  {
    hide ValidEnv, Steps, PassesAt;
    var d: Config :| d.off == o && Stays(env, nested, call, o, p, n - 1, d)
                     && Steps(env, nested, call, d, Config(next, 0, e));
    StaysWhile(env, nested, call, o, t, q, possessive, next, p, n - 1, d);
    StepFrom(env, nested, call, o, t, q, possessive, next, p, n - 1, Config(next, 0, e));
  }

  /** A run that takes k characters and leaves. */
  lemma LeavesWith(env: Env, nested: Nested, call: Call, o: int, t: CharTest, q: Quantifier, possessive: bool,
                   next: int, p: int, k: nat)
    requires ValidEnv(env) && IsRepeat(env, call, o, t, q, possessive, next) && 0 <= p <= |env.subject|
    requires MayTake(env, t, q, possessive, p, k)
    ensures LeavesAt(env, nested, call, o, p, next, p + k)
  {
    hide ValidEnv, Steps, PassesAt;
    var n := if StillIn(q, k) then k else k - 1;
    var b, c := Taken(q, o, p, n), Config(next, 0, p + k);
    StaysWhile(env, nested, call, o, t, q, possessive, next, p, n, b);
    StepFrom(env, nested, call, o, t, q, possessive, next, p, n, c);
    if StillIn(q, k) && PassesAt(env, t, p + k) {
      assert AllPass(env, t, p, k + 1);
    }
    assert b.off == o && Stays(env, nested, call, o, p, n, b) && Steps(env, nested, call, b, c);
    assert Stays(env, nested, call, o, p, n + 1, c);
  }

  /** Runs that enter a repeat at p leave it exactly behind the numbers of characters that it may match. */
  lemma RepeatTakes(env: Env, nested: Nested, call: Call, o: int, t: CharTest, q: Quantifier, possessive: bool,
                    next: int, p: int, e: int)
    requires ValidEnv(env) && IsRepeat(env, call, o, t, q, possessive, next) && 0 <= p <= |env.subject|
    ensures LeavesAt(env, nested, call, o, p, next, e) <==> e >= p && MayTake(env, t, q, possessive, p, e - p)
  {
    hide ValidEnv, Stays, MayTake;
    if LeavesAt(env, nested, call, o, p, next, e) {
      var n: nat :| Stays(env, nested, call, o, p, n, Config(next, 0, e));
      LeavesAfter(env, nested, call, o, t, q, possessive, next, p, n, e);
    }
    if e >= p && MayTake(env, t, q, possessive, p, e - p) {
      LeavesWith(env, nested, call, o, t, q, possessive, next, p, e - p);
    }
  }
}
