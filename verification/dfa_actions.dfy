/** The actions of the matcher that need no nested call: each adds exactly the states of one step. */
module DfaActions {
  import opened DfaProgram
  import opened DfaSemantics
  import opened DfaStates
  import opened DfaCrowd

  const PCRE_ERROR_NOMATCH := -1
  const PCRE_ERROR_DFA_UITEM := -16
  const PCRE_ERROR_DFA_WSSIZE := -19
  const PCRE_ERROR_DFA_RECURSE := -20
  const PCRE_ERROR_RECURSELOOP := -26

  /** To carry on: no error has been found yet. */
  const OK := 0

  /** bs is a list that began as as and got the configurations cs appended. */
  ghost predicate Grown(was: seq<Block>, bs: seq<Block>, p: int, cs: seq<Config>) {
    was <= bs && Images(bs, p) == Images(was, p) + cs
  }

  lemma GrownOnce(was: seq<Block>, b: Block, p: int)
    ensures Grown(was, was + [b], p, [Image(b, p)])
  {
  }

  lemma GrownTwice(a: seq<Block>, b: seq<Block>, c: seq<Block>, p: int, x: seq<Config>, y: seq<Config>)
    requires Grown(a, b, p, x) && Grown(b, c, p, y)
    ensures Grown(a, c, p, x + y)
  {
    assert Images(a, p) + x + y == Images(a, p) + (x + y);
  }

  /** ADD_ACTIVE with a repeat count of 0. */
  method PushHere(lists: StateLists, off: int, p: int) returns (rc: int)
    requires lists.Valid() && off >= 0
    modifies lists`activeCount, lists`active, lists.workspace
    ensures lists.Valid()
    ensures lists.workspace[0] == old(lists.workspace[0]) && lists.workspace[1] == old(lists.workspace[1])
    ensures rc == if old(|lists.active|) < lists.capacity then OK else PCRE_ERROR_DFA_WSSIZE
    ensures rc == OK ==> Grown(old(lists.active), lists.active, p, [Config(off, 0, p)])
  {
    var ok := lists.AddActive(off, 0);
    if !ok { return PCRE_ERROR_DFA_WSSIZE; }
    ghost var d :| lists.active == old(lists.active) + [Block(off, 0, d)];
    GrownOnce(old(lists.active), Block(off, 0, d), p);
    return OK;
  }

  /** ADD_NEW: a state for the next character. */
  method PushNext(lists: StateLists, off: int, count: int, p: int) returns (rc: int)
    requires lists.Valid() && off >= 0
    modifies lists`newCount, lists`later, lists.workspace
    ensures lists.Valid()
    ensures lists.workspace[0] == old(lists.workspace[0]) && lists.workspace[1] == old(lists.workspace[1])
    ensures rc == if old(|lists.later|) < lists.capacity then OK else PCRE_ERROR_DFA_WSSIZE
    ensures rc == OK ==> Grown(old(lists.later), lists.later, p + 1, [Config(off, count, p + 1)])
  {
    var ok := lists.AddNew(off, count);
    if !ok { return PCRE_ERROR_DFA_WSSIZE; }
    ghost var d :| lists.later == old(lists.later) + [Block(off, count, d)];
    GrownOnce(old(lists.later), Block(off, count, d), p + 1);
    return OK;
  }

  /** ADD_NEW_DATA with a negated offset: a state that waits for more characters to pass. */
  method PushWaiting(lists: StateLists, off: int, count: int, data: int, p: int) returns (rc: int)
    requires lists.Valid() && off > 0
    modifies lists`newCount, lists`later, lists.workspace
    ensures lists.Valid()
    ensures lists.workspace[0] == old(lists.workspace[0]) && lists.workspace[1] == old(lists.workspace[1])
    ensures rc == if old(|lists.later|) < lists.capacity then OK else PCRE_ERROR_DFA_WSSIZE
    ensures rc == OK ==> Grown(old(lists.later), lists.later, p + 1, [Config(off, count, p + 1 + data)])
  {
    var ok := lists.AddNewData(-off, count, data);
    if !ok { return PCRE_ERROR_DFA_WSSIZE; }
    GrownOnce(old(lists.later), Block(-off, count, data), p + 1);
    return OK;
  }

  /** Brackets, kets, alternatives, BRAZERO and SKIPZERO: one ADD_ACTIVE for each offset. */
  method PushAll(lists: StateLists, targets: seq<int>, p: int) returns (rc: int)
    requires lists.Valid() && forall t <- targets :: t >= 0
    modifies lists`activeCount, lists`active, lists.workspace
    ensures lists.Valid()
    ensures lists.workspace[0] == old(lists.workspace[0]) && lists.workspace[1] == old(lists.workspace[1])
    ensures rc == if old(|lists.active|) + |targets| <= lists.capacity then OK else PCRE_ERROR_DFA_WSSIZE
    ensures rc == OK ==> Grown(old(lists.active), lists.active, p, JumpTo(targets, p))
  {
    var i := 0;
    while i < |targets|
      invariant 0 <= i <= |targets|
      invariant lists.Valid() && |lists.active| == old(|lists.active|) + i
      invariant lists.workspace[0] == old(lists.workspace[0]) && lists.workspace[1] == old(lists.workspace[1])
      invariant Grown(old(lists.active), lists.active, p, JumpTo(targets[..i], p))
    {
      ghost var before := lists.active;
      assert targets[i] in targets;
      rc := PushHere(lists, targets[i], p);
      if rc != OK { return; }
      GrownTwice(old(lists.active), before, lists.active, p, JumpTo(targets[..i], p), [Config(targets[i], 0, p)]);
      assert JumpTo(targets[..i + 1], p) == JumpTo(targets[..i], p) + [Config(targets[i], 0, p)];
      i := i + 1;
    }
    assert targets[..i] == targets;
    return OK;
  }

  /** The repeats: the way past is added first and taken back by a possessive one that can go on. A
      possessive range with too low a count has added nothing: it takes back whatever came last. */
  method ActRepeat(lists: StateLists, o: int, count: int, p: int, passes: bool,
                   q: Quantifier, possessive: bool, next: int) returns (rc: int)
    requires lists.Valid() && o >= 0 && next >= 0 && count >= 0
    requires TakesTooMuch(count, passes, q, possessive) ==> lists.active != []
    modifies lists`activeCount, lists`active, lists`newCount, lists`later, lists.workspace
    ensures lists.Valid()
    ensures lists.workspace[0] == old(lists.workspace[0]) && lists.workspace[1] == old(lists.workspace[1])
    ensures rc == OK || rc == PCRE_ERROR_DFA_WSSIZE
    ensures rc != OK ==>
              var out := StepRepeat(o, count, p, passes, q, possessive, next);
              NoRoom(lists.capacity, old(lists.active), old(lists.later),
                     if possessive then 1 else |out.here|, |out.later|)
    ensures rc == OK ==>
              var out := StepRepeat(o, count, p, passes, q, possessive, next);
              && Grown(old(lists.later), lists.later, p + 1, out.later)
              && if TakesTooMuch(count, passes, q, possessive) then
                   lists.active == old(lists.active)[..old(|lists.active|) - 1]
                 else
                   Grown(old(lists.active), lists.active, p, out.here)
  {
    hide StateLists.Valid, StateLists.Holds;
    var past := match q
      case Star => true
      case Plus => count > 0
      case Query => true
      case Upto(_) => true
      case Exact(_) => false
      case Range(low, _) => count >= low;
    if past {
      rc := PushHere(lists, next, p);
      if rc != OK { return; }
    }
    if passes {
      if possessive && (past || q.Range?) {
        lists.DropActive();
      }
      rc := PushRepeated(lists, o, count, p, q, possessive, next);
      if rc != OK { return; }
    }
    return OK;
  }

  /** The character passes: on to the next one, or past the repeat when that was the last one. */
  method PushRepeated(lists: StateLists, o: int, count: int, p: int, q: Quantifier, ghost possessive: bool, next: int)
    returns (rc: int)
    requires lists.Valid() && o >= 0 && next >= 0
    modifies lists`newCount, lists`later, lists.workspace
    ensures lists.Valid()
    ensures lists.workspace[0] == old(lists.workspace[0]) && lists.workspace[1] == old(lists.workspace[1])
    ensures rc == if old(|lists.later|) < lists.capacity then OK else PCRE_ERROR_DFA_WSSIZE
    ensures rc == OK ==>
              Grown(old(lists.later), lists.later, p + 1, StepRepeat(o, count, p, true, q, possessive, next).later)
  {
    hide StateLists.Valid, StateLists.Holds, Grown;
    match q {
      case Star =>
        rc := PushNext(lists, o, 0, p);
      case Query =>
        rc := PushNext(lists, next, 0, p);
      case Plus =>
        rc := PushNext(lists, o, count + 1, p);
      case Upto(high) =>
        if count + 1 >= high { rc := PushNext(lists, next, 0, p); } else { rc := PushNext(lists, o, count + 1, p); }
      case Exact(high) =>
        if count + 1 >= high { rc := PushNext(lists, next, 0, p); } else { rc := PushNext(lists, o, count + 1, p); }
      case Range(_, high) =>
        if count + 1 >= high && high != 0 { rc := PushNext(lists, next, 0, p); }
        else { rc := PushNext(lists, o, count + 1, p); }
    }
  }

  /** One of the lists has no room for so many states. */
  ghost predicate NoRoom(capacity: nat, active: seq<Block>, later: seq<Block>, here: nat, further: nat) {
    |active| + here > capacity || |later| + further > capacity
  }

  /** The items that need no nested call. */
  method ActPlain(env: Env, som: int, lists: StateLists, c: Config) returns (rc: int)
    requires ValidEnv(env) && lists.Valid() && lists.active != []
    requires c.off in env.code.items && c.off >= 0 && c.count >= 0 && 0 <= c.pos <= |env.subject|
    requires forall t <- Targets(c.off, env.code.items[c.off]) :: t > 0
    requires NestedCall(env, c).None?
    modifies lists`activeCount, lists`active, lists`newCount, lists`later, lists.workspace
    ensures lists.Valid()
    ensures lists.workspace[0] == old(lists.workspace[0]) && lists.workspace[1] == old(lists.workspace[1])
    ensures rc == OK || rc == PCRE_ERROR_DFA_WSSIZE || rc == PCRE_ERROR_DFA_UITEM
    ensures rc == OK ==>
              var out := StepWith(env, som, c, []);
              && out.Go?
              && Grown(old(lists.later), lists.later, c.pos + 1, out.later)
              && if TooMuch(env, c) then lists.active == old(lists.active)[..old(|lists.active|) - 1]
                 else Grown(old(lists.active), lists.active, c.pos, out.here)
    ensures rc == PCRE_ERROR_DFA_UITEM ==> StepWith(env, som, c, []).Stop?
    ensures rc == PCRE_ERROR_DFA_WSSIZE ==>
              var out := StepWith(env, som, c, []);
              out.Go? && NoRoom(lists.capacity, old(lists.active), old(lists.later), Takes(env, c, out), |out.later|)
  {
    hide WellFormed, StateLists.Valid, StateLists.Holds, Holds, Passes;
    var p := c.pos;
    var inside := p < |env.subject|;
    ghost var targets := Targets(c.off, env.code.items[c.off]);
    rc := OK;
    match env.code.items[c.off] {
      case Jump(ts) =>
        rc := PushAll(lists, ts, p);
      case ZeroWidth(op, next) =>
        assert next in targets;
        if Holds(env, som, op, p) { rc := PushHere(lists, next, p); }
      case One(t, next) =>
        assert next in targets;
        if inside && Passes(env, t, p) { rc := PushNext(lists, next, 0, p); }
      case NewlineSequence(next) =>
        assert next in targets;
        var k := NewlineLength(env, p);
        if k == 1 {
          rc := PushNext(lists, next, 0, p);
        } else if k == 2 {
          rc := PushWaiting(lists, next, 0, 1, p);
        }
      case Repeat(t, q, possessive, next) =>
        assert next in targets;
        rc := ActRepeat(lists, c.off, c.count, p, inside && Passes(env, t, p), q, possessive, next);
      case ForcedFail =>
      case Unsupported =>
        rc := PCRE_ERROR_DFA_UITEM;
      case _ =>
        assert false;
    }
  }
}
