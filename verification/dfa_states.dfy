/** The two state lists of the matcher, laid out in the caller's vector of ints as the C code does:
    two flag words, then two halves of three-int state blocks that swap roles at each character. */
module DfaStates {
  import opened DfaSemantics

  /** A state block. A negative offset means: resume at -off once data more characters have passed. */
  datatype Block = Block(off: int, count: int, data: int)

  /** The configuration that a block in the list for position p stands for. */
  function Image(b: Block, p: int): Config {
    if b.off < 0 then Config(-b.off, b.count, p + b.data) else Config(b.off, b.count, p)
  }

  function Images(bs: seq<Block>, p: int): (cs: seq<Config>)
    ensures |cs| == |bs|
  {
    seq(|bs|, i requires 0 <= i < |bs| => Image(bs[i], p))
  }

  /** How many blocks fit into each half of a vector of wscount ints. */
  function Capacity(wscount: int): (n: nat)
    requires wscount >= 2
    ensures 2 + 6 * n <= wscount
  {
    ((wscount - 2) - (wscount - 2) % 6) / 6
  }

  /** The blocks that a vector hands over to a later call: the flag words name their half and number. */
  ghost predicate HandsOver(ws: seq<int>, capacity: nat) {
    2 + 6 * capacity <= |ws| && (ws[0] == 0 || ws[0] == 1) && 0 <= ws[1] <= capacity
  }

  ghost function SavedBlocks(ws: seq<int>, capacity: nat): seq<Block>
    requires HandsOver(ws, capacity)
  {
    BlocksAt(ws, if ws[0] == 0 then 2 else 2 + 3 * capacity, ws[1])
  }

  /** The n blocks that lie in the ints from base on. */
  ghost function BlocksAt(ws: seq<int>, base: nat, n: nat): (bs: seq<Block>)
    requires base + 3 * n <= |ws|
    ensures |bs| == n
  {
    seq(n, i requires 0 <= i < n => Block(ws[base + 3 * i], ws[base + 3 * i + 1], ws[base + 3 * i + 2]))
  }

  lemma SameInts(ws: seq<int>, base: nat, ws': seq<int>, base': nat, n: nat)
    requires base + 3 * n <= |ws| && base' + 3 * n <= |ws'|
    requires ws[base..base + 3 * n] == ws'[base'..base' + 3 * n]
    ensures BlocksAt(ws, base, n) == BlocksAt(ws', base', n)
  {
    var s, s' := ws[base..base + 3 * n], ws'[base'..base' + 3 * n];
    forall i | 0 <= i < n ensures BlocksAt(ws, base, n)[i] == BlocksAt(ws', base', n)[i] {
      assert s[3 * i] == s'[3 * i] && s[3 * i + 1] == s'[3 * i + 1] && s[3 * i + 2] == s'[3 * i + 2];
    }
  }

  ghost predicate LieAt(ws: seq<int>, base: nat, bs: seq<Block>)
    requires base + 3 * |bs| <= |ws|
  {
    forall i {:trigger bs[i]} :: 0 <= i < |bs| ==>
      ws[base + 3 * i] == bs[i].off && ws[base + 3 * i + 1] == bs[i].count && ws[base + 3 * i + 2] == bs[i].data
  }

  /** Writing elsewhere keeps the blocks. */
  lemma StillLie(ws: seq<int>, ws': seq<int>, base: nat, bs: seq<Block>)
    requires base + 3 * |bs| <= |ws| == |ws'| && LieAt(ws, base, bs)
    requires forall i :: base <= i < base + 3 * |bs| ==> ws[i] == ws'[i]
    ensures LieAt(ws', base, bs)
  {
  }

  lemma NothingLies(ws: seq<int>, base: nat)
    requires base <= |ws|
    ensures LieAt(ws, base, [])
  {
  }

  /** One block more behind the others. */
  lemma OneMoreLies(ws: seq<int>, base: nat, bs: seq<Block>, b: Block)
    requires base + 3 * |bs| + 3 <= |ws| && LieAt(ws, base, bs)
    requires ws[base + 3 * |bs|] == b.off && ws[base + 3 * |bs| + 1] == b.count && ws[base + 3 * |bs| + 2] == b.data
    ensures LieAt(ws, base, bs + [b])
  {
  }

  class StateLists {
    const workspace: array<int>
    const capacity: nat
    var activeBase: nat
    var newBase: nat
    var activeCount: nat
    var newCount: nat
    ghost var active: seq<Block>
    ghost var later: seq<Block>

    /** The blocks bs lie in the vector from base on. */
    ghost predicate Holds(base: nat, bs: seq<Block>)
      reads workspace
      requires base + 3 * |bs| <= workspace.Length
    {
      LieAt(workspace[..], base, bs)
    }

    /** The two halves do not overlap, fit into the vector, and hold the two lists; the first flag
        word says which half is the current one. */
    ghost predicate Valid()
      reads this, workspace
    {
      && 0 < capacity && 2 + 6 * capacity <= workspace.Length
      && ((activeBase == 2 && newBase == 2 + 3 * capacity) || (activeBase == 2 + 3 * capacity && newBase == 2))
      && |active| == activeCount <= capacity
      && |later| == newCount <= capacity
      && Holds(activeBase, active)
      && Holds(newBase, later)
    }

    ghost predicate ParityNamesActive()
      reads this, workspace
    {
      workspace.Length >= 2 && workspace[0] == (if activeBase == 2 then 0 else 1)
    }

    constructor (ws: array<int>, wscount: int)
      requires 20 <= wscount <= ws.Length
      ensures Valid() && workspace == ws && capacity == Capacity(wscount)
      ensures active == [] && later == [] && activeBase == 2
    {
      workspace := ws;
      capacity := Capacity(wscount);
      activeBase := 2;
      newBase := 2 + 3 * Capacity(wscount);
      activeCount := 0;
      newCount := 0;
      active := [];
      later := [];
    }

    method AddActive(off: int, count: int) returns (ok: bool)
      requires Valid()
      modifies this`activeCount, this`active, workspace
      ensures Valid() && workspace[0] == old(workspace[0]) && workspace[1] == old(workspace[1])
      ensures ok == (old(activeCount) < capacity)
      ensures !ok ==> active == old(active)
      ensures ok ==> exists d :: active == old(active) + [Block(off, count, d)]
    {
      hide LieAt;
      ghost var was := workspace[..];
      ok := activeCount < capacity;
      if ok {
        var at := activeBase + 3 * activeCount;
        assert at + 3 <= newBase || newBase + 3 * newCount <= at;
        ghost var d := workspace[at + 2];
        workspace[at] := off;
        workspace[at + 1] := count;
        StillLie(was, workspace[..], newBase, later);
        StillLie(was, workspace[..], activeBase, active);
        OneMoreLies(workspace[..], activeBase, active, Block(off, count, d));
        active := active + [Block(off, count, d)];
        activeCount := activeCount + 1;
      }
    }

    method AddNew(off: int, count: int) returns (ok: bool)
      requires Valid()
      modifies this`newCount, this`later, workspace
      ensures Valid() && workspace[0] == old(workspace[0]) && workspace[1] == old(workspace[1])
      ensures ok == (old(newCount) < capacity)
      ensures !ok ==> later == old(later)
      ensures ok ==> exists d :: later == old(later) + [Block(off, count, d)]
    {
      hide LieAt;
      ghost var was := workspace[..];
      ok := newCount < capacity;
      if ok {
        var at := newBase + 3 * newCount;
        assert at + 3 <= activeBase || activeBase + 3 * activeCount <= at;
        ghost var d := workspace[at + 2];
        workspace[at] := off;
        workspace[at + 1] := count;
        StillLie(was, workspace[..], activeBase, active);
        StillLie(was, workspace[..], newBase, later);
        OneMoreLies(workspace[..], newBase, later, Block(off, count, d));
        later := later + [Block(off, count, d)];
        newCount := newCount + 1;
      }
    }

    method AddNewData(off: int, count: int, data: int) returns (ok: bool)
      requires Valid()
      modifies this`newCount, this`later, workspace
      ensures Valid() && workspace[0] == old(workspace[0]) && workspace[1] == old(workspace[1])
      ensures ok == (old(newCount) < capacity)
      ensures later == old(later) + if ok then [Block(off, count, data)] else []
    {
      hide LieAt;
      ghost var was := workspace[..];
      ok := newCount < capacity;
      if ok {
        var at := newBase + 3 * newCount;
        assert at + 3 <= activeBase || activeBase + 3 * activeCount <= at;
        workspace[at] := off;
        workspace[at + 1] := count;
        workspace[at + 2] := data;
        StillLie(was, workspace[..], activeBase, active);
        StillLie(was, workspace[..], newBase, later);
        OneMoreLies(workspace[..], newBase, later, Block(off, count, data));
        later := later + [Block(off, count, data)];
        newCount := newCount + 1;
      }
    }

    /** A possessive repeat takes back the state it has just added. */
    method DropActive()
      requires Valid() && active != []
      modifies this`activeCount, this`active
      ensures Valid() && active == old(active)[..old(|active|) - 1]
    {
      activeCount := activeCount - 1;
      active := active[..activeCount];
    }

    /** The new list becomes the active one and is emptied; the flag words record the change. */
    method Swap()
      requires Valid() && ParityNamesActive()
      modifies this, workspace
      ensures Valid() && ParityNamesActive()
      ensures active == old(later) && later == [] && workspace[1] == activeCount
    {
      hide LieAt;
      ghost var was := workspace[..];
      activeBase, newBase := newBase, activeBase;
      activeCount, newCount := newCount, 0;
      active, later := later, [];
      workspace[0] := 1 - workspace[0];
      workspace[1] := activeCount;
      StillLie(was, workspace[..], activeBase, active);
      NothingLies(workspace[..], newBase);
    }

    /** The block at i is due: its offset loses the sign. */
    method Wake(i: nat)
      requires Valid() && i < activeCount && active[i].off < 0
      modifies this`active, workspace
      ensures Valid() && workspace[0] == old(workspace[0]) && workspace[1] == old(workspace[1])
      ensures active == old(active)[i := old(active)[i].(off := -old(active)[i].off)]
    {
      workspace[activeBase + 3 * i] := -workspace[activeBase + 3 * i];
      active := active[i := active[i].(off := -active[i].off)];
    }

    method Get(i: nat) returns (b: Block)
      requires Valid() && i < activeCount
      ensures b == active[i]
    {
      b := Block(workspace[activeBase + 3 * i], workspace[activeBase + 3 * i + 1], workspace[activeBase + 3 * i + 2]);
      assert b.off == active[i].off;
    }

    /** Is there a block before i with this offset and count? */
    method IsDuplicate(i: nat, off: int, count: int) returns (found: bool)
      requires Valid() && i <= activeCount
      ensures found <==> exists j :: 0 <= j < i && active[j].off == off && active[j].count == count
    {
      var j := 0;
      while j < i
        invariant 0 <= j <= i
        invariant forall l :: 0 <= l < j ==> !(active[l].off == off && active[l].count == count)
      {
        var b := Get(j);
        if b.off == off && b.count == count {
          return true;
        }
        j := j + 1;
      }
      return false;
    }

    /** What the vector hands over are the blocks that were active when the position was entered. */
    lemma SavedAreActive()
      requires Valid() && ParityNamesActive() && 0 <= workspace[1] <= activeCount
      ensures HandsOver(workspace[..], capacity)
      ensures SavedBlocks(workspace[..], capacity) == active[..workspace[1]]
    {
      var ws := workspace[..];
      forall i | 0 <= i < ws[1] ensures SavedBlocks(ws, capacity)[i] == active[i] {
        assert workspace[activeBase + 3 * i] == active[i].off;
      }
    }

    lemma HandsOn()
      requires Valid() && ParityNamesActive() && 0 <= workspace[1] <= capacity
      ensures HandsOver(workspace[..], capacity)
    {
      hide LieAt;
    }

    /** Restarting: the saved blocks become the new list, copied if they lie in the first half. */
    method Restore()
      requires Valid() && active == [] && later == [] && activeBase == 2
      requires HandsOver(workspace[..], capacity)
      modifies this`newCount, this`later, workspace
      ensures Valid() && ParityNamesActive() && later == old(SavedBlocks(workspace[..], capacity))
    {
      newCount := CopySaved(workspace, capacity);
      later := BlocksAt(workspace[..], newBase, newCount);
    }
  }

  /** Bring the saved blocks into the second half and reset the flag word. */
  method CopySaved(workspace: array<int>, capacity: nat) returns (n: nat)
    requires HandsOver(workspace[..], capacity)
    modifies workspace
    ensures n <= capacity && 2 + 6 * capacity <= workspace.Length && workspace[0] == 0
    ensures BlocksAt(workspace[..], 2 + 3 * capacity, n) == old(SavedBlocks(workspace[..], capacity))
  {
    n := workspace[1];
    var base := 2 + 3 * capacity;
    if workspace[0] == 0 {
      CopyInts(workspace, 2, base, 3 * n);
      assert workspace[..][base..base + 3 * n] == old(workspace[..])[2..2 + 3 * n];
      SameInts(workspace[..], base, old(workspace[..]), 2, n);
    }
    ghost var copied := workspace[..];
    workspace[0] := 0;
    assert workspace[..][base..base + 3 * n] == copied[base..base + 3 * n];
    SameInts(workspace[..], base, copied, base, n);
  }

  /** memcpy between two places that do not overlap. */
  method CopyInts(a: array<int>, from: nat, to: nat, n: nat)
    requires from + n <= to && to + n <= a.Length
    modifies a
    ensures a[to..to + n] == old(a[from..from + n])
    ensures forall i :: 0 <= i < to ==> a[i] == old(a[i])
  {
    var i := 0;
    while i < n
      invariant 0 <= i <= n
      invariant a[to..to + i] == old(a[from..from + i])
      invariant forall j :: 0 <= j < to ==> a[j] == old(a[j])
    {
      a[to + i] := a[from + i];
      i := i + 1;
    }
  }
}
