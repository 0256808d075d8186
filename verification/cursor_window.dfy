/** Filling a window of limited capacity with rows of a query, around a row that must be in it. */
module CursorWindow {
  import opened Basics

  /** A row is the sequence of its column values. */
  class Window<V> {
    var rows: seq<seq<V>>

    /** Whether a new row can be begun, and whether a value can be added to the last row. */
    const rowFits: seq<seq<V>> -> bool
    const valueFits: (seq<seq<V>>, V) -> bool

    constructor (rowFits: seq<seq<V>> -> bool, valueFits: (seq<seq<V>>, V) -> bool)
      ensures rows == [] && this.rowFits == rowFits && this.valueFits == valueFits
    {
      rows := [];
      this.rowFits, this.valueFits := rowFits, valueFits;
    }

    /** The row fits behind the rows that are there. */
    ghost predicate Fits(before: seq<seq<V>>, row: seq<V>) {
      rowFits(before) && forall i :: 0 <= i < |row| ==> valueFits(before + [row[..i]], row[i])
    }

    /** copyRowToWindow: a row is added as a whole or not at all. */
    method CopyRow(row: seq<V>) returns (ok: bool)
      modifies this
      ensures ok <==> Fits(old(rows), row)
      ensures rows == if ok then old(rows) + [row] else old(rows)
    {
      ok := rowFits(rows);
      if ok {
        rows := rows + [[]];
      }
      var i := 0;
      while ok && i < |row|
        invariant 0 <= i <= |row|
        invariant ok ==> rowFits(old(rows)) && rows == old(rows) + [row[..i]]
        invariant ok ==> forall j :: 0 <= j < i ==> valueFits(old(rows) + [row[..j]], row[j])
        invariant !ok ==> rows == old(rows) && !Fits(old(rows), row)
        decreases |row| - i, ok
      {
        ok := valueFits(rows, row[i]);
        if ok {
          assert row[..i + 1] == row[..i] + [row[i]];
          rows := rows[|rows| - 1 := rows[|rows| - 1] + [row[i]]];
          i := i + 1;
        } else {
          rows := rows[..|rows| - 1];
        }
      }
      assert ok ==> row[..|row|] == row;
    }
  }

  /** The window holds the rows from start on, without a gap. */
  ghost predicate Run<V>(all: seq<seq<V>>, start: nat, rows: seq<seq<V>>) {
    rows == [] || (start + |rows| <= |all| && rows == all[start..start + |rows|])
  }

  lemma RunOn<V>(all: seq<seq<V>>, start: nat, rows: seq<seq<V>>)
    requires start + |rows| < |all| && Run(all, start, rows)
    ensures Run(all, start, rows + [all[start + |rows|]])
  {
  }

  /** Each of the rows fits an empty window. */
  ghost predicate EachFits<V>(window: Window<V>, all: seq<seq<V>>, from: nat, to: nat) {
    forall r :: from <= r <= to && r < |all| ==> window.Fits([], all[r])
  }

  /** Rows t to e fit one window, one after another. */
  ghost predicate FitTogether<V>(window: Window<V>, all: seq<seq<V>>, t: nat, e: nat) {
    t <= e <= |all| && forall r :: t <= r < e ==> window.Fits(all[t..r], all[r])
  }

  /** From row t on the rows fit one window up to row e, which does not. */
  ghost predicate FullAt<V>(window: Window<V>, all: seq<seq<V>>, t: nat, e: nat) {
    e < |all| && FitTogether(window, all, t, e) && !window.Fits(all[t..e], all[e])
  }

  /** The rows at which the window may begin: the start asked for, and from each of them, when it fills up before or
      at the required row, the row that no longer fits. */
  ghost predicate Begins<V>(window: Window<V>, all: seq<seq<V>>, startPos: nat, required: nat, s: nat)
    decreases s
  {
    || s == startPos
    || (s <= required &&
        exists t: nat :: t < s && Begins(window, all, startPos, required, t) && FullAt(window, all, t, s))
  }

  /** The window begins at s and has taken all the rows from there on that fit. */
  ghost predicate Filled<V>(window: Window<V>, all: seq<seq<V>>, s: nat)
    reads window
  {
    if s > |all| then window.rows == []
    else
      var e := s + |window.rows|;
      && FitTogether(window, all, s, e) && window.rows == all[s..e]
      && (e < |all| ==> FullAt(window, all, s, e))
  }

  /** It would not have been cleared for a later row. */
  ghost predicate Stays<V>(window: Window<V>, all: seq<seq<V>>, required: nat, s: nat) {
    forall e: nat :: FullAt(window, all, s, e) ==> e == s || e > required
  }

  /** So there is just one row at which it can begin. */
  lemma BeginsOnce<V>(window: Window<V>, all: seq<seq<V>>, startPos: nat, required: nat, s: nat, t: nat)
    requires Begins(window, all, startPos, required, s) && Stays(window, all, required, s)
    requires Begins(window, all, startPos, required, t) && Stays(window, all, required, t)
    ensures s == t
  {
    if s < t {
      var e := NextBeginning(window, all, startPos, required, s, t);
    } else if t < s {
      var e := NextBeginning(window, all, startPos, required, t, s);
    }
  }

  lemma BeginsNotBefore<V>(window: Window<V>, all: seq<seq<V>>, startPos: nat, required: nat, s: nat)
    requires Begins(window, all, startPos, required, s)
    ensures s >= startPos
    decreases s
  {
    if s != startPos {
      var t: nat :| t < s && Begins(window, all, startPos, required, t) && FullAt(window, all, t, s);
      BeginsNotBefore(window, all, startPos, required, t);
    }
  }

  lemma FullAtOnce<V>(window: Window<V>, all: seq<seq<V>>, t: nat, e: nat, d: nat)
    requires FullAt(window, all, t, e) && FullAt(window, all, t, d)
    ensures e == d
  {
  }

  /** Between two such rows the window fills up. */
  lemma {:induction false} NextBeginning<V>(window: Window<V>, all: seq<seq<V>>, startPos: nat, required: nat,
                                            s: nat, t: nat)
    returns (e: nat)
    requires Begins(window, all, startPos, required, s) && Begins(window, all, startPos, required, t) && s < t
    ensures FullAt(window, all, s, e) && s < e <= t && e <= required
    decreases t
  {
    hide FullAt;
    BeginsNotBefore(window, all, startPos, required, s);
    var u: nat :| u < t && Begins(window, all, startPos, required, u) && FullAt(window, all, u, t);
    if u == s {
      e := t;
    } else if s < u {
      e := NextBeginning(window, all, startPos, required, s, u);
    } else {
      var d := NextBeginning(window, all, startPos, required, u, s);
      FullAtOnce(window, all, u, t, d);
      e := t;
    }
  }

  /**
   * Copying row nRow. When it does not fit and the required row is not in the window yet, the window is cleared
   * and begins with this row; refused tells that it could not be given its columns then.
   */
  method PlaceRow<V>(all: seq<seq<V>>, window: Window<V>, nRow: nat, start: nat, required: nat, columnsFit: bool)
    returns (newStart: nat, ok: bool, refused: bool)
    requires nRow < |all| && start <= nRow && |window.rows| == nRow - start && Run(all, start, window.rows)
    modifies window
    ensures refused ==> !columnsFit && window.rows == [] && nRow <= required
    ensures !refused ==>
              && Run(all, newStart, window.rows) && start <= newStart <= nRow
              && (newStart == start || newStart <= required)
              && |window.rows| == nRow - newStart + (if ok then 1 else 0)
              && (!ok ==> !window.Fits(window.rows, all[nRow]))
              && (ok ==> window.Fits(window.rows[..nRow - newStart], all[nRow]))
              && (nRow <= required ==> ok || newStart == nRow)
              && (nRow <= required && window.Fits([], all[nRow]) ==> ok)
              && (nRow > required ==> newStart == start)
              && (newStart != start ==> newStart == nRow && !window.Fits(old(window.rows), all[nRow]))
  {
    newStart, refused := start, false;
    RunOn(all, start, window.rows);
    ok := window.CopyRow(all[nRow]);
    if !ok && nRow <= required {
      window.rows := [];
      if !columnsFit {
        return newStart, false, true;
      }
      newStart := nRow;
      RunOn(all, nRow, []);
      ok := window.CopyRow(all[nRow]);
    }
  }

  /** What the window holds and the answer says: the window begins where it must, for the required row, and has taken
      all the rows from there on that fit; all rows have been counted, or those before the one that did not fit. */
  ghost predicate Answers<V>(window: Window<V>, all: seq<seq<V>>, startPos: nat, required: nat, countAll: bool,
                             start: nat, count: nat)
    reads window
  {
    && startPos <= start && (start == startPos || start <= required)
    && Begins(window, all, startPos, required, start) && Stays(window, all, required, start)
    && Filled(window, all, start)
    && (count == |all| || (!countAll && count == start + |window.rows| && count < |all|))
    && (startPos <= required < |all| && EachFits(window, all, startPos, required) ==>
          start <= required < start + |window.rows|)
  }

  /**
   * nativeExecuteForCursorWindow. columnsFit says whether the window, cleared before row k, can be given its
   * columns. The result packs the first row of the window and a row count. A start beyond the required row is
   * kept: then the window is never cleared for another one.
   */
  method Fill<V>(all: seq<seq<V>>, window: Window<V>, startPos: nat, required: nat, countAll: bool,
                 columnsFit: nat -> bool)
    returns (packed: nat)
    requires startPos < 0x8000_0000 && required < 0x8000_0000 && |all| < 0x8000_0000
    modifies window
    ensures || Answers(window, all, startPos, required, countAll, packed / TWO32, packed % TWO32)
            || (packed == 0 && window.rows == [] && exists k :: 0 <= k <= required + 1 && !columnsFit(k))
    ensures !columnsFit(0) ==> packed == 0 && window.rows == []
  {
    hide Run, EachFits, FullAt, FitTogether, Begins, Stays, Filled, Taken;
    window.rows := [];
    if !columnsFit(0) {
      return 0;
    }
    var nRow, start, ok := 0, startPos, true;
    NoRows(all, start);
    TakenNone(window, all, startPos, required);
    while nRow < |all|
      invariant 0 <= nRow <= |all| && startPos <= start && (start == startPos || start <= required)
      invariant start <= nRow || start == startPos
      invariant Run(all, start, window.rows)
      invariant ok ==> |window.rows| == if nRow >= start then nRow - start else 0
      invariant Begins(window, all, startPos, required, start)
      invariant Taken(window, all, required, start, nRow, ok)
      invariant !ok ==> countAll
      invariant startPos <= required && EachFits(window, all, startPos, required) && !ok ==>
                  required < start + |window.rows|
    {
      if nRow >= start && ok {
        FitsAt(window, all, startPos, required, nRow);
        var refused;
        ghost var rows, was := window.rows, start;
        TakenOpen(window, all, required, start, nRow);
        start, ok, refused := PlaceRow(all, window, nRow, start, required, columnsFit(nRow + 1));
        if refused {
          return 0;
        }
        TakenOn(window, all, startPos, required, was, start, nRow, ok, rows);
        if !ok && !countAll {
          break;
        }
      } else {
        TakenSkip(window, all, required, start, nRow, ok);
      }
      nRow := nRow + 1;
    }
    TakenAll(window, all, required, start, nRow, ok);
    assert Answers(window, all, startPos, required, countAll, start, nRow);
    hide Answers;
    packed := start * TWO32 + nRow;
    Unpacked(start, nRow);
  }

  /** The rows seen so far: all from start on are in the window, or it is full. */
  ghost predicate Taken<V>(window: Window<V>, all: seq<seq<V>>, required: nat, start: nat, nRow: nat, ok: bool)
    reads window
  {
    if start > nRow then window.rows == [] && ok
    else
      var e := start + |window.rows|;
      && FitTogether(window, all, start, e) && window.rows == all[start..e]
      && (ok ==> e == nRow)
      && (!ok ==> FullAt(window, all, start, e) && (e == start || e > required))
  }

  lemma TakenNone<V>(window: Window<V>, all: seq<seq<V>>, startPos: nat, required: nat)
    requires window.rows == []
    ensures Taken(window, all, required, startPos, 0, true) && Begins(window, all, startPos, required, startPos)
  {
  }

  /** A row at which the window is still open has been placed. */
  lemma TakenOn<V>(window: Window<V>, all: seq<seq<V>>, startPos: nat, required: nat, was: nat, start: nat, nRow: nat,
                   ok: bool, rows: seq<seq<V>>)
    requires was <= nRow < |all| && rows == all[was..nRow] && FitTogether(window, all, was, nRow)
    requires Begins(window, all, startPos, required, was)
    requires Run(all, start, window.rows) && was <= start <= nRow && (start == was || start <= required)
    requires |window.rows| == nRow - start + (if ok then 1 else 0)
    requires !ok ==> !window.Fits(window.rows, all[nRow])
    requires ok ==> window.Fits(window.rows[..nRow - start], all[nRow])
    requires nRow <= required ==> ok || start == nRow
    requires start != was ==> start == nRow && !window.Fits(rows, all[nRow])
    ensures Begins(window, all, startPos, required, start)
    ensures ok ==> Taken(window, all, required, start, nRow + 1, ok)
    ensures !ok ==> forall n :: n >= nRow ==> Taken(window, all, required, start, n, ok)
  {
    if start != was { assert FullAt(window, all, was, start); }
    assert ok ==> window.rows[..nRow - start] == all[start..nRow];
    assert !ok ==> window.rows == all[start..nRow];
  }

  lemma TakenOpen<V>(window: Window<V>, all: seq<seq<V>>, required: nat, start: nat, nRow: nat)
    requires Taken(window, all, required, start, nRow, true) && start <= nRow <= |all|
    ensures window.rows == all[start..nRow] && FitTogether(window, all, start, nRow)
  {
  }

  lemma TakenSkip<V>(window: Window<V>, all: seq<seq<V>>, required: nat, start: nat, nRow: nat, ok: bool)
    requires Taken(window, all, required, start, nRow, ok) && nRow < |all| && (ok ==> nRow < start)
    ensures Taken(window, all, required, start, nRow + 1, ok)
  {
  }

  lemma NotFull<V>(window: Window<V>, all: seq<seq<V>>, t: nat, e: nat)
    requires FitTogether(window, all, t, |all|)
    ensures !FullAt(window, all, t, e)
  {
  }

  lemma TakenAll<V>(window: Window<V>, all: seq<seq<V>>, required: nat, start: nat, nRow: nat, ok: bool)
    requires Taken(window, all, required, start, nRow, ok) && nRow <= |all| && (ok ==> nRow == |all|)
    ensures Filled(window, all, start) && Stays(window, all, required, start)
  {
    forall e: nat | FullAt(window, all, start, e) ensures e == start || e > required {
      if start <= nRow {
        if ok {
          NotFull(window, all, start, e);
        } else {
          FullAtOnce(window, all, start, start + |window.rows|, e);
        }
      }
    }
  }

  lemma NoRows<V>(all: seq<seq<V>>, start: nat)
    ensures Run(all, start, [])
  {
  }

  lemma FitsAt<V>(window: Window<V>, all: seq<seq<V>>, from: nat, to: nat, r: nat)
    ensures EachFits(window, all, from, to) && from <= r <= to && r < |all| ==> window.Fits([], all[r])
  {
  }

  lemma Unpacked(high: nat, low: nat)
    requires low < TWO32
    ensures (high * TWO32 + low) / TWO32 == high && (high * TWO32 + low) % TWO32 == low
  {
  }
}
