/** The hash table of the full-text module: one doubly linked list, in which every bucket is a segment. */
module FtsHash {
  import opened Basics

  type Key = seq<bv8>

  /** fts3BinHash before the last mask; characters are signed. */
  function Mixed(key: Key): bv32 {
    if key == [] then 0
    else
      var h := Mixed(key[..|key| - 1]);
      (h << 3) ^ h ^ SignExtended(key[|key| - 1])
  }

  function SignExtended(c: bv8): bv32 {
    if c < 0x80 then c as bv32 else 0xffff_ff00 | (c as bv32)
  }

  function Hash(key: Key): nat {
    (Mixed(key) & 0x7fff_ffff) as nat
  }

  class Elem<T> {
    const key: Key
    var data: T
    var next: Elem?<T>
    var prev: Elem?<T>

    constructor (key: Key, data: T)
      ensures this.key == key && this.data == data && next == null && prev == null
    {
      this.key, this.data, next, prev := key, data, null, null;
    }
  }

  datatype Bucket<T> = Bucket(count: nat, chain: Elem?<T>)

  /** The bucket of a key; the size being a power of two, masking with size - 1 gives the remainder. */
  function BucketOf(key: Key, size: nat): (b: nat)
    ensures size > 0 ==> b < size
  {
    if size == 0 then 0 else Hash(key) % size
  }

  ghost predicate PowerOfTwo(n: nat)
  {
    n == 1 || (n > 1 && n % 2 == 0 && PowerOfTwo(n / 2))
  }

  // ---------------------------------------------------------------- the list

  ghost function At<T>(order: seq<Elem<T>>, i: int): Elem?<T> {
    if 0 <= i < |order| then order[i] else null
  }

  ghost function Nodes<T>(order: seq<Elem<T>>): set<object> {
    set x | x in order
  }

  lemma SameNodes<T>(a: seq<Elem<T>>, b: seq<Elem<T>>)
    requires Nodes(a) == Nodes(b)
    ensures forall x :: x in a <==> x in b
  {
    assert forall x :: x in a <==> x in Nodes(a);
    assert forall x :: x in b <==> x in Nodes(b);
  }

  /** The elements are linked both ways in this order. */
  ghost predicate Linked<T>(order: seq<Elem<T>>, first: Elem?<T>)
    reads order
  {
    && first == At(order, 0)
    && (forall i, j :: 0 <= i < j < |order| ==> order[i] != order[j])
    && (forall i :: 0 <= i < |order| ==> order[i].next == At(order, i + 1))
    && (forall i :: 0 <= i < |order| ==> order[i].prev == At(order, i - 1))
  }

  /** The bucket numbers of a list of elements. */
  ghost function Buckets<T>(order: seq<Elem<T>>, size: nat): (h: seq<nat>)
    ensures |h| == |order|
  {
    seq(|order|, k requires 0 <= k < |order| => BucketOf(order[k].key, size))
  }

  /** In a list of bucket numbers, number b fills the segment of counts[b] places from starts[b] on, and no other. */
  ghost predicate Segments(h: seq<nat>, starts: seq<nat>, counts: seq<nat>) {
    && |starts| == |counts|
    && (forall b :: 0 <= b < |counts| ==> starts[b] + counts[b] <= |h|)
    && (forall b, k :: 0 <= b < |counts| && starts[b] <= k < starts[b] + counts[b] ==> h[k] == b)
    && (forall k :: 0 <= k < |h| ==> h[k] < |counts| && starts[h[k]] <= k < starts[h[k]] + counts[h[k]])
  }

  lemma EmptySegments()
    ensures Segments([], [], [])
  {
  }

  ghost function Inserted<T>(s: seq<T>, p: nat, e: T): (r: seq<T>)
    requires p <= |s|
    ensures |r| == |s| + 1
    ensures forall k :: 0 <= k < |r| ==> r[k] == if k < p then s[k] else if k == p then e else s[k - 1]
  {
    s[..p] + [e] + s[p..]
  }

  /** Where a new element of bucket b goes: in front of its bucket, or of the whole list. */
  ghost function Position(starts: seq<nat>, counts: seq<nat>, b: nat): nat
    requires b < |starts| == |counts|
  {
    if counts[b] > 0 then starts[b] else 0
  }

  /** The segments after that: those behind move on by one. */
  ghost function StartsAfter(starts: seq<nat>, counts: seq<nat>, b: nat): (s: seq<nat>)
    requires b < |starts| == |counts|
    ensures |s| == |starts|
  {
    var p := Position(starts, counts, b);
    seq(|starts|, c requires 0 <= c < |starts| =>
      if c == b then p else if counts[c] == 0 then 0 else if starts[c] >= p then starts[c] + 1 else starts[c])
  }

  lemma SegmentsInsert(h: seq<nat>, starts: seq<nat>, counts: seq<nat>, b: nat)
    requires Segments(h, starts, counts) && b < |counts|
    ensures var p := Position(starts, counts, b);
            && p <= |h| && (counts[b] > 0 ==> p < |h|)
            && Segments(Inserted(h, p, b), StartsAfter(starts, counts, b), counts[b := counts[b] + 1])
  {
    var p := Position(starts, counts, b);
    var after, starts', counts' := Inserted(h, p, b), StartsAfter(starts, counts, b), counts[b := counts[b] + 1];
    assert counts[b] > 0 ==> h[p] == b;
    forall c, k | 0 <= c < |counts| && starts'[c] <= k < starts'[c] + counts'[c]
      ensures after[k] == c
    {
      assert counts[c] > 0 ==> h[starts[c]] == c;
    }
    forall k | 0 <= k < |after|
      ensures after[k] < |counts'| && starts'[after[k]] <= k < starts'[after[k]] + counts'[after[k]]
    {
      if k != p {
        var i := if k < p then k else k - 1;
        assert starts[h[i]] <= i < starts[h[i]] + counts[h[i]];
      }
    }
  }

  ghost function Removed<T>(s: seq<T>, i: nat): (r: seq<T>)
    requires i < |s|
    ensures |r| == |s| - 1
    ensures forall k :: 0 <= k < |r| ==> r[k] == if k < i then s[k] else s[k + 1]
  {
    s[..i] + s[i + 1..]
  }

  /** The segments after the element at i has gone: those behind move back by one. */
  ghost function StartsWithout(starts: seq<nat>, counts: seq<nat>, i: nat): (s: seq<nat>)
    requires |starts| == |counts|
    ensures |s| == |starts|
  {
    seq(|starts|, c requires 0 <= c < |starts| =>
      if counts[c] == 0 then 0 else if starts[c] > i then starts[c] - 1 else starts[c])
  }

  lemma SegmentsRemove(h: seq<nat>, starts: seq<nat>, counts: seq<nat>, i: nat)
    requires Segments(h, starts, counts) && i < |h|
    ensures h[i] < |counts| && counts[h[i]] > 0
    ensures Segments(Removed(h, i), StartsWithout(starts, counts, i), counts[h[i] := counts[h[i]] - 1])
  {
    var b := h[i];
    var after, starts', counts' := Removed(h, i), StartsWithout(starts, counts, i), counts[b := counts[b] - 1];
    forall c | 0 <= c < |counts'|
      ensures starts'[c] + counts'[c] <= |after|
    {
      if c != b && counts[c] > 0 {
        assert h[starts[c]] == c;
        assert starts[c] > i || starts[c] + counts[c] <= i;
      }
    }
    forall c, k | 0 <= c < |counts'| && starts'[c] <= k < starts'[c] + counts'[c]
      ensures after[k] == c
    {
      var old_k := if k < i then k else k + 1;
      assert h[old_k] == c;
    }
    forall k | 0 <= k < |after|
      ensures after[k] < |counts'| && starts'[after[k]] <= k < starts'[after[k]] + counts'[after[k]]
    {
      var old_k := if k < i then k else k + 1;
      var c := h[old_k];
      assert starts[c] <= old_k < starts[c] + counts[c];
    }
  }

  ghost function KeysOf<T>(order: seq<Elem<T>>): set<Key> {
    set x | x in order :: x.key
  }

  ghost function Counts<T>(ht: seq<Bucket<T>>): (c: seq<nat>)
    ensures |c| == |ht|
  {
    seq(|ht|, b requires 0 <= b < |ht| => ht[b].count)
  }

  /** Every bucket points to the first element of its segment. */
  ghost predicate Chained<T>(order: seq<Elem<T>>, starts: seq<nat>, ht: seq<Bucket<T>>) {
    && |starts| == |ht|
    && forall b :: 0 <= b < |ht| ==> ht[b].chain == if ht[b].count == 0 then null else At(order, starts[b])
  }

  class Table<T> {
    var count: int
    var first: Elem?<T>
    var htsize: nat
    var ht: array?<Bucket<T>>
    ghost var order: seq<Elem<T>>
    ghost var starts: seq<nat>

    ghost function Ht(): seq<Bucket<T>>
      reads `ht, ht
    {
      if ht == null then [] else ht[..]
    }

    /** The list and the buckets agree. */
    ghost predicate Built()
      reads `ht, `htsize, `first, `order, `starts, ht, order
    {
      && (if ht == null then htsize == 0 else ht.Length == htsize > 0)
      && Linked(order, first)
      && Segments(Buckets(order, htsize), starts, Counts(Ht()))
      && Chained(order, starts, Ht())
    }

    /** The list part of fts3HashInsertElement: the element goes before the head of its bucket, or to the front. */
    method LinkIn(pHead: Elem?<T>, e: Elem<T>, ghost p: nat)
      requires Linked(order, first) && e !in order
      requires p <= |order| && if pHead == null then p == 0 else pHead == At(order, p)
      modifies this`first, order, e
      ensures Linked(Inserted(order, p, e), first)
      ensures forall x :: x in order ==> x.data == old(x.data)
      ensures e.data == old(e.data)
    {
      if pHead != null {
        LinkBefore(pHead, e, p);
      } else {
        LinkFirst(e);
      }
    }

    method LinkBefore(pHead: Elem<T>, e: Elem<T>, ghost p: nat)
      requires Linked(order, first) && e !in order && p < |order| && pHead == order[p]
      modifies this`first, order, e
      ensures Linked(Inserted(order, p, e), first)
      ensures forall x :: x in order ==> x.data == old(x.data)
      ensures e.data == old(e.data)
    {
      hide Inserted;
      e.next := pHead;
      e.prev := pHead.prev;
      PointAt(pHead, e, p);
      LinkedInsert(order, first, p, e);
    }

    /** What was before pHead, and pHead, are made to point at e. */
    method PointAt(pHead: Elem<T>, e: Elem<T>, ghost p: nat)
      requires Linked(order, first) && e !in order && p < |order| && pHead == order[p]
      modifies this`first, order
      ensures forall i :: 0 <= i < |order| ==> order[i].next == if i + 1 == p then e else old(order[i].next)
      ensures forall i :: 0 <= i < |order| ==> order[i].prev == if i == p then e else old(order[i].prev)
      ensures first == if p == 0 then e else old(first)
      ensures forall x :: x in order ==> x.data == old(x.data)
    {
      if pHead.prev != null {
        pHead.prev.next := e;
      } else {
        first := e;
      }
      pHead.prev := e;
    }

    method LinkFirst(e: Elem<T>)
      requires Linked(order, first) && e !in order
      modifies this`first, order, e
      ensures Linked(Inserted(order, 0, e), first)
      ensures forall x :: x in order ==> x.data == old(x.data)
      ensures e.data == old(e.data)
    {
      hide Inserted;
      e.next := first;
      if first != null {
        first.prev := e;
      }
      e.prev := null;
      first := e;
      LinkedInsert(order, first, 0, e);
    }

    /** Where InsertElement puts an element of bucket b. */
    ghost function Place(b: nat): (p: nat)
      requires Built() && b < htsize
      reads this, ht, order
      ensures p <= |order|
    {
      SegmentsInsert(Buckets(order, htsize), starts, Counts(Ht()), b);
      Position(starts, Counts(Ht()), b)
    }

    /** fts3HashInsertElement. */
    method InsertElement(b: nat, e: Elem<T>)
      requires Built() && b < htsize && b == BucketOf(e.key, htsize) && e !in order
      modifies this`first, this`order, this`starts, ht, Nodes(order), e
      ensures Built() && order == Inserted(old(order), old(Place(b)), e)
      ensures forall x :: x in old(order) ==> x.data == old(x.data)
      ensures e.data == old(e.data)
    {
      hide BucketOf, Segments, Linked, Inserted;
      ghost var p, h, was, counts := Place(b), Buckets(order, htsize), Ht(), Counts(Ht());
      SegmentsInsert(h, starts, counts, b);
      LinkIn(ht[b].chain, e, p);
      ht[b] := Bucket(ht[b].count + 1, e);
      assert Ht() == was[b := Bucket(was[b].count + 1, e)];
      SameInsertion(order, htsize, p, e, was, starts);
      starts := StartsAfter(starts, counts, b);
      order := Inserted(order, p, e);
    }

    /** New buckets, and nothing in them. */
    method EmptyBuckets(size: nat)
      requires size > 0
      modifies `first, `htsize, `ht, `order, `starts
      ensures Built() && order == [] && htsize == size && fresh(ht)
    {
      hide BucketOf;
      first, htsize := null, size;
      ht := new Bucket<T>[size](_ => Bucket(0, null));
      order, starts := [], seq(size, _ => 0);
      assert forall b :: 0 <= b < size ==> Ht()[b] == Bucket(0, null);
      assert Linked(order, first);
      assert Chained(order, starts, Ht());
      assert Segments([], starts, Counts(Ht()));
      assert Buckets(order, htsize) == [];
    }

    /** What of the old list is still to be moved: linked forwards, and not in the new list. */
    ghost predicate Remaining(elem: Elem?<T>, rest: seq<Elem<T>>)
      reads `order, rest
    {
      && elem == At(rest, 0)
      && (forall i :: 0 <= i < |rest| ==> rest[i] !in order && rest[i].next == At(rest, i + 1))
      && (forall i, j :: 0 <= i < j < |rest| ==> rest[i] != rest[j])
    }

    /** One step of the loop of fts3Rehash. */
    method MoveFirst(elem: Elem<T>, ghost rest: seq<Elem<T>>) returns (next: Elem?<T>)
      requires Built() && htsize > 0 && Remaining(elem, rest)
      modifies this`first, this`order, this`starts, ht, Nodes(order), elem
      ensures Built() && Remaining(next, rest[1..])
      ensures |order| == |old(order)| + 1 && forall x :: x in order <==> x in old(order) || x == elem
      ensures forall x :: x in old(order) || x in rest ==> x.data == old(x.data)
    {
      hide BucketOf, Built, Inserted;
      var h := BucketOf(elem.key, htsize);
      next := elem.next;
      ghost var p, before := Place(h), order;
      InsertElement(h, elem);
      InsertedMembers(before, p, elem);
    }

    /** The loop of fts3Rehash. */
    method Relink(start: Elem?<T>, ghost was: seq<Elem<T>>)
      requires Built() && htsize > 0 && order == [] && Remaining(start, was)
      modifies this`first, this`order, this`starts, ht, Nodes(was)
      ensures Built() && |order| == |was| && Nodes(order) == Nodes(was)
      ensures forall x :: x in was ==> x.data == old(x.data)
    {
      hide Built, Remaining;
      var elem := start;
      ghost var rest := was;
      FirstOf(elem, rest);
      while elem != null
        invariant Built()
        invariant Remaining(elem, rest) && (elem == null <==> rest == []) && (elem != null ==> elem == rest[0])
        invariant |order| + |rest| == |was| && Nodes(order) + Nodes(rest) == Nodes(was)
        invariant forall x :: x in was ==> x.data == old(x.data)
        decreases |rest|
      {
        assert rest == [elem] + rest[1..];
        assert elem in rest;
        ghost var tail := rest[1..];
        elem := MoveFirst(elem, rest);
        FirstOf(elem, tail);
        rest := tail;
      }
    }

    /** fts3Rehash, when memory can be had: the elements are linked anew, in place, into the new buckets. */
    method Rehash(newSize: nat)
      requires Built() && newSize > 0
      modifies `first, `htsize, `ht, `order, `starts, Nodes(order)
      ensures Built() && htsize == newSize && fresh(ht)
      ensures |order| == |old(order)| && forall x :: x in order <==> x in old(order)
      ensures forall x :: x in old(order) ==> x.data == old(x.data)
    {
      var elem := first;
      ghost var was := order;
      EmptyBuckets(newSize);
      assert Remaining(elem, was);
      hide Built;
      Relink(elem, was);
      SameNodes(order, was);
    }

    // ---------------------------------------------------------------- the table as a finite map

    ghost var contents: map<Key, T>

    /** The elements are the entries of the map, one for each key. */
    ghost predicate Agrees()
      reads `order, `contents, order
    {
      && (forall x, y :: x in order && y in order && x != y ==> x.key != y.key)
      && (forall x :: x in order ==> x.key in contents && contents[x.key] == x.data)
      && contents.Keys == KeysOf(order)
    }

    ghost predicate Valid()
      reads this, ht, order
    {
      Built() && Agrees() && Sized() && count == |order| <= htsize
    }

    /** The number of buckets is zero or a power of two. */
    ghost predicate Sized()
      reads `htsize
    {
      htsize == 0 || PowerOfTwo(htsize)
    }

    /** sqlite3Fts3HashInit. */
    constructor ()
      ensures Valid() && contents == map[] && htsize == 0 && order == []
    {
      count, first, htsize, ht := 0, null, 0, null;
      order, starts, contents := [], [], map[];
      new;
      NothingIsValid();
    }

    lemma NothingIsBuilt()
      requires first == null && htsize == 0 && ht == null && order == [] && starts == []
      ensures Built()
    {
      hide Segments;
      assert Buckets(order, htsize) == [];
      EmptySegments();
    }

    lemma NothingIsValid()
      requires count == 0 && first == null && htsize == 0 && ht == null
      requires order == [] && starts == [] && contents == map[]
      ensures Valid()
    {
      hide Built;
      NothingIsBuilt();
      assert KeysOf(order) == {};
    }

    /** sqlite3Fts3HashClear; giving back the memory is not modelled. */
    method Clear()
      modifies this
      ensures Valid() && contents == map[] && htsize == 0 && order == [] && ht == null
    {
      first := null;
      ht := null;
      htsize := 0;
      count := 0;
      order, starts, contents := [], [], map[];
      hide Valid;
      NothingIsValid();
    }

    lemma HasBuckets()
      requires Built()
      ensures if ht == null then htsize == 0 else ht.Length == htsize > 0
    {
    }

    /** The head of a bucket's segment. */
    lemma Head(h: nat)
      requires Built() && h < htsize
      ensures ht != null && h < ht.Length && |starts| == |Counts(Ht())| == htsize && Counts(Ht())[h] == ht[h].count
      ensures starts[h] + ht[h].count <= |order|
      ensures ht[h].chain == if ht[h].count == 0 then null else At(order, starts[h])
    {
    }

    /** A key that its bucket does not have is nowhere. */
    lemma OnlyInBucket(key: Key)
      requires Built()
      requires var h := BucketOf(key, htsize);
               ht != null ==> forall k :: starts[h] <= k < starts[h] + Counts(Ht())[h] ==> order[k].key != key
      ensures forall x :: x in order ==> x.key != key
    {
      hide BucketOf;
      ghost var hs, counts := Buckets(order, htsize), Counts(Ht());
      forall x | x in order
        ensures x.key != key
      {
        var k :| 0 <= k < |order| && order[k] == x;
        assert hs[k] < |counts|;
      }
    }

    /** fts3FindElementByHash: at most as many steps as the bucket has elements, from its head on. */
    method FindElementByHash(key: Key, h: nat) returns (elem: Elem?<T>)
      requires Built() && h == BucketOf(key, htsize)
      ensures elem != null ==> elem in order && elem.key == key
      ensures elem == null ==> forall x :: x in order ==> x.key != key
    {
      hide BucketOf, Built;
      HasBuckets();
      if ht == null {
        OnlyInBucket(key);
        return null;
      }
      ghost var counts := Counts(Ht());
      Head(h);
      elem := ht[h].chain;
      var left := ht[h].count;
      while left != 0 && elem != null
        invariant 0 <= left <= counts[h] && (left > 0 ==> elem == At(order, starts[h] + counts[h] - left))
        invariant forall k :: starts[h] <= k < starts[h] + counts[h] - left && k < |order| ==> order[k].key != key
        decreases left
      {
        left := left - 1;
        assert elem == order[starts[h] + counts[h] - left - 1];
        if elem.key == key {
          return;
        }
        NextInList(starts[h] + counts[h] - left - 1);
        elem := elem.next;
      }
      elem := null;
      OnlyInBucket(key);
    }

    /** The list part of fts3RemoveElementByHash. */
    method LinkOut(elem: Elem<T>, ghost i: nat)
      requires Linked(order, first) && i < |order| && elem == order[i]
      modifies this`first, order
      ensures Linked(Removed(order, i), first)
      ensures forall x :: x in order ==> x.data == old(x.data)
      ensures elem.next == old(elem.next)
    {
      if elem.prev != null {
        elem.prev.next := elem.next;
      } else {
        first := elem.next;
      }
      if elem.next != null {
        elem.next.prev := elem.prev;
      }
      LinkedRemove(order, first, i);
    }

    /** The buckets after that. */
    method Unchain(elem: Elem<T>, h: nat, ghost i: nat)
      requires Built() && i < |order| && elem == order[i] && h == BucketOf(elem.key, htsize)
      modifies this`first, this`order, this`starts, ht, Nodes(order)
      ensures Built() && order == Removed(old(order), i)
      ensures forall x :: x in old(order) ==> x.data == old(x.data)
    {
      hide BucketOf, Segments, Linked, Removed, Chained;
      ghost var hs, was, counts := Buckets(order, htsize), Ht(), Counts(Ht());
      SameRemoval(order, htsize, i, was, starts);
      SegmentsRemove(hs, starts, counts, i);
      NextInList(i);
      LinkOut(elem, i);
      var chain := ht[h].chain;
      if chain == elem {
        chain := elem.next;
      }
      if ht[h].count - 1 <= 0 {
        chain := null;
      }
      ht[h] := Bucket(ht[h].count - 1, chain);
      assert Ht() == was[h := Bucket(was[h].count - 1, chain)];
      starts := StartsWithout(starts, counts, i);
      order := Removed(order, i);
    }

    lemma NextInList(i: nat)
      requires Built() && i < |order|
      ensures order[i].next == At(order, i + 1)
      ensures |starts| == |Ht()|
      ensures forall k, j :: 0 <= k < j < |order| ==> order[k] != order[j]
    {
      hide Segments;
    }

    /** List, buckets and map are as they should be; the count may be wrong, and the buckets too few. */
    ghost predicate Kept()
      reads this, ht, order
    {
      Built() && Agrees() && Sized()
    }

    /** fts3RemoveElementByHash up to the count. */
    method Detach(elem: Elem<T>, h: nat)
      requires Kept() && elem in order && h == BucketOf(elem.key, htsize)
      modifies this`first, this`order, this`starts, this`contents, ht, Nodes(order)
      ensures Kept() && contents == old(contents) - {elem.key} && |order| == old(|order|) - 1
      ensures Nodes(order) <= old(Nodes(order))
    {
      hide Built, Linked;
      ghost var i: nat :| i < |order| && order[i] == elem;
      ghost var before := order;
      Distinct();
      Unchain(elem, h, i);
      RemovedMembers(before, i);
      contents := contents - {elem.key};
      SameKeys(before, order, elem);
    }

    /** fts3RemoveElementByHash. When the count says that nothing is left, the whole table is cleared. */
    method RemoveElementByHash(elem: Elem<T>, h: nat)
      requires Kept() && elem in order && h == BucketOf(elem.key, htsize)
      modifies this, ht, Nodes(order)
      ensures Kept() && Nodes(order) <= old(Nodes(order)) && (ht == null || ht == old(ht))
      ensures old(count) > 1 ==> count == old(count) - 1 && |order| == old(|order|) - 1 && htsize == old(htsize)
      ensures contents == if old(count) > 1 then old(contents) - {elem.key} else map[]
      ensures old(count) <= 1 ==> count == |order| == 0
    {
      hide Built, Agrees, Sized;
      Detach(elem, h);
      count := count - 1;
      if count <= 0 {
        Clear();
      }
    }

    /** sqlite3Fts3HashFind. */
    method Find(key: Key) returns (r: Option<T>)
      requires Kept()
      ensures r == if key in contents then Some(contents[key]) else None
    {
      hide Built;
      if ht == null {
        r := None;
        OnlyInBucket(key);
        return;
      }
      var elem := FindElementByHash(key, BucketOf(key, htsize));
      r := if elem != null then Some(elem.data) else None;
    }

    /** Links alone make the table. */
    twostate lemma StaysBuilt()
      requires old(Built())
      requires ht == old(ht) && htsize == old(htsize) && first == old(first) && order == old(order)
      requires starts == old(starts)
      requires old(Ht()) == Ht()
      requires forall x :: x in order ==> x.next == old(x.next) && x.prev == old(x.prev)
      ensures Built()
    {
      hide BucketOf, Segments, Chained;
    }

    method Replace(elem: Elem<T>, v: T)
      requires Kept() && elem in order
      modifies this`contents, elem`data
      ensures Kept() && contents == old(contents)[elem.key := v]
    {
      hide Built, Sized;
      assert elem.key in KeysOf(order);
      elem.data := v;
      StaysBuilt();
      contents := contents[elem.key := v];
    }

    /** The last lines of sqlite3Fts3HashInsert. */
    method AddNew(key: Key, v: T)
      requires Kept() && key !in contents && htsize > 0
      modifies this, ht, Nodes(order)
      ensures Kept() && contents == old(contents)[key := v]
      ensures count == old(count) + 1 && |order| == old(|order|) + 1
      ensures htsize == old(htsize) && ht == old(ht) && fresh(Nodes(order) - old(Nodes(order)))
    {
      hide Built, BucketOf, Inserted, Place;
      var e := new Elem(key, v);
      count := count + 1;
      var h := BucketOf(key, htsize);
      ghost var p, before := Place(h), order;
      InsertElement(h, e);
      InsertedMembers(before, p, e);
      contents := contents[key := v];
      MoreKeys(before, order, e);
      assert Nodes(order) <= Nodes(before) + {e};
    }

    /** fts3Rehash keeps the entries. */
    method Resize(newSize: nat)
      requires Kept() && PowerOfTwo(newSize)
      modifies `first, `htsize, `ht, `order, `starts, Nodes(order)
      ensures Kept() && |order| == old(|order|)
      ensures htsize == newSize && Nodes(order) == old(Nodes(order)) && fresh(ht)
    {
      hide Built;
      ghost var before := order;
      Rehash(newSize);
      SameKeysOf(before, order);
    }

    /**
     * sqlite3Fts3HashInsert. The last two arguments say whether the allocations of new buckets and of the new
     * element would fail.
     */
    method Insert(key: Key, data: Option<T>, bucketsFail: bool, elementFails: bool) returns (r: Option<T>)
      requires Kept()
      modifies this, ht, Nodes(order)
      ensures Kept() && (ht == null || ht == old(ht) || fresh(ht)) && fresh(Nodes(order) - old(Nodes(order)))
      ensures data.None? && key in old(contents) ==>
                && r == Some(old(contents[key]))
                && contents == if old(count) > 1 then old(contents) - {key} else map[]
      ensures old(Valid()) && key in old(contents) ==>
                && r == Some(old(contents[key])) && Valid()
                && contents == if data.None? then old(contents) - {key} else old(contents)[key := data.value]
      ensures data.None? && key !in old(contents) ==> r == None && contents == old(contents) && count == old(count)
      ensures data.Some? && key in old(contents) ==>
                r == Some(old(contents[key])) && contents == old(contents)[key := data.value]
      ensures key !in old(contents) && data.Some? ==>
                if old(count >= htsize || htsize == 0) && bucketsFail then
                  && r == data && contents == old(contents) && count == 0
                  && |order| == old(|order|) && (old(htsize) > 0 ==> htsize == old(htsize))
                  && (old(Valid()) ==> (Valid() <==> old(htsize) == 0))
                else if elementFails then
                  r == data && contents == old(contents) && count == old(count) && (old(Valid()) ==> Valid())
                else
                  && r == None && contents == old(contents)[key := data.value] && (old(Valid()) ==> Valid())
                  && count == old(count) + 1 && |order| == old(|order|) + 1
                  && (old(0 < htsize && count < htsize) ==> htsize == old(htsize))
    {
      hide Built, Agrees, Sized, PowerOfTwo;
      var h := BucketOf(key, htsize);
      var elem := FindElementByHash(key, h);
      FoundIffIn(key);
      if elem != null {
        r := Some(elem.data);
        if data.None? {
          LastEntry(elem);
          RemoveElementByHash(elem, h);
        } else {
          Replace(elem, data.value);
        }
        return;
      }
      if data.None? {
        return None;
      }
      BucketsAreEnough();
      if htsize == 0 {
        if bucketsFail {
          count := 0;
          return data;
        }
        Resize(8);
        BucketsAreEnough();
      }
      if count >= htsize {
        if bucketsFail {
          count := 0;
          return data;
        }
        Resize(htsize * 2);
      }
      if elementFails {
        return data;
      }
      AddNew(key, data.value);
      return None;
    }

    /**
     * Although an entry could not be added because no buckets could be had, the table is to be as it was. It is
     * not, when it had buckets: it takes itself for empty, and the removal of one entry removes all.
     */
    method RemoveAfterFailedGrowth(key: Key, newKey: Key, v: T)
      requires Valid() && count >= htsize > 0 && key in contents && newKey !in contents
      modifies this, ht, Nodes(order)
      ensures contents == map[]
    {
      var refused := Insert(newKey, Some(v), true, false);
      var removed := Insert(key, None, false, false);
    }

    /**
     * The next entry that can be added is in the map like the others, but the table, taking itself for empty, has
     * not grown: it has more entries than buckets.
     */
    method InsertAfterFailedGrowth(key: Key, newKey: Key, v: T, w: T)
      requires Valid() && count >= htsize > 0 && key !in contents && newKey !in contents
      modifies this, ht, Nodes(order)
      ensures Kept() && !Valid() && contents == old(contents)[newKey := w]
      ensures htsize == old(htsize) && |order| > htsize && count == 1
    {
      hide Built, Agrees, Sized;
      var refused := Insert(key, Some(v), true, false);
      var added := Insert(newKey, Some(w), false, false);
    }

    /** The count is the number of entries. */
    lemma CountsEntries()
      requires Valid()
      ensures count == |contents|
    {
      Distinct();
      AsManyKeys(order);
      assert |contents| == |contents.Keys|;
    }

    lemma FoundIffIn(key: Key)
      requires Agrees()
      ensures key in contents <==> exists x :: x in order && x.key == key
      ensures forall x :: x in order && x.key == key ==> contents[key] == x.data
    {
    }

    /** A single element is the only entry. */
    lemma LastEntry(elem: Elem<T>)
      requires Agrees() && elem in order
      ensures |order| <= 1 ==> contents - {elem.key} == map[]
    {
      if |order| <= 1 {
        assert order == [elem];
        assert contents.Keys == {elem.key};
      }
    }

    lemma BucketsAreEnough()
      requires Kept()
      ensures PowerOfTwo(8) && (htsize > 0 ==> PowerOfTwo(htsize * 2))
    {
      Powers(htsize);
    }

    lemma Distinct()
      requires Built()
      ensures forall k, j :: 0 <= k < j < |order| ==> order[k] != order[j]
    {
      hide Segments, Chained;
    }

    lemma FirstOf(elem: Elem?<T>, rest: seq<Elem<T>>)
      requires Remaining(elem, rest)
      ensures (elem == null <==> rest == []) && (elem != null ==> elem == rest[0])
    {
    }
  }

  lemma InsertedMembers<T>(order: seq<Elem<T>>, p: nat, e: Elem<T>)
    requires p <= |order|
    ensures |Inserted(order, p, e)| == |order| + 1
    ensures forall x :: x in Inserted(order, p, e) <==> x in order || x == e
  {
    assert order == order[..p] + order[p..];
  }

  /** Bucket numbers, counts and chains after an insertion. */
  lemma SameInsertion<T>(order: seq<Elem<T>>, size: nat, p: nat, e: Elem<T>, ht: seq<Bucket<T>>, starts: seq<nat>)
    requires p <= |order| && BucketOf(e.key, size) < |ht|
    requires Segments(Buckets(order, size), starts, Counts(ht)) && Chained(order, starts, ht)
    requires p == Position(starts, Counts(ht), BucketOf(e.key, size))
    ensures var b := BucketOf(e.key, size);
            var ht' := ht[b := Bucket(ht[b].count + 1, e)];
            && Buckets(Inserted(order, p, e), size) == Inserted(Buckets(order, size), p, b)
            && Counts(ht') == Counts(ht)[b := ht[b].count + 1]
            && Chained(Inserted(order, p, e), StartsAfter(starts, Counts(ht), b), ht')
  {
    var b := BucketOf(e.key, size);
    hide Segments, Chained, BucketOf;
    assert Buckets(Inserted(order, p, e), size) == Inserted(Buckets(order, size), p, b);
    assert Counts(ht[b := Bucket(ht[b].count + 1, e)]) == Counts(ht)[b := ht[b].count + 1];
    SegmentStarts(Buckets(order, size), starts, Counts(ht));
    ChainedInsert(order, size, p, e, ht, starts, b);
  }

  /** A segment that is not empty starts inside the list, and no two start at the same place. */
  lemma SegmentStarts(h: seq<nat>, starts: seq<nat>, counts: seq<nat>)
    requires Segments(h, starts, counts)
    ensures |starts| == |counts|
    ensures forall c :: 0 <= c < |counts| && counts[c] > 0 ==> starts[c] < |h| && h[starts[c]] == c
  {
  }

  lemma ChainedInsert<T>(order: seq<Elem<T>>, size: nat, p: nat, e: Elem<T>, ht: seq<Bucket<T>>, starts: seq<nat>,
                         b: nat)
    requires p <= |order| && b < |ht| == |starts| && p == Position(starts, Counts(ht), b)
    requires Chained(order, starts, ht)
    requires forall c :: 0 <= c < |ht| && ht[c].count > 0 ==>
               starts[c] < |order| && Buckets(order, size)[starts[c]] == c
    ensures Chained(Inserted(order, p, e), StartsAfter(starts, Counts(ht), b), ht[b := Bucket(ht[b].count + 1, e)])
  {
    hide BucketOf;
    var after, starts' := Inserted(order, p, e), StartsAfter(starts, Counts(ht), b);
    var ht' := ht[b := Bucket(ht[b].count + 1, e)];
    forall c | 0 <= c < |ht|
      ensures ht'[c].chain == if ht'[c].count == 0 then null else At(after, starts'[c])
    {
      if c != b && ht[c].count > 0 {
        assert ht[b].count > 0 ==> starts[c] != starts[b];
        assert after[starts'[c]] == order[starts[c]];
      }
    }
  }

  /** The links that make a list with one more element. */
  lemma LinkedInsert<T>(order: seq<Elem<T>>, first: Elem?<T>, p: nat, e: Elem<T>)
    requires p <= |order| && e !in order
    requires forall i, j :: 0 <= i < j < |order| ==> order[i] != order[j]
    requires forall i :: 0 <= i < |order| ==> order[i].next == if i + 1 == p then e else At(order, i + 1)
    requires forall i :: 0 <= i < |order| ==> order[i].prev == if i == p then e else At(order, i - 1)
    requires e.next == At(order, p) && e.prev == At(order, p - 1)
    requires first == if p == 0 then e else At(order, 0)
    ensures Linked(Inserted(order, p, e), first)
  {
    var after := Inserted(order, p, e);
    forall k | 0 <= k < |after|
      ensures after[k].next == At(after, k + 1) && after[k].prev == At(after, k - 1)
    {
      if k != p {
        var i := if k < p then k else k - 1;
        assert after[k] == order[i];
      }
    }
    forall i, j | 0 <= i < j < |after|
      ensures after[i] != after[j]
    {
      var i', j' := if i < p then i else i - 1, if j < p then j else j - 1;
      if i != p && j != p {
        assert order[i'] != order[j'];
      }
    }
  }

  // ---------------------------------------------------------------- removing

  lemma LinkedRemove<T>(order: seq<Elem<T>>, first: Elem?<T>, i: nat)
    requires i < |order|
    requires forall k, j :: 0 <= k < j < |order| ==> order[k] != order[j]
    requires forall k :: 0 <= k < |order| && k != i && k != i - 1 ==> order[k].next == At(order, k + 1)
    requires forall k :: 0 <= k < |order| && k != i && k != i + 1 ==> order[k].prev == At(order, k - 1)
    requires i > 0 ==> order[i - 1].next == At(order, i + 1)
    requires i + 1 < |order| ==> order[i + 1].prev == At(order, i - 1)
    requires first == if i == 0 then At(order, 1) else At(order, 0)
    ensures Linked(Removed(order, i), first)
  {
    var after := Removed(order, i);
    forall k | 0 <= k < |after|
      ensures after[k].next == At(after, k + 1) && after[k].prev == At(after, k - 1)
    {
      if k < i {
        assert after[k] == order[k];
      } else {
        assert after[k] == order[k + 1];
      }
    }
    forall k, j | 0 <= k < j < |after|
      ensures after[k] != after[j]
    {
      assert order[if k < i then k else k + 1] != order[if j < i then j else j + 1];
    }
  }

  lemma RemovedMembers<T>(order: seq<Elem<T>>, i: nat)
    requires i < |order| && forall k, j :: 0 <= k < j < |order| ==> order[k] != order[j]
    ensures forall x :: x in Removed(order, i) <==> x in order && x != order[i]
    ensures Nodes(Removed(order, i)) <= Nodes(order)
  {
    var after := Removed(order, i);
    forall x | x in order && x != order[i]
      ensures x in after
    {
      var k :| 0 <= k < |order| && order[k] == x;
      assert after[if k < i then k else k - 1] == x;
    }
    forall x | x in after
      ensures x in order && x != order[i]
    {
      var k :| 0 <= k < |after| && after[k] == x;
      assert order[if k < i then k else k + 1] == x;
    }
  }

  /** With distinct keys, one element less is one key less. */
  lemma SameKeys<T>(before: seq<Elem<T>>, after: seq<Elem<T>>, e: Elem<T>)
    requires e in before && forall x :: x in after <==> x in before && x != e
    requires forall x, y :: x in before && y in before && x != y ==> x.key != y.key
    ensures KeysOf(after) == KeysOf(before) - {e.key}
  {
    forall k | k in KeysOf(before) - {e.key}
      ensures k in KeysOf(after)
    {
      var x :| x in before && x.key == k;
      assert x in after;
    }
    forall k | k in KeysOf(after)
      ensures k in KeysOf(before) - {e.key}
    {
      var x :| x in after && x.key == k;
      assert x in before;
    }
  }

  lemma Powers(n: nat)
    requires n == 0 || PowerOfTwo(n)
    ensures PowerOfTwo(8) && n <= 2 * n && (n > 0 ==> PowerOfTwo(n * 2))
  {
    assert PowerOfTwo(2) && PowerOfTwo(4);
  }

  lemma SameKeysOf<T>(before: seq<Elem<T>>, after: seq<Elem<T>>)
    requires forall x :: x in after <==> x in before
    ensures KeysOf(after) == KeysOf(before) && Nodes(after) == Nodes(before)
  {
  }

  lemma {:induction false} AsManyKeys<T>(order: seq<Elem<T>>)
    requires forall k, j :: 0 <= k < j < |order| ==> order[k] != order[j]
    requires forall x, y :: x in order && y in order && x != y ==> x.key != y.key
    ensures |KeysOf(order)| == |order|
  {
    if order == [] {
      assert KeysOf(order) == {};
    } else {
      var e, rest := order[0], order[1..];
      AsManyKeys(rest);
      assert forall x :: x in order <==> x in rest || x == e;
      MoreKeys(rest, order, e);
      assert forall x :: x in rest ==> x != e;
      assert e.key !in KeysOf(rest);
    }
  }

  lemma MoreKeys<T>(before: seq<Elem<T>>, after: seq<Elem<T>>, e: Elem<T>)
    requires forall x :: x in after <==> x in before || x == e
    ensures KeysOf(after) == KeysOf(before) + {e.key}
  {
    forall k | k in KeysOf(before) + {e.key}
      ensures k in KeysOf(after)
    {
      if k != e.key {
        var x :| x in before && x.key == k;
        assert x in after;
      } else {
        assert e in after;
      }
    }
    forall k | k in KeysOf(after)
      ensures k in KeysOf(before) + {e.key}
    {
      var x :| x in after && x.key == k;
    }
  }

  /** Bucket numbers, counts and chains after a removal. */
  lemma SameRemoval<T>(order: seq<Elem<T>>, size: nat, i: nat, ht: seq<Bucket<T>>, starts: seq<nat>)
    requires i < |order| && Segments(Buckets(order, size), starts, Counts(ht)) && Chained(order, starts, ht)
    ensures var b := BucketOf(order[i].key, size);
            && b < |ht| && ht[b].count > 0
            && (var chain := if ht[b].count == 1 then null
                             else if ht[b].chain == order[i] then At(order, i + 1) else ht[b].chain;
                var ht' := ht[b := Bucket(ht[b].count - 1, chain)];
                && Buckets(Removed(order, i), size) == Removed(Buckets(order, size), i)
                && Counts(ht') == Counts(ht)[b := ht[b].count - 1]
                && ((forall k, j :: 0 <= k < j < |order| ==> order[k] != order[j]) ==>
                     Chained(Removed(order, i), StartsWithout(starts, Counts(ht), i), ht')))
  {
    hide BucketOf;
    var b := BucketOf(order[i].key, size);
    var h := Buckets(order, size);
    assert h[i] == b;
    forall c | 0 <= c < |ht| && ht[c].count > 0
      ensures h[starts[c]] == c
    {
    }
  }
}
