/**
 * The ordered index that both trackers keep: a functional-red-black-tree
 * keyed by ring point, whose value at a point is the list of registrations
 * made there. The model represents a tree by its in-order contents, one
 * Entry per point in ascending order; the library calls the trackers make
 * (get, insert, gt, remove) become the functions below, and the
 * range-consume both trackers perform is specified by InRange (what fires)
 * and Outside (what stays).
 */
module PointIndex {
  import opened Wrappers
  import opened HashRing

  /** One tree node: a point and the list stored under it. */
  datatype Entry<V> = Entry(point: Point, list: seq<V>)

  /** A tree, as its entries in iteration order. */
  type Index<V> = seq<Entry<V>>

  /** Iteration order is strictly ascending by point: one node per point. */
  predicate Ordered<V>(idx: Index<V>) {
    |idx| <= 1 || (idx[0].point < idx[1].point && Ordered(idx[1..]))
  }

  /** Ordered, and no node holds an empty list (a list is created holding its first registration). */
  predicate WellFormed<V>(idx: Index<V>) {
    Ordered(idx) && forall i :: 0 <= i < |idx| ==> idx[i].list != []
  }

  /** The ownership interval (start, end]: open at start, closed at end. */
  predicate Within(p: int, start: int, end: int) {
    start < p <= end
  }

  /** `tree.get(p) || []`: the list stored at p, or none. */
  function Get<V>(idx: Index<V>, p: int): seq<V> {
    if idx == [] then []
    else if idx[0].point == p then idx[0].list
    else Get(idx[1..], p)
  }

  /** `tree.get(p)`, as the position of the node holding p. */
  function Find<V>(idx: Index<V>, p: int): (r: Option<nat>)
    ensures r.Some? ==> r.value < |idx| && idx[r.value].point == p
    ensures r.None? ==> forall k :: 0 <= k < |idx| ==> idx[k].point != p
  {
    if idx == [] then None
    else if idx[0].point == p then Some(0)
    else match Find(idx[1..], p)
      case None => None
      case Some(k) => Some(k + 1)
  }

  /** `tree.insert(e.point, e.list)` for a point the tree does not hold yet. */
  function Insert<V>(idx: Index<V>, e: Entry<V>): (r: Index<V>)
    requires Ordered(idx)
    requires forall k :: 0 <= k < |idx| ==> idx[k].point != e.point
    ensures Ordered(r) && |r| == |idx| + 1
    ensures r[0].point == if idx != [] && idx[0].point < e.point then idx[0].point else e.point
    ensures forall q :: Get(r, q) == if q == e.point then e.list else Get(idx, q)
    ensures WellFormed(idx) && e.list != [] ==> WellFormed(r)
  {
    if idx == [] || e.point < idx[0].point then
      OrderedCons(e, idx);
      [e] + idx
    else
      var rest := Insert(idx[1..], e);
      OrderedCons(idx[0], rest);
      assert ([idx[0]] + rest)[1..] == rest;
      [idx[0]] + rest
  }

  /**
   * Appending v to the list stored at p: `list.push(v)` on the list the tree
   * holds there, or `tree.insert(p, [v])` when it holds none.
   */
  function Push<V>(idx: Index<V>, p: Point, v: V): (r: Index<V>)
    requires Ordered(idx)
    ensures Ordered(r)
    ensures forall q :: Get(r, q) == if q == p then Get(idx, q) + [v] else Get(idx, q)
    ensures WellFormed(idx) ==> WellFormed(r)
  {
    match Find(idx, p)
      case Some(k) =>
        PushAt(idx, k, v);
        idx[k := Entry(p, idx[k].list + [v])]
      case None =>
        GetMissing(idx, p);
        Insert(idx, Entry(p, [v]))
  }

  /** `tree.gt(start)`: the position of the first node whose point exceeds start. */
  function FirstAbove<V>(idx: Index<V>, start: int): (lo: nat)
    requires Ordered(idx)
    ensures lo <= |idx|
    ensures forall k :: 0 <= k < lo ==> idx[k].point <= start
    ensures forall k :: lo <= k < |idx| ==> idx[k].point > start
  {
    if idx == [] then 0
    else if idx[0].point > start then
      OrderedPairs(idx);
      0
    else
      var lo := 1 + FirstAbove(idx[1..], start);
      assert forall k :: 1 <= k < |idx| ==> idx[k] == idx[1..][k - 1];
      lo
  }

  /** The nodes a range-consume on (start, end] visits, in iteration order. */
  function InRange<V>(idx: Index<V>, start: int, end: int): Index<V> {
    if idx == [] then []
    else if Within(idx[0].point, start, end) then [idx[0]] + InRange(idx[1..], start, end)
    else InRange(idx[1..], start, end)
  }

  /** The nodes a range-consume on (start, end] leaves in the tree. */
  function Outside<V>(idx: Index<V>, start: int, end: int): Index<V> {
    if idx == [] then []
    else if Within(idx[0].point, start, end) then Outside(idx[1..], start, end)
    else [idx[0]] + Outside(idx[1..], start, end)
  }

  /** `tree.remove(p)`: every node except the one at p. */
  function RemovePoint<V>(idx: Index<V>, p: int): Index<V> {
    Outside(idx, p - 1, p)
  }

  /** The lists of the nodes, concatenated in iteration order. */
  function Flatten<V>(idx: Index<V>): seq<V> {
    if idx == [] then [] else Flatten(idx[..|idx| - 1]) + idx[|idx| - 1].list
  }

  // ---------------------------------------------------------------------
  // Facts about Get, Flatten and the filters that the proofs below use.

  /** An ordered index is ascending between any two positions. */
  lemma {:induction false} OrderedPairs<V>(idx: Index<V>)
    requires Ordered(idx)
    ensures forall i, j :: 0 <= i < j < |idx| ==> idx[i].point < idx[j].point
  {
    if |idx| > 1 {
      var tail := idx[1..];
      OrderedPairs(tail);
      forall i, j | 0 <= i < j < |idx| ensures idx[i].point < idx[j].point {
        assert idx[j] == tail[j - 1];
        if i > 0 {
          assert idx[i] == tail[i - 1];
        } else if j > 1 {
          assert tail[0].point < tail[j - 1].point;
        }
      }
    }
  }

  /** In an ordered index, the points before position i are below idx[i] and those after it above. */
  lemma AroundAt<V>(idx: Index<V>, i: nat)
    requires Ordered(idx) && i < |idx|
    ensures forall k :: 0 <= k < i ==> idx[k].point < idx[i].point
    ensures forall k :: i < k < |idx| ==> idx[k].point > idx[i].point
  {
    OrderedPairs(idx);
  }

  /** An index ascending between any two positions is ordered. */
  lemma {:induction false} PairsOrdered<V>(idx: Index<V>)
    requires forall i, j :: 0 <= i < j < |idx| ==> idx[i].point < idx[j].point
    ensures Ordered(idx)
  {
    if |idx| > 1 {
      var tail := idx[1..];
      forall i, j | 0 <= i < j < |tail| ensures tail[i].point < tail[j].point {
        assert tail[i] == idx[i + 1] && tail[j] == idx[j + 1];
      }
      PairsOrdered(tail);
    }
  }

  lemma {:induction false} GetAt<V>(idx: Index<V>, k: nat)
    requires Ordered(idx) && k < |idx|
    ensures Get(idx, idx[k].point) == idx[k].list
  {
    if k > 0 {
      OrderedPairs(idx);
      assert idx[0].point < idx[k].point;
      assert idx[1..][k - 1] == idx[k];
      GetAt(idx[1..], k - 1);
    }
  }

  lemma {:induction false} GetMissing<V>(idx: Index<V>, p: int)
    requires forall k :: 0 <= k < |idx| ==> idx[k].point != p
    ensures Get(idx, p) == []
  {
    if idx != [] {
      assert forall k :: 0 <= k < |idx[1..]| ==> idx[1..][k] == idx[k + 1];
      GetMissing(idx[1..], p);
    }
  }

  /** Replacing the list of one node changes Get at that point only. */
  lemma {:induction false} GetUpdate<V>(idx: Index<V>, k: nat, l: seq<V>, q: int)
    requires Ordered(idx) && k < |idx|
    ensures Ordered(idx[k := Entry(idx[k].point, l)])
    ensures Get(idx[k := Entry(idx[k].point, l)], q) == if q == idx[k].point then l else Get(idx, q)
  {
    var u := idx[k := Entry(idx[k].point, l)];
    assert forall j :: 0 <= j < |u| ==> u[j].point == idx[j].point;
    OrderedPairs(idx);
    PairsOrdered(u);
    if q == idx[k].point {
      GetAt(u, k);
    } else if k == 0 {
      assert u[1..] == idx[1..];
    } else {
      assert u[1..] == idx[1..][k - 1 := Entry(idx[k].point, l)];
      GetUpdate(idx[1..], k - 1, l, q);
    }
  }

  /** Pushing onto the list of node k changes the lists at that node's point only. */
  lemma PushAt<V>(idx: Index<V>, k: nat, v: V)
    requires Ordered(idx) && k < |idx|
    ensures var u := idx[k := Entry(idx[k].point, idx[k].list + [v])];
      && Ordered(u)
      && (forall q :: Get(u, q) == if q == idx[k].point then Get(idx, q) + [v] else Get(idx, q))
      && (WellFormed(idx) ==> WellFormed(u))
  {
    var l := idx[k].list + [v];
    var u := idx[k := Entry(idx[k].point, l)];
    GetAt(idx, k);
    GetUpdate(idx, k, l, idx[k].point);
    forall q ensures Get(u, q) == if q == idx[k].point then Get(idx, q) + [v] else Get(idx, q) {
      GetUpdate(idx, k, l, q);
    }
    assert forall j :: 0 <= j < |u| ==> u[j].list == if j == k then l else idx[j].list;
  }

  lemma {:induction false} FlattenSnoc<V>(idx: Index<V>, x: Entry<V>)
    ensures Flatten(idx + [x]) == Flatten(idx) + x.list
  {
    assert (idx + [x])[..|idx + [x]| - 1] == idx;
  }

  /** Every registration stored at some point is among the flattened lists. */
  lemma {:induction false} GetInFlatten<V>(idx: Index<V>, p: int, v: V)
    requires v in Get(idx, p)
    ensures v in Flatten(idx)
  {
    if idx[0].point == p {
      FlattenFront(idx);
    } else {
      GetInFlatten(idx[1..], p, v);
      FlattenFront(idx);
    }
  }

  lemma {:induction false} FlattenFront<V>(idx: Index<V>)
    requires idx != []
    ensures Flatten(idx) == idx[0].list + Flatten(idx[1..])
    decreases |idx|
  {
    if |idx| > 1 {
      var init := idx[..|idx| - 1];
      FlattenFront(init);
      assert init[1..] == idx[1..][..|idx[1..]| - 1];
      assert init[0] == idx[0];
    } else {
      assert idx[..0] == [];
      assert idx[1..] == [];
    }
  }

  /** In an ordered index, every flattened registration is stored at some point. */
  lemma {:induction false} FlattenInGet<V>(idx: Index<V>, v: V) returns (p: Point)
    requires Ordered(idx)
    requires v in Flatten(idx)
    ensures v in Get(idx, p)
  {
    FlattenFront(idx);
    if v in idx[0].list {
      p := idx[0].point;
    } else {
      p := FlattenInGet(idx[1..], v);
      assert idx[0].point != p by {
        if idx[0].point == p {
          OrderedPairs(idx);
          assert forall k :: 0 <= k < |idx[1..]| ==> idx[1..][k] == idx[k + 1];
          GetMissing(idx[1..], idx[0].point);
        }
      }
    }
  }

  /** Nodes in front that lie outside the range are not visited. */
  lemma {:induction false} SkipPrefix<V>(a: Index<V>, r: Index<V>, start: int, end: int)
    requires forall k :: 0 <= k < |a| ==> !Within(a[k].point, start, end)
    ensures InRange(a + r, start, end) == InRange(r, start, end)
  {
    if a == [] {
      assert a + r == r;
    } else {
      var t := a[1..];
      assert forall k :: 0 <= k < |t| ==> t[k] == a[k + 1];
      SkipPrefix(t, r, start, end);
      assert (a + r)[1..] == t + r;
    }
  }

  /** Nodes in front that lie outside the range are kept. */
  lemma {:induction false} KeepPrefix<V>(a: Index<V>, r: Index<V>, start: int, end: int)
    requires forall k :: 0 <= k < |a| ==> !Within(a[k].point, start, end)
    ensures Outside(a + r, start, end) == a + Outside(r, start, end)
  {
    if a == [] {
      assert a + r == r;
    } else {
      var t := a[1..];
      assert forall k :: 0 <= k < |t| ==> t[k] == a[k + 1];
      KeepPrefix(t, r, start, end);
      var o := Outside(r, start, end);
      assert (a + r)[1..] == t + r;
      assert Outside(a + r, start, end) == [a[0]] + (t + o);
      assert a == [a[0]] + t;
      assert [a[0]] + (t + o) == a + o;
    }
  }

  /** Nodes in front that lie inside the range are visited. */
  lemma {:induction false} VisitPrefix<V>(b: Index<V>, r: Index<V>, start: int, end: int)
    requires forall k :: 0 <= k < |b| ==> Within(b[k].point, start, end)
    ensures InRange(b + r, start, end) == b + InRange(r, start, end)
  {
    if b == [] {
      assert b + r == r;
    } else {
      var t := b[1..];
      assert forall k :: 0 <= k < |t| ==> t[k] == b[k + 1];
      VisitPrefix(t, r, start, end);
      var v := InRange(r, start, end);
      assert (b + r)[1..] == t + r;
      assert InRange(b + r, start, end) == [b[0]] + (t + v);
      assert b == [b[0]] + t;
      assert [b[0]] + (t + v) == b + v;
    }
  }

  /** Nodes in front that lie inside the range are not kept. */
  lemma {:induction false} DropPrefix<V>(b: Index<V>, r: Index<V>, start: int, end: int)
    requires forall k :: 0 <= k < |b| ==> Within(b[k].point, start, end)
    ensures Outside(b + r, start, end) == Outside(r, start, end)
  {
    if b == [] {
      assert b + r == r;
    } else {
      var t := b[1..];
      assert forall k :: 0 <= k < |t| ==> t[k] == b[k + 1];
      DropPrefix(t, r, start, end);
      assert (b + r)[1..] == t + r;
    }
  }

  lemma {:induction false} NoneWithin<V>(idx: Index<V>, start: int, end: int)
    requires forall k :: 0 <= k < |idx| ==> !Within(idx[k].point, start, end)
    ensures InRange(idx, start, end) == []
    ensures Outside(idx, start, end) == idx
  {
    if idx != [] {
      assert forall k :: 0 <= k < |idx[1..]| ==> idx[1..][k] == idx[k + 1];
      NoneWithin(idx[1..], start, end);
    }
  }

  lemma {:induction false} AllWithin<V>(idx: Index<V>, start: int, end: int)
    requires forall k :: 0 <= k < |idx| ==> Within(idx[k].point, start, end)
    ensures InRange(idx, start, end) == idx
    ensures Outside(idx, start, end) == []
  {
    if idx != [] {
      assert forall k :: 0 <= k < |idx[1..]| ==> idx[1..][k] == idx[k + 1];
      AllWithin(idx[1..], start, end);
    }
  }

  /** Prepending a node below the head of an ordered index keeps it ordered. */
  lemma OrderedCons<V>(x: Entry<V>, r: Index<V>)
    requires Ordered(r)
    requires r != [] ==> x.point < r[0].point
    ensures Ordered([x] + r)
  {
    assert ([x] + r)[1..] == r;
  }

  /** Filtering a tail whose points all exceed b leaves points that exceed b. */
  lemma {:induction false} FiltersStayAbove<V>(idx: Index<V>, start: int, end: int, b: int)
    requires forall k :: 0 <= k < |idx| ==> idx[k].point > b
    ensures forall k :: 0 <= k < |InRange(idx, start, end)| ==> InRange(idx, start, end)[k].point > b
    ensures forall k :: 0 <= k < |Outside(idx, start, end)| ==> Outside(idx, start, end)[k].point > b
  {
    if idx != [] {
      assert forall k :: 0 <= k < |idx[1..]| ==> idx[1..][k] == idx[k + 1];
      FiltersStayAbove(idx[1..], start, end, b);
    }
  }

  /** An empty range-consume means no node lies in the range. */
  lemma {:induction false} EmptyRangeNoneWithin<V>(idx: Index<V>, start: int, end: int)
    requires InRange(idx, start, end) == []
    ensures forall k :: 0 <= k < |idx| ==> !Within(idx[k].point, start, end)
  {
    if idx != [] {
      assert forall k :: 0 <= k < |idx[1..]| ==> idx[1..][k] == idx[k + 1];
      EmptyRangeNoneWithin(idx[1..], start, end);
    }
  }

  // ---------------------------------------------------------------------
  // The range-consume as the trackers' loops perform it.

  /** An index cut into a part below, a part inside and a part above a range. */
  lemma {:induction false} ThreeParts<V>(a: Index<V>, b: Index<V>, c: Index<V>, start: int, end: int)
    requires forall k :: 0 <= k < |a| ==> !Within(a[k].point, start, end)
    requires forall k :: 0 <= k < |b| ==> Within(b[k].point, start, end)
    requires forall k :: 0 <= k < |c| ==> !Within(c[k].point, start, end)
    ensures InRange(a + (b + c), start, end) == b
    ensures Outside(a + (b + c), start, end) == a + c
  {
    NoneWithin(c, start, end);
    VisitPrefix(b, c, start, end);
    DropPrefix(b, c, start, end);
    SkipPrefix(a, b + c, start, end);
    KeepPrefix(a, b + c, start, end);
    assert b + [] == b;
  }

  lemma Split3<V>(idx: Index<V>, lo: nat, hi: nat)
    requires lo <= hi <= |idx|
    ensures idx == idx[..lo] + (idx[lo..hi] + idx[hi..])
  {
  }

  /** Where the loop of check starts and stops, in terms of the three parts of the index. */
  lemma RangeSides<V>(idx: Index<V>, start: int, end: int, lo: nat, hi: nat, a: Index<V>, b: Index<V>, c: Index<V>)
    requires Ordered(idx)
    requires lo == FirstAbove(idx, start)
    requires lo <= hi <= |idx|
    requires forall k :: lo <= k < hi ==> idx[k].point <= end
    requires hi == |idx| || idx[hi].point > end
    requires a == idx[..lo] && b == idx[lo..hi] && c == idx[hi..]
    ensures forall k :: 0 <= k < |a| ==> !Within(a[k].point, start, end)
    ensures forall k :: 0 <= k < |b| ==> Within(b[k].point, start, end)
    ensures forall k :: 0 <= k < |c| ==> !Within(c[k].point, start, end)
  {
    if hi < |idx| {
      AroundAt(idx, hi);
    }
    forall k | 0 <= k < |a| ensures !Within(a[k].point, start, end) {
      assert a[k] == idx[k];
    }
    forall k | 0 <= k < |b| ensures Within(b[k].point, start, end) {
      assert b[k] == idx[lo + k];
    }
    forall k | 0 <= k < |c| ensures !Within(c[k].point, start, end) {
      assert c[k] == idx[hi + k];
    }
  }

  /**
   * The loop of check visits exactly the nodes from tree.gt(start) up to the
   * first node past end; those are the nodes InRange selects, and the rest
   * are the nodes Outside keeps.
   */
  lemma RangeIsSlice<V>(idx: Index<V>, start: int, end: int, lo: nat, hi: nat)
    requires Ordered(idx)
    requires lo == FirstAbove(idx, start)
    requires lo <= hi <= |idx|
    requires forall k :: lo <= k < hi ==> idx[k].point <= end
    requires hi == |idx| || idx[hi].point > end
    ensures InRange(idx, start, end) == idx[lo..hi]
    ensures Outside(idx, start, end) == idx[..lo] + idx[hi..]
  {
    RangeSides(idx, start, end, lo, hi, idx[..lo], idx[lo..hi], idx[hi..]);
    Split3(idx, lo, hi);
    ThreeParts(idx[..lo], idx[lo..hi], idx[hi..], start, end);
  }

  lemma Unfold3<V>(idx: Index<V>, lo: nat, i: nat)
    requires lo <= i < |idx|
    ensures idx[..lo] + idx[i..] == idx[..lo] + ([idx[i]] + idx[i + 1..])
  {
    assert idx[i..] == [idx[i]] + idx[i + 1..];
  }

  /** The nodes a correct loop keeps lie off the current node's point. */
  lemma RemoveSides<V>(idx: Index<V>, lo: nat, i: nat, a: Index<V>, c: Index<V>)
    requires Ordered(idx)
    requires lo <= i < |idx| && a == idx[..lo] && c == idx[i + 1..]
    ensures forall k :: 0 <= k < |a| ==> !Within(a[k].point, idx[i].point - 1, idx[i].point)
    ensures forall k :: 0 <= k < |c| ==> !Within(c[k].point, idx[i].point - 1, idx[i].point)
  {
    AroundAt(idx, i);
    var p: int := idx[i].point;
    forall k | 0 <= k < |a| ensures !Within(a[k].point, p - 1, p) {
      assert a[k] == idx[k];
    }
    forall k | 0 <= k < |c| ensures !Within(c[k].point, p - 1, p) {
      assert c[k] == idx[i + 1 + k];
    }
  }

  /** Removing (by key) the current node from the tree a correct loop keeps. */
  lemma RemoveNext<V>(idx: Index<V>, lo: nat, i: nat)
    requires Ordered(idx) && lo <= i < |idx|
    ensures RemovePoint(idx[..lo] + idx[i..], idx[i].point) == idx[..lo] + idx[i + 1..]
  {
    RemoveSides(idx, lo, i, idx[..lo], idx[i + 1..]);
    Unfold3(idx, lo, i);
    ThreeParts(idx[..lo], [idx[i]], idx[i + 1..], idx[i].point - 1, idx[i].point);
  }

  // ---------------------------------------------------------------------
  // The loops of check and clear. The iterator walks a tree that the loop
  // never changes (the tree is persistent); `visited` collects the values of
  // the nodes in visiting order, each node's list front to back, which is
  // the order the inner `for` loops call them in.

  /**
   * The lists of the nodes at positions lo .. i - 1, in visiting order:
   * `Flatten(snap[lo..i])` in index-recursive form, which matches one loop
   * turn (CollectIsFlatten proves the two equal).
   */
  function Collect<V>(snap: Index<V>, lo: int, i: int): seq<V>
    requires 0 <= lo && i <= |snap|
    decreases i - lo
  {
    if i <= lo then [] else Collect(snap, lo, i - 1) + snap[i - 1].list
  }

  /** The tree after removing, by key, the nodes at positions lo .. i - 1 one after another. */
  function RemoveEach<V>(snap: Index<V>, lo: int, i: int): Index<V>
    requires 0 <= lo && i <= |snap|
    decreases i - lo
  {
    if i <= lo then snap else RemovePoint(RemoveEach(snap, lo, i - 1), snap[i - 1].point)
  }

  /** Visiting one more node appends its list to what the loop has collected. */
  lemma VisitNext<V>(snap: Index<V>, lo: int, i: int)
    requires 0 <= lo <= i < |snap|
    ensures Flatten(snap[lo..i + 1]) == Flatten(snap[lo..i]) + snap[i].list
  {
    assert snap[lo..i + 1] == snap[lo..i] + [snap[i]];
    FlattenSnoc(snap[lo..i], snap[i]);
  }

  /** What the loops collect is the concatenated lists of the visited slice. */
  lemma {:induction false} CollectIsFlatten<V>(snap: Index<V>, lo: int, i: int)
    requires 0 <= lo <= i <= |snap|
    ensures Collect(snap, lo, i) == Flatten(snap[lo..i])
  {
    if i == lo {
      assert snap[lo..i] == [];
    } else {
      var j := i - 1;
      CollectIsFlatten(snap, lo, j);
      VisitNext(snap, lo, j);
      assert Collect(snap, lo, i) == Collect(snap, lo, j) + snap[j].list;
    }
  }

  /** Removing the visited nodes one by one leaves the nodes before lo and from i on. */
  lemma {:induction false} RemoveEachKeeps<V>(snap: Index<V>, lo: int, i: int)
    requires Ordered(snap) && 0 <= lo <= i <= |snap|
    ensures RemoveEach(snap, lo, i) == snap[..lo] + snap[i..]
  {
    if i == lo {
      assert snap == snap[..lo] + snap[lo..];
    } else {
      var j := i - 1;
      RemoveEachKeeps(snap, lo, j);
      RemoveNext(snap, lo, j);
      assert RemoveEach(snap, lo, i) == RemovePoint(snap[..lo] + snap[j..], snap[j].point);
    }
  }

  /** Once the loop of check stops, it has visited exactly the nodes in the range. */
  lemma VisitDone<V>(snap: Index<V>, start: int, end: int, lo: int, i: int)
    requires Ordered(snap) && lo == FirstAbove(snap, start) && lo <= i <= |snap|
    requires i == lo || snap[i - 1].point <= end
    requires i == |snap| || snap[i].point > end
    ensures InRange(snap, start, end) == snap[lo..i]
    ensures Outside(snap, start, end) == snap[..lo] + snap[i..]
  {
    if lo < i {
      AroundAt(snap, i - 1);
    }
    RangeIsSlice(snap, start, end, lo, i);
  }

  /** The correct loop of check, once stopped, has consumed exactly the range. */
  lemma ConsumeDone<V>(snap: Index<V>, start: int, end: int, lo: int, i: int)
    requires Ordered(snap) && lo == FirstAbove(snap, start) && lo <= i <= |snap|
    requires i == lo || snap[i - 1].point <= end
    requires i == |snap| || snap[i].point > end
    ensures Collect(snap, lo, i) == Flatten(InRange(snap, start, end))
    ensures RemoveEach(snap, lo, i) == Outside(snap, start, end)
  {
    VisitDone(snap, start, end, lo, i);
    CollectIsFlatten(snap, lo, i);
    RemoveEachKeeps(snap, lo, i);
  }

  /** The as-written loop of check, once stopped, keeps the tree minus the range's last node. */
  lemma StaleDone<V>(snap: Index<V>, start: int, end: int, lo: int, i: int)
    requires Ordered(snap) && lo == FirstAbove(snap, start) && lo <= i <= |snap|
    requires i == lo || snap[i - 1].point <= end
    requires i == |snap| || snap[i].point > end
    ensures Collect(snap, lo, i) == Flatten(InRange(snap, start, end))
    ensures (if i == lo then snap else RemovePoint(snap, snap[i - 1].point)) == StaleRemainder(snap, start, end)
  {
    VisitDone(snap, start, end, lo, i);
    CollectIsFlatten(snap, lo, i);
    var r := InRange(snap, start, end);
    assert i > lo ==> r[|r| - 1] == snap[i - 1];
  }

  /**
   * The loop of check, with each visited node removed by key from the tree
   * the loop keeps: it visits exactly the nodes in (start, end] and leaves
   * exactly the others.
   */
  method ConsumeRange<V>(snap: Index<V>, start: int, end: int) returns (visited: seq<V>, rest: Index<V>)
    requires Ordered(snap)
    ensures visited == Flatten(InRange(snap, start, end))
    ensures rest == Outside(snap, start, end)
  {
    var lo := FirstAbove(snap, start);
    var i := lo;
    visited, rest := [], snap;
    while i < |snap| && snap[i].point <= end
      invariant lo <= i <= |snap|
      invariant i == lo || snap[i - 1].point <= end
      invariant visited == Collect(snap, lo, i)
      invariant rest == RemoveEach(snap, lo, i)
    {
      visited, rest := visited + snap[i].list, RemovePoint(rest, snap[i].point);
      i := i + 1;
    }
    ConsumeDone(snap, start, end, lo, i);
  }

  /**
   * The loop of check as lib/tracker.js and lib/replicator.js write it:
   * `tree = it.remove()` is the tree the iterator walks minus the current
   * node, so each turn discards the previous turn's removal.
   */
  method ConsumeRangeAsWritten<V>(snap: Index<V>, start: int, end: int) returns (visited: seq<V>, rest: Index<V>)
    requires Ordered(snap)
    ensures visited == Flatten(InRange(snap, start, end))
    ensures rest == StaleRemainder(snap, start, end)
  {
    var lo := FirstAbove(snap, start);
    var i := lo;
    visited, rest := [], snap;
    while i < |snap| && snap[i].point <= end
      invariant lo <= i <= |snap|
      invariant i == lo || snap[i - 1].point <= end
      invariant visited == Collect(snap, lo, i)
      invariant rest == if i == lo then snap else RemovePoint(snap, snap[i - 1].point)
    {
      visited, rest := visited + snap[i].list, RemovePoint(snap, snap[i].point);
      i := i + 1;
    }
    StaleDone(snap, start, end, lo, i);
  }

  /** The loop of clear: every node from position lo to the end, none removed. */
  method VisitFrom<V>(snap: Index<V>, lo: nat) returns (visited: seq<V>)
    requires lo <= |snap|
    ensures visited == Flatten(snap[lo..])
  {
    var i := lo;
    visited := [];
    while i < |snap|
      invariant lo <= i <= |snap|
      invariant visited == Collect(snap, lo, i)
    {
      visited := visited + snap[i].list;
      i := i + 1;
    }
    CollectIsFlatten(snap, lo, i);
    assert snap[lo..i] == snap[lo..];
  }

  /** `tree.gt(0)` skips exactly the nodes at point 0. */
  lemma AboveZero<V>(idx: Index<V>)
    requires Ordered(idx)
    ensures InRange(idx, 0, MAX_POINT) == idx[FirstAbove(idx, 0)..]
  {
    var lo := FirstAbove(idx, 0);
    RangeIsSlice(idx, 0, MAX_POINT, lo, |idx|);
  }

  // ---------------------------------------------------------------------
  // Properties of the range-consume.

  /** Filtering keeps the ascending order, so entries fire in ascending point order. */
  lemma {:induction false} FiltersKeepOrder<V>(idx: Index<V>, start: int, end: int)
    requires Ordered(idx)
    ensures Ordered(InRange(idx, start, end))
    ensures Ordered(Outside(idx, start, end))
  {
    if idx != [] {
      var x, tail := idx[0], idx[1..];
      OrderedPairs(idx);
      forall k | 0 <= k < |tail| ensures tail[k].point > x.point {
        assert tail[k] == idx[k + 1];
      }
      FiltersKeepOrder(tail, start, end);
      FiltersStayAbove(tail, start, end, x.point);
      if Within(x.point, start, end) {
        OrderedCons(x, InRange(tail, start, end));
      } else {
        OrderedCons(x, Outside(tail, start, end));
      }
    }
  }

  /** Filtering keeps only nodes of the index, so no node with an empty list appears. */
  lemma {:induction false} FiltersKeepLists<V>(idx: Index<V>, start: int, end: int)
    requires forall k :: 0 <= k < |idx| ==> idx[k].list != []
    ensures forall k :: 0 <= k < |InRange(idx, start, end)| ==> InRange(idx, start, end)[k].list != []
    ensures forall k :: 0 <= k < |Outside(idx, start, end)| ==> Outside(idx, start, end)[k].list != []
  {
    if idx != [] {
      assert forall k :: 0 <= k < |idx[1..]| ==> idx[1..][k] == idx[k + 1];
      FiltersKeepLists(idx[1..], start, end);
    }
  }

  /** Filtering a well-formed index leaves a well-formed index. */
  lemma FiltersKeepWellFormed<V>(idx: Index<V>, start: int, end: int)
    requires WellFormed(idx)
    ensures WellFormed(InRange(idx, start, end))
    ensures WellFormed(Outside(idx, start, end))
  {
    FiltersKeepOrder(idx, start, end);
    FiltersKeepLists(idx, start, end);
  }

  /** A point fires iff it lies in (start, end], and then with its whole list. */
  lemma {:induction false} GetInRange<V>(idx: Index<V>, start: int, end: int, p: int)
    ensures Get(InRange(idx, start, end), p) == if Within(p, start, end) then Get(idx, p) else []
  {
    if idx != [] {
      GetInRange(idx[1..], start, end, p);
      var r := InRange(idx[1..], start, end);
      assert ([idx[0]] + r)[0] == idx[0] && ([idx[0]] + r)[1..] == r;
    }
  }

  /** A point stays iff it lies outside (start, end], and then untouched. */
  lemma {:induction false} GetOutside<V>(idx: Index<V>, start: int, end: int, p: int)
    ensures Get(Outside(idx, start, end), p) == if Within(p, start, end) then [] else Get(idx, p)
  {
    if idx != [] {
      GetOutside(idx[1..], start, end, p);
      var o := Outside(idx[1..], start, end);
      assert ([idx[0]] + o)[0] == idx[0] && ([idx[0]] + o)[1..] == o;
    }
  }

  /**
   * The registrations a range-consume fires are exactly those stored at a
   * point p with start < p <= end.
   */
  lemma FiresExactlyInRange<V>(idx: Index<V>, start: int, end: int, v: V)
    requires Ordered(idx)
    ensures v in Flatten(InRange(idx, start, end)) <==> exists p :: Within(p, start, end) && v in Get(idx, p)
  {
    var r := InRange(idx, start, end);
    FiltersKeepOrder(idx, start, end);
    if v in Flatten(r) {
      var p := FlattenInGet(r, v);
      GetInRange(idx, start, end, p);
      assert Within(p, start, end) && v in Get(idx, p);
    }
    if exists p :: Within(p, start, end) && v in Get(idx, p) {
      var p :| Within(p, start, end) && v in Get(idx, p);
      GetInRange(idx, start, end, p);
      GetInFlatten(r, p, v);
    }
  }

  /** Boundaries: a point equal to end fires, a point equal to start does not. */
  lemma Boundaries<V>(idx: Index<V>, start: int, end: int)
    requires start < end
    ensures Get(InRange(idx, start, end), end) == Get(idx, end)
    ensures Get(InRange(idx, start, end), start) == []
    ensures Get(Outside(idx, start, end), start) == Get(idx, start)
  {
    GetInRange(idx, start, end, end);
    GetInRange(idx, start, end, start);
    GetOutside(idx, start, end, start);
  }

  /** Exactly once: consuming the same range again finds nothing. */
  lemma {:induction false} ConsumeIsExactlyOnce<V>(idx: Index<V>, start: int, end: int)
    ensures InRange(Outside(idx, start, end), start, end) == []
  {
    if idx != [] {
      ConsumeIsExactlyOnce(idx[1..], start, end);
      var o := Outside(idx[1..], start, end);
      assert ([idx[0]] + o)[0] == idx[0] && ([idx[0]] + o)[1..] == o;
    }
  }

  /** A range with start >= end is empty: a range wrapping past 2^32 - 1 fires nothing. */
  lemma {:induction false} ReversedRangeFiresNothing<V>(idx: Index<V>, start: int, end: int)
    requires end <= start
    ensures InRange(idx, start, end) == []
    ensures Outside(idx, start, end) == idx
  {
    NoneWithin(idx, start, end);
  }

  // ---------------------------------------------------------------------
  // The range-consume as lib/tracker.js and lib/replicator.js write it.

  /**
   * The tree left by `tree = it.remove(); it.next()`: the iterator walks the
   * persistent tree the loop started from, and remove() returns THAT tree
   * without the current node, so only the last visited node is gone.
   */
  function StaleRemainder<V>(idx: Index<V>, start: int, end: int): Index<V> {
    var r := InRange(idx, start, end);
    if r == [] then idx else RemovePoint(idx, r[|r| - 1].point)
  }

  /** The tree the as-written loop leaves is still well formed. */
  lemma StaleKeepsWellFormed<V>(idx: Index<V>, start: int, end: int)
    requires WellFormed(idx)
    ensures WellFormed(StaleRemainder(idx, start, end))
  {
    var r := InRange(idx, start, end);
    if r != [] {
      FiltersKeepWellFormed(idx, r[|r| - 1].point - 1, r[|r| - 1].point);
    }
  }

  /**
   * With two points in one range, the as-written loop keeps the first, so an
   * identical second check fires its registrations again.
   */
  lemma StaleRemovalRefires<V>(a: V, b: V)
    ensures var idx := [Entry(1, [a]), Entry(2, [b])];
      && Flatten(InRange(StaleRemainder(idx, 0, 2), 0, 2)) == [a]
      && Flatten(InRange(Outside(idx, 0, 2), 0, 2)) == []
  {
    var e1, e2: Entry<V> := Entry(1, [a]), Entry(2, [b]);
    var idx := [e1, e2];
    assert idx[1..] == [e2] && [e2][1..] == [];
    assert [e1][1..] == [];
    assert InRange([e2], 0, 2) == [e2];
    assert InRange(idx, 0, 2) == [e1, e2];
    assert Outside([e2], 1, 2) == [];
    assert Outside(idx, 1, 2) == [e1];
    assert InRange([e1], 0, 2) == [e1];
    assert [e1][..0] == [];
    assert Flatten([e1]) == [a];
    ConsumeIsExactlyOnce(idx, 0, 2);
  }

  /** When at most one point lies in the range, the as-written removal is right. */
  lemma {:induction false} StaleRemovalExactForOnePoint<V>(idx: Index<V>, start: int, end: int)
    requires Ordered(idx)
    requires |InRange(idx, start, end)| <= 1
    ensures StaleRemainder(idx, start, end) == Outside(idx, start, end)
  {
    if idx == [] {
      return;
    }
    var x, tail := idx[0], idx[1..];
    OrderedPairs(idx);
    forall k | 0 <= k < |tail| ensures tail[k].point > x.point {
      assert tail[k] == idx[k + 1];
    }
    var rt := InRange(tail, start, end);
    if Within(x.point, start, end) {
      assert rt == [];
      EmptyRangeNoneWithin(tail, start, end);
      NoneWithin(tail, start, end);
      assert InRange(idx, start, end) == [x];
      NoneWithin(tail, x.point - 1, x.point);
    } else if rt == [] {
      EmptyRangeNoneWithin(idx, start, end);
      NoneWithin(idx, start, end);
    } else {
      StaleRemovalExactForOnePoint(tail, start, end);
      var p := rt[|rt| - 1].point;
      FiltersStayAbove(tail, start, end, x.point);
      assert p > x.point;
      var o := Outside(tail, p - 1, p);
      assert Outside(idx, p - 1, p) == [x] + o;
    }
  }

  /**
   * clear() as written iterates from tree.gt(0): the nodes with a point in
   * (0, 2^32 - 1]. A registration at point 0 is never notified.
   */
  lemma GtZeroSkipsPointZero<V>(v: V)
    ensures Flatten(InRange([Entry(0, [v])], 0, MAX_POINT)) == []
    ensures Flatten([Entry(0, [v])]) == [v]
  {
    var idx: Index<V> := [Entry(0, [v])];
    assert InRange(idx, 0, MAX_POINT) == [] + InRange(idx[1..], 0, MAX_POINT);
    assert idx[..0] == [];
  }
}
