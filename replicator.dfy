/**
 * lib/replicator.js: the per-instance list of replicas waiting for their key
 * to come here. `replica` registers a callback for a key this instance does
 * NOT own; `check` receives the ring's 'steal' event (lib/hashring.js:41)
 * and calls every callback registered in the range (start, end], with no
 * arguments. `Check` is the corrected behaviour, where each fires exactly
 * once; `CheckAsWritten` is the loop as written, which can fire one again.
 *
 * The closure of `build` becomes a class whose field `tree` is the closure
 * variable; its nodes hold the `{key, cb}` objects that `addToList` makes.
 */
module Replication {
  import opened Wrappers
  import opened HashRing
  import opened PointIndex

  /** The messages of the errors `replica` throws. */
  const ALLOCATED_TO_ME: string := "allocated to me"
  const MISSING_CALLBACK: string := "missing callback"

  /** The `{key, cb}` object addToList stores: the hashed key and the callback. */
  datatype Registration<Cb> = Registration(key: Point, cb: Cb)

  /** The callbacks of the registrations, in order: the calls `tracker.cb()` makes. */
  function Callbacks<Cb>(regs: seq<Registration<Cb>>): seq<Cb> {
    seq(|regs|, i requires 0 <= i < |regs| => regs[i].cb)
  }

  /** Every registration sits at the point of its own key. */
  ghost predicate KeysAtPoints<Cb>(idx: Index<Registration<Cb>>) {
    forall q: int, e :: e in Get(idx, q) ==> e.key == q
  }

  /** Filtering the tree keeps every registration at the point it was stored under. */
  lemma FiltersKeepKeys<Cb>(idx: Index<Registration<Cb>>, start: int, end: int)
    requires KeysAtPoints(idx)
    ensures KeysAtPoints(Outside(idx, start, end))
  {
    forall q: int ensures Get(Outside(idx, start, end), q) == if Within(q, start, end) then [] else Get(idx, q) {
      GetOutside(idx, start, end, q);
    }
  }

  /** So does the tree the as-written loop of check leaves. */
  lemma StaleKeepsKeys<Cb>(idx: Index<Registration<Cb>>, start: int, end: int)
    requires KeysAtPoints(idx)
    ensures KeysAtPoints(StaleRemainder(idx, start, end))
  {
    var r := InRange(idx, start, end);
    if r != [] {
      FiltersKeepKeys(idx, r[|r| - 1].point - 1, r[|r| - 1].point);
    }
  }

  class Replicator<Cb> {
    /** The closure variable `tree`. */
    var tree: Index<Registration<Cb>>

    ghost predicate Valid()
      reads this
    {
      WellFormed(tree) && KeysAtPoints(tree)
    }

    /** `build(hashring)`: starts from an empty tree. */
    constructor ()
      ensures Valid() && tree == []
    {
      tree := [];
    }

    /**
     * `replica(key, cb)` against the ring as it stands: a key the ring
     * allocates here is refused first, then a missing (falsy) callback;
     * otherwise `{key: hash(key), cb}` joins the list at the key's point.
     */
    method Replica(ring: RingView, key: string, cb: Option<Cb>) returns (thrown: Option<string>)
      requires Valid()
      modifies this`tree
      ensures Valid()
      ensures ring.OwnsKey(key) ==> thrown == Some(ALLOCATED_TO_ME) && tree == old(tree)
      ensures !ring.OwnsKey(key) && cb.None? ==> thrown == Some(MISSING_CALLBACK) && tree == old(tree)
      ensures !ring.OwnsKey(key) && cb.Some? ==>
        && thrown == None
        && forall q :: Get(tree, q) ==
             if q == ring.hash(key) then Get(old(tree), q) + [Registration(ring.hash(key), cb.value)]
             else Get(old(tree), q)
    {
      var p := ring.hash(key);
      if ring.allocatedToMe(p) {
        return Some(ALLOCATED_TO_ME);
      }
      if cb.None? {
        return Some(MISSING_CALLBACK);
      }
      var _ := AddToList(Registration(p, cb.value));
      thrown := None;
    }

    /**
     * `addToList(obj)`: obj joins the end of the list at its key, a list
     * that is inserted first if the tree holds none there; the list is
     * returned.
     */
    method AddToList(obj: Registration<Cb>) returns (list: seq<Registration<Cb>>)
      requires Valid()
      modifies this`tree
      ensures Valid()
      ensures list == Get(old(tree), obj.key) + [obj]
      ensures forall q :: Get(tree, q) == if q == obj.key then list else Get(old(tree), q)
    {
      tree := Push(tree, obj.key, obj);
      list := Get(tree, obj.key);
    }

    /**
     * `check(event)`, with each visited node removed from the tree the loop
     * keeps: the callbacks registered in (start, end] are called with no
     * arguments, in ascending point order and registration order within a
     * point, and exactly those nodes leave the tree.
     */
    method Check(event: RangeEvent) returns (fired: seq<Cb>)
      requires Valid()
      modifies this`tree
      ensures Valid()
      ensures fired == Callbacks(Flatten(InRange(old(tree), event.start, event.end)))
      ensures tree == Outside(old(tree), event.start, event.end)
    {
      FiltersKeepWellFormed(tree, event.start, event.end);
      FiltersKeepKeys(tree, event.start, event.end);
      var visited, rest := ConsumeRange(tree, event.start, event.end);
      fired := Callbacks(visited);
      tree := rest;
    }

    /**
     * `check(event)` as lib/replicator.js writes it: `tree = iterator.remove()`
     * keeps the tree the iterator walks minus the current node, so only the
     * last visited node ends up removed.
     */
    method CheckAsWritten(event: RangeEvent) returns (fired: seq<Cb>)
      requires Valid()
      modifies this`tree
      ensures Valid()
      ensures fired == Callbacks(Flatten(InRange(old(tree), event.start, event.end)))
      ensures tree == StaleRemainder(old(tree), event.start, event.end)
    {
      StaleKeepsWellFormed(tree, event.start, event.end);
      StaleKeepsKeys(tree, event.start, event.end);
      var visited, rest := ConsumeRangeAsWritten(tree, event.start, event.end);
      fired := Callbacks(visited);
      tree := rest;
    }
  }
}
