/**
 * lib/tracker.js: the per-instance watch list. `track` registers a callback
 * at the ring point of a key this instance owns; `check` receives the ring's
 * 'move' event (the range (start, end] now owned by `to`) and calls every
 * callback registered in that range; `clear` calls the registered callbacks
 * with no destination and drops the index.
 *
 * `Check` and `Clear` are the corrected behaviour: each callback in the range
 * fires exactly once, and clear notifies every callback. As written
 * (`CheckAsWritten`, `ClearAsWritten`) a second overlapping check can fire a
 * callback again, and clear skips point 0 and leaves the factory in `tree`.
 *
 * The closure of the factory becomes a class whose field `tree` is the
 * closure variable. A callback is an opaque value of type Cb; calling it is
 * recorded as an Invocation, in call order, in the methods' results.
 */
module Tracking {
  import opened Wrappers
  import opened HashRing
  import opened PointIndex

  /** The message of the error `track` hands to a callback for a foreign key. */
  const NOT_ALLOCATED: string := "not allocate to me"

  /** The TypeErrors a `tree` that holds the tree factory raises. */
  const GET_NOT_A_FUNCTION: string := "tree.get is not a function"
  const GT_NOT_A_FUNCTION: string := "tree.gt is not a function"

  /** One call `cb(err, to)`; None stands for null or a missing argument. */
  datatype Invocation<Cb> = Invocation(cb: Cb, err: Option<string>, to: Option<Peer>)

  /** What `track` does besides updating the tree. */
  datatype TrackOutcome<Cb> =
    | Chained                        // returns `this`
    | Deferred(call: Invocation<Cb>) // process.nextTick(cb, err), returns undefined
    | Threw(error: string)           // a TypeError escapes

  /** Each callback called as `cb(null, to)`, one after another. */
  function Notify<Cb>(cbs: seq<Cb>, to: Option<Peer>): (r: seq<Invocation<Cb>>)
    ensures |r| == |cbs|
  {
    if cbs == [] then [] else Notify(cbs[..|cbs| - 1], to) + [Invocation(cbs[|cbs| - 1], None, to)]
  }

  /** The i-th invocation calls the i-th callback with (null, to). */
  lemma {:induction false} NotifyAt<Cb>(cbs: seq<Cb>, to: Option<Peer>, i: nat)
    requires i < |cbs|
    ensures Notify(cbs, to)[i] == Invocation(cbs[i], None, to)
  {
    if i < |cbs| - 1 {
      NotifyAt(cbs[..|cbs| - 1], to, i);
    }
  }

  class Tracker<Cb> {
    /** The closure variable `tree`: the index, unless it holds the tree factory. */
    var tree: Index<Cb>
    var treeIsFactory: bool

    ghost predicate Valid()
      reads this
    {
      WellFormed(tree) && (treeIsFactory ==> tree == [])
    }

    /** `tracker(hashring)`: starts from an empty tree. */
    constructor ()
      ensures Valid() && tree == [] && !treeIsFactory
    {
      tree := [];
      treeIsFactory := false;
    }

    /**
     * `track(key, cb)` against the ring as it stands: a key whose point the
     * ring does not allocate here changes nothing and hands the callback an
     * error on the next tick; otherwise cb joins the end of the list at the
     * key's point, a list that is created if the point had none.
     */
    method Track(ring: RingView, key: string, cb: Cb) returns (outcome: TrackOutcome<Cb>)
      requires Valid()
      modifies this`tree
      ensures Valid()
      ensures old(treeIsFactory) ==> outcome == Threw(GET_NOT_A_FUNCTION) && tree == old(tree)
      ensures !old(treeIsFactory) && !ring.OwnsKey(key) ==>
        outcome == Deferred(Invocation(cb, Some(NOT_ALLOCATED), None)) && tree == old(tree)
      ensures !old(treeIsFactory) && ring.OwnsKey(key) ==>
        && outcome == Chained
        && forall q :: Get(tree, q) == if q == ring.hash(key) then Get(old(tree), q) + [cb] else Get(old(tree), q)
    {
      if treeIsFactory {
        return Threw(GET_NOT_A_FUNCTION);
      }
      var p := ring.hash(key);
      if !ring.allocatedToMe(p) {
        return Deferred(Invocation(cb, Some(NOT_ALLOCATED), None));
      }
      tree := Push(tree, p, cb);
      outcome := Chained;
    }

    /**
     * `check(event)`, with each visited node removed from the tree the loop
     * keeps: the callbacks of the nodes in (start, end] are called with
     * (null, to) in ascending point order and registration order within a
     * point, and exactly those nodes leave the tree.
     */
    method Check(event: RangeEvent) returns (fired: seq<Invocation<Cb>>, thrown: Option<string>)
      requires Valid()
      modifies this`tree
      ensures Valid()
      ensures old(treeIsFactory) ==> fired == [] && thrown == Some(GT_NOT_A_FUNCTION) && tree == old(tree)
      ensures !old(treeIsFactory) ==>
        && thrown == None
        && fired == Notify(Flatten(InRange(old(tree), event.start, event.end)), Some(event.to))
        && tree == Outside(old(tree), event.start, event.end)
    {
      if treeIsFactory {
        return [], Some(GT_NOT_A_FUNCTION);
      }
      thrown := None;
      FiltersKeepWellFormed(tree, event.start, event.end);
      var visited, rest := ConsumeRange(tree, event.start, event.end);
      fired := Notify(visited, Some(event.to));
      tree := rest;
    }

    /**
     * `check(event)` as lib/tracker.js writes it: `tree = it.remove()` takes
     * the tree the iterator walks, which never changes, minus the current
     * node, so only the last visited node ends up removed.
     */
    method CheckAsWritten(event: RangeEvent) returns (fired: seq<Invocation<Cb>>, thrown: Option<string>)
      requires Valid()
      modifies this`tree
      ensures Valid()
      ensures old(treeIsFactory) ==> fired == [] && thrown == Some(GT_NOT_A_FUNCTION) && tree == old(tree)
      ensures !old(treeIsFactory) ==>
        && thrown == None
        && fired == Notify(Flatten(InRange(old(tree), event.start, event.end)), Some(event.to))
        && tree == StaleRemainder(old(tree), event.start, event.end)
    {
      if treeIsFactory {
        return [], Some(GT_NOT_A_FUNCTION);
      }
      thrown := None;
      StaleKeepsWellFormed(tree, event.start, event.end);
      var visited, rest := ConsumeRangeAsWritten(tree, event.start, event.end);
      fired := Notify(visited, Some(event.to));
      tree := rest;
    }

    /**
     * `clear()`, iterating from the first node and leaving a fresh empty
     * tree: every registered callback is called with (null, null), in
     * ascending point order.
     */
    method Clear() returns (fired: seq<Invocation<Cb>>, thrown: Option<string>)
      requires Valid()
      modifies this`tree
      ensures Valid() && tree == []
      ensures old(treeIsFactory) ==> fired == [] && thrown == Some(GT_NOT_A_FUNCTION)
      ensures !old(treeIsFactory) ==> thrown == None && fired == Notify(Flatten(old(tree)), None)
    {
      if treeIsFactory {
        return [], Some(GT_NOT_A_FUNCTION);
      }
      thrown := None;
      var visited := VisitFrom(tree, 0);
      assert tree[0..] == tree;
      fired := Notify(visited, None);
      tree := [];
    }

    /**
     * `clear()` as lib/tracker.js writes it: the walk starts at `tree.gt(0)`,
     * so a node at point 0 is not called, and `tree = createTree` stores the
     * factory, after which every track, check and clear throws a TypeError.
     */
    method ClearAsWritten() returns (fired: seq<Invocation<Cb>>, thrown: Option<string>)
      requires Valid()
      modifies this
      ensures Valid() && tree == [] && treeIsFactory
      ensures old(treeIsFactory) ==> fired == [] && thrown == Some(GT_NOT_A_FUNCTION)
      ensures !old(treeIsFactory) ==>
        thrown == None && fired == Notify(Flatten(InRange(old(tree), 0, MAX_POINT)), None)
    {
      if treeIsFactory {
        return [], Some(GT_NOT_A_FUNCTION);
      }
      thrown := None;
      var visited := VisitFrom(tree, FirstAbove(tree, 0));
      AboveZero(tree);
      fired := Notify(visited, None);
      tree := [];
      treeIsFactory := true;
    }
  }
}
