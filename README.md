# upring core, modelled in Dafny

upring is a clustering library for Node.js. Its peers share a consistent hash
ring, and each peer owns ranges of the unsigned 32-bit hash space. This
project models four parts of it and proves properties of the models:

- **The tracker** (`lib/tracker.js`). It holds an ordered index from ring
  point to callback lists. `track` registers a callback for a key the local
  peer owns. `check` receives the ring's 'move' event for the range
  (start, end] and calls every callback registered in that range. `clear`
  notifies the registered callbacks with no destination. The corrected model
  fires each callback in the range exactly once and clear notifies every
  callback; as written, neither holds (see "## Findings").
- **The replicator** (`lib/replicator.js`). It uses the same index with the
  opposite admission rule: a key the local peer owns is refused. Its `check`
  receives the ring's 'steal' event (lib/hashring.js:41) and calls the
  callbacks of that range with no arguments; as written, a callback can fire
  twice (see "## Findings").
- **The router** (`upring.js`). `request` and `fire` choose between:
  - local dispatch;
  - an invalid-metadata error;
  - a send;
  - a retry in 500 ms;
  - the terminal "retried three times" error.

  The choice depends on the `_count` retry counter and on who owns the key
  now. `peerConn` and `setupConn` keep the `_peers` cache, from peer id to
  connection. It has a one-shot reconnect window and is evicted on `peerDown`.
- **The request-id generator** (`lib/tcp-server.js`). It is a counter masked
  to 31 bits that keeps a request's own truthy id.

The modules follow the program:

- `Wrappers` holds `Option`.
- `HashRing` holds the ring as seen by the core: points, peers, the range payload of 'move' and 'steal' events,
  and a ring view whose hash, ownership and lookup are function values.
- `PointIndex` holds the functional red-black tree. It is pictured as its
  in-order list of `Entry(point, list)`, and the range-consume is specified by
  `InRange` (what fires) and `Outside` (what stays).
- `Tracking`, `Replication`, `TcpServer` and `Router` model the four source
  files. Each closure or object whose state the source updates is a class
  whose fields are that state.

Three behaviours of the code are easy to misread:

- **Eviction.** A `_peers` entry is evicted only by a `peerDown` for a conn
  that has already disconnected (upring.js:157, 166-175). It is never evicted
  when the 10 s window passes (`Router.UpRing.PeerDown`).
- **Number of sends.** `_count` goes 0, 1, 2, 3 before the terminal error, so
  a call is sent at most four times (`Router.FourAttempts`).
- **Id 0.** After 2^31 - 1 the generator wraps to 0. Id 0 is falsy, so a
  request that comes back with id 0 is given a fresh one
  (`TcpServer.GeneratedIdsCycle`).

## Model

| member | source | states |
|---|---|---|
| PointIndex.Find | lib/tracker.js:17 | `tree.get`: the position found holds the point; when none is found, no node holds it |
| PointIndex.Insert | lib/tracker.js:27 | inserting a new point keeps the tree ordered, sets that point's list and leaves every other point's list unchanged |
| PointIndex.Push | lib/tracker.js:24-28 | appends one value at the end of a point's list, creating the list if missing; other points are unchanged and the tree stays well formed |
| PointIndex.FirstAbove | lib/tracker.js:35 | `tree.gt(start)`: every node before the returned position is at or below start, every node from it on is above start |
| PointIndex.ConsumeRange | lib/tracker.js:34-45 | the check loop, removing each visited node from the kept tree: it visits exactly the lists in (start, end] in iteration order, and leaves exactly the other nodes |
| PointIndex.ConsumeRangeAsWritten | lib/tracker.js:42-43 | the check loop as written: it visits the same lists, but the tree left is the start tree minus only the last visited node |
| PointIndex.VisitFrom | lib/tracker.js:50-56 | the clear loop: it visits every list from the starting node to the end, in order |
| PointIndex.AboveZero | lib/tracker.js:48 | starting at `gt(0)` visits exactly the nodes with a point in (0, 2^32 - 1] |
| PointIndex.FiltersKeepOrder | lib/tracker.js:35-44 | the fired nodes and the kept nodes are both in ascending point order |
| PointIndex.FiltersKeepWellFormed | lib/tracker.js:42 | after a range-consume the tree is still ordered, with no empty lists |
| PointIndex.GetInRange | lib/tracker.js:37-41 | a point fires its whole list if it lies in (start, end], and fires nothing otherwise |
| PointIndex.GetOutside | lib/tracker.js:37 | a point outside (start, end] keeps its list unchanged; a point inside keeps nothing |
| PointIndex.FiresExactlyInRange | lib/tracker.js:35-37 | a registration fires if and only if it is stored at some point p with start < p <= end |
| PointIndex.Boundaries | lib/tracker.js:35-37 | a point equal to end fires; a point equal to start neither fires nor leaves the tree |
| PointIndex.ConsumeIsExactlyOnce | lib/tracker.js:42 | consuming the same range a second time fires nothing |
| PointIndex.ReversedRangeFiresNothing | lib/tracker.js:37 | a range with start >= end fires nothing and changes nothing |
| PointIndex.StaleKeepsWellFormed | lib/tracker.js:42 | the tree left by the as-written loop is still well formed |
| PointIndex.StaleRemovalRefires | lib/tracker.js:42-43 | with points 1 and 2 inside (0, 2], the as-written loop keeps point 1, so an identical second check fires it again; the corrected loop fires nothing the second time |
| PointIndex.StaleRemovalExactForOnePoint | lib/tracker.js:42 | when at most one point lies in the range, the as-written loop removes exactly the right nodes |
| PointIndex.GtZeroSkipsPointZero | lib/tracker.js:48 | a callback at point 0 is in the index but is not visited when the walk starts at `gt(0)` |
| Tracking.NotifyAt | lib/tracker.js:38-41 | the i-th call made is the i-th callback, called with (null, to) |
| Tracking.Tracker.constructor | lib/tracker.js:5-6 | a tracker starts with an empty tree |
| Tracking.Tracker.Track | lib/tracker.js:14-32 | a key the ring does not allocate here changes nothing and gives the callback Error('not allocate to me') on the next tick; an allocated key appends the callback to its point's list and returns the tracker; once the tree holds the factory, `tree.get` throws |
| Tracking.Tracker.Check | lib/tracker.js:34-45 | calls every callback registered in (start, end] with (null, to), in ascending point order and in registration order within a point; exactly those points leave the tree |
| Tracking.Tracker.CheckAsWritten | lib/tracker.js:42 | the same calls, but the tree left is the start tree minus only the last visited point |
| Tracking.Tracker.Clear | lib/tracker.js:47-59 | calls every registered callback with (null, null), in ascending point order, and leaves a fresh empty tree |
| Tracking.Tracker.ClearAsWritten | lib/tracker.js:47-59 | skips the callbacks at point 0 and stores the tree factory, so every later track, check and clear throws a TypeError |
| Replication.FiltersKeepKeys | lib/replicator.js:50 | after a range-consume, every `{key, cb}` still sits at the point of its own key |
| Replication.StaleKeepsKeys | lib/replicator.js:50-51 | the same holds for the tree the as-written loop leaves |
| Replication.Replicator.constructor | lib/replicator.js:5-6 | a replicator starts with an empty tree |
| Replication.Replicator.Replica | lib/replicator.js:10-25 | a key the ring allocates here throws 'allocated to me' and inserts nothing; only then is a missing callback checked, which throws 'missing callback'; otherwise `{key: hash(key), cb}` is appended at the key's point |
| Replication.Replicator.AddToList | lib/replicator.js:27-38 | appends obj to the list at its key, inserting a list when none exists, returns that list, and leaves every other point unchanged |
| Replication.Replicator.Check | lib/replicator.js:40-53 | calls `cb()` of exactly the registrations in (start, end], in order, and removes exactly those points |
| Replication.Replicator.CheckAsWritten | lib/replicator.js:50 | the same calls, but only the last visited point is removed |
| TcpServer.Successor | lib/tcp-server.js:48 | `(n + 1) & 2147483647` lies in [0, 2^31 - 1], is n + 1 below the maximum and wraps from the maximum to 0 |
| TcpServer.CounterAfterIsMod | lib/tcp-server.js:46-48 | after k generated ids the counter is k modulo 2^31 |
| TcpServer.GeneratedIdsCycle | lib/tcp-server.js:45-48 | the first generated id is 1, the ids repeat with period 2^31, and id 0 comes exactly at multiples of 2^31 |
| TcpServer.ReqIdGen.constructor | lib/tcp-server.js:44-46 | each generator starts its own counter at 0 |
| TcpServer.ReqIdGen.GenReqId | lib/tcp-server.js:47-49 | a truthy `req.id` is returned and the counter does not move; otherwise the counter advances by one modulo 2^31 and its new value is the id |
| TcpServer.Server.constructor | lib/tcp-server.js:12-13 | a user `genReqId` replaces the counter entirely; otherwise a fresh counter is made |
| TcpServer.Server.GenReqId | lib/tcp-server.js:12-13 | the user's generator when one is given, else the counter's rule |
| TcpServer.Server.OnRequest | lib/tcp-server.js:33-37 | an incoming request reaches the dispatcher with its key unchanged and its id set by genReqId |
| Router.Admit | upring.js:228-235 | the `_count` check refuses exactly a count of 3; otherwise a count that is not a number becomes 0 and any other count goes up by one |
| Router.AttemptsFrom | upring.js:228-235 | the counts a call tries with, when every attempt is retried; there is one per attempt left |
| Router.AdmitCountsDown | upring.js:228-235 | each admitted attempt uses up one of at most four, and the counter refuses exactly when none is left |
| Router.FourAttempts | upring.js:228-235 | a fresh call tries with counts 0, 1, 2 and 3, and a call arriving with 3 ends, so there are at most four sends |
| Router.PlanFor | upring.js:213-235 | local if and only if the ring allocates the key here; otherwise invalid metadata if and only if the owner has no address and port; otherwise terminal if and only if the count is 3; otherwise the attempt goes to the owner with the next count |
| Router.CountOnlyOnRemotePath | upring.js:213-224 | the local path and the invalid-metadata path do not depend on the counter |
| Router.Disconnect | upring.js:154-164 | a disconnected conn is destroyed and listens for `peerDown`; it starts a reconnect if and only if its retry flag is false |
| Router.ReconnectsOnce | upring.js:159-179 | a conn set up by a reconnect carries retry = true, so its own disconnect never reconnects; a first conn inside its window does reconnect |
| Router.UpRing.constructor | upring.js:35-89 | an instance starts not ready, with no queued calls and an empty `_peers` cache |
| Router.UpRing.MarkReady | upring.js:48-51 | the boot step sets `isReady` |
| Router.UpRing.EmitUp | upring.js:53-55 | 'up' hands every queued call back, in the order it was queued |
| Router.UpRing.SetupConn | upring.js:151-195 | a new open conn is created and registered under `peer.id`, replacing any cached entry |
| Router.UpRing.PeerConn | upring.js:138-149 | returns the conn cached for `peer.id` and changes nothing; otherwise sets one up with retry = false and caches it |
| Router.UpRing.Transmit | upring.js:237-243 | looks up the conn; a destroyed conn schedules a retry in 500 ms without sending, a live one sends |
| Router.UpRing.Request | upring.js:205-263 | before 'up' the call is queued without its count. Once ready, the message gets genReqId's id. A local key is dispatched with a dezalgo'd callback and the cache is not touched. An owner without address and port gets 'peer has invalid upring metadata', with no connection made. Count 3 ends with 'retried three times'. Otherwise the attempt goes out with the next count. The id counter moves only when the call is not queued and the message has no truthy id |
| Router.UpRing.Fire | upring.js:267-321 | a missing callback becomes the fire callback before anything else. A local key calls the callback and then dispatches with a no-op reply. The remote path is the same as request's, without id stamping |
| Router.UpRing.Retry | upring.js:329-331 | re-invokes the call through its own method: the same routing, with the call's count advanced by one on the remote path, and the count dropped when the call is queued. A request's id and the id counter follow request's rule; a fire keeps its message and leaves the counter alone |
| Router.UpRing.RequestDone | upring.js:245-259 | an error is retried in 500 ms if and only if the key's owner changed or the conn is destroyed. Otherwise the only effect is a callback call or a throw: the callback gets (err, result) with `result.id` set to the request id. A request id with no result throws a TypeError |
| Router.UpRing.FireDone | upring.js:307-317 | the same retry rule; otherwise `callback(err)` |
| Router.UpRing.RetryWindowElapsed | upring.js:189-191 | the 10 s timer sets that conn's retry flag and changes nothing else |
| Router.UpRing.Disconnected | upring.js:154-164 | the conn becomes destroyed and listens for `peerDown`; a reconnect starts only while retry is false; the cache is untouched |
| Router.UpRing.Reconnected | upring.js:177-181 | a pending reconnect sets up a new conn with retry = true, which takes over the cache entry, and the `peerDown` listener is removed; without a pending reconnect nothing happens |
| Router.UpRing.PeerDown | upring.js:166-175 | a `peerDown` for the listening conn's own peer deletes the cache entry for that id, removes the listener and destroys a pending reconnect stream; any other peer id changes nothing |

## Left out

- Sockets, `net.connect`, tentacoli multiplexing and `pump` are not modelled. A connection is a value with a destroyed flag, a retry flag and a stage. Stream ends, reconnects and `peerDown` are events, each a method call.
- Timers are not modelled. The 500 ms retry is an effect, `Later(500, call)`, that the caller later passes back to `Retry`. The 10 s window is the `RetryWindowElapsed` event.
- swim-hashring, farmhash and `lookup`/`allocatedToMe` are foreign code. They are the function fields of a `RingView` value, taken as the ring stands when each call is made.
- Logging is left out: pino, `req.log` and `result.log`.
- `_dispatch`, the bloomrun router, ajv validation, `add`, monitoring, `close` and avvio boot ordering are left out, apart from the two readiness steps. A dispatch is the effect `Dispatch(msg, reply)`.
- Callbacks are opaque values. A call to one is recorded as an effect or an invocation, in call order; a callback that re-enters the tracker or the router while it runs, or that throws, is not modelled. A throw would stop the `check` or `clear` loop part way, so later nodes would be neither fired nor removed.
- The nested `for` loops over a node's list are not modelled as loops. Each visits the whole list once in order, so the model appends the list.
- `list.push` changes, in place, the array that the tree holds. The model makes the same change as a new value stored at that point. No other reference to the array exists in the source, so aliasing is not observable.
- JavaScript `null` and `undefined` are one `None`. A falsy address, port or id is "", 0 or `NoId`.
- A user `opts.genReqId` is a pure function of the request.
- `&` with 2147483647 is written as modulo 2^31. They agree for every counter value the generator can hold.
- The `onError` handler of a reconnect stream does nothing, so it is not an event.
- Chaining return values (`return this`) are not modelled.
- Router.UpRing.Retry: its ensures gives the routing outcome, the count, the request id and the id counter, but leaves the exact conn index and cache update to the contracts of `Request` and `Fire`.
- Router.UpRing.RequestDone: tentacoli's source is not part of this model, so whether it hands back a result alongside an error is unknown. The model covers both cases: with no result, the `result.id` assignment throws.

## Findings

| source | as written | input that shows it | evidently intended | confidence | as-written member | corrected member |
|---|---|---|---|---|---|---|
| lib/tracker.js:42 | `tree = it.remove()`: functional-red-black-tree is persistent, so each removal starts again from the tree the iterator walks | callbacks at points 1 and 2, then `check({start: 0, end: 2})` twice: the callback at point 1 fires both times | every visited point leaves the tree, so the second check fires nothing | medium (relies on the library's documented persistence); not executed | Tracking.Tracker.CheckAsWritten, PointIndex.StaleRemovalRefires | Tracking.Tracker.Check, PointIndex.ConsumeIsExactlyOnce |
| lib/replicator.js:50 | `tree = iterator.remove()`, the same stale removal | replicas at points 1 and 2, then the range (0, 2] delivered twice: the replica at point 1 fires twice | a replica fires only once | medium (relies on the library's documented persistence); not executed | Replication.Replicator.CheckAsWritten, PointIndex.StaleRemovalRefires | Replication.Replicator.Check, PointIndex.ConsumeIsExactlyOnce |
| lib/tracker.js:48 | `tree.gt(0)` starts after point 0 | a key hashing to 0 tracked, then `clear()`: its callback is never called | every callback notified with a null destination | high; not executed | Tracking.Tracker.ClearAsWritten, PointIndex.GtZeroSkipsPointZero | Tracking.Tracker.Clear |
| lib/tracker.js:58 | `tree = createTree` stores the factory instead of a tree | `clear()` then `track(key, cb)`: `tree.get is not a function` | `tree = createTree()`, a fresh empty tree | high; not executed | Tracking.Tracker.ClearAsWritten, Tracking.Tracker.Track | Tracking.Tracker.Clear |
