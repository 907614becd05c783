/**
 * upring.js: the routing and retry decision of `request` and `fire`, the
 * `retry` trampoline, and the connection cache `_peers` that `peerConn` and
 * `setupConn` maintain (the reconnect flag `retry` and the `peerDown`
 * eviction).
 *
 * Timers, sockets and the ring are outside: each timer that fires, each
 * stream event and each ring event is a method call on the model, and the
 * ring is a parameter holding its state at that instant. What an operation
 * hands to the outside world (a callback call, a dispatch, a send, a timer)
 * is returned as a list of effects, in the order the source performs them.
 */
module Router {
  import opened Wrappers
  import opened HashRing
  import opened TcpServer

  /** The delay of `setTimeout(retry, 500, ...)`, in milliseconds. */
  const RETRY_DELAY_MS: int := 500

  /** The messages of the errors the caller's callback receives. */
  const INVALID_METADATA: string := "peer has invalid upring metadata"
  const RETRIED_THREE_TIMES: string := "retried three times"

  /** The TypeError of `result.id = obj.id` when no result came back. */
  const RESULT_UNDEFINED: string := "Cannot set properties of undefined (setting 'id')"

  /** Which prototype method a call goes through, `that[method]` in `retry`. */
  datatype Kind = ViaRequest | ViaFire

  /** The callback a call completes with: the caller's, or `this._fireCallback`. */
  datatype Reply<Cb> = Caller(cb: Cb) | FireCallback

  /** An invocation `this[kind](obj, callback, _count)`; count None is a `_count` that is not a number. */
  datatype Call<Cb> = Call(kind: Kind, msg: Message, reply: Reply<Cb>, count: Option<int>)

  /** The `result` a peer answers a request with. */
  datatype Response = Response(id: ReqId, body: string)

  /** The reply function `_dispatch` is given: `dezalgo(callback)` for a request, `noop` for a fire. */
  datatype DispatchReply<Cb> = Dezalgo(reply: Reply<Cb>) | Noop

  /** What an operation does to the outside world. */
  datatype Effect<Cb> =
    | Dispatch(msg: Message, to: DispatchReply<Cb>)                            // this._dispatch(obj, reply)
    | Invoke(reply: Reply<Cb>, err: Option<string>, result: Option<Response>)  // callback(err, result)
    | Later(ms: int, call: Call<Cb>)         // setTimeout(retry, ms, this, kind, obj, callback, _count)
    | Send(conn: nat, peer: Peer, call: Call<Cb>)  // conn.request(obj, ..) or conn.fire(obj, ..)
    | Throw(error: string)                   // an exception escapes the reply handler

  // ---------------------------------------------------------------------
  // The retry counter.

  /**
   * The `_count` check: a count that is not a number starts at 0, a count of
   * 3 ends the call, any other count goes up by one.
   */
  function Admit(count: Option<int>): (r: Option<int>)
    ensures r.None? <==> count == Some(3)
    ensures r.Some? ==> r.value == if count.None? then 0 else count.value + 1
  {
    match count
    case None => Some(0)
    case Some(n) => if n == 3 then None else Some(n + 1)
  }

  /** The counts the router itself ever passes on: not yet a number, or 0 to 3. */
  predicate CountInUse(count: Option<int>) {
    count.None? || 0 <= count.value <= 3
  }

  /** How many more attempts a call holding this count can make. */
  function AttemptsLeft(count: Option<int>): nat
    requires CountInUse(count)
  {
    if count.None? then 4 else 3 - count.value
  }

  /**
   * The counts of the attempts a call makes from `count` on when every
   * attempt is retried (the peer stays valid and remote).
   */
  function AttemptsFrom(count: Option<int>): (r: seq<int>)
    requires CountInUse(count)
    ensures |r| == AttemptsLeft(count)
    decreases AttemptsLeft(count)
  {
    match Admit(count)
    case None => []
    case Some(n) => [n] + AttemptsFrom(Some(n))
  }

  /**
   * A fresh call is attempted with counts 0, 1, 2 and 3, and the one after
   * that ends with 'retried three times': at most four sends per call.
   */
  lemma FourAttempts()
    ensures AttemptsFrom(None) == [0, 1, 2, 3]
    ensures Admit(Some(3)).None?
  {
    assert AttemptsFrom(Some(3)) == [];
    assert AttemptsFrom(Some(2)) == [3];
    assert AttemptsFrom(Some(1)) == [2, 3];
    assert AttemptsFrom(Some(0)) == [1, 2, 3];
  }

  /** Each admitted attempt uses up one of the four, so no count in use allows more than four. */
  lemma {:induction false} AdmitCountsDown(count: Option<int>)
    requires CountInUse(count)
    ensures Admit(count).None? <==> AttemptsLeft(count) == 0
    ensures Admit(count).Some? ==>
      CountInUse(Admit(count)) && AttemptsLeft(Admit(count)) == AttemptsLeft(count) - 1
    ensures AttemptsLeft(count) <= 4
  {
  }

  // ---------------------------------------------------------------------
  // The routing decision.

  /** The branch `request` and `fire` take once the instance is ready. */
  datatype Plan = Local | InvalidMeta | Exhausted | Attempt(peer: Peer, count: int)

  /**
   * Local when the ring allocates the key here; otherwise the owner must
   * advertise an address and port, and then the counter decides between
   * one more attempt and the terminal error.
   */
  function PlanFor(ring: RingView, key: string, count: Option<int>): (p: Plan)
    ensures p.Local? <==> ring.OwnsKey(key)
    ensures p.InvalidMeta? <==> !ring.OwnsKey(key) && !HasTransportAddress(ring.OwnerOf(key))
    ensures p.Exhausted? <==> !ring.OwnsKey(key) && HasTransportAddress(ring.OwnerOf(key)) && count == Some(3)
    ensures p.Attempt? ==>
      && p.peer == ring.OwnerOf(key) && HasTransportAddress(p.peer)
      && p.count == (if count.None? then 0 else count.value + 1)
  {
    if ring.OwnsKey(key) then Local
    else
      var peer := ring.OwnerOf(key);
      if !HasTransportAddress(peer) then InvalidMeta
      else match Admit(count)
        case None => Exhausted
        case Some(n) => Attempt(peer, n)
  }

  /** Neither the local path nor the invalid-metadata path looks at the counter. */
  lemma CountOnlyOnRemotePath(ring: RingView, key: string, c1: Option<int>, c2: Option<int>)
    requires PlanFor(ring, key, c1).Local? || PlanFor(ring, key, c1).InvalidMeta?
    ensures PlanFor(ring, key, c2) == PlanFor(ring, key, c1)
  {
  }

  // ---------------------------------------------------------------------
  // Connections.

  /** The reconnect stream `nustream` of a disconnected conn. */
  datatype Reconnect = NoStream | Connecting | StreamDestroyed | StreamConnected

  /** Where a conn's stream is: open, or closed with its reconnect and its `peerDown` listener. */
  datatype Stage = Open | Closed(nustream: Reconnect, listening: bool)

  /** One tentacoli conn and the closure of the `setupConn` call that made it. */
  datatype Conn = Conn(peer: Peer, retry: bool, destroyed: bool, stage: Stage)

  /** `setupConn(that, peer, stream, retry)`: a fresh open conn. */
  function NewConn(peer: Peer, retry: bool): Conn {
    Conn(peer, retry, false, Open)
  }

  /**
   * The end of the pump: the conn is destroyed, the `peerDown` listener is
   * registered, and a reconnect is started only while `retry` is false.
   */
  function Disconnect(k: Conn): (r: Conn)
    requires k.stage.Open?
    ensures r.peer == k.peer && r.retry == k.retry && r.destroyed
    ensures r.stage.Closed? && r.stage.listening
    ensures r.stage.nustream == Connecting <==> !k.retry
  {
    k.(destroyed := true, stage := Closed(if k.retry then NoStream else Connecting, true))
  }

  /** A conn made by a reconnect carries retry = true, so its own end never reconnects. */
  lemma ReconnectsOnce(peer: Peer)
    ensures Disconnect(NewConn(peer, true)).stage.nustream == NoStream
    ensures Disconnect(NewConn(peer, false)).stage.nustream == Connecting
  {
  }

  /** The upring instance: readiness, the calls waiting for 'up', and the conn cache. */
  class UpRing<Cb> {
    var isReady: bool
    /** The calls bound to the 'up' event, in the order they were queued. */
    var waiting: seq<Call<Cb>>
    /** `this._peers`: peer id to the position of its conn in `conns`. */
    var peers: map<PeerId, nat>
    /** Every conn `setupConn` has made, in order. */
    var conns: seq<Conn>
    /** The tcp-server plugin, whose genReqId stamps requests. */
    const server: Server

    ghost predicate Valid()
      reads this, server, server.counter
    {
      && server.Valid()
      && forall id :: id in peers ==> peers[id] < |conns| && conns[peers[id]].peer.id == id
    }

    constructor (server: Server)
      requires server.Valid()
      ensures Valid() && this.server == server
      ensures !isReady && waiting == [] && peers == map[] && conns == []
    {
      this.server := server;
      isReady := false;
      waiting := [];
      peers := map[];
      conns := [];
    }

    /** The boot step that sets `isReady`; the calls already queued stay queued until 'up'. */
    method MarkReady()
      requires Valid()
      modifies this`isReady
      ensures Valid() && isReady
    {
      isReady := true;
    }

    /** The 'up' event: every queued call is handed back, in queueing order, to be re-invoked. */
    method EmitUp() returns (resumed: seq<Call<Cb>>)
      requires Valid()
      modifies this`waiting
      ensures Valid() && waiting == [] && resumed == old(waiting)
    {
      resumed := waiting;
      waiting := [];
    }

    /**
     * `setupConn(that, peer, stream, retry)`: a new conn, registered under
     * `peer.id` in place of any conn cached there.
     */
    method SetupConn(peer: Peer, retry: bool) returns (c: nat)
      requires Valid()
      modifies this`peers, this`conns
      ensures Valid()
      ensures c == |old(conns)| && conns == old(conns) + [NewConn(peer, retry)]
      ensures peers == old(peers)[peer.id := c]
    {
      c := |conns|;
      conns := conns + [NewConn(peer, retry)];
      peers := peers[peer.id := c];
    }

    /** `peerConn(peer)`: the conn cached under `peer.id`, or a new one set up with retry false. */
    method PeerConn(peer: Peer) returns (c: nat)
      requires Valid()
      modifies this`peers, this`conns
      ensures Valid() && c < |conns| && conns[c].peer.id == peer.id
      ensures peer.id in old(peers) ==> c == old(peers)[peer.id] && peers == old(peers) && conns == old(conns)
      ensures peer.id !in old(peers) ==>
        c == |old(conns)| && conns == old(conns) + [NewConn(peer, false)] && peers == old(peers)[peer.id := c]
    {
      if peer.id in peers {
        c := peers[peer.id];
      } else {
        c := SetupConn(peer, false);
      }
    }

    /**
     * The remote attempt shared by request and fire: a destroyed conn
     * schedules a retry in 500 ms without sending, a live one sends.
     */
    method Transmit(peer: Peer, call: Call<Cb>) returns (effects: seq<Effect<Cb>>)
      requires Valid()
      modifies this`peers, this`conns
      ensures Valid()
      ensures var c := if peer.id in old(peers) then old(peers)[peer.id] else |old(conns)|;
        && peers == old(peers)[peer.id := c]
        && conns == (if peer.id in old(peers) then old(conns) else old(conns) + [NewConn(peer, false)])
        && effects == [if conns[c].destroyed then Later(RETRY_DELAY_MS, call) else Send(c, peer, call)]
    {
      var c := PeerConn(peer);
      if conns[c].destroyed {
        effects := [Later(RETRY_DELAY_MS, call)];
      } else {
        effects := [Send(c, peer, call)];
      }
    }

    /**
     * `request(obj, callback, _count)`. Before 'up' the call is queued
     * without its count. Once ready, `obj` first gets `genReqId(obj)` as its id
     * (returned as `obj`, the caller's object after that assignment); then a
     * local key is dispatched here without touching the conn cache, a peer
     * without an address fails, a call arriving with count 3 fails, and
     * otherwise the attempt goes out with the next count.
     */
    method Request(ring: RingView, msg: Message, callback: Reply<Cb>, count: Option<int>)
      returns (obj: Message, effects: seq<Effect<Cb>>)
      requires Valid()
      modifies this, server.counter
      ensures Valid() && isReady == old(isReady)
      ensures !old(isReady) ==>
        && waiting == old(waiting) + [Call(ViaRequest, msg, callback, None)]
        && obj == msg && effects == [] && peers == old(peers) && conns == old(conns)
      ensures old(isReady) ==> waiting == old(waiting) && obj.key == msg.key
      ensures old(isReady) && server.userGen.Some? ==> obj.id == server.userGen.value(msg)
      ensures old(isReady) && server.counter != null && Truthy(msg.id) ==> obj.id == msg.id
      ensures old(isReady) && server.counter != null && !Truthy(msg.id) ==>
        && obj.id == NumId(server.counter.nextReqId)
        && server.counter.nextReqId == Successor(old(server.counter.nextReqId))
        && server.counter.generated == old(server.counter.generated) + 1
      ensures server.counter != null && (!old(isReady) || Truthy(msg.id)) ==>
        server.counter.nextReqId == old(server.counter.nextReqId) && server.counter.generated == old(server.counter.generated)
      ensures old(isReady) ==> match PlanFor(ring, msg.key, count)
        case Local => effects == [Dispatch(obj, Dezalgo(callback))] && peers == old(peers) && conns == old(conns)
        case InvalidMeta => effects == [Invoke(callback, Some(INVALID_METADATA), None)] && peers == old(peers) && conns == old(conns)
        case Exhausted => effects == [Invoke(callback, Some(RETRIED_THREE_TIMES), None)] && peers == old(peers) && conns == old(conns)
        case Attempt(peer, n) =>
          var c := if peer.id in old(peers) then old(peers)[peer.id] else |old(conns)|;
          var call := Call(ViaRequest, obj, callback, Some(n));
          && peers == old(peers)[peer.id := c]
          && conns == (if peer.id in old(peers) then old(conns) else old(conns) + [NewConn(peer, false)])
          && effects == [if conns[c].destroyed then Later(RETRY_DELAY_MS, call) else Send(c, peer, call)]
    {
      if !isReady {
        waiting := waiting + [Call(ViaRequest, msg, callback, None)];
        return msg, [];
      }
      var id := server.GenReqId(msg);
      obj := msg.(id := id);
      match PlanFor(ring, obj.key, count)
      case Local =>
        effects := [Dispatch(obj, Dezalgo(callback))];
      case InvalidMeta =>
        effects := [Invoke(callback, Some(INVALID_METADATA), None)];
      case Exhausted =>
        effects := [Invoke(callback, Some(RETRIED_THREE_TIMES), None)];
      case Attempt(peer, n) =>
        effects := Transmit(peer, Call(ViaRequest, obj, callback, Some(n)));
    }

    /**
     * `fire(obj, callback, _count)`: a missing callback becomes
     * `this._fireCallback` before anything else; a local key calls the
     * callback first and then dispatches with a no-op reply; the remote path
     * is request's, without an id.
     */
    method Fire(ring: RingView, msg: Message, callback: Option<Cb>, count: Option<int>)
      returns (effects: seq<Effect<Cb>>)
      requires Valid()
      modifies this`waiting, this`peers, this`conns
      ensures Valid()
      ensures var reply := if callback.Some? then Caller(callback.value) else FireCallback;
        && (!isReady ==> waiting == old(waiting) + [Call(ViaFire, msg, reply, None)] && effects == []
                          && peers == old(peers) && conns == old(conns))
        && (isReady ==> waiting == old(waiting) && match PlanFor(ring, msg.key, count)
          case Local => effects == [Invoke(reply, None, None), Dispatch(msg, Noop)] && peers == old(peers) && conns == old(conns)
          case InvalidMeta => effects == [Invoke(reply, Some(INVALID_METADATA), None)] && peers == old(peers) && conns == old(conns)
          case Exhausted => effects == [Invoke(reply, Some(RETRIED_THREE_TIMES), None)] && peers == old(peers) && conns == old(conns)
          case Attempt(peer, n) =>
            var c := if peer.id in old(peers) then old(peers)[peer.id] else |old(conns)|;
            var call := Call(ViaFire, msg, reply, Some(n));
            && peers == old(peers)[peer.id := c]
            && conns == (if peer.id in old(peers) then old(conns) else old(conns) + [NewConn(peer, false)])
            && effects == [if conns[c].destroyed then Later(RETRY_DELAY_MS, call) else Send(c, peer, call)])
    {
      var reply := if callback.Some? then Caller(callback.value) else FireCallback;
      if !isReady {
        waiting := waiting + [Call(ViaFire, msg, reply, None)];
        return [];
      }
      match PlanFor(ring, msg.key, count)
      case Local =>
        effects := [Invoke(reply, None, None), Dispatch(msg, Noop)];
      case InvalidMeta =>
        effects := [Invoke(reply, Some(INVALID_METADATA), None)];
      case Exhausted =>
        effects := [Invoke(reply, Some(RETRIED_THREE_TIMES), None)];
      case Attempt(peer, n) =>
        effects := Transmit(peer, Call(ViaFire, msg, reply, Some(n)));
    }

    /** `retry(that, method, obj, callback, _count)`: the call is made again, through its own method. */
    method Retry(ring: RingView, call: Call<Cb>) returns (obj: Message, effects: seq<Effect<Cb>>)
      requires Valid()
      modifies this, server.counter
      ensures Valid() && isReady == old(isReady)
      ensures call.kind == ViaFire || !old(isReady) ==> obj == call.msg
      ensures call.kind == ViaRequest && old(isReady) && server.userGen.Some? ==> obj.id == server.userGen.value(call.msg)
      ensures call.kind == ViaRequest && old(isReady) && server.counter != null && Truthy(call.msg.id) ==> obj.id == call.msg.id
      ensures call.kind == ViaRequest && old(isReady) && server.counter != null && !Truthy(call.msg.id) ==>
        && obj.id == NumId(server.counter.nextReqId)
        && server.counter.nextReqId == Successor(old(server.counter.nextReqId))
        && server.counter.generated == old(server.counter.generated) + 1
      ensures server.counter != null && (call.kind == ViaFire || !old(isReady) || Truthy(call.msg.id)) ==>
        server.counter.nextReqId == old(server.counter.nextReqId) && server.counter.generated == old(server.counter.generated)
      ensures !old(isReady) ==> effects == [] && waiting == old(waiting) + [call.(count := None)]
      ensures old(isReady) ==> waiting == old(waiting) && obj.key == call.msg.key && match PlanFor(ring, call.msg.key, call.count)
        case Local =>
          effects == if call.kind == ViaRequest then [Dispatch(obj, Dezalgo(call.reply))]
                     else [Invoke(call.reply, None, None), Dispatch(obj, Noop)]
        case InvalidMeta => effects == [Invoke(call.reply, Some(INVALID_METADATA), None)]
        case Exhausted => effects == [Invoke(call.reply, Some(RETRIED_THREE_TIMES), None)]
        case Attempt(peer, n) =>
          && |effects| == 1 && (effects[0].Later? || effects[0].Send?)
          && effects[0].call == call.(msg := obj, count := Some(n))
    {
      match call.kind
      case ViaRequest =>
        obj, effects := Request(ring, call.msg, call.reply, call.count);
      case ViaFire =>
        obj := call.msg;
        effects := Fire(ring, call.msg, if call.reply.Caller? then Some(call.reply.cb) else None, call.count);
    }

    /** The error test of both reply handlers: the ring moved the key, or the conn was destroyed. */
    predicate ShouldRetry(ring: RingView, peer: Peer, c: nat, key: string)
      reads this
      requires c < |conns|
    {
      ring.OwnerOf(key).id != peer.id || conns[c].destroyed
    }

    /**
     * The handler given to `conn.request`: an error is retried in 500 ms when
     * the key's owner is now another peer or the conn is destroyed; otherwise
     * the caller gets (err, result) with `result.id` set to `obj.id`, and a
     * non-null id with no result throws where that assignment is made.
     */
    function RequestDone(ring: RingView, c: nat, peer: Peer, call: Call<Cb>, err: Option<string>, result: Option<Response>)
      : (effects: seq<Effect<Cb>>)
      reads this
      requires c < |conns|
      ensures |effects| == 1
      ensures effects[0].Later? || effects[0].Invoke? || effects[0].Throw?
      ensures effects[0].Later? <==> err.Some? && ShouldRetry(ring, peer, c, call.msg.key)
      ensures effects[0].Later? ==> effects[0] == Later(RETRY_DELAY_MS, call)
      ensures effects[0].Invoke? ==>
        && effects[0].reply == call.reply && effects[0].err == err
        && (call.msg.id != NoId ==> result.Some? && effects[0].result == Some(result.value.(id := call.msg.id)))
        && (call.msg.id == NoId ==> effects[0].result == result)
      ensures effects[0].Throw? <==> !effects[0].Later? && call.msg.id != NoId && result.None?
    {
      if err.Some? && ShouldRetry(ring, peer, c, call.msg.key) then [Later(RETRY_DELAY_MS, call)]
      else if call.msg.id != NoId then
        match result
        case None => [Throw(RESULT_UNDEFINED)]
        case Some(r) => [Invoke(call.reply, err, Some(r.(id := call.msg.id)))]
      else [Invoke(call.reply, err, result)]
    }

    /** The handler given to `conn.fire`: the same retry test, else `callback(err)`. */
    function FireDone(ring: RingView, c: nat, peer: Peer, call: Call<Cb>, err: Option<string>): (effects: seq<Effect<Cb>>)
      reads this
      requires c < |conns|
      ensures err.Some? && ShouldRetry(ring, peer, c, call.msg.key) ==> effects == [Later(RETRY_DELAY_MS, call)]
      ensures !(err.Some? && ShouldRetry(ring, peer, c, call.msg.key)) ==> effects == [Invoke(call.reply, err, None)]
    {
      if err.Some? && ShouldRetry(ring, peer, c, call.msg.key) then [Later(RETRY_DELAY_MS, call)]
      else [Invoke(call.reply, err, None)]
    }

    /** The 10 s timer of setupConn: `retry = true` for that conn. */
    method RetryWindowElapsed(c: nat)
      requires Valid() && c < |conns|
      modifies this`conns
      ensures Valid()
      ensures conns == old(conns)[c := old(conns[c]).(retry := true)]
    {
      conns := conns[c := conns[c].(retry := true)];
    }

    /**
     * The pump of conn c ends: it is destroyed, its `peerDown` listener is
     * registered, and it starts a reconnect only while its `retry` is false.
     * The cache keeps it.
     */
    method Disconnected(c: nat)
      requires Valid() && c < |conns| && conns[c].stage.Open?
      modifies this`conns
      ensures Valid() && peers == old(peers)
      ensures conns == old(conns)[c := Disconnect(old(conns[c]))]
    {
      conns := conns[c := Disconnect(conns[c])];
    }

    /**
     * The reconnect stream of conn c connects: a new conn with retry true is
     * set up for the same peer, taking over the cache entry, and the
     * `peerDown` listener is removed. Without a pending reconnect nothing
     * happens.
     */
    method Reconnected(c: nat) returns (newConn: Option<nat>)
      requires Valid() && c < |conns|
      modifies this`peers, this`conns
      ensures Valid()
      ensures old(conns[c].stage) != Closed(Connecting, true) ==>
        newConn == None && peers == old(peers) && conns == old(conns)
      ensures old(conns[c].stage) == Closed(Connecting, true) ==>
        var n := |old(conns)|;
        && newConn == Some(n)
        && conns == old(conns)[c := old(conns[c]).(stage := Closed(StreamConnected, false))] + [NewConn(old(conns[c]).peer, true)]
        && peers == old(peers)[old(conns[c]).peer.id := n]
    {
      if conns[c].stage != Closed(Connecting, true) {
        return None;
      }
      var n := SetupConn(conns[c].peer, true);
      conns := conns[c := conns[c].(stage := Closed(StreamConnected, false))];
      newConn := Some(n);
    }

    /**
     * The `peerDown` listener of conn c sees peer `down`: for its own peer
     * it deletes the cache entry for that id, unregisters itself and
     * destroys a pending reconnect stream; any other peer changes nothing.
     */
    method PeerDown(c: nat, down: PeerId)
      requires Valid() && c < |conns|
      modifies this`peers, this`conns
      ensures Valid()
      ensures !(old(conns[c].stage).Closed? && old(conns[c].stage).listening && down == old(conns[c]).peer.id) ==>
        peers == old(peers) && conns == old(conns)
      ensures old(conns[c].stage).Closed? && old(conns[c].stage).listening && down == old(conns[c]).peer.id ==>
        var ns := old(conns[c].stage).nustream;
        && peers == old(peers) - {down}
        && down !in peers
        && conns == old(conns)[c := old(conns[c]).(stage := Closed(if ns == Connecting then StreamDestroyed else ns, false))]
    {
      var k := conns[c];
      if k.stage.Closed? && k.stage.listening && down == k.peer.id {
        var ns := k.stage.nustream;
        peers := peers - {down};
        conns := conns[c := k.(stage := Closed(if ns == Connecting then StreamDestroyed else ns, false))];
      }
    }
  }
}
