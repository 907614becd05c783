/**
 * lib/tcp-server.js, the request-id part: `reqIdGenFactory` makes a
 * generator with its own counter, `upring.genReqId` is that generator unless
 * the options supply one, and `onRequest` stamps every incoming request with
 * an id before handing it to the dispatcher. Sockets, tentacoli and pump are
 * not part of this model.
 */
module TcpServer {
  import opened Wrappers

  /** `maxInt` of reqIdGenFactory, 2^31 - 1. */
  const MAX_INT: int := 2147483647

  /** A request object's `id` field: absent (undefined or null), a number or a string. */
  datatype ReqId = NoId | NumId(n: int) | TextId(s: string)

  /** A request object: its routing key and its id; the rest of the payload is opaque. */
  datatype Message = Message(key: string, id: ReqId)

  /** JavaScript truthiness of an id: 0, "" and a missing id are falsy. */
  predicate Truthy(id: ReqId) {
    match id
    case NoId => false
    case NumId(n) => n != 0
    case TextId(s) => s != ""
  }

  /**
   * `(n + 1) & maxInt` for an integer n: `&` takes its operands as 32-bit
   * two's-complement values and the mask keeps the low 31 bits, which is
   * n + 1 modulo 2^31.
   */
  function Successor(n: int): (r: int)
    ensures 0 <= r <= MAX_INT
    ensures 0 <= n < MAX_INT ==> r == n + 1
    ensures n == MAX_INT ==> r == 0
  {
    (n + 1) % (MAX_INT + 1)
  }

  /** The counter of a generator that has handed out k ids. */
  function CounterAfter(k: nat): int {
    if k == 0 then 0 else Successor(CounterAfter(k - 1))
  }

  /** The k-th generated id is k modulo 2^31: 1, 2, ..., 2^31 - 1, then 0, 1, ... */
  lemma {:induction false} CounterAfterIsMod(k: nat)
    ensures CounterAfter(k) == k % 0x8000_0000
  {
    if k > 0 {
      CounterAfterIsMod(k - 1);
      var q, r := (k - 1) / 0x8000_0000, (k - 1) % 0x8000_0000;
      assert k - 1 == q * 0x8000_0000 + r;
      assert CounterAfter(k) == Successor(r);
      if r < MAX_INT {
        ModOf(k, q, r + 1);
      } else {
        ModOf(k, q + 1, 0);
      }
    }
  }

  /** The remainder of a = q * 2^31 + r with 0 <= r < 2^31 is r. */
  lemma ModOf(a: int, q: int, r: int)
    requires a == q * 0x8000_0000 + r && 0 <= r < 0x8000_0000
    ensures a % 0x8000_0000 == r
  {
  }

  /** The first generated id is 1, and the ids repeat with period 2^31, reaching 0 only at its multiples. */
  lemma GeneratedIdsCycle(k: nat)
    ensures CounterAfter(1) == 1
    ensures CounterAfter(k + MAX_INT + 1) == CounterAfter(k)
    ensures CounterAfter(k) == 0 <==> k % (MAX_INT + 1) == 0
  {
    CounterAfterIsMod(k);
    CounterAfterIsMod(k + MAX_INT + 1);
    ModOf(k + MAX_INT + 1, k / 0x8000_0000 + 1, k % 0x8000_0000);
  }

  /** The closure `_genReqId` that reqIdGenFactory returns, with its counter `nextReqId`. */
  class ReqIdGen {
    var nextReqId: int
    /** How many ids this generator has produced. */
    ghost var generated: nat

    ghost predicate Valid()
      reads this
    {
      nextReqId == CounterAfter(generated)
    }

    /** `reqIdGenFactory()`: a fresh counter at 0. */
    constructor ()
      ensures Valid() && generated == 0 && nextReqId == 0
    {
      nextReqId := 0;
      generated := 0;
    }

    /**
     * `_genReqId(req)`: a truthy `req.id` is returned as it is and the counter
     * stays; otherwise the counter advances by one modulo 2^31 and its new
     * value is the id.
     */
    method GenReqId(req: Message) returns (id: ReqId)
      requires Valid()
      modifies this
      ensures Valid()
      ensures Truthy(req.id) ==> id == req.id && nextReqId == old(nextReqId) && generated == old(generated)
      ensures !Truthy(req.id) ==>
        && generated == old(generated) + 1
        && nextReqId == Successor(old(nextReqId))
        && id == NumId(nextReqId)
    {
      if Truthy(req.id) {
        return req.id;
      }
      nextReqId := Successor(nextReqId);
      generated := generated + 1;
      id := NumId(nextReqId);
    }
  }

  /** The part of `serverPlugin` that owns `upring.genReqId`. */
  class Server {
    /** `opts.genReqId`, a function of the request object. */
    const userGen: Option<Message -> ReqId>
    /** The generator reqIdGenFactory made; none is made when opts.genReqId is given. */
    const counter: ReqIdGen?

    ghost predicate Valid()
      reads this, counter
    {
      (userGen.None? <==> counter != null) && (counter != null ==> counter.Valid())
    }

    /** `const genReqId = opts.genReqId || reqIdGenFactory()`. */
    constructor (genReqId: Option<Message -> ReqId>)
      ensures Valid() && userGen == genReqId
      ensures counter != null ==> fresh(counter) && counter.nextReqId == 0 && counter.generated == 0
    {
      userGen := genReqId;
      if genReqId.None? {
        counter := new ReqIdGen();
      } else {
        counter := null;
      }
    }

    /** `upring.genReqId(req)`: the user's generator when given, else the counter. */
    method GenReqId(req: Message) returns (id: ReqId)
      requires Valid()
      modifies counter
      ensures Valid()
      ensures userGen.Some? ==> id == userGen.value(req)
      ensures counter != null && Truthy(req.id) ==>
        id == req.id && counter.nextReqId == old(counter.nextReqId) && counter.generated == old(counter.generated)
      ensures counter != null && !Truthy(req.id) ==>
        && counter.generated == old(counter.generated) + 1
        && counter.nextReqId == Successor(old(counter.nextReqId))
        && id == NumId(counter.nextReqId)
    {
      if userGen.Some? {
        id := userGen.value(req);
      } else {
        id := counter.GenReqId(req);
      }
    }

    /**
     * `onRequest(req, reply)`: the request reaches `upring._dispatch` with
     * `req.id` set to what genReqId returned.
     */
    method OnRequest(req: Message) returns (dispatched: Message)
      requires Valid()
      modifies counter
      ensures Valid()
      ensures dispatched.key == req.key
      ensures userGen.Some? ==> dispatched.id == userGen.value(req)
      ensures counter != null && Truthy(req.id) ==> dispatched == req && counter.nextReqId == old(counter.nextReqId)
      ensures counter != null && !Truthy(req.id) ==>
        && counter.nextReqId == Successor(old(counter.nextReqId))
        && dispatched.id == NumId(counter.nextReqId)
    {
      var id := GenReqId(req);
      dispatched := req.(id := id);
    }
  }
}
