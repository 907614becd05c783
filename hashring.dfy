/**
 * The hash ring collaborator (swim-hashring), seen only through the calls the
 * core makes on it. Hashing, ownership and lookup are foreign code, so a ring
 * is a value holding them as functions: each event or call of the model takes
 * the ring view of that instant.
 */
module HashRing {
  import opened Wrappers

  /** Size of the circular unsigned 32-bit hash space. */
  const RING_SIZE: int := 0x1_0000_0000

  /** A position on the ring. */
  type Point = p: int | 0 <= p < RING_SIZE

  /** The largest point, 2^32 - 1. */
  const MAX_POINT: Point := RING_SIZE - 1

  type PeerId = string

  /**
   * The `meta.upring` record a peer advertises. An absent address or port is
   * written as "" or 0: the source's truthiness test treats them alike.
   */
  datatype UpringMeta = UpringMeta(address: string, port: int)

  /** A ring member: its id and its `meta.upring` (None when missing). */
  datatype Peer = Peer(id: PeerId, upring: Option<UpringMeta>)

  /** `upring && upring.address && upring.port`: the peer can be connected to. */
  predicate HasTransportAddress(peer: Peer) {
    peer.upring.Some? && peer.upring.value.address != "" && peer.upring.value.port != 0
  }

  /**
   * The `{start, end, to}` payload of the ring's 'move' and 'steal' events:
   * the range (start, end] of the ring now belongs to `to`.
   */
  datatype RangeEvent = RangeEvent(start: int, end: int, to: Peer)

  /** The ring as the local node sees it at one instant. */
  datatype RingView = RingView(
    hash: string -> Point,          // hashring.hash (farmhash)
    allocatedToMe: Point -> bool,   // hashring.allocatedToMe on a point
    lookup: Point -> Peer)          // hashring.lookup: the current owner of a point
  {
    /** allocatedToMe(key): the ring hashes a string key before testing it. */
    predicate OwnsKey(key: string) {
      allocatedToMe(hash(key))
    }

    /** lookup(key): the peer owning the key's point. */
    function OwnerOf(key: string): Peer {
      lookup(hash(key))
    }
  }
}
