/**
 * The DataLink connection descriptor (DLCP) and the records a connection
 * delivers. The network primitives behind them are not modelled: their
 * outcomes are given to the model from outside.
 */
module Link {
  import opened CText
  import opened CNumbers

  /** Size of the descriptor's address buffer (`char addr[100]`). */
  const AddressSize: nat := 100

  /** A position in a server's packet stream. */
  datatype Cursor = Cursor(pktid: int, pkttime: int)

  /** One DataLink packet as dl_collect returns it. */
  datatype Packet = Packet(
    streamId: string,
    dataStart: int,
    dataEnd: int,
    payload: seq<bv8>,
    pktid: int,
    pkttime: int)
  {
    function Position(): Cursor {
      Cursor(pktid, pkttime)
    }

    /** pktid and pkttime are 64-bit fields. */
    predicate Fits() {
      IsInt64(pktid) && IsInt64(pkttime)
    }
  }

  class Connection {
    var addr: string
    /** The socket descriptor, -1 while not connected. */
    var link: int
    var pktid: int
    var pkttime: int

    /** dl_newdlcp: a new descriptor for `addr`, not connected, at cursor `start`. */
    constructor (addr: string, start: Cursor)
      ensures this.addr == addr && link == -1
      ensures Position() == start
    {
      this.addr := addr;
      link := -1;
      pktid := start.pktid;
      pkttime := start.pkttime;
    }

    function Position(): Cursor
      reads this
    {
      Cursor(pktid, pkttime)
    }

    /** The address is a C string that fits its buffer, and the cursor is 64-bit. */
    predicate Fits()
      reads this
    {
      IsCString(addr) && |addr| < AddressSize && IsInt64(pktid) && IsInt64(pkttime)
    }

    /** dl_connect, succeeding or failing as `ok` says. */
    method Connect(ok: bool)
      modifies this`link
      ensures link != -1 <==> ok
    {
      link := if ok then 0 else -1;
    }

    /** dl_disconnect. */
    method Disconnect()
      modifies this`link
      ensures link == -1
    {
      link := -1;
    }

    /** A failing network call that closes the socket leaves the descriptor not connected. */
    method Lose()
      modifies this`link
      ensures link == -1
    {
      link := -1;
    }

    /** dl_collect returning `p` moves the cursor to that packet. */
    method Collect(p: Packet)
      modifies this`pktid, this`pkttime
      ensures Position() == p.Position()
    {
      pktid, pkttime := p.pktid, p.pkttime;
    }
  }
}
