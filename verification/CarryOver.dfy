/**
 * The carry-over read shared by all message transports: messages of any size are handed out in
 * caller-sized pieces, and what does not fit is kept in cache[cachePos..].
 * Here over a gRPC message stream (src/stream/grpc_client.rs, grpc_server.rs, rev_grpc_client.rs,
 * rev_grpc_server.rs); PbTcp uses the same copying over frames.
 */
module CarryOver {
  import opened Common
  import opened Bytes

  function Min(a: nat, b: nat): nat {
    if a < b then a else b
  }

  /** Fills the front of the buffer with as much of data as fits. */
  method CopyInto(buf: array<byte>, data: Bytes) returns (n: nat)
    modifies buf
    ensures n == Min(buf.Length, |data|)
    ensures buf[..n] == data[..n] && buf[n..] == old(buf[n..])
  {
    n := Min(buf.Length, |data|);
    for i := 0 to n
      invariant buf[..i] == data[..i]
      invariant buf[n..] == old(buf[n..])
    {
      buf[i] := data[i];
    }
  }

  /** The first branch of read: serve from the cache, and empty it when it is used up. */
  method ServeCache(buf: array<byte>, cache: Bytes, cachePos: nat) returns (n: nat, cache': Bytes, cachePos': nat)
    requires cachePos < |cache|
    modifies buf
    ensures n == Min(buf.Length, |cache| - cachePos)
    ensures cachePos' <= |cache'| && cache[cachePos..] == buf[..n] + cache'[cachePos'..]
    ensures buf[n..] == old(buf[n..])
  {
    n := CopyInto(buf, cache[cachePos..]);
    assert cache[cachePos..] == cache[cachePos..][..n] + cache[cachePos + n..];
    cache', cachePos' := cache, cachePos + n;
    if cachePos' >= |cache'| {
      cache', cachePos' := [], 0;
    }
  }

  /** The second branch: serve a new payload, and keep the part that does not fit. */
  method ServePayload(buf: array<byte>, payload: Bytes) returns (n: nat, cache: Bytes)
    modifies buf
    ensures n == Min(buf.Length, |payload|)
    ensures payload == buf[..n] + cache
    ensures buf[n..] == old(buf[n..])
  {
    n := CopyInto(buf, payload);
    cache := if |payload| > n then payload[n..] else [];
    assert payload == payload[..n] + payload[n..];
  }

  // ----- gRPC streams -----

  /** What the transport yields: a message, whose fields may be absent on the server side, or a status. */
  datatype Item = Message(payload: Option<Bytes>, auth: string, dstAddr: Option<string>, dstPort: Option<u32>) | Status

  datatype Error = NoMoreData | Interrupted | Panicked
  datatype Result = Ok(n: nat) | Err(error: Error)

  function PayloadOf(item: Item): Bytes {
    match item
    case Message(Some(p), _, _, _) => p
    case _ => []
  }

  function PayloadsOf(items: seq<Item>): Bytes {
    if items == [] then [] else PayloadOf(items[0]) + PayloadsOf(items[1..])
  }

  class Streaming {
    var items: seq<Item>

    constructor (items: seq<Item>)
      ensures this.items == items
    {
      this.items := items;
    }

    method Next() returns (item: Option<Item>)
      modifies this
      ensures old(items) == [] ==> item == None && items == []
      ensures old(items) != [] ==> item == Some(old(items)[0]) && items == old(items)[1..]
    {
      if items == [] {
        return None;
      }
      item := Some(items[0]);
      items := items[1..];
    }
  }

  class GrpcStream {
    const reader: Streaming
    var cache: Bytes
    var cachePos: nat

    constructor (reader: Streaming)
      ensures this.reader == reader && Valid() && Cached() == []
    {
      this.reader := reader;
      cache, cachePos := [], 0;
    }

    predicate Valid()
      reads this
    {
      cachePos <= |cache|
    }

    function Cached(): Bytes
      requires Valid()
      reads this
    {
      cache[cachePos..]
    }

    /** Every byte a caller has still to get. */
    function Pending(): Bytes
      requires Valid()
      reads this, reader
    {
      Cached() + PayloadsOf(reader.items)
    }

    /**
     * No byte is lost, repeated or reordered, whatever the buffer size; an error leaves the pending
     * bytes and the buffer as they were.
     */
    method Read(buf: array<byte>) returns (r: Result)
      requires Valid()
      modifies this, reader, buf
      ensures Valid()
      ensures r.Ok? ==> r.n <= buf.Length && old(Pending()) == buf[..r.n] + Pending() && buf[r.n..] == old(buf[r.n..])
      ensures r.Err? ==> old(Pending()) == Pending() && buf[..] == old(buf[..])
      ensures old(Cached()) != [] ==> r == Ok(Min(buf.Length, |old(Cached())|)) && reader.items == old(reader.items)
      ensures old(Cached()) == [] && old(reader.items) == [] ==> r == Err(NoMoreData)
      ensures old(Cached()) == [] && old(reader.items) != [] ==>
        && reader.items == old(reader.items)[1..]
        && (r == match old(reader.items)[0]
                 case Message(Some(p), _, _, _) => Ok(Min(buf.Length, |p|))
                 case Message(None, _, _, _) => Err(Panicked)
                 case Status => Err(Interrupted))
    {
      if cachePos < |cache| {
        var n;
        n, cache, cachePos := ServeCache(buf, cache, cachePos);
        return Ok(n);
      }
      cache, cachePos := [], 0;
      var item := reader.Next();
      match item {
        case None => return Err(NoMoreData);
        case Some(Status) => return Err(Interrupted);
        case Some(Message(None, _, _, _)) => return Err(Panicked);
        case Some(Message(Some(payload), _, _, _)) =>
          if payload == [] {
            return Ok(0);
          }
          var n;
          n, cache := ServePayload(buf, payload);
          return Ok(n);
      }
    }

    /**
     * split starts the read half with an empty cache: it keeps every pending byte exactly when nothing is
     * cached, which is so as long as read has not been called (the handshakes take whole messages).
     */
    method Split() returns (half: GrpcStream)
      requires Valid()
      ensures fresh(half) && half.Valid() && half.reader == reader && half.Cached() == []
      ensures Pending() == Cached() + half.Pending()
      ensures half.Pending() == Pending() <==> Cached() == []
    {
      half := new GrpcStream(reader);
      assert half.Pending() == PayloadsOf(reader.items);
      assert |Pending()| == |Cached()| + |half.Pending()|;
    }

    /**
     * The server's handshake takes the first message whole and leaves the cache alone: its auth field is the
     * password, its address and port, truncated to 16 bits, are where the connection is to go.
     */
    method Handshake() returns (r: HandshakeResult)
      requires Valid()
      modifies reader
      ensures Valid() && Cached() == old(Cached())
      ensures reader.items == if old(reader.items) == [] then [] else old(reader.items)[1..]
      ensures old(reader.items) == [] || old(reader.items)[0].Status? ==> r == Failure(Interrupted)
      ensures old(reader.items) != [] && old(reader.items)[0].Message? ==>
        var m := old(reader.items)[0];
        && (r.Accepted? <==> m.dstAddr.Some? && m.dstPort.Some?)
        && (r.Accepted? ==> r.addr == RunAddr(m.dstAddr.value, m.dstPort.value % 0x1_0000, false) && r.password == m.auth)
        && (!r.Accepted? ==> r == Failure(Panicked))
    {
      var first := reader.Next();
      match first {
        case None => return Failure(Interrupted);
        case Some(Status) => return Failure(Interrupted);
        case Some(Message(_, auth, dstAddr, dstPort)) =>
          if dstAddr.None? || dstPort.None? {
            return Failure(Panicked);
          }
          return Accepted(RunAddr(dstAddr.value, dstPort.value % 0x1_0000, false), auth);
      }
    }
  }

  datatype HandshakeResult = Accepted(addr: RunAddr<string>, password: string) | Failure(error: Error)

  lemma TakePiece(pieces: seq<Bytes>, piece: Bytes, before: Bytes, after: Bytes)
    requires before == piece + after
    ensures Flatten(pieces + [piece]) + after == Flatten(pieces) + before
  {
    FlattenAppend(pieces, [piece]);
    FlattenSingleton(piece);
    assert Flatten(pieces) + piece + after == Flatten(pieces) + (piece + after);
  }

  /** Any sequence of reads, with any buffer sizes, hands out a prefix of the pending bytes, in order. */
  method ReadSeveral(stream: GrpcStream, sizes: seq<nat>) returns (pieces: seq<Bytes>, failures: nat)
    requires stream.Valid()
    modifies stream, stream.reader
    ensures stream.Valid()
    ensures Flatten(pieces) + stream.Pending() == old(stream.Pending())
    ensures |pieces| + failures == |sizes|
  {
    pieces, failures := [], 0;
    for i := 0 to |sizes|
      invariant stream.Valid()
      invariant Flatten(pieces) + stream.Pending() == old(stream.Pending())
      invariant |pieces| + failures == i
    {
      var buf := new byte[sizes[i]];
      ghost var before := stream.Pending();
      var r := stream.Read(buf);
      if r.Ok? {
        TakePiece(pieces, buf[..r.n], before, stream.Pending());
        pieces := pieces + [buf[..r.n]];
      } else {
        failures := failures + 1;
      }
    }
  }
}
