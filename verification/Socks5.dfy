/**
 * SOCKS5 hello and request parsing over its two back-ends (src/util/socks5/parser.rs, request.rs,
 * client_hello.rs, src/def.rs) and the SOCKS5 branch of the htss5 handshake (src/listener/htss5.rs).
 */
module Socks5 {
  import opened Common
  import opened Bytes
  import Utf8

  const NO_AUTH: byte := 0
  const CMD_CONNECT: byte := 1
  const CMD_UDP: byte := 3

  datatype Error = EarlyEof | NotEnoughData | BadVersion | BadCommand | BadAddrType | NoAuthMethod | NotADomain
  datatype Result<+T> = Ok(value: T) | Err(error: Error)

  datatype Hello = Hello(version: byte, methods: Bytes)
  datatype Request = Request(version: byte, cmd: byte, rsv: byte, aTyp: byte, dstAddr: Bytes, dstPort: Bytes)

  datatype Parsed<+T> = Parsed(value: T, cursor: nat)

  // ----- what one read_exact gives -----

  function Zeros(n: nat): Bytes {
    seq(n, _ => 0)
  }

  function Available(data: Bytes, cursor: nat, len: nat): nat
    requires cursor <= |data|
  {
    if len < |data| - cursor then len else |data| - cursor
  }

  /**
   * The bytes parser wants all of len. The stream parser accepts a short read, leaving the rest of the
   * zeroed buffer, and takes no byte at all (so also an empty buffer) for the end of the stream.
   */
  function Take(streaming: bool, data: Bytes, cursor: nat, len: nat): Result<Parsed<Bytes>>
    requires cursor <= |data|
  {
    if streaming then
      var n := Available(data, cursor, len);
      if n == 0 then Err(EarlyEof) else Ok(Parsed(data[cursor..cursor + n] + Zeros(len - n), cursor + n))
    else if |data| < cursor + len then Err(NotEnoughData)
    else Ok(Parsed(data[cursor..cursor + len], cursor + len))
  }

  lemma ZerosRest(n: nat, k: nat)
    requires k <= n
    ensures Zeros(n)[k..] == Zeros(n - k)
  {
  }

  /** A read behind the first n bytes adds a piece and leaves the rest zeroed. */
  lemma ReadExtends(before: Bytes, after: Bytes, done: Bytes, piece: Bytes, n: nat)
    requires |before| == |after| && n + |piece| <= |after|
    requires before[..n] == done && before[n..] == Zeros(|before| - n)
    requires after[..n] == before[..n] && after[n..n + |piece|] == piece && after[n + |piece|..] == before[n + |piece|..]
    ensures after[..n + |piece|] == done + piece
    ensures after[n + |piece|..] == Zeros(|after| - n - |piece|)
  {
    DropOfDrop(before, n, |piece|);
    ZerosRest(|before| - n, |piece|);
  }

  method CopyAt(buf: array<byte>, from: nat, piece: Bytes)
    requires from + |piece| <= buf.Length
    modifies buf
    ensures buf[..from] == old(buf[..from]) && buf[from..from + |piece|] == piece
    ensures buf[from + |piece|..] == old(buf[from + |piece|..])
  {
    for i := 0 to |piece|
      invariant forall k :: 0 <= k < buf.Length && !(from <= k < from + i) ==> buf[k] == old(buf[k])
      invariant forall k :: 0 <= k < i ==> buf[from + k] == piece[k]
    {
      buf[from + i] := piece[i];
    }
  }

  /** StreamParser and BytesParser: the bytes to come, and for a stream how its reads will split them. */
  class Parser {
    const streaming: bool
    const data: Bytes
    var cursor: nat
    var splits: seq<nat>

    constructor (streaming: bool, data: Bytes, splits: seq<nat>)
      ensures this.streaming == streaming && this.data == data && cursor == 0 && this.splits == splits
    {
      this.streaming, this.data, cursor, this.splits := streaming, data, 0, splits;
    }

    /** One read of the stream: at least a byte unless it is at its end or the buffer is empty. */
    method ReadSome(buf: array<byte>, from: nat) returns (n: nat)
      requires from <= buf.Length && cursor <= |data|
      modifies this, buf
      ensures n <= Available(data, old(cursor), buf.Length - from)
      ensures n == 0 ==> Available(data, old(cursor), buf.Length - from) == 0
      ensures cursor == old(cursor) + n
      ensures buf[..from] == old(buf[..from]) && buf[from..from + n] == data[old(cursor)..old(cursor) + n]
      ensures buf[from + n..] == old(buf[from + n..])
    {
      var most := Available(data, cursor, buf.Length - from);
      n := most;
      if splits != [] {
        if 0 < splits[0] < most {
          n := splits[0];
        }
        splits := splits[1..];
      }
      CopyAt(buf, from, data[cursor..cursor + n]);
      cursor := cursor + n;
    }

    /** The loop of the stream's read_exact: it stops when the buffer is full or a read gives nothing. */
    method FillFromStream(buf: array<byte>) returns (n: nat)
      requires cursor <= |data| && buf[..] == Zeros(buf.Length)
      modifies this, buf
      ensures n == Available(data, old(cursor), buf.Length) && cursor == old(cursor) + n
      ensures buf[..] == data[old(cursor)..cursor] + Zeros(buf.Length - n)
    {
      n := 0;
      ghost var start, most := cursor, Available(data, cursor, buf.Length);
      while n < buf.Length
        invariant n <= most && cursor == start + n
        invariant buf[..n] == data[start..cursor]
        invariant buf[n..] == Zeros(buf.Length - n)
      {
        ghost var before := buf[..];
        var nn := ReadSome(buf, n);
        if nn == 0 {
          break;
        }
        ReadExtends(before, buf[..], data[start..start + n], data[start + n..cursor], n);
        SlicesJoin(data, start, start + n, cursor);
        n := n + nn;
      }
      assert n == most;
      assert buf[..] == buf[..n] + buf[n..];
    }

    /** read_exact of either back-end. For a stream the result does not depend on how reads are split. */
    method ReadExact(buf: array<byte>) returns (r: Result<()>)
      requires cursor <= |data| && buf[..] == Zeros(buf.Length)
      modifies this, buf
      ensures cursor <= |data|
      ensures var spec := Take(streaming, data, old(cursor), buf.Length);
        && (spec.Ok? ==> r == Ok(()) && buf[..] == spec.value.value && cursor == spec.value.cursor)
        && (spec.Err? ==> r == Err(spec.error))
    {
      if streaming {
        var n := FillFromStream(buf);
        if n == 0 {
          return Err(EarlyEof);
        }
        return Ok(());
      }
      if |data| < cursor + buf.Length {
        return Err(NotEnoughData);
      }
      CopyAt(buf, 0, data[cursor..cursor + buf.Length]);
      assert buf[..] == buf[0..buf.Length];
      cursor := cursor + buf.Length;
      return Ok(());
    }

    method ReadVec(len: nat) returns (r: Result<Bytes>)
      requires cursor <= |data|
      modifies this
      ensures cursor <= |data|
      ensures var spec := Take(streaming, data, old(cursor), len);
        && (spec.Ok? ==> r == Ok(spec.value.value) && cursor == spec.value.cursor)
        && (spec.Err? ==> r == Err(spec.error))
    {
      var buf := new byte[len](_ => 0);
      assert buf[..] == Zeros(len);
      var e := ReadExact(buf);
      if e.Err? {
        return Err(e.error);
      }
      return Ok(buf[..]);
    }

    method ParseHello() returns (r: Result<Hello>)
      requires cursor == 0
      modifies this
      ensures var spec := HelloOf(streaming, data);
        && (spec.Ok? ==> r == Ok(spec.value.value) && cursor == spec.value.cursor)
        && (spec.Err? ==> r == Err(spec.error))
    {
      var version := ReadVec(1);
      if version.Err? { return Err(version.error); }
      if version.value[0] != 5 { return Err(BadVersion); }
      var num := ReadVec(1);
      if num.Err? { return Err(num.error); }
      var methods := ReadVec(num.value[0]);
      if methods.Err? { return Err(methods.error); }
      return Ok(Hello(version.value[0], methods.value));
    }

    method ParseRequest() returns (r: Result<Request>)
      requires cursor == 0
      modifies this
      ensures var spec := RequestOf(streaming, data);
        && (spec.Ok? ==> r == Ok(spec.value.value) && cursor == spec.value.cursor)
        && (spec.Err? ==> r == Err(spec.error))
    {
      var version := ReadVec(1);
      if version.Err? { return Err(version.error); }
      if version.value[0] != 5 { return Err(BadVersion); }
      var cmd := ReadVec(1);
      if cmd.Err? { return Err(cmd.error); }
      if cmd.value[0] != CMD_CONNECT && cmd.value[0] != CMD_UDP { return Err(BadCommand); }
      var rsv := ReadVec(1);
      if rsv.Err? { return Err(rsv.error); }
      var aTyp := ReadVec(1);
      if aTyp.Err? { return Err(aTyp.error); }
      var t := aTyp.value[0];
      if t != 1 && t != 3 && t != 4 { return Err(BadAddrType); }
      var len := if t == 1 then 4 else 16;
      if t == 3 {
        var l := ReadVec(1);
        if l.Err? { return Err(l.error); }
        len := l.value[0];
      }
      var dstAddr := ReadVec(len);
      if dstAddr.Err? { return Err(dstAddr.error); }
      var dstPort := ReadVec(2);
      if dstPort.Err? { return Err(dstPort.error); }
      return Ok(Request(5, cmd.value[0], rsv.value[0], t, dstAddr.value, dstPort.value));
    }
  }

  // ----- the parsers as functions of the whole input -----

  function HelloOf(streaming: bool, data: Bytes): Result<Parsed<Hello>> {
    if |data| < 1 then Err(Short(streaming))
    else if data[0] != 5 then Err(BadVersion)
    else if |data| < 2 then Err(Short(streaming))
    else
      var methods := Take(streaming, data, 2, data[1]);
      if methods.Err? then Err(methods.error)
      else Ok(Parsed(Hello(5, methods.value.value), methods.value.cursor))
  }

  function Short(streaming: bool): Error {
    if streaming then EarlyEof else NotEnoughData
  }

  /** Where the address starts and how long it is, once the type (and length byte) can be seen. */
  function AddrStart(data: Bytes): nat
    requires |data| >= 4
  {
    if data[3] == 3 then 5 else 4
  }

  function AddrLength(data: Bytes): nat
    requires |data| >= 4 && (data[3] == 3 ==> |data| >= 5)
  {
    if data[3] == 1 then 4 else if data[3] == 4 then 16 else if data[3] == 3 then data[4] else 0
  }

  /** The fixed part of a request is present and acceptable. */
  predicate RequestHead(data: Bytes) {
    && |data| >= 4 && data[0] == 5 && data[1] in {CMD_CONNECT, CMD_UDP} && data[3] in {1, 3, 4}
    && (data[3] == 3 ==> |data| >= 5)
  }

  function RequestOf(streaming: bool, data: Bytes): Result<Parsed<Request>> {
    if |data| < 1 then Err(Short(streaming))
    else if data[0] != 5 then Err(BadVersion)
    else if |data| < 2 then Err(Short(streaming))
    else if data[1] !in {CMD_CONNECT, CMD_UDP} then Err(BadCommand)
    else if |data| < 4 then Err(Short(streaming))
    else if data[3] !in {1, 3, 4} then Err(BadAddrType)
    else if data[3] == 3 && |data| < 5 then Err(Short(streaming))
    else
      var dstAddr := Take(streaming, data, AddrStart(data), AddrLength(data));
      if dstAddr.Err? then Err(dstAddr.error)
      else
        var dstPort := Take(streaming, data, dstAddr.value.cursor, 2);
        if dstPort.Err? then Err(dstPort.error)
        else Ok(Parsed(Request(5, data[1], data[2], data[3], dstAddr.value.value, dstPort.value.value), dstPort.value.cursor))
  }

  // ----- when the two back-ends agree -----

  /** Both fail, or both give the same record after the same number of bytes. */
  predicate Agree<T(==)>(a: Result<Parsed<T>>, b: Result<Parsed<T>>) {
    if a.Ok? && b.Ok? then a == b else a.Err? && b.Err?
  }

  /** No methods announced, or some but not all of them present. */
  predicate HelloCutShort(data: Bytes) {
    |data| >= 2 && data[0] == 5 && (data[1] == 0 || 0 < |data| - 2 < data[1])
  }

  /** A complete request with an empty domain, or a request that lacks just its last byte. */
  predicate RequestCutShort(data: Bytes) {
    && RequestHead(data)
    && (if AddrLength(data) == 0 then |data| >= AddrStart(data) + 2
        else |data| == AddrStart(data) + AddrLength(data) + 1)
  }

  lemma WholeTakesAgree(data: Bytes, cursor: nat, len: nat)
    requires 0 < len && cursor + len <= |data|
    ensures Take(true, data, cursor, len) == Take(false, data, cursor, len) == Ok(Parsed(data[cursor..cursor + len], cursor + len))
  {
    assert data[cursor..cursor + len] + Zeros(0) == data[cursor..cursor + len];
  }

  /** Parsing a hello is the same from a stream, however split, and from a buffer, except when cut short. */
  lemma HelloBackendsAgree(data: Bytes)
    ensures Agree(HelloOf(true, data), HelloOf(false, data)) <==> !HelloCutShort(data)
  {
    if |data| >= 2 && data[0] == 5 && 0 < data[1] <= |data| - 2 {
      WholeTakesAgree(data, 2, data[1]);
    }
  }

  /** The same for a request: complete requests with a non-empty address agree, and all but two malformed kinds. */
  lemma RequestBackendsAgree(data: Bytes)
    ensures Agree(RequestOf(true, data), RequestOf(false, data)) <==> !RequestCutShort(data)
  {
    if RequestHead(data) {
      var start, len := AddrStart(data), AddrLength(data);
      if len > 0 && start + len <= |data| {
        WholeTakesAgree(data, start, len);
        if start + len + 2 <= |data| {
          WholeTakesAgree(data, start + len, 2);
        }
      }
    }
  }

  /** The stream parser reads a request without its last byte as if that byte were 0. */
  lemma StreamPadsPort(data: Bytes)
    requires RequestCutShort(data) && AddrLength(data) > 0
    ensures RequestOf(true, data).Ok?
    ensures RequestOf(true, data).value.value.dstPort == [data[|data| - 1], 0]
    ensures RequestOf(false, data).Err?
  {
    var end := AddrStart(data) + AddrLength(data);
    assert Zeros(1) == [0] && Zeros(0) == [];
    assert data[end..end + 1] == [data[|data| - 1]];
  }

  // ----- round trips -----

  function SerializeHello(h: Hello): Bytes
    requires |h.methods| <= 255
  {
    [5, |h.methods|] + h.methods
  }

  predicate WellFormed(r: Request) {
    && r.version == 5 && r.cmd in {CMD_CONNECT, CMD_UDP} && |r.dstPort| == 2
    && ((r.aTyp == 1 && |r.dstAddr| == 4) || (r.aTyp == 4 && |r.dstAddr| == 16) || (r.aTyp == 3 && |r.dstAddr| <= 255))
  }

  /** Everything in front of the address. */
  function Intro(r: Request): Bytes
    requires WellFormed(r)
  {
    if r.aTyp == 3 then [5, r.cmd, r.rsv, 3, |r.dstAddr|] else [5, r.cmd, r.rsv, r.aTyp]
  }

  function SerializeRequest(r: Request): Bytes
    requires WellFormed(r)
  {
    Intro(r) + r.dstAddr + r.dstPort
  }

  /** What is wrong with a hello that is refused, over either back-end. */
  lemma HelloErrors(streaming: bool, data: Bytes)
    ensures data == [] ==> HelloOf(streaming, data) == Err(if streaming then EarlyEof else NotEnoughData)
    ensures data != [] && data[0] != 5 ==> HelloOf(streaming, data) == Err(BadVersion)
    ensures data != [] && data[0] == 5 && HelloOf(streaming, data).Err? ==>
      HelloOf(streaming, data) == Err(if streaming then EarlyEof else NotEnoughData)
  {
  }

  /** What is wrong with a request that is refused, over either back-end: its bytes are checked in their order. */
  lemma RequestErrors(streaming: bool, data: Bytes)
    requires RequestOf(streaming, data).Err?
    ensures RequestOf(streaming, data).error ==
      if data != [] && data[0] != 5 then BadVersion
      else if |data| >= 2 && data[1] !in {1, 3} then BadCommand
      else if |data| >= 4 && data[3] !in {1, 3, 4} then BadAddrType
      else if streaming then EarlyEof else NotEnoughData
  {
  }

  /** Parsing inverts serializing, and leaves what follows; a stream does so when there is a method. */
  lemma HelloRoundTrip(h: Hello, tail: Bytes)
    requires h.version == 5 && |h.methods| <= 255
    ensures HelloOf(false, SerializeHello(h) + tail) == Ok(Parsed(h, |SerializeHello(h)|))
    ensures h.methods != [] ==> HelloOf(true, SerializeHello(h) + tail) == Ok(Parsed(h, |SerializeHello(h)|))
  {
    var data := SerializeHello(h) + tail;
    assert data[2..2 + |h.methods|] == h.methods;
    HelloBackendsAgree(data);
  }

  /** The bytes in front of the address fix where it starts and how long it is. */
  lemma IntroDecides(data: Bytes, r: Request)
    requires WellFormed(r) && Intro(r) <= data
    ensures data[0] == 5 && data[1] == r.cmd && data[2] == r.rsv && data[3] == r.aTyp
    ensures AddrStart(data) == |Intro(r)| && AddrLength(data) == |r.dstAddr|
  {
    assert forall i :: 0 <= i < |Intro(r)| ==> data[i] == Intro(r)[i];
  }

  lemma RequestRoundTrip(r: Request, tail: Bytes)
    requires WellFormed(r)
    ensures RequestOf(false, SerializeRequest(r) + tail) == Ok(Parsed(r, |SerializeRequest(r)|))
    ensures r.dstAddr != [] ==> RequestOf(true, SerializeRequest(r) + tail) == Ok(Parsed(r, |SerializeRequest(r)|))
  {
    var intro, data := Intro(r), SerializeRequest(r) + tail;
    FourParts(intro, r.dstAddr, r.dstPort, tail);
    IntroDecides(data, r);
    RequestBackendsAgree(data);
  }

  /** Whatever parses from a buffer is a serialized request followed by the bytes left over. */
  lemma RequestSplitsInput(data: Bytes)
    requires RequestOf(false, data).Ok?
    ensures var p := RequestOf(false, data).value;
      WellFormed(p.value) && p.cursor <= |data| && data == SerializeRequest(p.value) + data[p.cursor..]
  {
    var p := RequestOf(false, data).value;
    var start, len := AddrStart(data), AddrLength(data);
    CutInFour(data, start, start + len, p.cursor);
    assert data[..start] == Intro(p.value);
  }

  lemma HelloSplitsInput(data: Bytes)
    requires HelloOf(false, data).Ok?
    ensures var p := HelloOf(false, data).value;
      |p.value.methods| <= 255 && p.cursor <= |data| && data == SerializeHello(p.value) + data[p.cursor..]
  {
    var p := HelloOf(false, data).value;
    assert data == data[..2] + data[2..p.cursor] + data[p.cursor..];
  }

  // ----- the SOCKS5 branch of the htss5 handshake -----

  function PortOf(b: Bytes): u16
    requires |b| == 2
  {
    BigEndianRange(b);
    assert Pow256(2) == 0x1_0000;
    FromBigEndian(b)
  }

  function ToRunAddr(r: Request): Result<RunAddr<Host>>
    requires WellFormed(r)
  {
    var port, udp := PortOf(r.dstPort), r.cmd == CMD_UDP;
    if r.aTyp == 1 then Ok(RunAddr(V4(r.dstAddr), port, udp))
    else if r.aTyp == 4 then Ok(RunAddr(V6(r.dstAddr), port, udp))
    else if Utf8.Valid(r.dstAddr) then Ok(RunAddr(Domain(r.dstAddr), port, udp))
    else Err(NotADomain)
  }

  datatype Accepted = Accepted(addr: RunAddr<Host>, cache: Bytes)

  /** A request as section 4 of RFC 1928 lays it out. */
  function RequestFor(host: Host, port: u16, cmd: byte): Request {
    match host
    case V4(ip) => Request(5, cmd, 0, 1, ip, ToBigEndian(port, 2))
    case Domain(name) => Request(5, cmd, 0, 3, name, ToBigEndian(port, 2))
    case V6(ip) => Request(5, cmd, 0, 4, ip, ToBigEndian(port, 2))
    case NoHost => Request(5, cmd, 0, 0, [], ToBigEndian(port, 2))
  }

  predicate Sendable(host: Host) {
    match host
    case V4(ip) => |ip| == 4
    case V6(ip) => |ip| == 16
    case Domain(name) => |name| <= 255 && Utf8.Valid(name)
    case NoHost => false
  }

  /** The handshake inverts the wire form: host, port and command of a request come back, and what follows it. */
  lemma AddressComesBack(host: Host, port: u16, cmd: byte, tail: Bytes)
    requires Sendable(host) && cmd in {1, 3}
    ensures var req := RequestFor(host, port, cmd);
      && WellFormed(req)
      && RequestOf(false, SerializeRequest(req) + tail) == Ok(Parsed(req, |SerializeRequest(req)|))
      && ToRunAddr(req) == Ok(RunAddr(host, port, cmd == 3))
  {
    var req := RequestFor(host, port, cmd);
    RequestRoundTrip(req, tail);
    assert Pow256(2) == 0x1_0000;
    BigEndianRoundTrip(port, 2);
  }

  /**
   * The handshake over the two reads it makes. The cache handed to the relay is exactly what followed the
   * request, so the second read is the request followed by the cache. What followed the hello in the first
   * read is forgotten: no byte is lost if and only if the first read ends with the hello.
   */
  method Handshake(first: Bytes, second: Bytes) returns (r: Result<Accepted>, reply: Bytes)
    ensures r.Ok? <==>
      && HelloOf(false, first).Ok? && NO_AUTH in HelloOf(false, first).value.value.methods
      && RequestOf(false, second).Ok? && (RequestSplitsInput(second); ToRunAddr(RequestOf(false, second).value.value).Ok?)
    ensures HelloOf(false, first).Err? ==> r == Err(HelloOf(false, first).error)
    ensures HelloOf(false, first).Ok? && 0 !in HelloOf(false, first).value.value.methods ==> r == Err(NoAuthMethod)
    ensures reply == [5, 0] && RequestOf(false, second).Err? ==> r == Err(RequestOf(false, second).error)
    ensures reply == [5, 0] && RequestOf(false, second).Ok? && r.Err? ==>
      r == Err(NotADomain) && RequestOf(false, second).value.value.aTyp == 3 && !Utf8.Valid(RequestOf(false, second).value.value.dstAddr)
    ensures reply == if HelloOf(false, first).Ok? && 0 in HelloOf(false, first).value.value.methods then [5, 0] else []
    ensures r.Ok? ==>
      var req, addr := RequestOf(false, second).value.value, r.value.addr;
      && |req.dstPort| == 2 && addr.port == req.dstPort[0] as int * 256 + req.dstPort[1] as int
      && (addr.udp <==> req.cmd == 3)
      && addr.addr == (if req.aTyp == 1 then V4(req.dstAddr) else if req.aTyp == 4 then V6(req.dstAddr) else Domain(req.dstAddr))
    ensures forall host, port, cmd, tail {:trigger SerializeRequest(RequestFor(host, port, cmd)) + tail} ::
      Sendable(host) && cmd in {1, 3} && second == SerializeRequest(RequestFor(host, port, cmd)) + tail && reply == [5, 0] ==>
      r == Ok(Accepted(RunAddr(host, port, cmd == 3), tail))
    ensures r.Ok? ==>
      var hello, req := HelloOf(false, first).value.value, RequestOf(false, second).value.value;
      && |hello.methods| <= 255 && WellFormed(req)
      && Ok(r.value.addr) == ToRunAddr(req)
      && second == SerializeRequest(req) + r.value.cache
      && (first + second == SerializeHello(hello) + SerializeRequest(req) + r.value.cache <==> first == SerializeHello(hello))
  {
    forall host, port, cmd, tail |
      Sendable(host) && cmd in {1, 3} && second == SerializeRequest(RequestFor(host, port, cmd)) + tail
      ensures var req := RequestFor(host, port, cmd);
        RequestOf(false, second) == Ok(Parsed(req, |SerializeRequest(req)|)) && ToRunAddr(req) == Ok(RunAddr(host, port, cmd == 3))
        && second[|SerializeRequest(req)|..] == tail
    {
      AddressComesBack(host, port, cmd, tail);
    }
    reply := [];
    var helloParser := new Parser(false, first, []);
    var hello := helloParser.ParseHello();
    if hello.Err? {
      return Err(hello.error), reply;
    }
    if NO_AUTH !in hello.value.methods {
      return Err(NoAuthMethod), reply;
    }
    reply := [hello.value.version, NO_AUTH];
    var parser := new Parser(false, second, []);
    var req := parser.ParseRequest();
    if req.Err? {
      return Err(req.error), reply;
    }
    HelloSplitsInput(first);
    RequestSplitsInput(second);
    BigEndianPair(req.value.dstPort);
    var addr := ToRunAddr(req.value);
    if addr.Err? {
      return Err(addr.error), reply;
    }
    var cache := second[parser.cursor..];
    NothingDropped(first, SerializeHello(hello.value), second, SerializeRequest(req.value) + cache);
    assert SerializeHello(hello.value) + (SerializeRequest(req.value) + cache)
      == SerializeHello(hello.value) + SerializeRequest(req.value) + cache;
    return Ok(Accepted(addr.value, cache)), reply;
  }

  lemma NothingDropped(a: Bytes, b: Bytes, c: Bytes, d: Bytes)
    requires c == d
    ensures a + c == b + d <==> a == b
  {
    if a + c == b + d {
      assert |a| == |b|;
      assert a == (a + c)[..|a|] && b == (b + d)[..|b|];
    }
  }
}
