/**
 * The pb_tcp transport: protobuf messages in masked frames over TCP, with the payload encrypted unless
 * the destination port is 443 (src/connector/pb_tcp.rs, src/stream/pb_tcp_client.rs,
 * src/stream/pb_tcp_server.rs, src/listener/pb_tcp.rs).
 */
module PbTcp {
  import opened Common
  import opened Bytes
  import opened TcpFrame
  import CarryOver

  datatype StreamReq = StreamReq(auth: string, payload: Option<Bytes>, dstAddr: Option<string>, dstPort: Option<u32>)
  datatype StreamRes = StreamRes(payload: Bytes)

  const NONCE: nat := 12

  /** The libraries the transport relies on: protobuf encoding, an AEAD cipher, sealed text fields. */
  datatype Suite = Suite(
    encodeReq: StreamReq -> Bytes, decodeReq: Bytes -> Option<StreamReq>,
    encodeRes: StreamRes -> Bytes, decodeRes: Bytes -> Option<StreamRes>,
    seal: (string, Bytes, Bytes) -> Bytes, open: (string, Bytes, Bytes) -> Option<Bytes>,
    sealField: (string, Bytes, string) -> string, openField: (string, string) -> Option<string>)
  {
    /** All that is assumed of them: each decoder inverts its encoder. */
    ghost predicate Sound() {
      && (forall m: StreamReq :: decodeReq(encodeReq(m)) == Some(m))
      && (forall m: StreamRes :: decodeRes(encodeRes(m)) == Some(m))
      && (forall pw: string, nonce: Bytes, p: Bytes :: open(pw, nonce, seal(pw, nonce, p)) == Some(p))
      && (forall pw: string, nonce: Bytes, t: string :: openField(pw, sealField(pw, nonce, t)) == Some(t))
    }

    function EncryptBytes(plain: Bytes, pw: string, nonce: Bytes): Bytes {
      nonce + seal(pw, nonce, plain)
    }

    function DecryptBytes(combined: Bytes, pw: string): Result<Bytes> {
      if |combined| < NONCE then Err(BadCipher)
      else
        match open(pw, combined[..NONCE], combined[NONCE..])
        case Some(p) => Ok(p)
        case None => Err(BadCipher)
    }

    function DecryptField(field: string, pw: string): Result<string> {
      match openField(pw, field)
      case Some(t) => Ok(t)
      case None => Err(BadCipher)
    }
  }

  lemma DecryptInvertsEncrypt(suite: Suite, plain: Bytes, pw: string, nonce: Bytes)
    requires suite.Sound() && |nonce| == NONCE
    ensures suite.DecryptBytes(suite.EncryptBytes(plain, pw, nonce), pw) == Ok(plain)
  {
    var combined := suite.EncryptBytes(plain, pw, nonce);
    assert combined[..NONCE] == nonce && combined[NONCE..] == suite.seal(pw, nonce, plain);
  }

  /** The connector's end sends StreamReq and receives StreamRes; the listener's end the reverse. */
  datatype End = Client | Server

  datatype Session = Session(suite: Suite, pw: string, encrypt: bool)

  /** A write and the random values it draws. */
  datatype Write = Write(data: Bytes, nonce: Bytes, mask: u64)

  // ----- what goes over the wire -----

  function Outgoing(s: Session, end: End, w: Write): Bytes {
    var payload := if s.encrypt then s.suite.EncryptBytes(w.data, s.pw, w.nonce) else w.data;
    match end
    case Client => s.suite.encodeReq(StreamReq("", Some(payload), None, None))
    case Server => s.suite.encodeRes(StreamRes(payload))
  }

  function OutgoingFrames(s: Session, end: End, writes: seq<Write>): Bytes {
    if writes == [] then []
    else EncodeFrame(Outgoing(s, end, writes[0]), writes[0].mask) + OutgoingFrames(s, end, writes[1..])
  }

  /** The bytes one received frame stands for at the given end. */
  function PayloadOf(s: Session, end: End, frame: Bytes): Result<Bytes> {
    var payload := RawPayload(s.suite, end, frame);
    if payload.Err? || payload.value == [] || !s.encrypt then payload
    else s.suite.DecryptBytes(payload.value, s.pw)
  }

  function RawPayload(suite: Suite, end: End, frame: Bytes): Result<Bytes> {
    match end
    case Server =>
      (match suite.decodeReq(frame)
       case None => Err(BadMessage)
       case Some(m) => Ok(if m.payload.Some? then m.payload.value else []))
    case Client =>
      (match suite.decodeRes(frame)
       case None => Err(BadMessage)
       case Some(m) => Ok(m.payload))
  }

  /** Every byte that reading the wire to its end yields; frames that fail yield none. */
  function Incoming(s: Session, end: End, wire: Bytes): Bytes
    decreases |wire|
  {
    match DecodeFrame(wire)
    case Err(FrameTooLarge) => Incoming(s, end, wire[16..])
    case Err(_) => []
    case Ok(f) =>
      (match PayloadOf(s, end, f.data) case Ok(p) => p case Err(_) => []) + Incoming(s, end, f.rest)
  }

  function FramePayload(s: Session, end: End, wire: Bytes): Result<Bytes> {
    match DecodeFrame(wire)
    case Err(e) => Err(e)
    case Ok(f) => PayloadOf(s, end, f.data)
  }

  /** What one read makes of the wire, given room for so many bytes. */
  function ReadOutcome(s: Session, end: End, wire: Bytes, room: nat): Result<nat> {
    match FramePayload(s, end, wire)
    case Err(e) => Err(e)
    case Ok(p) => Ok(CarryOver.Min(room, |p|))
  }

  lemma IncomingStep(s: Session, end: End, wire: Bytes)
    ensures Incoming(s, end, wire) ==
      (match FramePayload(s, end, wire) case Ok(p) => p case Err(_) => []) + Incoming(s, end, AfterFrame(wire))
  {
    if DecodeFrame(wire).Err? && !DecodeFrame(wire).error.FrameTooLarge? {
      assert Incoming(s, end, []) == [];
    }
  }

  function Plain(writes: seq<Write>): Bytes {
    if writes == [] then [] else writes[0].data + Plain(writes[1..])
  }

  function Other(end: End): End {
    if end.Client? then Server else Client
  }

  ghost predicate Sendable(s: Session, end: End, writes: seq<Write>) {
    forall i :: 0 <= i < |writes| ==> |writes[i].nonce| == NONCE && |Outgoing(s, end, writes[i])| <= MAX_FRAME
  }

  lemma PayloadRoundTrip(s: Session, end: End, w: Write)
    requires s.suite.Sound() && |w.nonce| == NONCE
    ensures PayloadOf(s, Other(end), Outgoing(s, end, w)) == Ok(w.data)
  {
    DecryptInvertsEncrypt(s.suite, w.data, s.pw, w.nonce);
    var payload := if s.encrypt then s.suite.EncryptBytes(w.data, s.pw, w.nonce) else w.data;
    assert RawPayload(s.suite, Other(end), Outgoing(s, end, w)) == Ok(payload);
  }

  lemma FirstFrameIncoming(s: Session, end: End, data: Bytes, mask: u64, rest: Bytes)
    requires |data| <= MAX_FRAME
    ensures Incoming(s, end, EncodeFrame(data, mask) + rest) ==
      (match PayloadOf(s, end, data) case Ok(p) => p case Err(_) => []) + Incoming(s, end, rest)
  {
    FrameRoundTrip(data, mask, rest);
  }

  /** In either direction, what one end reads is what the other end wrote. */
  lemma {:induction false} IncomingIsPlain(s: Session, end: End, writes: seq<Write>)
    requires s.suite.Sound() && Sendable(s, end, writes)
    ensures Incoming(s, Other(end), OutgoingFrames(s, end, writes)) == Plain(writes)
    decreases |writes|
  {
    if writes != [] {
      PayloadRoundTrip(s, end, writes[0]);
      FirstFrameIncoming(s, Other(end), Outgoing(s, end, writes[0]), writes[0].mask, OutgoingFrames(s, end, writes[1..]));
      IncomingIsPlain(s, end, writes[1..]);
    }
  }

  /** What a write is on the wire: encrypted, it is the nonce of 12 bytes and the sealed bytes, otherwise the bytes. */
  lemma WriteLayout(s: Session, w: Write)
    requires s.suite.Sound() && |w.nonce| == 12
    ensures var payload := if s.encrypt then w.nonce + s.suite.seal(s.pw, w.nonce, w.data) else w.data;
      && s.suite.decodeReq(Outgoing(s, Client, w)) == Some(StreamReq("", Some(payload), None, None))
      && s.suite.decodeRes(Outgoing(s, Server, w)) == Some(StreamRes(payload))
  {
  }

  /** What a received frame stands for: nothing without a payload; encrypted, what opens behind 12 bytes of nonce. */
  lemma ReadLayout(s: Session, frame: Bytes)
    ensures var m := s.suite.decodeReq(frame);
      && (m.None? ==> PayloadOf(s, Server, frame).Err?)
      && (m.Some? && (m.value.payload.None? || m.value.payload == Some([])) ==> PayloadOf(s, Server, frame) == Ok([]))
      && (m.Some? && m.value.payload.Some? && m.value.payload.value != [] ==> OpensTo(s, m.value.payload.value, PayloadOf(s, Server, frame)))
    ensures var m := s.suite.decodeRes(frame);
      && (m.None? ==> PayloadOf(s, Client, frame).Err?)
      && (m.Some? && m.value.payload == [] ==> PayloadOf(s, Client, frame) == Ok([]))
      && (m.Some? && m.value.payload != [] ==> OpensTo(s, m.value.payload, PayloadOf(s, Client, frame)))
  {
  }

  predicate OpensTo(s: Session, payload: Bytes, r: Result<Bytes>) {
    if !s.encrypt then r == Ok(payload)
    else if |payload| < 12 then r.Err?
    else
      match s.suite.open(s.pw, payload[..12], payload[12..])
      case Some(p) => r == Ok(p)
      case None => r.Err?
  }

  // ----- the stream object, at either end -----

  class PbTcpStream {
    const suite: Suite
    const end: End
    const reader: Reader
    const writer: Writer
    var cache: Bytes
    var cachePos: nat
    var pw: string
    var encrypt: bool

    constructor (suite: Suite, end: End, reader: Reader, writer: Writer, pw: string, encrypt: bool)
      ensures this.suite == suite && this.end == end && this.reader == reader && this.writer == writer
      ensures this.pw == pw && this.encrypt == encrypt && Valid() && Cached() == []
    {
      this.suite, this.end, this.reader, this.writer := suite, end, reader, writer;
      this.pw, this.encrypt := pw, encrypt;
      cache, cachePos := [], 0;
    }

    predicate Valid()
      reads this
    {
      cachePos <= |cache|
    }

    function Cached(): Bytes
      requires Valid()
      reads this
    {
      cache[cachePos..]
    }

    function AsSession(): Session
      reads this
    {
      Session(suite, pw, encrypt)
    }

    /** Every byte a caller has still to get. */
    function Pending(): Bytes
      requires Valid()
      reads this, reader
    {
      Cached() + Incoming(AsSession(), end, reader.wire)
    }

    /**
     * No byte is lost, repeated or reordered, whatever the buffer size. With nothing cached the next frame
     * decides: it fills as much of the buffer as it can, or its error is returned and nothing is taken.
     */
    method ReadPayload(buf: array<byte>) returns (r: Result<nat>)
      requires Valid()
      modifies this`cache, this`cachePos, reader, buf
      ensures Valid()
      ensures r.Ok? ==> r.value <= buf.Length && old(Pending()) == buf[..r.value] + Pending()
      ensures r.Ok? ==> buf[r.value..] == old(buf[r.value..])
      ensures r.Err? ==> old(Pending()) == Pending() && buf[..] == old(buf[..])
      ensures old(Cached()) != [] ==> r == Ok(CarryOver.Min(buf.Length, |old(Cached())|)) && reader.wire == old(reader.wire)
      ensures old(Cached()) == [] ==> r == ReadOutcome(AsSession(), end, old(reader.wire), buf.Length)
    {
      if cachePos < |cache| {
        var n;
        n, cache, cachePos := CarryOver.ServeCache(buf, cache, cachePos);
        Regroup(buf[..n], Cached(), Incoming(AsSession(), end, reader.wire));
        return Ok(n);
      }
      cache, cachePos := [], 0;
      IncomingStep(AsSession(), end, reader.wire);
      var payload := NextPayload();
      if payload.Err? {
        return Err(payload.error);
      }
      if payload.value == [] {
        return Ok(0);
      }
      var n;
      n, cache := CarryOver.ServePayload(buf, payload.value);
      Regroup(buf[..n], Cached(), Incoming(AsSession(), end, reader.wire));
      return Ok(n);
    }

    /** Takes one frame and opens it. */
    method NextPayload() returns (payload: Result<Bytes>)
      modifies reader
      ensures payload == FramePayload(AsSession(), end, old(reader.wire))
      ensures reader.wire == AfterFrame(old(reader.wire))
    {
      var frame := ReadFrame(reader);
      if frame.Err? {
        return Err(frame.error);
      }
      payload := RawPayload(suite, end, frame.value);
      if payload.Err? || payload.value == [] {
        return;
      }
      if encrypt {
        payload := suite.DecryptBytes(payload.value, pw);
      }
    }

    method WriteBuf(w: Write)
      modifies writer
      ensures writer.sent == old(writer.sent) + EncodeFrame(Outgoing(AsSession(), end, w), w.mask)
    {
      var payload := if encrypt then suite.EncryptBytes(w.data, pw, w.nonce) else w.data;
      if end.Client? {
        WriteFrame(writer, suite.encodeReq(StreamReq("", Some(payload), None, None)), w.mask);
      } else {
        WriteFrame(writer, suite.encodeRes(StreamRes(payload)), w.mask);
      }
    }

    /** The read half starts with an empty cache; nothing is lost exactly when nothing is cached. */
    method Split() returns (half: PbTcpStream)
      requires Valid()
      ensures fresh(half) && half.Valid() && half.reader == reader && half.writer == writer && half.end == end
      ensures half.AsSession() == AsSession() && half.Cached() == []
      ensures half.Pending() == Pending() <==> Cached() == []
    {
      half := new PbTcpStream(suite, end, reader, writer, pw, encrypt);
      assert |Pending()| == |Cached()| + |half.Pending()|;
    }

    /** The server's handshake: the first frame gives the address, and decides about encryption. */
    method Handshake(password: string) returns (r: Result<(RunAddr<string>, string)>)
      requires Valid()
      modifies this`pw, this`encrypt, reader
      ensures Cached() == old(Cached())
      ensures reader.wire == AfterFrame(old(reader.wire))
      ensures DecodeFrame(old(reader.wire)).Ok? ==>
        && reader.wire == DecodeFrame(old(reader.wire)).value.rest
        && r == OpenRequest(suite, DecodeFrame(old(reader.wire)).value.data, password)
        && (r.Ok? ==> pw == password && encrypt == RequestEncrypts(suite, DecodeFrame(old(reader.wire)).value.data))
      ensures DecodeFrame(old(reader.wire)).Err? ==> r.Err?
      ensures DecodeFrame(old(reader.wire)).Ok? ==>
        var msg := suite.decodeReq(DecodeFrame(old(reader.wire)).value.data);
        && (r.Ok? <==>
            && msg.Some? && suite.openField(password, msg.value.auth).Some?
            && msg.value.dstAddr.Some? && suite.openField(password, msg.value.dstAddr.value).Some?
            && msg.value.dstPort.Some?)
        && (r.Ok? ==>
            && Some(r.value.1) == suite.openField(password, msg.value.auth)
            && Some(r.value.0.addr) == suite.openField(password, msg.value.dstAddr.value)
            && r.value.0.port == msg.value.dstPort.value % 65536 && !r.value.0.udp
            && pw == password && (encrypt <==> msg.value.dstPort.value != 443))
      ensures r.Err? ==> pw == old(pw) && encrypt == old(encrypt)
    {
      var frame := ReadFrame(reader);
      if frame.Err? {
        return Err(frame.error);
      }
      var msg := suite.decodeReq(frame.value);
      if msg.None? {
        return Err(BadMessage);
      }
      var req := msg.value;
      var auth := suite.DecryptField(req.auth, password);
      if auth.Err? {
        return Err(auth.error);
      }
      if req.dstAddr.None? {
        return Err(Missing);
      }
      var dstAddr := suite.DecryptField(req.dstAddr.value, password);
      if dstAddr.Err? {
        return Err(dstAddr.error);
      }
      if req.dstPort.None? {
        return Err(Missing);
      }
      pw := password;
      encrypt := req.dstPort.value != 443;
      return Ok((RunAddr(dstAddr.value, req.dstPort.value % 0x1_0000, false), auth.value));
    }
  }

  /** The address and password a handshake frame opens to, or why it does not. */
  function OpenRequest(suite: Suite, frame: Bytes, password: string): Result<(RunAddr<string>, string)> {
    match suite.decodeReq(frame)
    case None => Err(BadMessage)
    case Some(req) =>
      var auth := suite.DecryptField(req.auth, password);
      if auth.Err? then Err(auth.error)
      else if req.dstAddr.None? then Err(Missing)
      else
        var dstAddr := suite.DecryptField(req.dstAddr.value, password);
        if dstAddr.Err? then Err(dstAddr.error)
        else if req.dstPort.None? then Err(Missing)
        else Ok((RunAddr(dstAddr.value, req.dstPort.value % 0x1_0000, false), auth.value))
  }

  function RequestEncrypts(suite: Suite, frame: Bytes): bool {
    var req := suite.decodeReq(frame);
    req.Some? && req.value.dstPort.Some? && req.value.dstPort.value != 443
  }

  // ----- connecting -----

  /** The random values connect draws. */
  datatype Draw = Draw(authNonce: Bytes, addrNonce: Bytes, mask: u64)

  function AuthRequest(suite: Suite, pw: string, host: string, port: u16, draw: Draw): StreamReq {
    StreamReq(suite.sealField(pw, draw.authNonce, pw), None, Some(suite.sealField(pw, draw.addrNonce, host)), Some(port))
  }

  /** What connect puts on the wire before any write. */
  function Preamble(suite: Suite, pw: string, host: string, port: u16, draw: Draw): Bytes {
    [CONN_TYPE_STREAM] + EncodeFrame(suite.encodeReq(AuthRequest(suite, pw, host, port, draw)), draw.mask)
  }

  /** The first byte is 1; the frame behind it seals the password, under itself, and the host, and names the port. */
  lemma PreambleLayout(suite: Suite, pw: string, host: string, port: u16, draw: Draw)
    ensures Preamble(suite, pw, host, port, draw) == [1] + EncodeFrame(
      suite.encodeReq(StreamReq(suite.sealField(pw, draw.authNonce, pw), None, Some(suite.sealField(pw, draw.addrNonce, host)), Some(port))),
      draw.mask)
  {
  }

  method Connect(suite: Suite, pw: string, host: string, port: u16, draw: Draw, reader: Reader, writer: Writer)
    returns (stream: PbTcpStream)
    modifies writer
    ensures fresh(stream) && stream.Valid() && stream.Cached() == []
    ensures stream.end == Client && stream.reader == reader && stream.writer == writer
    ensures stream.AsSession() == Session(suite, pw, port != 443)
    ensures writer.sent == old(writer.sent) + Preamble(suite, pw, host, port, draw)
  {
    Regroup(writer.sent, [CONN_TYPE_STREAM], EncodeFrame(suite.encodeReq(AuthRequest(suite, pw, host, port, draw)), draw.mask));
    writer.WriteAll([CONN_TYPE_STREAM]);
    WriteFrame(writer, suite.encodeReq(AuthRequest(suite, pw, host, port, draw)), draw.mask);
    stream := new PbTcpStream(suite, Client, reader, writer, pw, port != 443);
  }

  lemma AfterType(t: byte, frame: Bytes, rest: Bytes)
    ensures ([t] + frame + rest)[1..] == frame + rest
  {
  }

  lemma OpenInvertsAuth(suite: Suite, pw: string, host: string, port: u16, draw: Draw)
    requires suite.Sound()
    ensures var frame := suite.encodeReq(AuthRequest(suite, pw, host, port, draw));
      OpenRequest(suite, frame, pw) == Ok((RunAddr(host, port, false), pw))
      && RequestEncrypts(suite, frame) == (port != 443)
  {
    var req := AuthRequest(suite, pw, host, port, draw);
    assert suite.decodeReq(suite.encodeReq(req)) == Some(req);
  }

  /** The server reads back the host, the port and the password, and both ends agree on encryption. */
  lemma HandshakeAgrees(suite: Suite, pw: string, host: string, port: u16, draw: Draw, rest: Bytes)
    requires suite.Sound() && |suite.encodeReq(AuthRequest(suite, pw, host, port, draw))| <= MAX_FRAME
    ensures var frame := suite.encodeReq(AuthRequest(suite, pw, host, port, draw));
      && DecodeFrame((Preamble(suite, pw, host, port, draw) + rest)[1..]) == Ok(Frame(frame, rest))
      && OpenRequest(suite, frame, pw) == Ok((RunAddr(host, port, false), pw))
      && RequestEncrypts(suite, frame) == (port != 443)
  {
    var frame := suite.encodeReq(AuthRequest(suite, pw, host, port, draw));
    AfterType(CONN_TYPE_STREAM, EncodeFrame(frame, draw.mask), rest);
    FrameRoundTrip(frame, draw.mask, rest);
    OpenInvertsAuth(suite, pw, host, port, draw);
  }

  /** Any sequence of reads with any buffer sizes hands out a prefix of the pending bytes, in order. */
  method ReadSeveral(stream: PbTcpStream, sizes: seq<nat>) returns (pieces: seq<Bytes>)
    requires stream.Valid()
    modifies stream`cache, stream`cachePos, stream.reader
    ensures stream.Valid()
    ensures Flatten(pieces) + stream.Pending() == old(stream.Pending())
  {
    pieces := [];
    for i := 0 to |sizes|
      invariant stream.Valid()
      invariant Flatten(pieces) + stream.Pending() == old(stream.Pending())
    {
      var buf := new byte[sizes[i]];
      ghost var before := stream.Pending();
      var r := stream.ReadPayload(buf);
      if r.Ok? {
        CarryOver.TakePiece(pieces, buf[..r.value], before, stream.Pending());
        pieces := pieces + [buf[..r.value]];
      }
    }
  }

  /** The listener's handshake: the password sealed in the request has to be the listener's own. */
  method Accept(stream: PbTcpStream, password: string) returns (r: Result<RunAddr<string>>)
    requires stream.Valid()
    modifies stream`pw, stream`encrypt, stream.reader
    ensures stream.Valid() && stream.Cached() == old(stream.Cached())
    ensures stream.reader.wire == AfterFrame(old(stream.reader.wire))
    ensures DecodeFrame(old(stream.reader.wire)).Err? ==> r.Err?
    ensures DecodeFrame(old(stream.reader.wire)).Ok? ==>
      var frame := DecodeFrame(old(stream.reader.wire)).value.data;
      var request := OpenRequest(stream.suite, frame, password);
      && (r.Ok? <==> request.Ok? && request.value.1 == password)
      && (r.Ok? ==> r.value == request.value.0 && stream.AsSession() == Session(stream.suite, password, RequestEncrypts(stream.suite, frame)))
      && (r.Err? ==> r.error == if request.Err? then request.error else WrongPassword)
    ensures DecodeFrame(old(stream.reader.wire)).Ok? ==>
      var suite, msg := stream.suite, stream.suite.decodeReq(DecodeFrame(old(stream.reader.wire)).value.data);
      && (r.Ok? <==>
          && msg.Some? && suite.openField(password, msg.value.auth) == Some(password)
          && msg.value.dstAddr.Some? && suite.openField(password, msg.value.dstAddr.value).Some?
          && msg.value.dstPort.Some?)
      && (r.Ok? ==>
          && Some(r.value.addr) == suite.openField(password, msg.value.dstAddr.value)
          && r.value.port == msg.value.dstPort.value % 65536 && !r.value.udp
          && stream.pw == password && (stream.encrypt <==> msg.value.dstPort.value != 443))
  {
    var h := stream.Handshake(password);
    if h.Err? {
      return Err(h.error);
    }
    if h.value.1 != password {
      return Err(WrongPassword);
    }
    return Ok(h.value.0);
  }

  /** However a wire of frames is cut, what is read off it is a prefix of what was written. */
  lemma {:induction false} IncomingOfCut(s: Session, end: End, writes: seq<Write>, n: nat)
    requires s.suite.Sound() && Sendable(s, end, writes) && n <= |OutgoingFrames(s, end, writes)|
    ensures Incoming(s, Other(end), OutgoingFrames(s, end, writes)[..n]) <= Plain(writes)
    decreases |writes|
  {
    if writes != [] {
      var data, mask := Outgoing(s, end, writes[0]), writes[0].mask;
      var head, tail := EncodeFrame(data, mask), OutgoingFrames(s, end, writes[1..]);
      if n < |head| {
        FrameLengthOf(data, mask);
        TruncatedFrameFails(data, mask, n);
        TakeOfConcat(head, tail, n);
      } else {
        PayloadRoundTrip(s, end, writes[0]);
        FirstFrameIncoming(s, Other(end), data, mask, tail[..n - |head|]);
        IncomingOfCut(s, end, writes[1..], n - |head|);
        TakeOfConcat(head, tail, n);
        assert n == |head| ==> head[..n] == head + tail[..0];
      }
    }
  }

  /** What follows the type byte on a wire cut somewhere. */
  lemma CutAfterType(t: byte, frame: Bytes, frames: Bytes, cut: nat)
    requires 1 <= cut <= |[t] + frame + frames|
    ensures ([t] + frame + frames)[..cut][..1] == [t]
    ensures cut <= |frame| ==> ([t] + frame + frames)[..cut][1..] == frame[..cut - 1]
    ensures cut > |frame| ==> ([t] + frame + frames)[..cut][1..] == frame + frames[..cut - 1 - |frame|]
  {
  }

  /** A connection from its first byte to its last, as the connector sends it. */
  function ConnectorWire(suite: Suite, pw: string, host: string, port: u16, draw: Draw, writes: seq<Write>): Bytes {
    Preamble(suite, pw, host, port, draw) + OutgoingFrames(Session(suite, pw, port != 443), Client, writes)
  }

  /** On what is left behind the type byte the handshake frame is found exactly when it was not cut. */
  lemma CutHandshake(suite: Suite, pw: string, host: string, port: u16, draw: Draw, writes: seq<Write>, cut: nat)
    requires suite.Sound() && |suite.encodeReq(AuthRequest(suite, pw, host, port, draw))| <= MAX_FRAME
    requires 1 <= cut <= |ConnectorWire(suite, pw, host, port, draw, writes)|
    ensures var frame := suite.encodeReq(AuthRequest(suite, pw, host, port, draw));
      var wire := ConnectorWire(suite, pw, host, port, draw, writes)[..cut];
      var head := |Preamble(suite, pw, host, port, draw)|;
      && wire[..1] == [CONN_TYPE_STREAM]
      && (cut < head ==> DecodeFrame(wire[1..]).Err?)
      && (head <= cut ==>
          cut - head <= |OutgoingFrames(Session(suite, pw, port != 443), Client, writes)|
          && DecodeFrame(wire[1..]) == Ok(Frame(frame, OutgoingFrames(Session(suite, pw, port != 443), Client, writes)[..cut - head])))
  {
    var frame := suite.encodeReq(AuthRequest(suite, pw, host, port, draw));
    var tail := OutgoingFrames(Session(suite, pw, port != 443), Client, writes);
    var encoded := EncodeFrame(frame, draw.mask);
    CutAfterType(CONN_TYPE_STREAM, encoded, tail, cut);
    FrameLengthOf(frame, draw.mask);
    if cut <= |encoded| {
      TruncatedFrameFails(frame, draw.mask, cut - 1);
    } else {
      FrameRoundTrip(frame, draw.mask, tail[..cut - 1 - |encoded|]);
    }
  }

  /**
   * The listener's first two steps on any part of what a connector with its password has sent so far: the type
   * byte and the handshake. They succeed exactly when the handshake frame is there, and leave what follows it.
   */
  method OpenConnection(stream: PbTcpStream, password: string,
    ghost host: string, ghost port: u16, ghost draw: Draw, ghost writes: seq<Write>, ghost cut: nat)
    returns (addr: Result<RunAddr<string>>)
    requires stream.Valid() && stream.suite.Sound()
    requires |stream.suite.encodeReq(AuthRequest(stream.suite, password, host, port, draw))| <= MAX_FRAME
    requires cut <= |ConnectorWire(stream.suite, password, host, port, draw, writes)|
    requires stream.reader.wire == ConnectorWire(stream.suite, password, host, port, draw, writes)[..cut]
    modifies stream`pw, stream`encrypt, stream.reader
    ensures stream.Valid() && stream.Cached() == old(stream.Cached())
    ensures addr.Ok? <==> |Preamble(stream.suite, password, host, port, draw)| <= cut
    ensures addr.Ok? ==>
      var session := Session(stream.suite, password, port != 443);
      var rest := cut - |Preamble(stream.suite, password, host, port, draw)|;
      && addr.value == RunAddr(host, port, false) && stream.AsSession() == session
      && rest <= |OutgoingFrames(session, Client, writes)|
      && stream.reader.wire == OutgoingFrames(session, Client, writes)[..rest]
  {
    var connType := new byte[1];
    var t := stream.reader.ReadExact(connType);
    if t.Err? {
      return Err(t.error);
    }
    CutHandshake(stream.suite, password, host, port, draw, writes, cut);
    // The listener goes on here for this type byte only, and drops a connection with an unknown one.
    assert connType[..] == [CONN_TYPE_STREAM];
    OpenInvertsAuth(stream.suite, password, host, port, draw);
    addr := Accept(stream, password);
  }

  /** What one end reads off another's frames: all the writes, and a prefix of them from any part. */
  lemma FramesReadBack(s: Session, end: End, writes: seq<Write>)
    requires s.suite.Sound() && Sendable(s, end, writes)
    ensures var wire := OutgoingFrames(s, end, writes);
      && Incoming(s, Other(end), wire) == Plain(writes)
      && forall k :: 0 <= k <= |wire| ==> Incoming(s, Other(end), wire[..k]) <= Plain(writes)
  {
    IncomingIsPlain(s, end, writes);
    forall k | 0 <= k <= |OutgoingFrames(s, end, writes)|
      ensures Incoming(s, Other(end), OutgoingFrames(s, end, writes)[..k]) <= Plain(writes)
    {
      IncomingOfCut(s, end, writes, k);
    }
  }

  lemma PrefixOfPrefix(read: Bytes, left: Bytes, pending: Bytes, all: Bytes)
    requires read + left == pending && pending <= all
    ensures read <= all
  {
  }

  /**
   * End to end, listener's side, on any part of what a connector with the listener's password has sent so far:
   * the type byte, the handshake, split and any reads yield the connector's address, once its handshake frame
   * is there, and a prefix of its writes, in order. What this end then writes, the connector reads back whole,
   * and a prefix of it from any part.
   */
  method ServeConnection(stream: PbTcpStream, password: string, sizes: seq<nat>, replies: seq<Write>,
    ghost host: string, ghost port: u16, ghost draw: Draw, ghost writes: seq<Write>, ghost cut: nat)
    returns (addr: Result<RunAddr<string>>, pieces: seq<Bytes>)
    requires stream.Valid() && stream.end == Server && stream.Cached() == [] && stream.writer.sent == []
    requires stream.suite.Sound()
    requires |stream.suite.encodeReq(AuthRequest(stream.suite, password, host, port, draw))| <= MAX_FRAME
    requires Sendable(Session(stream.suite, password, port != 443), Client, writes)
    requires Sendable(Session(stream.suite, password, port != 443), Server, replies)
    requires cut <= |ConnectorWire(stream.suite, password, host, port, draw, writes)|
    requires stream.reader.wire == ConnectorWire(stream.suite, password, host, port, draw, writes)[..cut]
    modifies stream, stream.reader, stream.writer
    ensures addr.Ok? <==> |Preamble(stream.suite, password, host, port, draw)| <= cut
    ensures addr.Ok? ==> addr.value == RunAddr(host, port, false) && stream.encrypt == (port != 443)
    ensures Flatten(pieces) <= Plain(writes)
    ensures addr.Err? ==> pieces == [] && stream.writer.sent == []
    ensures addr.Ok? ==>
      var session := Session(stream.suite, password, port != 443);
      && Incoming(session, Client, stream.writer.sent) == Plain(replies)
      && forall k :: 0 <= k <= |stream.writer.sent| ==> Incoming(session, Client, stream.writer.sent[..k]) <= Plain(replies)
  {
    pieces := [];
    addr := OpenConnection(stream, password, host, port, draw, writes, cut);
    if addr.Err? {
      return;
    }
    ghost var session := Session(stream.suite, password, port != 443);
    var half := stream.Split();
    FramesReadBack(session, Client, writes);
    ghost var pending := half.Pending();
    assert pending == Incoming(session, Server, stream.reader.wire);
    pieces := ReadSeveral(half, sizes);
    PrefixOfPrefix(Flatten(pieces), half.Pending(), pending, Plain(writes));
    WriteSeveral(half, replies);
    FramesReadBack(session, Server, replies);
    assert stream.writer.sent == OutgoingFrames(session, Server, replies);
  }

  lemma NextFrame(s: Session, end: End, writes: seq<Write>, i: nat, sent: Bytes)
    requires i < |writes|
    ensures sent + OutgoingFrames(s, end, writes[i..])
      == sent + EncodeFrame(Outgoing(s, end, writes[i]), writes[i].mask) + OutgoingFrames(s, end, writes[i + 1..])
  {
    var left := writes[i..];
    assert left[0] == writes[i] && left[1..] == writes[i + 1..];
    var frame, rest := EncodeFrame(Outgoing(s, end, left[0]), left[0].mask), OutgoingFrames(s, end, left[1..]);
    assert sent + (frame + rest) == sent + frame + rest;
  }

  method WriteSeveral(stream: PbTcpStream, writes: seq<Write>)
    modifies stream.writer
    ensures stream.writer.sent == old(stream.writer.sent) + OutgoingFrames(stream.AsSession(), stream.end, writes)
  {
    ghost var s, end, before := stream.AsSession(), stream.end, stream.writer.sent;
    for i := 0 to |writes|
      invariant stream.writer.sent + OutgoingFrames(s, end, writes[i..]) == before + OutgoingFrames(s, end, writes)
    {
      NextFrame(s, end, writes, i, stream.writer.sent);
      stream.WriteBuf(writes[i]);
    }
  }
}
