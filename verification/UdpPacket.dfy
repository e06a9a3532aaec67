/** The SOCKS5 UDP datagram (UDPPacket in src/def.rs; section 7 of RFC 1928). */
module UdpPacket {
  import opened Bytes
  import Utf8

  datatype Error = TooShort | BadAddrType | NotADomain
  datatype Result<+T> = Ok(value: T) | Err(error: Error)

  datatype Meta = Meta(dstAddr: Host, dstPort: nat, srcAddr: Host, srcPort: nat)
  datatype Packet = Packet(meta: Meta, data: Bytes)

  /** What the parser makes of a fragment: an empty packet, which callers drop. */
  const FRAGMENT := Packet(Meta(NoHost, 0, NoHost, 0), [])

  /** The signed length used by the parser; -1 for an unknown type. */
  function AddrLength(buf: Bytes): int
    requires |buf| >= 5
  {
    if buf[3] == 1 then 4 else if buf[3] == 4 then 16 else if buf[3] == 3 then buf[4] else -1
  }

  /** Every index taken is in range, on any buffer. */
  function Parse(buf: Bytes, srcAddr: Host, srcPort: nat): Result<Packet> {
    if |buf| < 5 then Err(TooShort)
    else if buf[2] != 0 then Ok(FRAGMENT)
    else
      var aLen := AddrLength(buf);
      var start := if buf[3] == 3 then 5 else 4;
      if aLen < 0 then Err(BadAddrType)
      else if start + aLen + 2 >= |buf| then Err(TooShort)
      else
        var dstAddr := buf[start..start + aLen];
        var dstPort := FromBigEndian(buf[start + aLen..start + aLen + 2]);
        var data := buf[start + aLen + 2..];
        if buf[3] == 3 && !Utf8.Valid(dstAddr) then Err(NotADomain)
        else
          var host := if buf[3] == 1 then V4(dstAddr) else if buf[3] == 3 then Domain(dstAddr) else V6(dstAddr);
          Ok(Packet(Meta(host, dstPort, srcAddr, srcPort), data))
  }

  /** A fragment, whatever else is in it, yields an empty packet; fewer than five bytes are an error. */
  lemma FragmentsAreDropped(buf: Bytes, srcAddr: Host, srcPort: nat)
    ensures |buf| < 5 ==> Parse(buf, srcAddr, srcPort) == Err(TooShort)
    ensures |buf| >= 5 && buf[2] != 0 ==> Parse(buf, srcAddr, srcPort) == Ok(Packet(Meta(NoHost, 0, NoHost, 0), []))
    ensures |buf| >= 5 && buf[2] == 0 && buf[3] !in {1, 3, 4} ==> Parse(buf, srcAddr, srcPort) == Err(BadAddrType)
  {
  }

  predicate WellFormed(host: Host) {
    match host
    case NoHost => false
    case V4(ip) => |ip| == 4
    case V6(ip) => |ip| == 16
    case Domain(name) => |name| <= 255 && Utf8.Valid(name)
  }

  function Lead(host: Host): Bytes
    requires WellFormed(host)
  {
    match host
    case V4(ip) => [1] + ip
    case V6(ip) => [4] + ip
    case Domain(name) => [3, |name|] + name
  }

  /** The datagram header of section 7 of RFC 1928, with fragment number 0. */
  function Header(host: Host, port: nat): Bytes
    requires WellFormed(host)
  {
    [0, 0, 0] + Lead(host) + ToBigEndian(port, 2)
  }

  function Address(host: Host): Bytes {
    match host
    case NoHost => []
    case V4(ip) => ip
    case V6(ip) => ip
    case Domain(name) => name
  }

  /** Everything in front of the address. */
  function Intro(host: Host): Bytes
    requires WellFormed(host)
  {
    match host
    case V4(_) => [0, 0, 0, 1]
    case V6(_) => [0, 0, 0, 4]
    case Domain(name) => [0, 0, 0, 3, |name|]
  }

  lemma HeaderIntro(host: Host, port: nat)
    requires WellFormed(host)
    ensures Header(host, port) == Intro(host) + Address(host) + ToBigEndian(port, 2)
  {
    assert [0, 0, 0] + Lead(host) == Intro(host) + Address(host);
  }

  lemma HeaderParts(host: Host, port: nat, data: Bytes)
    requires WellFormed(host)
    ensures var buf := Header(host, port) + data;
      var start := if host.Domain? then 5 else 4;
      var end := start + |Address(host)|;
      && |Header(host, port)| == end + 2
      && buf[2] == 0 && buf[3] == (if host.V4? then 1 else if host.V6? then 4 else 3)
      && (host.Domain? ==> buf[4] == |host.name|)
      && buf[start..end] == Address(host) && buf[end..end + 2] == ToBigEndian(port, 2) && buf[end + 2..] == data
  {
    var intro, buf := Intro(host), Header(host, port) + data;
    HeaderIntro(host, port);
    FourParts(intro, Address(host), ToBigEndian(port, 2), data);
    assert buf[..|intro|] == intro;
    assert buf[2] == intro[2] && buf[3] == intro[3] && (host.Domain? ==> buf[4] == intro[4]);
  }

  /** Parsing inverts the header for all three address types, exactly when there is data behind it. */
  lemma ParseInvertsHeader(host: Host, port: nat, data: Bytes, srcAddr: Host, srcPort: nat)
    requires WellFormed(host) && port < 0x1_0000
    ensures Parse(Header(host, port) + data, srcAddr, srcPort) ==
      if data == [] then Err(TooShort) else Ok(Packet(Meta(host, port, srcAddr, srcPort), data))
  {
    HeaderParts(host, port, data);
    assert Pow256(2) == 0x1_0000;
    BigEndianRoundTrip(port, 2);
    assert AddrLength(Header(host, port) + data) == |Address(host)|;
  }

  lemma LeadOfParsed(buf: Bytes, srcAddr: Host, srcPort: nat)
    requires Parse(buf, srcAddr, srcPort).Ok? && buf[2] == 0
    ensures var start := if buf[3] == 3 then 5 else 4;
      var end := start + AddrLength(buf);
      var p := Parse(buf, srcAddr, srcPort).value;
      && end + 2 < |buf| && WellFormed(p.meta.dstAddr) && buf[3..end] == Lead(p.meta.dstAddr)
      && p.meta.dstPort == FromBigEndian(buf[end..end + 2]) && p.data == buf[end + 2..]
  {
    var start := if buf[3] == 3 then 5 else 4;
    var end := start + AddrLength(buf);
    assert buf[3..end] == buf[3..start] + buf[start..end];
  }

  lemma HeaderOfParts(buf: Bytes, end: nat, host: Host, port: nat)
    requires WellFormed(host) && 3 <= end && end + 2 <= |buf| && buf[2] == 0
    requires buf[3..end] == Lead(host) && buf[end..end + 2] == ToBigEndian(port, 2)
    ensures [0, 0] + buf[2..] == Header(host, port) + buf[end + 2..]
  {
    SlicesJoin(buf, 3, end, |buf|);
    SlicesJoin(buf, end, end + 2, |buf|);
    var rest := buf[3..];
    assert rest == Lead(host) + (ToBigEndian(port, 2) + buf[end + 2..]);
    assert [0, 0] + buf[2..] == [0, 0, 0] + rest;
    Regroup([0, 0, 0], Lead(host), ToBigEndian(port, 2) + buf[end + 2..]);
    Regroup([0, 0, 0] + Lead(host), ToBigEndian(port, 2), buf[end + 2..]);
  }

  /** Whatever parses, other than a fragment, is a header followed by non-empty data. */
  lemma ParseSplitsDatagram(buf: Bytes, srcAddr: Host, srcPort: nat)
    requires Parse(buf, srcAddr, srcPort).Ok? && buf[2] == 0
    ensures var p := Parse(buf, srcAddr, srcPort).value;
      WellFormed(p.meta.dstAddr) && p.data != [] && [0, 0] + buf[2..] == Header(p.meta.dstAddr, p.meta.dstPort) + p.data
  {
    var end := (if buf[3] == 3 then 5 else 4) + AddrLength(buf);
    var p := Parse(buf, srcAddr, srcPort).value;
    LeadOfParsed(buf, srcAddr, srcPort);
    BigEndianRange(buf[end..end + 2]);
    HeaderOfParts(buf, end, p.meta.dstAddr, p.meta.dstPort);
  }

  /** The reply sent back to a client: the address is always 0.0.0.0. */
  function Reply(p: Packet): Bytes
    requires p.meta.srcPort < 0x1_0000
  {
    var port := ToBigEndian(p.meta.srcPort, 2);
    [0, 0, 0, 1, 0, 0, 0, 0, port[0], port[1]] + p.data
  }

  /** Parsing a reply recovers its data and the packet's source port, exactly when there is data. */
  lemma ParseOfReply(p: Packet, srcAddr: Host, srcPort: nat)
    requires p.meta.srcPort < 0x1_0000
    ensures Parse(Reply(p), srcAddr, srcPort) ==
      if p.data == [] then Err(TooShort)
      else Ok(Packet(Meta(V4([0, 0, 0, 0]), p.meta.srcPort, srcAddr, srcPort), p.data))
  {
    var port := ToBigEndian(p.meta.srcPort, 2);
    assert Reply(p) == Header(V4([0, 0, 0, 0]), p.meta.srcPort) + p.data;
    ParseInvertsHeader(V4([0, 0, 0, 0]), p.meta.srcPort, p.data, srcAddr, srcPort);
  }
}
