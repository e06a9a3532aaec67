/** Length-masked frames over a byte stream (src/util/tcp_frame.rs). */
module TcpFrame {
  import opened Common
  import opened Bytes

  const WORD: nat := 8
  const MAX_FRAME: nat := 16 * 1024 * 1024
  const CONN_TYPE_STREAM: byte := 1

  datatype Error = UnexpectedEof | FrameTooLarge | BadMessage | BadCipher | Missing | WrongPassword

  datatype Result<+T> = Ok(value: T) | Err(error: Error)

  // ----- the wire format -----

  function WrappingSub(a: u64, b: u64): u64 {
    (a - b) % U64
  }

  function WrappingAdd(a: nat, b: nat): u64 {
    (a + b) % U64
  }

  /** The mask, then the length minus the mask, both big-endian. */
  function Header(n: u64, mask: u64): (r: Bytes)
    ensures |r| == 16
  {
    ToBigEndian(mask, WORD) + ToBigEndian(WrappingSub(n, mask), WORD)
  }

  function EncodeFrame(data: Bytes, mask: u64): Bytes {
    Header(|data| % U64, mask) + data
  }

  datatype Frame = Frame(data: Bytes, rest: Bytes)

  function FrameLength(header: Bytes): nat
    requires |header| == 16
  {
    WrappingAdd(FromBigEndian(header[..8]), FromBigEndian(header[8..]))
  }

  /** What a reader makes of a wire that is closed after the given bytes. */
  function DecodeFrame(wire: Bytes): Result<Frame> {
    if |wire| < 16 then Err(UnexpectedEof)
    else
      var n := FrameLength(wire[..16]);
      if n > MAX_FRAME then Err(FrameTooLarge)
      else if |wire| < 16 + n then Err(UnexpectedEof)
      else Ok(Frame(wire[16..16 + n], wire[16 + n..]))
  }

  /** The wire a read_frame call leaves behind. */
  function AfterFrame(wire: Bytes): Bytes {
    match DecodeFrame(wire)
    case Ok(f) => f.rest
    case Err(FrameTooLarge) => wire[16..]
    case Err(_) => []
  }

  lemma Pow256Of8()
    ensures Pow256(WORD) == U64
  {
    assert Pow256(4) == 0x1_0000_0000;
    assert Pow256(8) == U64;
  }

  lemma WordsInRange(header: Bytes)
    requires |header| == 16
    ensures FromBigEndian(header[..8]) < U64 && FromBigEndian(header[8..]) < U64
  {
    Pow256Of8();
    BigEndianRange(header[..8]);
    BigEndianRange(header[8..]);
  }

  lemma MaskCancels(n: u64, mask: u64)
    ensures WrappingAdd(mask, WrappingSub(n, mask)) == n
  {
  }

  /** The mask never matters: the header always carries the length of the data. */
  lemma HeaderCarriesLength(n: u64, mask: u64)
    ensures FrameLength(Header(n, mask)) == n
  {
    var first, second := ToBigEndian(mask, WORD), ToBigEndian(WrappingSub(n, mask), WORD);
    assert Header(n, mask)[..8] == first && Header(n, mask)[8..] == second;
    Pow256Of8();
    BigEndianRoundTrip(mask, WORD);
    BigEndianRoundTrip(WrappingSub(n, mask), WORD);
    MaskCancels(n, mask);
  }

  lemma FrameLengthOf(data: Bytes, mask: u64)
    ensures |EncodeFrame(data, mask)| == 16 + |data|
  {
  }

  lemma EncodeParts(data: Bytes, mask: u64)
    requires |data| < U64
    ensures EncodeFrame(data, mask) == Header(|data|, mask) + data
  {
    assert |data| % U64 == |data|;
  }

  lemma FrameHeader(data: Bytes, mask: u64, rest: Bytes)
    requires |data| < U64
    ensures |EncodeFrame(data, mask)| == 16 + |data|
    ensures (EncodeFrame(data, mask) + rest)[..16] == Header(|data|, mask)
    ensures (EncodeFrame(data, mask) + rest)[16..] == data + rest
  {
    EncodeParts(data, mask);
    HeaderFirst(Header(|data|, mask), data, rest);
  }

  lemma HeaderFirst(header: Bytes, data: Bytes, rest: Bytes)
    requires |header| == 16
    ensures (header + data + rest)[..16] == header && (header + data + rest)[16..] == data + rest
  {
  }

  /** Decoding inverts encoding exactly on data the reader accepts; longer data is always refused. */
  lemma FrameRoundTrip(data: Bytes, mask: u64, rest: Bytes)
    requires |data| < U64
    ensures DecodeFrame(EncodeFrame(data, mask) + rest) ==
      if |data| <= MAX_FRAME then Ok(Frame(data, rest)) else Err(FrameTooLarge)
  {
    FrameHeader(data, mask, rest);
    HeaderCarriesLength(|data|, mask);
    var wire := EncodeFrame(data, mask) + rest;
    SliceOfDrop(wire, 16, 0, |data|);
    DropOfDrop(wire, 16, |data|);
    assert (data + rest)[0..|data|] == data && (data + rest)[|data|..] == rest;
  }

  /** The wire form: the mask, then the length less the mask, wrapping, each with its high byte first, then the data. */
  lemma FrameLayout(data: Bytes, mask: u64)
    requires |data| < U64
    ensures |EncodeFrame(data, mask)| == 16 + |data| && EncodeFrame(data, mask)[16..] == data
    ensures Eight(EncodeFrame(data, mask)[..8]) == mask
    ensures Eight(EncodeFrame(data, mask)[8..16]) == (|data| - mask) % 0x1_0000_0000_0000_0000
  {
    var first, second := ToBigEndian(mask, WORD), ToBigEndian(WrappingSub(|data|, mask), WORD);
    EncodeParts(data, mask);
    FourParts([], first, second, data);
    assert [] + first + second + data == Header(|data|, mask) + data;
    Pow256Of8();
    BigEndianRoundTrip(mask, WORD);
    BigEndianRoundTrip(WrappingSub(|data|, mask), WORD);
    BigEndianEight(first);
    BigEndianEight(second);
    assert EncodeFrame(data, mask)[..8] == EncodeFrame(data, mask)[0..8];
  }

  /** The largest frame that is read back has 16777216 bytes of data. */
  lemma FrameSizeLimit(data: Bytes, mask: u64, rest: Bytes)
    ensures |data| == 16_777_216 ==> DecodeFrame(EncodeFrame(data, mask) + rest) == Ok(Frame(data, rest))
    ensures |data| == 16_777_217 ==> DecodeFrame(EncodeFrame(data, mask) + rest) == Err(FrameTooLarge)
  {
    if |data| < U64 { FrameRoundTrip(data, mask, rest); }
  }

  /** A frame cut short anywhere is never accepted. */
  lemma TruncatedFrameFails(data: Bytes, mask: u64, n: nat)
    requires |data| <= MAX_FRAME && n < 16 + |data|
    ensures n < |EncodeFrame(data, mask)| && DecodeFrame(EncodeFrame(data, mask)[..n]) == Err(UnexpectedEof)
  {
    FrameHeader(data, mask, []);
    HeaderCarriesLength(|data|, mask);
    var whole := EncodeFrame(data, mask);
    assert whole + [] == whole;
    if 16 <= n {
      SliceOfTake(whole, n, 0, 16);
    }
  }

  function EncodeFrames(payloads: seq<Bytes>, masks: seq<u64>): Bytes
    requires |payloads| == |masks|
  {
    if payloads == [] then [] else EncodeFrame(payloads[0], masks[0]) + EncodeFrames(payloads[1..], masks[1..])
  }

  datatype Decoded = Decoded(payloads: seq<Bytes>, stop: Error, left: Bytes)

  /** All frames read until read_frame fails; left is what the failing call started on. */
  function DecodeFrames(wire: Bytes): Decoded
    decreases |wire|
  {
    match DecodeFrame(wire)
    case Err(e) => Decoded([], e, wire)
    case Ok(f) =>
      var more := DecodeFrames(f.rest);
      Decoded([f.data] + more.payloads, more.stop, more.left)
  }

  ghost predicate AllAcceptable(payloads: seq<Bytes>) {
    forall i :: 0 <= i < |payloads| ==> |payloads[i]| <= MAX_FRAME
  }

  function Prepend(payloads: seq<Bytes>, d: Decoded): Decoded {
    d.(payloads := payloads + d.payloads)
  }

  /** Every list of frames is read back as it was, whatever the masks, and leaves the rest of the wire. */
  lemma {:induction false} FramesRoundTrip(payloads: seq<Bytes>, masks: seq<u64>, rest: Bytes)
    requires |payloads| == |masks| && AllAcceptable(payloads)
    ensures DecodeFrames(EncodeFrames(payloads, masks) + rest) == Prepend(payloads, DecodeFrames(rest))
    decreases |payloads|
  {
    if payloads == [] {
      assert EncodeFrames(payloads, masks) + rest == rest;
    } else {
      FramesRoundTrip(payloads[1..], masks[1..], rest);
      EncodeFirst(payloads, masks, rest);
      FirstFrame(payloads[0], masks[0], EncodeFrames(payloads[1..], masks[1..]) + rest);
      PrependTwice(payloads, DecodeFrames(rest));
    }
  }

  lemma PrependTwice(payloads: seq<Bytes>, d: Decoded)
    requires payloads != []
    ensures Prepend([payloads[0]], Prepend(payloads[1..], d)) == Prepend(payloads, d)
  {
    assert [payloads[0]] + (payloads[1..] + d.payloads) == payloads + d.payloads;
  }

  lemma FirstFrame(data: Bytes, mask: u64, tail: Bytes)
    requires |data| <= MAX_FRAME
    ensures DecodeFrames(EncodeFrame(data, mask) + tail) == Prepend([data], DecodeFrames(tail))
  {
    FrameRoundTrip(data, mask, tail);
  }

  lemma EncodeFirst(payloads: seq<Bytes>, masks: seq<u64>, rest: Bytes)
    requires |payloads| == |masks| && payloads != []
    ensures EncodeFrames(payloads, masks) + rest == EncodeFrame(payloads[0], masks[0]) + (EncodeFrames(payloads[1..], masks[1..]) + rest)
  {
  }

  function FrameBytes(payloads: seq<Bytes>): nat {
    if payloads == [] then 0 else 16 + |payloads[0]| + FrameBytes(payloads[1..])
  }

  /** What is read from a wire cut after n bytes, when the first k frames lie wholly before the cut. */
  ghost predicate ReadsWhole(payloads: seq<Bytes>, cut: Bytes, k: nat) {
    var d := DecodeFrames(cut);
    && k <= |payloads| && FrameBytes(payloads[..k]) <= |cut|
    && (k < |payloads| ==> |cut| < FrameBytes(payloads[..k + 1]))
    && d.payloads == payloads[..k] && d.stop == UnexpectedEof && |d.left| == |cut| - FrameBytes(payloads[..k])
  }

  lemma ReadsOneMore(payloads: seq<Bytes>, mask: u64, cut: Bytes, k: nat)
    requires payloads != [] && |payloads[0]| <= MAX_FRAME && ReadsWhole(payloads[1..], cut, k)
    ensures ReadsWhole(payloads, EncodeFrame(payloads[0], mask) + cut, k + 1)
  {
    FirstFrame(payloads[0], mask, cut);
    FrameLengthOf(payloads[0], mask);
    FirstBytes(payloads, k);
    if k + 1 < |payloads| {
      FirstBytes(payloads, k + 1);
    }
  }

  lemma FirstBytes(payloads: seq<Bytes>, k: nat)
    requires k < |payloads|
    ensures payloads[..k + 1] == [payloads[0]] + payloads[1..][..k]
    ensures FrameBytes(payloads[..k + 1]) == 16 + |payloads[0]| + FrameBytes(payloads[1..][..k])
  {
    assert payloads[..k + 1][1..] == payloads[1..][..k];
  }

  lemma ReadsNone(payloads: seq<Bytes>, mask: u64, n: nat)
    requires payloads != [] && |payloads[0]| <= MAX_FRAME && n < 16 + |payloads[0]|
    ensures n <= |EncodeFrame(payloads[0], mask)| && ReadsWhole(payloads, EncodeFrame(payloads[0], mask)[..n], 0)
  {
    TruncatedFrameFails(payloads[0], mask, n);
    assert payloads[..1] == [payloads[0]] && payloads[..1][1..] == [];
  }

  /** A wire cut anywhere yields exactly the frames that lie wholly before the cut, then end of file. */
  lemma {:induction false} TruncatedStream(payloads: seq<Bytes>, masks: seq<u64>, n: nat) returns (k: nat)
    requires |payloads| == |masks| && AllAcceptable(payloads) && n <= |EncodeFrames(payloads, masks)|
    ensures ReadsWhole(payloads, EncodeFrames(payloads, masks)[..n], k)
  {
    if payloads == [] {
      k := 0;
    } else {
      var head, tail := EncodeFrame(payloads[0], masks[0]), EncodeFrames(payloads[1..], masks[1..]);
      FrameLengthOf(payloads[0], masks[0]);
      if n < |head| {
        ReadsNone(payloads, masks[0], n);
        TakeOfConcat(head, tail, n);
        k := 0;
      } else {
        var j := TruncatedStream(payloads[1..], masks[1..], n - |head|);
        ReadsOneMore(payloads, masks[0], tail[..n - |head|], j);
        TakeOfConcat(head, tail, n);
        assert n == |head| ==> head[..n] == head + tail[..0];
        k := j + 1;
      }
    }
  }

  // ----- the reading and writing ends -----

  /** A byte stream being written. */
  class Writer {
    var sent: Bytes

    constructor ()
      ensures sent == []
    {
      sent := [];
    }

    method WriteAll(data: Bytes)
      modifies this
      ensures sent == old(sent) + data
    {
      sent := sent + data;
    }
  }

  /** A byte stream being read, whose peer has closed it after the bytes still to come. */
  class Reader {
    var wire: Bytes

    constructor (wire: Bytes)
      ensures this.wire == wire
    {
      this.wire := wire;
    }

    /** Fills the whole buffer, or fails having used up what there was. */
    method ReadExact(buf: array<byte>) returns (r: Result<()>)
      modifies this, buf
      ensures r.Ok? <==> buf.Length <= |old(wire)|
      ensures r.Ok? ==> buf[..] == old(wire)[..buf.Length] && wire == old(wire)[buf.Length..]
      ensures r.Err? ==> r.error == UnexpectedEof && wire == []
    {
      if buf.Length > |wire| {
        wire := [];
        return Err(UnexpectedEof);
      }
      for i := 0 to buf.Length
        invariant wire == old(wire)
        invariant buf[..i] == wire[..i]
      {
        buf[i] := wire[i];
      }
      wire := wire[buf.Length..];
      return Ok(());
    }
  }

  method WriteFrame(writer: Writer, data: Bytes, mask: u64)
    modifies writer
    ensures writer.sent == old(writer.sent) + EncodeFrame(data, mask)
  {
    var len: u64 := |data| % U64;
    var second := WrappingSub(len, mask);
    Regroup(writer.sent, ToBigEndian(mask, WORD), ToBigEndian(second, WORD) + data);
    Regroup(writer.sent + ToBigEndian(mask, WORD), ToBigEndian(second, WORD), data);
    Regroup(ToBigEndian(mask, WORD), ToBigEndian(second, WORD), data);
    writer.WriteAll(ToBigEndian(mask, WORD));
    writer.WriteAll(ToBigEndian(second, WORD));
    writer.WriteAll(data);
  }

  method ReadFrame(reader: Reader) returns (r: Result<Bytes>)
    modifies reader
    ensures DecodeFrame(old(reader.wire)).Ok? ==> r == Ok(DecodeFrame(old(reader.wire)).value.data)
    ensures DecodeFrame(old(reader.wire)).Err? ==> r == Err(DecodeFrame(old(reader.wire)).error)
    ensures reader.wire == AfterFrame(old(reader.wire))
  {
    ghost var before := reader.wire;
    var buf16 := new byte[16];
    var header := reader.ReadExact(buf16);
    if header.Err? {
      return Err(header.error);
    }
    assert before[..16] == buf16[..];
    assert buf16[..8] == buf16[..][..8] && buf16[8..] == buf16[..][8..];
    WordsInRange(buf16[..]);
    var len := WrappingAdd(FromBigEndian(buf16[..8]), FromBigEndian(buf16[8..]));
    if len > MAX_FRAME {
      return Err(FrameTooLarge);
    }
    var buf := new byte[len];
    var body := reader.ReadExact(buf);
    if body.Err? {
      return Err(body.error);
    }
    SliceOfDrop(before, 16, 0, len);
    DropOfDrop(before, 16, len);
    return Ok(buf[..]);
  }
}
