/**
 The two length-prefixed packet formats of net/dogrpc/encoding.go.

 Bytes travel on a stream that is a plain sequence. `RpcWire`/`DogWire` and `DecodeRpc`/`DecodeDog`
 say what the encoders and decoders compute; the methods at the end read and write a stream one
 field at a time, as the source does, and are proved against them. The JSON text and the CRC-32
 under a DogPacket's checksum are one arbitrary function of (header with CheckSum 0, body).
 */
module Encoding {
  import opened Wrappers
  import opened Bytes

  const RPC_HEADER_LEN: int := 16
  const DOG_HEADER_LEN: int := 24
  const DOG_VERSION: byte := 1
  const DOG_PADDING: byte := 0
  const DOG_SOH: byte := 0x10
  const DOG_EOH: byte := 0x24

  /** A Go byte slice: the nil slice and an empty one have the same bytes but are told apart by JSON. */
  datatype Slice = Nil | Data(bytes: seq<byte>) {
    function Content(): seq<byte> {
      if Nil? then [] else bytes
    }
  }

  datatype RpcPacket = RpcPacket(seqNo: uint32, errCode: uint32, cmd: uint32, packetLen: uint32, body: Slice)

  datatype Header = Header(packetLen: uint32, seqNo: uint32, cmd: uint32, checkSum: uint32, errCode: uint32,
                           version: byte, padding: byte, soh: byte, eoh: byte)

  datatype DogPacket = DogPacket(header: Header, body: Slice)

  /** The dynamic types behind the source's Packet interface. */
  datatype Packet = Rpc(rpc: RpcPacket) | Dog(dog: DogPacket) {
    function ID(): uint32 {
      match this
      case Rpc(p) => p.seqNo
      case Dog(p) => p.header.seqNo
    }

    function Cmd(): uint32 {
      match this
      case Rpc(p) => p.cmd
      case Dog(p) => p.header.cmd
    }

    function ErrCode(): uint32 {
      match this
      case Rpc(p) => p.errCode
      case Dog(p) => p.header.errCode
    }

    function Body(): Slice {
      match this
      case Rpc(p) => p.body
      case Dog(p) => p.body
    }

    /** The packet as a decoder hands it over: a decoder always allocates the body. */
    function Received(): Packet {
      match this
      case Rpc(p) => Rpc(p.(body := Data(p.body.Content())))
      case Dog(p) => Dog(p.(body := Data(p.body.Content())))
    }
  }

  type CheckSum = (Header, Slice) -> uint32

  /** Which encoder/decoder pair a connection was set up with. */
  datatype Codec = RpcCodec | DogCodec(sum: CheckSum)

  datatype DecodeError = EOF | UnexpectedEOF | InvalidPacket | InvalidSOH | InvalidEOH | InvalidCheckSum

  /** A decoder's answer and the part of the stream it left unread. */
  datatype Decoded<+T> = Decoded(result: Result<T, DecodeError>, rest: seq<byte>)

  // ----- constructors

  function NewRpcPacketWithRet(cmd: uint32, body: Slice, seqNo: uint32, ret: uint32): RpcPacket {
    RpcPacket(seqNo, ret, cmd, U32(|body.Content()| + RPC_HEADER_LEN), body)
  }

  function BlankHeader(cmd: uint32, body: Slice, seqNo: uint32, ret: uint32): Header {
    Header(U32(U32(|body.Content()|) + DOG_HEADER_LEN), seqNo, cmd, 0, ret, DOG_VERSION, DOG_PADDING, DOG_SOH, DOG_EOH)
  }

  function NewDogPacketWithRet(sum: CheckSum, cmd: uint32, body: Slice, seqNo: uint32, ret: uint32): (p: DogPacket)
    ensures p.header.version == 1 && p.header.padding == 0 && p.header.checkSum == sum(p.header.(checkSum := 0), p.body)
  {
    var header := BlankHeader(cmd, body, seqNo, ret);
    DogPacket(header.(checkSum := sum(header, body)), body)
  }

  function NewPacket(codec: Codec, cmd: uint32, body: Slice, seqNo: uint32, ret: uint32): (p: Packet)
    ensures p.ID() == seqNo && p.Cmd() == cmd && p.ErrCode() == ret && p.Body() == body && Encodable(codec, p)
  {
    match codec
    case RpcCodec => Rpc(NewRpcPacketWithRet(cmd, body, seqNo, ret))
    case DogCodec(sum) => Dog(NewDogPacketWithRet(sum, cmd, body, seqNo, ret))
  }

  ghost predicate Built(codec: Codec, p: Packet) {
    exists ret :: p == NewPacket(codec, p.Cmd(), p.Body(), p.ID(), ret)
  }

  // ----- encoding

  function RpcWire(p: RpcPacket): seq<byte> {
    BigEndian(p.seqNo) + BigEndian(p.errCode) + BigEndian(p.cmd) + BigEndian(p.packetLen) + p.body.Content()
  }

  function HeaderWire(h: Header): (s: seq<byte>)
    ensures |s| == DOG_HEADER_LEN
  {
    BigEndian(h.packetLen) + BigEndian(h.seqNo) + BigEndian(h.cmd) + BigEndian(h.checkSum) + BigEndian(h.errCode)
    + [h.version, h.padding, h.soh, h.eoh]
  }

  function DogWire(p: DogPacket): seq<byte> {
    HeaderWire(p.header) + p.body.Content()
  }

  function Wire(p: Packet): seq<byte> {
    match p
    case Rpc(r) => RpcWire(r)
    case Dog(d) => DogWire(d)
  }

  /** An encoder accepts only its own packet type. */
  predicate Encodable(codec: Codec, p: Packet) {
    codec.RpcCodec? <==> p.Rpc?
  }

  // ----- decoding

  function Short(available: nat): DecodeError {
    if available == 0 then EOF else UnexpectedEOF
  }

  function U32At(s: seq<byte>, i: nat): uint32
    requires i + 4 <= |s|
  {
    FromBigEndian(s[i..i + 4])
  }

  /** Five or four words in network order at the places the formats give them, and then the body. */
  ghost predicate LaidOut(p: Packet, s: seq<byte>) {
    match p
    case Rpc(r) =>
      && |s| == 16 + |r.body.Content()| && s[16..] == r.body.Content()
      && U32At(s, 0) == r.seqNo && U32At(s, 4) == r.errCode && U32At(s, 8) == r.cmd && U32At(s, 12) == r.packetLen
    case Dog(d) =>
      && |s| == 24 + |d.body.Content()| && s[24..] == d.body.Content()
      && U32At(s, 0) == d.header.packetLen && U32At(s, 4) == d.header.seqNo && U32At(s, 8) == d.header.cmd
      && U32At(s, 12) == d.header.checkSum && U32At(s, 16) == d.header.errCode
      && s[20] == d.header.version && s[21] == d.header.padding && s[22] == d.header.soh && s[23] == d.header.eoh
  }

  lemma WireLaidOut(p: Packet)
    ensures LaidOut(p, Wire(p))
  {
    assert Wire(p) + [] == Wire(p);
    match p
    case Rpc(r) => RpcWireParts(r, []);
    case Dog(d) => DogWireParts(d, []);
  }

  /** The length arithmetic is on uint32, so a PacketLen below 16 asks for almost 2^32 bytes. */
  function DecodeRpc(s: seq<byte>): Decoded<RpcPacket> {
    if |s| < RPC_HEADER_LEN then
      Decoded(Err(Short(|s| % 4)), [])
    else
      var n := U32(U32At(s, 12) - RPC_HEADER_LEN);
      if |s| - RPC_HEADER_LEN < n then
        Decoded(Err(Short(|s| - RPC_HEADER_LEN)), [])
      else
        Decoded(Ok(RpcPacket(U32At(s, 0), U32At(s, 4), U32At(s, 8), U32At(s, 12), Data(s[16..16 + n]))), s[16 + n..])
  }

  function HeaderAt(s: seq<byte>): Header
    requires |s| >= DOG_HEADER_LEN
  {
    Header(U32At(s, 0), U32At(s, 4), U32At(s, 8), U32At(s, 12), U32At(s, 16), s[20], s[21], s[22], s[23])
  }

  function DecodeDog(sum: CheckSum, s: seq<byte>): Decoded<DogPacket> {
    if |s| < DOG_HEADER_LEN then
      Decoded(Err(Short(|s|)), [])
    else
      var h := HeaderAt(s);
      if h.packetLen < DOG_HEADER_LEN then Decoded(Err(InvalidPacket), s[24..])
      else if h.soh != DOG_SOH then Decoded(Err(InvalidSOH), s[24..])
      else if h.eoh != DOG_EOH then Decoded(Err(InvalidEOH), s[24..])
      else
        var n := h.packetLen - DOG_HEADER_LEN;
        if |s| - DOG_HEADER_LEN < n then
          Decoded(Err(Short(|s| - DOG_HEADER_LEN)), [])
        else
          var body := Data(s[24..24 + n]);
          if h.checkSum != sum(h.(checkSum := 0), body) then Decoded(Err(InvalidCheckSum), s[24 + n..])
          else Decoded(Ok(DogPacket(h, body)), s[24 + n..])
  }

  function Decode(codec: Codec, s: seq<byte>): Decoded<Packet> {
    match codec
    case RpcCodec =>
      (match DecodeRpc(s)
       case Decoded(Ok(p), rest) => Decoded(Ok(Rpc(p)), rest)
       case Decoded(Err(e), rest) => Decoded(Err(e), rest))
    case DogCodec(sum) =>
      (match DecodeDog(sum, s)
       case Decoded(Ok(p), rest) => Decoded(Ok(Dog(p)), rest)
       case Decoded(Err(e), rest) => Decoded(Err(e), rest))
  }

  // ----- one packet: exactness and round trip

  lemma RpcWireParts(p: RpcPacket, tail: seq<byte>)
    ensures var s := RpcWire(p) + tail;
            && |s| == 16 + |p.body.Content()| + |tail|
            && U32At(s, 0) == p.seqNo && U32At(s, 4) == p.errCode && U32At(s, 8) == p.cmd && U32At(s, 12) == p.packetLen
            && s[16..] == p.body.Content() + tail
  {
    var rest := p.body.Content() + tail;
    FourWords(p.seqNo, p.errCode, p.cmd, p.packetLen, rest);
    assert RpcWire(p) + tail == BigEndian(p.seqNo) + BigEndian(p.errCode) + BigEndian(p.cmd) + BigEndian(p.packetLen) + rest;
  }

  lemma WordAt(before: seq<byte>, x: uint32, rest: seq<byte>)
    ensures var s := before + BigEndian(x) + rest; |s| >= |before| + 4 && U32At(s, |before|) == x
  {
    var s := before + BigEndian(x) + rest;
    assert s[|before|..|before| + 4] == BigEndian(x);
    BigEndianInverse(x);
  }

  lemma FourWords(a: uint32, b: uint32, c: uint32, d: uint32, rest: seq<byte>)
    ensures var s := BigEndian(a) + BigEndian(b) + BigEndian(c) + BigEndian(d) + rest;
            && |s| == 16 + |rest| && s[16..] == rest
            && U32At(s, 0) == a && U32At(s, 4) == b && U32At(s, 8) == c && U32At(s, 12) == d
  {
    hide U32At;
    var s := BigEndian(a) + BigEndian(b) + BigEndian(c) + BigEndian(d) + rest;
    assert s == [] + BigEndian(a) + (BigEndian(b) + BigEndian(c) + BigEndian(d) + rest);
    assert s == BigEndian(a) + BigEndian(b) + (BigEndian(c) + BigEndian(d) + rest);
    assert s == BigEndian(a) + BigEndian(b) + BigEndian(c) + (BigEndian(d) + rest);
    WordAt([], a, BigEndian(b) + BigEndian(c) + BigEndian(d) + rest);
    WordAt(BigEndian(a), b, BigEndian(c) + BigEndian(d) + rest);
    WordAt(BigEndian(a) + BigEndian(b), c, BigEndian(d) + rest);
    WordAt(BigEndian(a) + BigEndian(b) + BigEndian(c), d, rest);
  }

  lemma DogWireParts(p: DogPacket, tail: seq<byte>)
    ensures var s := DogWire(p) + tail;
            && |s| == 24 + |p.body.Content()| + |tail|
            && HeaderAt(s) == p.header
            && s[24..] == p.body.Content() + tail
  {
    var s := DogWire(p) + tail;
    var h := p.header;
    assert s[0..4] == BigEndian(h.packetLen) && s[4..8] == BigEndian(h.seqNo);
    assert s[8..12] == BigEndian(h.cmd) && s[12..16] == BigEndian(h.checkSum) && s[16..20] == BigEndian(h.errCode);
    BigEndianInverse(h.packetLen);
    BigEndianInverse(h.seqNo);
    BigEndianInverse(h.cmd);
    BigEndianInverse(h.checkSum);
    BigEndianInverse(h.errCode);
  }

  lemma U32AtInverse(s: seq<byte>, i: nat)
    requires i + 4 <= |s|
    ensures BigEndian(U32At(s, i)) == s[i..i + 4]
  {
    FromBigEndianInverse(s[i..i + 4]);
  }

  lemma RpcHeadInverse(s: seq<byte>)
    requires |s| >= RPC_HEADER_LEN
    ensures BigEndian(U32At(s, 0)) + BigEndian(U32At(s, 4)) + BigEndian(U32At(s, 8)) + BigEndian(U32At(s, 12)) == s[..16]
  {
    U32AtInverse(s, 0);
    U32AtInverse(s, 4);
    U32AtInverse(s, 8);
    U32AtInverse(s, 12);
    assert s[0..4] + s[4..8] + s[8..12] + s[12..16] == s[..16];
  }

  lemma RpcDecodeIsExact(s: seq<byte>)
    requires DecodeRpc(s).result.Ok?
    ensures RpcWire(DecodeRpc(s).result.value) + DecodeRpc(s).rest == s
  {
    RpcHeadInverse(s);
    hide BigEndian, U32At;
    var d := DecodeRpc(s);
    assert s[16..] == d.result.value.body.bytes + d.rest;
    assert s[..16] + s[16..] == s;
    assert RpcWire(d.result.value) == s[..16] + d.result.value.body.bytes;
  }

  lemma HeaderAtInverse(s: seq<byte>)
    requires |s| >= DOG_HEADER_LEN
    ensures HeaderWire(HeaderAt(s)) == s[..24]
  {
    U32AtInverse(s, 0);
    U32AtInverse(s, 4);
    U32AtInverse(s, 8);
    U32AtInverse(s, 12);
    U32AtInverse(s, 16);
    assert [s[20], s[21], s[22], s[23]] == s[20..24];
    assert s[0..4] + s[4..8] + s[8..12] + s[12..16] + s[16..20] + s[20..24] == s[..24];
  }

  lemma DogDecodeIsExact(sum: CheckSum, s: seq<byte>)
    requires DecodeDog(sum, s).result.Ok?
    ensures DogWire(DecodeDog(sum, s).result.value) + DecodeDog(sum, s).rest == s
  {
    HeaderAtInverse(s);
    var p := DecodeDog(sum, s).result.value;
    assert s[..24] + s[24..] == s && s[24..] == p.body.bytes + DecodeDog(sum, s).rest;
  }

  /** Whatever a decoder accepts, encoding it again gives back exactly the bytes consumed. */
  lemma DecodeIsExact(codec: Codec, s: seq<byte>)
    requires Decode(codec, s).result.Ok?
    ensures var d := Decode(codec, s);
            && Encodable(codec, d.result.value)
            && d.result.value.Received() == d.result.value
            && Wire(d.result.value) + d.rest == s
            && |d.rest| + RPC_HEADER_LEN <= |s|
  {
    match codec
    case RpcCodec => RpcDecodeIsExact(s);
    case DogCodec(sum) => DogDecodeIsExact(sum, s);
  }

  /** The DogPacket decoder accepts iff the length, both marks and the checksum agree with the stream. */
  lemma DogAcceptsIff(sum: CheckSum, s: seq<byte>)
    ensures DecodeDog(sum, s).result.Ok? <==>
            exists p: DogPacket, rest: seq<byte> ::
              && s == DogWire(p) + rest
              && p.body.Data?
              && p.header.packetLen == |p.body.bytes| + DOG_HEADER_LEN
              && p.header.soh == DOG_SOH && p.header.eoh == DOG_EOH
              && p.header.checkSum == sum(p.header.(checkSum := 0), p.body)
  {
    if DecodeDog(sum, s).result.Ok? {
      DecodeIsExact(DogCodec(sum), s);
      var d := DecodeDog(sum, s);
      assert s == DogWire(d.result.value) + d.rest;
    }
    forall p: DogPacket, rest: seq<byte> |
      && s == DogWire(p) + rest
      && p.body.Data?
      && p.header.packetLen == |p.body.bytes| + DOG_HEADER_LEN
      && p.header.soh == DOG_SOH && p.header.eoh == DOG_EOH
      && p.header.checkSum == sum(p.header.(checkSum := 0), p.body)
      ensures DecodeDog(sum, s).result.Ok?
    {
      DogWireParts(p, rest);
      assert s[24..24 + |p.body.bytes|] == p.body.bytes;
    }
  }

  /**
   When a constructor-built packet survives the wire. The RpcPacket length wraps on both sides, so only
   2^32 body bytes or more are lost. The DogPacket decoder refuses a wrapped length, and checks the sum
   against an allocated body, so a nil body passes only if both bodies happen to have the same sum.
   */
  predicate Deliverable(codec: Codec, cmd: uint32, body: Slice, seqNo: uint32, ret: uint32) {
    match codec
    case RpcCodec => |body.Content()| < TWO_32
    case DogCodec(sum) =>
      && |body.Content()| + DOG_HEADER_LEN < TWO_32
      && (body.Nil? ==> var h := BlankHeader(cmd, body, seqNo, ret); sum(h, Nil) == sum(h, Data([])))
  }

  lemma RoundTrip(codec: Codec, cmd: uint32, body: Slice, seqNo: uint32, ret: uint32, tail: seq<byte>)
    ensures var p := NewPacket(codec, cmd, body, seqNo, ret);
            Decode(codec, Wire(p) + tail) == Decoded(Ok(p.Received()), tail)
            <==> Deliverable(codec, cmd, body, seqNo, ret)
  {
    hide RpcWire, DogWire, DecodeRpc, DecodeDog;
    match codec
    case RpcCodec =>
      RpcOnWire(NewRpcPacketWithRet(cmd, body, seqNo, ret), tail);
      if |body.Content()| >= TWO_32 {
        RpcCut(NewRpcPacketWithRet(cmd, body, seqNo, ret), tail);
      }
    case DogCodec(sum) =>
      if |body.Content()| + DOG_HEADER_LEN < TWO_32 {
        DogOnWire(sum, cmd, body, seqNo, ret, tail);
      } else {
        DogCut(sum, cmd, body, seqNo, ret, tail);
      }
  }

  lemma RpcOnWire(p: RpcPacket, tail: seq<byte>)
    ensures var n := U32(p.packetLen - RPC_HEADER_LEN);
            n == |p.body.Content()| ==> DecodeRpc(RpcWire(p) + tail) == Decoded(Ok(p.(body := Data(p.body.Content()))), tail)
  {
    var s := RpcWire(p) + tail;
    RpcWireParts(p, tail);
    var n := U32(p.packetLen - RPC_HEADER_LEN);
    if n == |p.body.Content()| {
      assert s[16..16 + n] == s[16..][..n] == p.body.Content();
      assert s[16 + n..] == s[16..][n..] == tail;
    }
  }

  /** A body too long for the length field comes back shorter, or not at all. */
  lemma RpcCut(p: RpcPacket, tail: seq<byte>)
    requires |p.body.Content()| >= TWO_32
    ensures var d := DecodeRpc(RpcWire(p) + tail);
            d.result.Ok? ==> |d.result.value.body.Content()| < |p.body.Content()|
  {
    RpcWireParts(p, tail);
  }

  lemma DogOnWire(sum: CheckSum, cmd: uint32, body: Slice, seqNo: uint32, ret: uint32, tail: seq<byte>)
    requires |body.Content()| + DOG_HEADER_LEN < TWO_32
    ensures var p := NewDogPacketWithRet(sum, cmd, body, seqNo, ret);
            var h := BlankHeader(cmd, body, seqNo, ret);
            DecodeDog(sum, DogWire(p) + tail)
            == if sum(h, body) == sum(h, Data(body.Content()))
               then Decoded(Ok(p.(body := Data(body.Content()))), tail)
               else Decoded(Err(InvalidCheckSum), tail)
  {
    hide DogWire, HeaderAt;
    var p := NewDogPacketWithRet(sum, cmd, body, seqNo, ret);
    var s := DogWire(p) + tail;
    DogWireParts(p, tail);
    var n := |body.Content()|;
    assert s[24..24 + n] == s[24..][..n] == body.Content();
    assert s[24 + n..] == s[24..][n..] == tail;
    assert p.header.(checkSum := 0) == BlankHeader(cmd, body, seqNo, ret);
  }

  lemma DogCut(sum: CheckSum, cmd: uint32, body: Slice, seqNo: uint32, ret: uint32, tail: seq<byte>)
    requires |body.Content()| + DOG_HEADER_LEN >= TWO_32
    ensures var d := DecodeDog(sum, DogWire(NewDogPacketWithRet(sum, cmd, body, seqNo, ret)) + tail);
            d.result.Ok? ==> |d.result.value.body.Content()| < |body.Content()|
  {
    DogWireParts(NewDogPacketWithRet(sum, cmd, body, seqNo, ret), tail);
  }

  // ----- a stream of packets

  /** A packet some constructor built whose body length fits the length field. */
  ghost predicate Sendable(codec: Codec, p: Packet) {
    && Built(codec, p)
    && |p.Body().Content()| + DOG_HEADER_LEN < TWO_32
  }

  function WireAll(ps: seq<Packet>): seq<byte> {
    if ps == [] then [] else Wire(ps[0]) + WireAll(ps[1..])
  }

  lemma {:induction false} WireAllAppend(ps: seq<Packet>, p: Packet)
    ensures WireAll(ps + [p]) == WireAll(ps) + Wire(p)
  {
    hide Wire;
    if ps == [] {
      assert WireAll([p]) == Wire(p) + WireAll([p][1..]);
    } else {
      assert (ps + [p])[1..] == ps[1..] + [p];
      WireAllAppend(ps[1..], p);
      assert WireAll(ps + [p]) == Wire(ps[0]) + (WireAll(ps[1..]) + Wire(p));
    }
  }

  /** More input never changes an answer that did not run out of input. */
  lemma DecodeExtends(codec: Codec, s: seq<byte>, more: seq<byte>)
    requires Decode(codec, s).result.Ok? || Decode(codec, s).result.error !in {EOF, UnexpectedEOF}
    ensures Decode(codec, s + more) == Decoded(Decode(codec, s).result, Decode(codec, s).rest + more)
  {
    match codec
    case RpcCodec => RpcExtends(s, more);
    case DogCodec(sum) => DogExtends(sum, s, more);
  }

  lemma SliceExtends(s: seq<byte>, more: seq<byte>, a: nat, b: nat)
    requires a <= b <= |s|
    ensures (s + more)[a..b] == s[a..b] && (s + more)[b..] == s[b..] + more
  {
  }

  lemma U32AtExtends(s: seq<byte>, more: seq<byte>, i: nat)
    requires i + 4 <= |s|
    ensures U32At(s + more, i) == U32At(s, i)
  {
    SliceExtends(s, more, i, i + 4);
  }

  lemma RpcExtends(s: seq<byte>, more: seq<byte>)
    requires DecodeRpc(s).result.Ok?
    ensures DecodeRpc(s + more) == Decoded(DecodeRpc(s).result, DecodeRpc(s).rest + more)
  {
    U32AtExtends(s, more, 0);
    U32AtExtends(s, more, 4);
    U32AtExtends(s, more, 8);
    U32AtExtends(s, more, 12);
    var n: nat := U32(U32At(s, 12) - RPC_HEADER_LEN);
    SliceExtends(s, more, 16, 16 + n);
  }

  lemma HeaderAtExtends(s: seq<byte>, more: seq<byte>)
    requires |s| >= DOG_HEADER_LEN
    ensures HeaderAt(s + more) == HeaderAt(s)
  {
    U32AtExtends(s, more, 0);
    U32AtExtends(s, more, 4);
    U32AtExtends(s, more, 8);
    U32AtExtends(s, more, 12);
    U32AtExtends(s, more, 16);
  }

  lemma DogExtends(sum: CheckSum, s: seq<byte>, more: seq<byte>)
    requires DecodeDog(sum, s).result.Ok? || DecodeDog(sum, s).result.error !in {EOF, UnexpectedEOF}
    ensures DecodeDog(sum, s + more) == Decoded(DecodeDog(sum, s).result, DecodeDog(sum, s).rest + more)
  {
    HeaderAtExtends(s, more);
    hide HeaderAt;
    var h := HeaderAt(s);
    SliceExtends(s, more, 24, 24);
    if h.packetLen >= DOG_HEADER_LEN && |s| >= h.packetLen {
      SliceExtends(s, more, 24, h.packetLen);
    }
  }

  /** Seen from a prefix of the stream: a conclusive answer is the answer, and what is left is a prefix of what would be. */
  lemma DecodeOfPrefix(codec: Codec, s: seq<byte>, whole: seq<byte>)
    requires s <= whole
    requires Decode(codec, s).result.Ok? || Decode(codec, s).result.error !in {EOF, UnexpectedEOF}
    ensures Decode(codec, whole).result == Decode(codec, s).result
    ensures Decode(codec, s).rest <= Decode(codec, whole).rest
    ensures |Decode(codec, whole).rest| - |Decode(codec, s).rest| == |whole| - |s|
  {
    var more := whole[|s|..];
    assert s + more == whole;
    DecodeExtends(codec, s, more);
  }

  /** A built packet in front of any bytes is either delivered as it was sent, or refused. */
  lemma HeadOnly(codec: Codec, p: Packet, ret: uint32, tail: seq<byte>)
    requires p == NewPacket(codec, p.Cmd(), p.Body(), p.ID(), ret)
    requires |p.Body().Content()| + DOG_HEADER_LEN < TWO_32
    ensures var d := Decode(codec, Wire(p) + tail);
            d.result.Ok? ==> d == Decoded(Ok(p.Received()), tail)
  {
    hide RpcWire, DogWire, DecodeRpc, DecodeDog;
    match codec
    case RpcCodec => RpcOnWire(p.rpc, tail);
    case DogCodec(sum) => DogOnWire(sum, p.Cmd(), p.Body(), p.ID(), ret, tail);
  }

  /**
   The head of a stream that is some prefix of the encodings of `ps`: a decoder that accepts delivers
   `ps[0]` and leaves a prefix of the encodings of the others, byte for byte.
   */
  lemma DecodeHead(codec: Codec, ps: seq<Packet>, s: seq<byte>)
    requires forall p :: p in ps ==> Sendable(codec, p)
    requires s <= WireAll(ps)
    requires Decode(codec, s).result.Ok?
    ensures ps != []
    ensures Decode(codec, s).result.value == ps[0].Received()
    ensures Decode(codec, s).rest <= WireAll(ps[1..])
    ensures |Decode(codec, s).rest| == |s| - |Wire(ps[0])|
  {
    DecodeIsExact(codec, s);
    DecodeOfPrefix(codec, s, WireAll(ps));
    SendableHead(codec, ps[0], WireAll(ps[1..]));
  }

  lemma SendableHead(codec: Codec, p: Packet, tail: seq<byte>)
    requires Sendable(codec, p)
    ensures var d := Decode(codec, Wire(p) + tail);
            d.result.Ok? ==> d == Decoded(Ok(p.Received()), tail)
  {
    var ret :| p == NewPacket(codec, p.Cmd(), p.Body(), p.ID(), ret);
    HeadOnly(codec, p, ret, tail);
  }

  /** Decoding until the first error, as both connection readers do. */
  function DecodeAll(codec: Codec, s: seq<byte>): (seq<Packet>, DecodeError)
    decreases |s|
  {
    var d := Decode(codec, s);
    match d.result
    case Err(e) => ([], e)
    case Ok(p) =>
      DecodeIsExact(codec, s);
      var (ps, e) := DecodeAll(codec, d.rest);
      ([p] + ps, e)
  }

  function ReceivedAll(ps: seq<Packet>): (r: seq<Packet>)
    ensures |r| == |ps|
    ensures forall i :: 0 <= i < |ps| ==> r[i] == ps[i].Received()
  {
    seq(|ps|, i requires 0 <= i < |ps| => ps[i].Received())
  }

  ghost predicate Arrives(codec: Codec, p: Packet) {
    exists ret :: p == NewPacket(codec, p.Cmd(), p.Body(), p.ID(), ret) && Deliverable(codec, p.Cmd(), p.Body(), p.ID(), ret)
  }

  lemma ArrivesWhole(codec: Codec, p: Packet, tail: seq<byte>)
    requires Arrives(codec, p)
    ensures Decode(codec, Wire(p) + tail) == Decoded(Ok(p.Received()), tail)
  {
    var ret :| p == NewPacket(codec, p.Cmd(), p.Body(), p.ID(), ret) && Deliverable(codec, p.Cmd(), p.Body(), p.ID(), ret);
    RoundTrip(codec, p.Cmd(), p.Body(), p.ID(), ret, tail);
  }

  lemma NothingToDecode(codec: Codec)
    ensures DecodeAll(codec, []) == ([], EOF)
  {
  }

  lemma WholeStep(codec: Codec, p: Packet, tail: seq<byte>)
    requires Arrives(codec, p)
    ensures DecodeAll(codec, Wire(p) + tail) == ([p.Received()] + DecodeAll(codec, tail).0, DecodeAll(codec, tail).1)
  {
    hide Decode, Wire, Arrives;
    ArrivesWhole(codec, p, tail);
  }

  /** Stream framing: any list of deliverable packets is recovered from its concatenated encodings. */
  lemma {:induction false} Framing(codec: Codec, ps: seq<Packet>)
    requires forall p :: p in ps ==> Arrives(codec, p)
    ensures DecodeAll(codec, WireAll(ps)) == (ReceivedAll(ps), EOF)
  {
    hide Decode, Wire, Arrives, DecodeAll;
    if ps == [] {
      NothingToDecode(codec);
    } else {
      WholeStep(codec, ps[0], WireAll(ps[1..]));
      Framing(codec, ps[1..]);
      assert ReceivedAll(ps) == [ps[0].Received()] + ReceivedAll(ps[1..]);
    }
  }

  /** One decoding of a cut stream: it runs dry, or delivers the packet in front and leaves the same cut of the others. */
  lemma CutStep(codec: Codec, p: Packet, tail: seq<byte>, s: seq<byte>) returns (dry: bool, rest: seq<byte>)
    requires Arrives(codec, p)
    requires s <= Wire(p) + tail
    ensures dry ==> DecodeAll(codec, s) in {([], EOF), ([], UnexpectedEOF)}
    ensures !dry ==> rest <= tail && |tail| - |rest| == |Wire(p) + tail| - |s|
    ensures !dry ==> DecodeAll(codec, s) == ([p.Received()] + DecodeAll(codec, rest).0, DecodeAll(codec, rest).1)
  {
    hide Decode, Wire, Arrives;
    var d := Decode(codec, s);
    rest := d.rest;
    dry := d.result.Err? && d.result.error in {EOF, UnexpectedEOF};
    if !dry {
      DecodeOfPrefix(codec, s, Wire(p) + tail);
      ArrivesWhole(codec, p, tail);
    }
  }

  /** A stream cut anywhere before its end delivers only packets that were sent, in order, then runs dry. */
  lemma {:induction false} FramingOfPrefix(codec: Codec, ps: seq<Packet>, s: seq<byte>)
    requires forall p :: p in ps ==> Arrives(codec, p)
    requires s < WireAll(ps)
    ensures var (got, e) := DecodeAll(codec, s);
            |got| < |ps| && got == ReceivedAll(ps)[..|got|] && e in {EOF, UnexpectedEOF}
    decreases |ps|
  {
    hide Decode, Wire, Arrives, DecodeAll;
    var dry, rest := CutStep(codec, ps[0], WireAll(ps[1..]), s);
    if !dry {
      FramingOfPrefix(codec, ps[1..], rest);
      assert ReceivedAll(ps) == [ps[0].Received()] + ReceivedAll(ps[1..]);
    }
  }

  // ----- the encoders and decoders as the source writes them

  class BufWriter {
    var data: seq<byte>

    method Write(bytes: seq<byte>)
      modifies this
      ensures data == old(data) + bytes
    {
      data := data + bytes;
    }
  }

  class BufReader {
    var data: seq<byte>

    /** io.ReadFull: all `n` bytes, or an error that has consumed what there was. */
    method ReadFull(n: nat) returns (r: Result<seq<byte>, DecodeError>)
      modifies this
      ensures n <= |old(data)| ==> r == Ok(old(data)[..n]) && data == old(data)[n..]
      ensures n > |old(data)| ==> r == Err(Short(|old(data)|)) && data == []
    {
      if n <= |data| {
        r := Ok(data[..n]);
        data := data[n..];
      } else {
        r := Err(Short(|data|));
        data := [];
      }
    }

    method ReadUint32() returns (r: Result<uint32, DecodeError>)
      modifies this
      ensures 4 <= |old(data)| ==> r == Ok(U32At(old(data), 0)) && data == old(data)[4..]
      ensures 4 > |old(data)| ==> r == Err(Short(|old(data)|)) && data == []
    {
      var raw := ReadFull(4);
      match raw {
        case Ok(s) =>
          assert s == old(data)[0..4];
          r := Ok(FromBigEndian(s));
        case Err(e) =>
          r := Err(e);
      }
    }
  }

  method EncodeRpc(bw: BufWriter, p: Packet) returns (ok: bool)
    modifies bw
    ensures ok <==> p.Rpc?
    ensures bw.data == if ok then old(bw.data) + Wire(p) else old(bw.data)
    ensures ok ==> LaidOut(p, bw.data[|old(bw.data)|..])
  {
    hide LaidOut, BigEndian, U32At;
    WireLaidOut(p);
    if p.Dog? {
      return false;
    }
    bw.Write(BigEndian(p.rpc.seqNo));
    bw.Write(BigEndian(p.rpc.errCode));
    bw.Write(BigEndian(p.rpc.cmd));
    bw.Write(BigEndian(p.rpc.packetLen));
    bw.Write(p.rpc.body.Content());
    assert bw.data == old(bw.data) + Wire(p) && bw.data[|old(bw.data)|..] == Wire(p);
    return true;
  }

  method EncodeDog(bw: BufWriter, p: Packet) returns (ok: bool)
    modifies bw
    ensures ok <==> p.Dog?
    ensures bw.data == if ok then old(bw.data) + Wire(p) else old(bw.data)
    ensures ok ==> LaidOut(p, bw.data[|old(bw.data)|..])
  {
    hide LaidOut, HeaderWire, BigEndian, U32At;
    WireLaidOut(p);
    if p.Rpc? {
      return false;
    }
    bw.Write(HeaderWire(p.dog.header));
    bw.Write(p.dog.body.Content());
    assert bw.data == old(bw.data) + Wire(p) && bw.data[|old(bw.data)|..] == Wire(p);
    return true;
  }

  /** A packet is refused exactly if the stream ends before its 16 bytes of header or its body do. */
  ghost predicate RpcVerdict(s: seq<byte>, r: Result<RpcPacket, DecodeError>) {
    && (r == Err(EOF) <==> (|s| < 16 && |s| % 4 == 0) || (|s| == 16 && U32At(s, 12) != 16))
    && (r == Err(UnexpectedEOF) <==> (|s| < 16 && |s| % 4 != 0) || (|s| > 16 && |s| - 16 < U32(U32At(s, 12) - 16)))
    && (r.Err? ==> r.error in {EOF, UnexpectedEOF})
  }

  /**
   A packet is refused for the first of these: too short a stream for the header, a length below it, a wrong first mark,
   a wrong second mark, too short a stream for the body, a wrong checksum.
   */
  ghost predicate DogVerdict(sum: CheckSum, s: seq<byte>, r: Result<DogPacket, DecodeError>) {
    if |s| < 24 then r == Err(if |s| == 0 then EOF else UnexpectedEOF)
    else if U32At(s, 0) < 24 then r == Err(InvalidPacket)
    else if s[22] != 0x10 then r == Err(InvalidSOH)
    else if s[23] != 0x24 then r == Err(InvalidEOH)
    else if |s| < U32At(s, 0) then r == Err(if |s| == 24 then EOF else UnexpectedEOF)
    else if U32At(s, 12) != sum(HeaderAt(s).(checkSum := 0), Data(s[24..U32At(s, 0)])) then r == Err(InvalidCheckSum)
    else r.Ok?
  }

  lemma RpcVerdictHolds(s: seq<byte>)
    ensures RpcVerdict(s, DecodeRpc(s).result)
  {
    hide FromBigEndian;
  }

  lemma DogVerdictHolds(sum: CheckSum, s: seq<byte>)
    ensures DogVerdict(sum, s, DecodeDog(sum, s).result)
  {
    hide FromBigEndian;
  }

  method DecodeRpcStream(br: BufReader) returns (r: Result<RpcPacket, DecodeError>)
    modifies br
    ensures Decoded(r, br.data) == DecodeRpc(old(br.data))
    ensures RpcVerdict(old(br.data), r)
  {
    hide RpcVerdict, FromBigEndian;
    ghost var s := br.data;
    RpcVerdictHolds(s);
    var seqNo := br.ReadUint32();
    if seqNo.Err? {
      return Err(seqNo.error);
    }
    var errCode := br.ReadUint32();
    if errCode.Err? {
      return Err(errCode.error);
    }
    assert br.data == s[8..] && s[4..][0..4] == s[4..8];
    var cmd := br.ReadUint32();
    if cmd.Err? {
      return Err(cmd.error);
    }
    assert br.data == s[12..] && s[8..][0..4] == s[8..12];
    var packetLen := br.ReadUint32();
    if packetLen.Err? {
      return Err(packetLen.error);
    }
    assert br.data == s[16..] && s[12..][0..4] == s[12..16];
    var bodyLength := U32(packetLen.value - RPC_HEADER_LEN);
    var body := br.ReadFull(bodyLength);
    if body.Err? {
      return Err(body.error);
    }
    TailSlices(s, RPC_HEADER_LEN, bodyLength);
    return Ok(RpcPacket(seqNo.value, errCode.value, cmd.value, packetLen.value, Data(body.value)));
  }

  lemma TailSlices(s: seq<byte>, a: nat, n: nat)
    requires a + n <= |s|
    ensures s[a..][..n] == s[a..a + n] && s[a..][n..] == s[a + n..]
  {
  }

  lemma HeaderAtStart(s: seq<byte>)
    requires |s| >= DOG_HEADER_LEN
    ensures HeaderAt(s[..DOG_HEADER_LEN]) == HeaderAt(s)
  {
    hide FromBigEndian;
    assert forall i {:trigger s[..24][i..i + 4]} :: 0 <= i <= 20 ==> s[..24][i..i + 4] == s[i..i + 4];
    forall i | i in {0, 4, 8, 12, 16}
      ensures U32At(s[..24], i) == U32At(s, i)
    {
      assert s[..24][i..i + 4] == s[i..i + 4];
    }
  }

  method DecodeDogStream(sum: CheckSum, br: BufReader) returns (r: Result<DogPacket, DecodeError>)
    modifies br
    ensures Decoded(r, br.data) == DecodeDog(sum, old(br.data))
    ensures DogVerdict(sum, old(br.data), r)
  {
    hide DogVerdict, U32At;
    ghost var s := br.data;
    DogVerdictHolds(sum, s);
    var raw := br.ReadFull(DOG_HEADER_LEN);
    if raw.Err? {
      return Err(raw.error);
    }
    HeaderAtStart(s);
    var header := HeaderAt(raw.value);
    if header.packetLen < DOG_HEADER_LEN {
      return Err(InvalidPacket);
    }
    if header.soh != DOG_SOH {
      return Err(InvalidSOH);
    }
    if header.eoh != DOG_EOH {
      return Err(InvalidEOH);
    }
    var bodyLen := header.packetLen - DOG_HEADER_LEN;
    var body := br.ReadFull(bodyLen);
    if body.Err? {
      return Err(body.error);
    }
    TailSlices(s, DOG_HEADER_LEN, bodyLen);
    var checkSum1 := header.checkSum;
    header := header.(checkSum := 0);
    var checkSum2 := sum(header, Data(body.value));
    if checkSum1 != checkSum2 {
      return Err(InvalidCheckSum);
    }
    header := header.(checkSum := checkSum1);
    return Ok(DogPacket(header, Data(body.value)));
  }

  // ----- Seq numbers

  /** `globalSeq`, which `nextSeq` raises atomically. */
  class SeqCounter {
    var globalSeq: uint32
    ghost const start: uint32
    ghost var taken: nat

    ghost predicate Valid()
      reads this
    {
      globalSeq == SeqAt(start, taken)
    }

    constructor (start: uint32)
      ensures Valid() && this.start == start && taken == 0
    {
      globalSeq, this.start, taken := start, start, 0;
    }

    method NextSeq() returns (seqNo: uint32)
      requires Valid()
      modifies this
      ensures Valid() && taken == old(taken) + 1 && seqNo == SeqAt(start, taken)
    {
      globalSeq := U32(globalSeq + 1);
      taken := taken + 1;
      seqNo := globalSeq;
    }
  }

  /** The i-th number taken from a counter that began at `start`. */
  function SeqAt(start: uint32, i: nat): uint32 {
    U32(start + i)
  }

  /** Two takings give the same number exactly if a multiple of 2^32 lies between them. */
  lemma SeqsCollide(start: uint32, i: nat, j: nat)
    ensures SeqAt(start, i) == SeqAt(start, j) <==> (i - j) % TWO_32 == 0
  {
  }
}
