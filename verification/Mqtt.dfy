/** The MQTT framer (tokio-mqtt/src/codec.rs): cutting a byte stream into control packets by the remaining length
    of section 2.2.3 of MQTT 3.1.1. Packet bodies are opaque. */
module Mqtt {
  import opened Common

  type Byte = x: nat | x < 256
  type Bytes = seq<Byte>

  const MAX_REMAINING: nat := 268_435_455

  /** First byte and body of a control packet. */
  datatype RawPacket = RawPacket(first: Byte, body: Bytes)

  type Packet = p: RawPacket | |p.body| <= MAX_REMAINING witness RawPacket(0, [])

  // ----- the encoding -----

  function EncodeLength(n: nat): (r: Bytes)
    ensures 0 < |r|
  {
    if n < 128 then [n] else [128 + n % 128] + EncodeLength(n / 128)
  }

  function Encode(p: Packet): (r: Bytes)
    ensures |r| >= 2
  {
    [p.first] + EncodeLength(|p.body|) + p.body
  }

  function EncodeAll(ps: seq<Packet>): Bytes {
    if ps == [] then [] else Encode(ps[0]) + EncodeAll(ps[1..])
  }

  datatype LengthField = Incomplete | Malformed | Length(n: nat, width: nat)

  /** The remaining length: at most four bytes, seven bits each, least significant first. */
  function DecodeLength(b: Bytes, read: nat): (r: LengthField)
    requires read <= 4
    ensures r.Length? ==> 0 < r.width <= |b|
    decreases 4 - read
  {
    if read == 4 then Malformed
    else if b == [] then Incomplete
    else if b[0] < 128 then Length(b[0], 1)
    else
      match DecodeLength(b[1..], read + 1)
      case Length(n, w) => Length(b[0] - 128 + 128 * n, w + 1)
      case other => other
  }

  /** Seven bits an octet, least significant first. */
  function Value(b: Bytes): nat {
    if b == [] then 0 else b[0] % 128 + 128 * Value(b[1..])
  }

  predicate AllGoOn(b: Bytes, n: nat)
    requires n <= |b|
  {
    forall i :: 0 <= i < n ==> b[i] >= 128
  }

  /** What `r` says of a length in at most `room` octets: the first one below 128 ends it. */
  ghost predicate LengthIs(b: Bytes, room: nat, r: LengthField) {
    match r
    case Incomplete => |b| < room && AllGoOn(b, |b|)
    case Malformed => |b| >= room && AllGoOn(b, room)
    case Length(n, w) =>
      && 0 < w <= room && w <= |b|
      && b[w - 1] < 128 && AllGoOn(b, w - 1) && n == Value(b[..w])
  }

  /** Section 2.2.3: a length has at most four octets, seven bits each. */
  lemma {:induction false} LengthMeans(b: Bytes, read: nat)
    requires read <= 4
    ensures LengthIs(b, 4 - read, DecodeLength(b, read))
    decreases 4 - read
  {
    if read < 4 && b != [] {
      if b[0] >= 128 {
        LengthMeans(b[1..], read + 1);
        LengthStep(b, 4 - read, DecodeLength(b[1..], read + 1));
      } else {
        assert b[..1][1..] == [];
      }
    }
  }

  lemma {:induction false} LengthStep(b: Bytes, room: nat, r: LengthField)
    requires b != [] && b[0] >= 128 && room > 0 && LengthIs(b[1..], room - 1, r)
    ensures LengthIs(b, room, match r case Length(n, w) => Length(b[0] - 128 + 128 * n, w + 1) case other => other)
  {
    match r
    case Incomplete => GoOnTail(b, |b|);
    case Malformed => GoOnTail(b, room);
    case Length(n, w) =>
      GoOnTail(b, w);
      assert b[..w + 1][1..] == b[1..][..w];
  }

  /** The three answers exclude each other. */
  lemma {:induction false} LengthIsOne(b: Bytes, room: nat, r: LengthField, q: LengthField)
    requires LengthIs(b, room, r) && LengthIs(b, room, q)
    ensures r == q
  {
    if r.Length? && q.Length? {
      assert r.width == q.width;
    }
  }

  lemma {:induction false} GoOnTail(b: Bytes, n: nat)
    requires 0 < n <= |b| && b[0] >= 128
    ensures AllGoOn(b, n) <==> AllGoOn(b[1..], n - 1)
  {
    assert forall i :: 0 < i < |b| ==> b[i] == b[1..][i - 1];
  }

  lemma {:induction false} ValueOctets(b: Bytes)
    requires 0 < |b| <= 4
    ensures |b| == 1 ==> Value(b) == (b[0] as int) % 128
    ensures |b| == 2 ==> Value(b) == (b[0] as int) % 128 + 128 * ((b[1] as int) % 128)
    ensures |b| == 3 ==> Value(b) == (b[0] as int) % 128 + 128 * ((b[1] as int) % 128) + 16384 * ((b[2] as int) % 128)
    ensures |b| == 4 ==>
      Value(b) == (b[0] as int) % 128 + 128 * ((b[1] as int) % 128) + 16384 * ((b[2] as int) % 128)
                  + 2097152 * ((b[3] as int) % 128)
  {
    if |b| > 1 {
      ValueOctets(b[1..]);
    }
  }

  /** A length takes no more octets than it needs. */
  lemma {:induction false} EncodedWidth(n: nat)
    requires n <= MAX_REMAINING
    ensures |EncodeLength(n)| == if n < 128 then 1 else if n < 16384 then 2 else if n < 2097152 then 3 else 4
  {
    if n >= 128 {
      assert |EncodeLength(n)| == 1 + |EncodeLength(n / 128)|;
      if n >= 16384 {
        assert |EncodeLength(n / 128)| == 1 + |EncodeLength(n / 128 / 128)|;
        if n >= 2097152 {
          assert |EncodeLength(n / 128 / 128)| == 1 + |EncodeLength(n / 128 / 128 / 128)|;
          assert n / 128 / 128 / 128 < 128;
        }
      }
    }
  }

  /** The first octet, then the length, then the body. */
  lemma {:induction false} EncodedLayout(p: Packet)
    ensures var e, w := Encode(p), |EncodeLength(|p.body|)|;
      |e| == 1 + w + |p.body| && e[0] == p.first && e[1..1 + w] == EncodeLength(|p.body|) && e[1 + w..] == p.body
  {
  }

  function Power128(k: nat): nat {
    if k == 0 then 1 else 128 * Power128(k - 1)
  }

  /** Reading an encoded length gives it back, whatever follows; a proper prefix of one is incomplete. */
  lemma {:induction false} LengthRoundTrip(n: nat, read: nat, rest: Bytes, cut: nat)
    requires read < 4 && n < Power128(4 - read) && cut < |EncodeLength(n)|
    ensures DecodeLength(EncodeLength(n) + rest, read) == Length(n, |EncodeLength(n)|)
    ensures DecodeLength(EncodeLength(n)[..cut], read) == Incomplete
    ensures |EncodeLength(n)| <= 4 - read
    decreases 4 - read
  {
    var e := EncodeLength(n);
    if n >= 128 {
      var tail := EncodeLength(n / 128);
      assert n / 128 < Power128(3 - read) && read < 3;
      assert (e + rest)[1..] == tail + rest;
      if cut > 0 {
        assert e[..cut][1..] == tail[..cut - 1];
        LengthRoundTrip(n / 128, read + 1, rest, cut - 1);
      } else {
        LengthRoundTrip(n / 128, read + 1, rest, 0);
      }
    } else {
      assert (e + rest)[0] == n;
    }
  }

  lemma {:induction false} FourBytes()
    ensures Power128(4) == MAX_REMAINING + 1
  {
    assert Power128(1) == 128 && Power128(2) == 16384 && Power128(3) == 2097152;
  }

  lemma {:induction false} RemainingLengthRoundTrip(p: Packet, rest: Bytes)
    ensures DecodeLength((Encode(p) + rest)[1..], 0) == Length(|p.body|, |EncodeLength(|p.body|)|)
    ensures |EncodeLength(|p.body|)| <= 4
  {
    FourBytes();
    var e := EncodeLength(|p.body|);
    LengthRoundTrip(|p.body|, 0, p.body + rest, 0);
    AfterFirst(p.first, e, p.body, rest);
  }

  lemma {:induction false} AfterFirst(first: Byte, e: Bytes, body: Bytes, rest: Bytes)
    ensures ([first] + e + body + rest)[1..] == e + (body + rest)
  {
  }

  lemma {:induction false} PowerGrows(k: nat)
    ensures Power128(k + 1) == 128 * Power128(k) >= 128
  {
    if k > 0 {
      PowerGrows(k - 1);
    }
  }

  /** What has been read is below the bound and does not depend on what follows. */
  lemma {:induction false} LengthIsLocal(b: Bytes, read: nat, size: nat)
    requires read <= 4 && DecodeLength(b, read).Length? && DecodeLength(b, read).width <= size <= |b|
    ensures DecodeLength(b, read).n < Power128(4 - read)
    ensures DecodeLength(b[..size], read) == DecodeLength(b, read)
    decreases 4 - read
  {
    assert read < 4 && b != [];
    assert b[..size][0] == b[0];
    PowerGrows(3 - read);
    if b[0] >= 128 {
      LengthIsLocal(b[1..], read + 1, size - 1);
      assert b[..size][1..] == b[1..][..size - 1];
    }
  }

  // ----- the decoder -----

  datatype DecoderState = NeedFixedHeader | NeedBytes(nbytes: nat)

  /** `Panic` is `split_to` beyond the end of the buffer. */
  datatype Decoded = Item(packet: Packet) | Pending | Error | Panic

  datatype Reply = Reply(decoded: Decoded, state: DecoderState, buf: Bytes)

  /** `VariablePacket::decode` on the bytes split off: it needs the whole packet. */
  function ParsePacket(b: Bytes): Option<Packet> {
    if b == [] then None
    else
      match DecodeLength(b[1..], 0)
      case Length(n, w) =>
        if |b| >= 1 + w + n && n <= MAX_REMAINING then Some(RawPacket(b[0], b[1 + w..1 + w + n])) else None
      case _ => None
  }

  /** Split off `size` bytes and decode them. */
  function Consume(st: DecoderState, src: Bytes, size: nat): Reply {
    if size > |src| then Reply(Panic, st, src)
    else
      match ParsePacket(src[..size])
      case Some(p) => Reply(Item(p), NeedFixedHeader, src[size..])
      case None => Reply(Error, st, src[size..])
  }

  /** `decode` as written. */
  function DecodeAsWritten(st: DecoderState, src: Bytes): Reply {
    match st
    case NeedFixedHeader =>
      if src == [] then Reply(Pending, st, src)
      else (
        match DecodeLength(src[1..], 0)
        case Length(n, _) =>
          if |src| >= n + 1 then Consume(st, src, n + 2) else Reply(Pending, NeedBytes(n + 1), src)
        case _ => Reply(Error, st, src))
    case NeedBytes(nbytes) =>
      if nbytes >= |src| then Consume(st, src, nbytes + 1) else Reply(Pending, st, src)
  }

  /** The repaired variant: an incomplete header waits, the size counts the header's real width, a packet is
      taken when all of it is there and not before, and the comparison is the right way round. */
  function DecodeRepaired(st: DecoderState, src: Bytes): Reply {
    match st
    case NeedFixedHeader =>
      if src == [] then Reply(Pending, st, src)
      else (
        match DecodeLength(src[1..], 0)
        case Length(n, w) =>
          if |src| >= 1 + w + n then Consume(st, src, 1 + w + n) else Reply(Pending, NeedBytes(1 + w + n), src)
        case Incomplete => Reply(Pending, st, src)
        case Malformed => Reply(Error, st, src))
    case NeedBytes(size) =>
      if |src| >= size then Consume(st, src, size) else Reply(Pending, st, src)
  }

  /** The bytes a complete header announces are one packet. */
  lemma {:induction false} WholePacketParses(src: Bytes)
    requires src != [] && DecodeLength(src[1..], 0).Length?
    requires var h := DecodeLength(src[1..], 0); |src| >= 1 + h.width + h.n
    ensures var h := DecodeLength(src[1..], 0); ParsePacket(src[..1 + h.width + h.n]).Some?
  {
    var h := DecodeLength(src[1..], 0);
    var size := 1 + h.width + h.n;
    FourBytes();
    LengthIsLocal(src[1..], 0, size - 1);
    assert src[..size][1..] == src[1..][..size - 1];
  }

  class BytesMut {
    var data: Bytes

    constructor (data: Bytes)
      ensures this.data == data
    {
      this.data := data;
    }

    /** `split_to`, which panics beyond the end. */
    method SplitTo(size: nat) returns (head: Option<Bytes>)
      modifies this
      ensures head == if size <= |old(data)| then Some(old(data)[..size]) else None
      ensures data == if size <= |old(data)| then old(data)[size..] else old(data)
    {
      if size > |data| {
        return None;
      }
      head := Some(data[..size]);
      data := data[size..];
    }
  }

  class MqttDecoder {
    var state: DecoderState

    constructor ()
      ensures state == NeedFixedHeader
    {
      state := NeedFixedHeader;
    }

    method ConsumeFullPacket(src: BytesMut, size: nat) returns (r: Decoded)
      modifies this, src
      ensures Reply(r, state, src.data) == Consume(old(state), old(src.data), size)
    {
      var packet := src.SplitTo(size);
      if packet.None? {
        return Panic;
      }
      var ret := ParsePacket(packet.value);
      if ret.None? {
        return Error;
      }
      state := NeedFixedHeader;
      r := Item(ret.value);
    }

    /** `decode` as written. */
    method Decode(src: BytesMut) returns (r: Decoded)
      modifies this, src
      ensures Reply(r, state, src.data) == DecodeAsWritten(old(state), old(src.data))
    {
      match state {
        case NeedFixedHeader =>
          if |src.data| > 0 {
            match DecodeLength(src.data[1..], 0) {
              case Length(remaining, _) =>
                var nbytes := remaining + 1;
                if |src.data| >= nbytes {
                  r := ConsumeFullPacket(src, nbytes + 1);
                } else {
                  state := NeedBytes(nbytes);
                  r := Pending;
                }
              case _ => r := Error;
            }
          } else {
            r := Pending;
          }
        case NeedBytes(nbytes) =>
          if nbytes >= |src.data| {
            r := ConsumeFullPacket(src, nbytes + 1);
          } else {
            r := Pending;
          }
      }
    }

    /** `decode` repaired. */
    method DecodeFixed(src: BytesMut) returns (r: Decoded)
      modifies this, src
      ensures Reply(r, state, src.data) == DecodeRepaired(old(state), old(src.data))
    {
      match state {
        case NeedFixedHeader =>
          if |src.data| > 0 {
            match DecodeLength(src.data[1..], 0) {
              case Length(remaining, width) =>
                var size := 1 + width + remaining;
                if |src.data| >= size {
                  r := ConsumeFullPacket(src, size);
                } else {
                  state := NeedBytes(size);
                  r := Pending;
                }
              case Incomplete => r := Pending;
              case Malformed => r := Error;
            }
          } else {
            r := Pending;
          }
        case NeedBytes(size) =>
          if |src.data| >= size {
            r := ConsumeFullPacket(src, size);
          } else {
            r := Pending;
          }
      }
    }
  }

  /** `MqttEncoder::encode`, appending to the output buffer. */
  method EncodeTo(p: Packet, dst: BytesMut)
    modifies dst
    ensures dst.data == old(dst.data) + Encode(p)
  {
    dst.data := dst.data + [p.first];
    var left: nat := |p.body|;
    ghost var out: Bytes := [];
    while left >= 128
      invariant dst.data == old(dst.data) + [p.first] + out
      invariant EncodeLength(|p.body|) == out + EncodeLength(left)
    {
      var b: Byte := 128 + left % 128;
      assert out + EncodeLength(left) == out + [b] + EncodeLength(left / 128);
      dst.data := dst.data + [b];
      out := out + [b];
      left := left / 128;
    }
    dst.data := dst.data + [left];
    dst.data := dst.data + p.body;
  }
}
