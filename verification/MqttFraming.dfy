/** What the framer makes of a stream that arrives in pieces. */
module MqttFraming {
  import opened Common
  import opened Mqtt

  datatype Mode = AsWritten | Repaired

  function Decode(mode: Mode, st: DecoderState, src: Bytes): (r: Reply)
    ensures r.decoded.Item? ==> |r.buf| < |src|
  {
    if mode == AsWritten then DecodeAsWritten(st, src) else DecodeRepaired(st, src)
  }

  /** What a reader of the stream gets: the packets, and how the last call of `decode` ended. */
  datatype Frames = Frames(items: seq<Packet>, last: Decoded, state: DecoderState, buf: Bytes)

  /** `decode` is called until it has no packet to give. */
  function Drain(mode: Mode, st: DecoderState, buf: Bytes): (f: Frames)
    ensures !f.last.Item?
    decreases |buf|
  {
    var r := Decode(mode, st, buf);
    match r.decoded
    case Item(p) =>
      var f := Drain(mode, r.state, r.buf);
      f.(items := [p] + f.items)
    case _ => Frames([], r.decoded, r.state, r.buf)
  }

  /** Reads are appended to the buffer one after the other; an error or a panic ends the stream. */
  function Run(mode: Mode, st: DecoderState, buf: Bytes, chunks: seq<Bytes>): Frames
    decreases |chunks|
  {
    if chunks == [] then Frames([], Pending, st, buf)
    else
      var f := Drain(mode, st, buf + chunks[0]);
      if f.last != Pending then f
      else
        var g := Run(mode, f.state, f.buf, chunks[1..]);
        g.(items := f.items + g.items)
  }

  function Concat(chunks: seq<Bytes>): Bytes {
    if chunks == [] then [] else chunks[0] + Concat(chunks[1..])
  }

  // ----- the repaired decoder -----

  /** The decoder waits for the size its buffer announces. */
  predicate Sound(st: DecoderState, buf: Bytes) {
    st == NeedFixedHeader ||
    (buf != [] && DecodeLength(buf[1..], 0).Length?
     && st == NeedBytes(1 + DecodeLength(buf[1..], 0).width + DecodeLength(buf[1..], 0).n))
  }

  /** More bytes do not change a length that has been read, or a malformed one. */
  lemma {:induction false} LengthExtends(a: Bytes, b: Bytes, read: nat)
    requires read <= 4 && DecodeLength(a, read) != Incomplete
    ensures DecodeLength(a + b, read) == DecodeLength(a, read)
    decreases 4 - read
  {
    if read < 4 && a[0] >= 128 {
      assert (a + b)[1..] == a[1..] + b;
      LengthExtends(a[1..], b, read + 1);
    }
  }

  lemma {:induction false} HeaderExtends(a: Bytes, b: Bytes)
    requires a != [] && DecodeLength(a[1..], 0) != Incomplete
    ensures DecodeLength((a + b)[1..], 0) == DecodeLength(a[1..], 0)
  {
    assert (a + b)[1..] == a[1..] + b;
    LengthExtends(a[1..], b, 0);
  }

  lemma {:induction false} SoundIsCanonical(st: DecoderState, buf: Bytes)
    requires Sound(st, buf)
    ensures Drain(Repaired, st, buf) == Drain(Repaired, NeedFixedHeader, buf)
  {
    if st != NeedFixedHeader && |buf| >= st.nbytes {
      WholePacketParses(buf);
      assert Decode(Repaired, st, buf) == Decode(Repaired, NeedFixedHeader, buf);
    }
  }

  /** A finished drain leaves a sound decoder. */
  lemma {:induction false} DrainEndsSound(buf: Bytes)
    requires Drain(Repaired, NeedFixedHeader, buf).last == Pending
    ensures var f := Drain(Repaired, NeedFixedHeader, buf); Sound(f.state, f.buf)
    decreases |buf|
  {
    var r := DecodeRepaired(NeedFixedHeader, buf);
    if r.decoded.Item? {
      DrainEndsSound(r.buf);
    }
  }

  /** A packet or an error found in a buffer is found in a longer one. */
  lemma {:induction false} DecodeExtends(a: Bytes, b: Bytes)
    ensures var r := DecodeRepaired(NeedFixedHeader, a);
            var q := DecodeRepaired(NeedFixedHeader, a + b);
      && (r.decoded != Pending ==> q.decoded == r.decoded)
      && (r.decoded.Item? ==> q == Reply(r.decoded, NeedFixedHeader, r.buf + b))
      && (r.decoded == Pending ==> r.buf == a)
  {
    if a != [] && DecodeLength(a[1..], 0) != Incomplete {
      HeaderExtends(a, b);
      if DecodeLength(a[1..], 0).Length? {
        var size := 1 + DecodeLength(a[1..], 0).width + DecodeLength(a[1..], 0).n;
        if |a| >= size {
          assert (a + b)[..size] == a[..size] && (a + b)[size..] == a[size..] + b;
        }
      }
    }
  }

  lemma {:induction false} SoundExtends(st: DecoderState, a: Bytes, b: Bytes)
    requires Sound(st, a)
    ensures Sound(st, a + b)
  {
    if st != NeedFixedHeader {
      HeaderExtends(a, b);
    }
  }

  lemma {:induction false} PrependItems(p: Packet, a: seq<Packet>, b: seq<Packet>)
    ensures [p] + (a + b) == ([p] + a) + b
  {
  }

  /** Draining a longer buffer gives what its first part gives and then the rest. */
  lemma {:induction false} DrainSplits(a: Bytes, b: Bytes)
    ensures var f := Drain(Repaired, NeedFixedHeader, a);
            var g := Drain(Repaired, NeedFixedHeader, a + b);
            if f.last != Pending then g.items == f.items && g.last == f.last
            else var h := Drain(Repaired, NeedFixedHeader, f.buf + b); g == h.(items := f.items + h.items)
    decreases |a|
  {
    var r := Decode(Repaired, NeedFixedHeader, a);
    DecodeExtends(a, b);
    if r.decoded.Item? {
      var p := r.decoded.packet;
      var f := Drain(Repaired, NeedFixedHeader, r.buf);
      var g := Drain(Repaired, NeedFixedHeader, r.buf + b);
      assert Drain(Repaired, NeedFixedHeader, a) == f.(items := [p] + f.items);
      assert Drain(Repaired, NeedFixedHeader, a + b) == g.(items := [p] + g.items);
      DrainSplits(r.buf, b);
      if f.last == Pending {
        var h := Drain(Repaired, NeedFixedHeader, f.buf + b);
        PrependItems(p, f.items, h.items);
      }
    } else if r.decoded == Pending {
      var h := Drain(Repaired, NeedFixedHeader, a + b);
      assert [] + h.items == h.items;
    }
  }

  /** However a byte stream is cut into reads, well-formed or not, the repaired decoder gives the same packets and
      ends the same way. */
  lemma {:induction false} CuttingDoesNotMatter(st: DecoderState, buf: Bytes, chunks: seq<Bytes>)
    requires Sound(st, buf) && Drain(Repaired, st, buf) == Frames([], Pending, st, buf)
    ensures var f := Run(Repaired, st, buf, chunks);
            var g := Drain(Repaired, NeedFixedHeader, buf + Concat(chunks));
            f.items == g.items && f.last == g.last && (f.last == Pending ==> f == g)
    decreases |chunks|
  {
    if chunks == [] {
      assert buf + Concat(chunks) == buf;
      SoundIsCanonical(st, buf);
    } else {
      var a := buf + chunks[0];
      assert buf + Concat(chunks) == a + Concat(chunks[1..]);
      SoundExtends(st, buf, chunks[0]);
      SoundIsCanonical(st, a);
      DrainSplits(a, Concat(chunks[1..]));
      var f := Drain(Repaired, NeedFixedHeader, a);
      if f.last == Pending {
        DrainEndsSound(a);
        DrainIsFinished(a);
        SoundIsCanonical(f.state, f.buf);
        CuttingDoesNotMatter(f.state, f.buf, chunks[1..]);
      }
    }
  }

  lemma {:induction false} DrainIsFinished(buf: Bytes)
    requires Drain(Repaired, NeedFixedHeader, buf).last == Pending
    ensures var f := Drain(Repaired, NeedFixedHeader, buf);
            Drain(Repaired, f.state, f.buf) == Frames([], Pending, f.state, f.buf)
    decreases |buf|
  {
    var r := DecodeRepaired(NeedFixedHeader, buf);
    if r.decoded.Item? {
      DrainIsFinished(r.buf);
    }
  }

  /** What one call of the repaired decoder makes of any buffer: an error exactly for four octets of length that all
      go on, a packet exactly when its header is complete and all of it is there, and never a panic. */
  lemma {:induction false} RepairedOutcomes(src: Bytes)
    ensures var r := DecodeRepaired(NeedFixedHeader, src);
      && (r.decoded == Error <==> |src| >= 5 && AllGoOn(src[1..], 4))
      && (r.decoded.Item? <==>
            && src != [] && DecodeLength(src[1..], 0).Length?
            && |src| >= 1 + DecodeLength(src[1..], 0).width + DecodeLength(src[1..], 0).n)
      && r.decoded != Panic
  {
    if src != [] {
      LengthMeans(src[1..], 0);
      var h := DecodeLength(src[1..], 0);
      if h.Length? && |src| >= 1 + h.width + h.n {
        WholePacketParses(src);
      }
    }
  }

  /** The decoder as written takes any header that has not ended yet for an error, and stays where it is. */
  lemma {:induction false} OpenHeaderIsError(src: Bytes)
    requires src != [] && AllGoOn(src[1..], if |src| <= 4 then |src| - 1 else 4)
    ensures DecodeAsWritten(NeedFixedHeader, src) == Reply(Error, NeedFixedHeader, src)
  {
    assert forall i :: 0 <= i < |src| - 1 && i < 4 ==> src[1..][i] >= 128;
    LengthMeans(src[1..], 0);
  }

  lemma {:induction false} ParseEncoded(p: Packet)
    ensures ParsePacket(Encode(p)) == Some(p)
  {
    RemainingLengthRoundTrip(p, []);
    var w := |EncodeLength(|p.body|)|;
    assert Encode(p) + [] == Encode(p);
    assert Encode(p)[1 + w..1 + w + |p.body|] == p.body;
  }

  lemma {:induction false} DecodeOne(p: Packet, rest: Bytes)
    ensures DecodeRepaired(NeedFixedHeader, Encode(p) + rest) == Reply(Item(p), NeedFixedHeader, rest)
  {
    var e := Encode(p);
    RemainingLengthRoundTrip(p, rest);
    ParseEncoded(p);
    assert (e + rest)[..|e|] == e && (e + rest)[|e|..] == rest;
  }

  lemma {:induction false} DrainEncoded(ps: seq<Packet>)
    ensures Drain(Repaired, NeedFixedHeader, EncodeAll(ps)) == Frames(ps, Pending, NeedFixedHeader, [])
  {
    if ps != [] {
      DecodeOne(ps[0], EncodeAll(ps[1..]));
      DrainEncoded(ps[1..]);
      assert ps == [ps[0]] + ps[1..];
    }
  }

  /** For any packets and any way of cutting their encoding into reads, the repaired decoder emits exactly those
      packets and leaves nothing behind. */
  lemma {:induction false} RepairedDecodesAnyCutting(ps: seq<Packet>, chunks: seq<Bytes>)
    requires Concat(chunks) == EncodeAll(ps)
    ensures Run(Repaired, NeedFixedHeader, [], chunks) == Frames(ps, Pending, NeedFixedHeader, [])
  {
    CuttingDoesNotMatter(NeedFixedHeader, [], chunks);
    assert [] + Concat(chunks) == EncodeAll(ps);
    DrainEncoded(ps);
  }

  // ----- the decoder as written -----

  /** The one-byte remaining lengths. */
  predicate Small(p: Packet) {
    |p.body| <= 127
  }

  /** How many whole packets `n` bytes of the encoding make up, when they end at a packet boundary. */
  function Whole(ps: seq<Packet>, n: nat): (r: Option<nat>)
    ensures r.Some? ==> r.value <= |ps|
  {
    if n == 0 then Some(0)
    else if ps == [] || |Encode(ps[0])| > n then None
    else
      match Whole(ps[1..], n - |Encode(ps[0])|)
      case None => None
      case Some(k) => Some(k + 1)
  }

  /** Every read ends at a packet boundary. */
  predicate Aligned(ps: seq<Packet>, chunks: seq<Bytes>)
    decreases |chunks|
  {
    if chunks == [] then ps == []
    else
      match Whole(ps, |chunks[0]|)
      case None => false
      case Some(k) => Aligned(ps[k..], chunks[1..])
  }

  predicate AllSmall(ps: seq<Packet>) {
    forall i :: 0 <= i < |ps| ==> Small(ps[i])
  }

  /** A state the decoder as written does not recover from. */
  predicate Lost(f: Frames) {
    f.last != Pending || f.state != NeedFixedHeader
  }

  /** The header of a first piece is incomplete, or is the packet's. */
  lemma {:induction false} HeaderOfPiece(p: Packet, src: Bytes, rest: Bytes)
    requires src != [] && src <= Encode(p) + rest
    ensures DecodeLength(src[1..], 0) == Incomplete
            || DecodeLength(src[1..], 0) == Length(|p.body|, |EncodeLength(|p.body|)|)
  {
    var all := Encode(p) + rest;
    RemainingLengthRoundTrip(p, rest);
    if DecodeLength(src[1..], 0) != Incomplete {
      assert all[1..] == src[1..] + all[|src|..];
      LengthExtends(src[1..], all[|src|..], 0);
    }
  }

  /** On a first piece of a packet's encoding, whatever follows: a packet comes out exactly when it is small and
      all there; otherwise the decoder is lost. */
  lemma {:induction false} DecodeHead(p: Packet, src: Bytes, rest: Bytes)
    requires src != [] && src <= Encode(p) + rest
    ensures var r := DecodeAsWritten(NeedFixedHeader, src);
            if Small(p) && |Encode(p)| <= |src| then r == Reply(Item(p), NeedFixedHeader, src[|Encode(p)|..])
            else !r.decoded.Item? && (r.decoded != Pending || r.state != NeedFixedHeader)
  {
    var e := Encode(p);
    var size := |p.body| + 2;
    HeaderOfPiece(p, src, rest);
    if Small(p) {
      assert |e| == size;
      if |src| >= size {
        HeaderThere(p, src, rest);
        assert src[..size] == e;
        ParseEncoded(p);
      }
    } else if |src| >= size {
      Truncated(p, size);
      assert src[..size] == e[..size];
    }
  }

  lemma {:induction false} HeaderThere(p: Packet, src: Bytes, rest: Bytes)
    requires Encode(p) <= src <= Encode(p) + rest
    ensures DecodeLength(src[1..], 0).Length?
  {
    RemainingLengthRoundTrip(p, src[|Encode(p)|..]);
    assert Encode(p) + src[|Encode(p)|..] == src;
  }

  /** A packet with a longer header is cut short by the two-byte assumption. */
  lemma {:induction false} Truncated(p: Packet, size: nat)
    requires !Small(p) && size == |p.body| + 2
    ensures size < |Encode(p)| && ParsePacket(Encode(p)[..size]).None?
  {
    var e := Encode(p);
    var w := |EncodeLength(|p.body|)|;
    RemainingLengthRoundTrip(p, []);
    assert e + [] == e;
    if DecodeLength(e[..size][1..], 0).Length? {
      assert e[1..] == e[..size][1..] + e[size..];
      LengthExtends(e[..size][1..], e[size..], 0);
    }
  }

  /** Waiting for bytes is the end: the decoder as written panics or waits for ever. */
  lemma {:induction false} NeverResumes(nbytes: nat, buf: Bytes, chunks: seq<Bytes>)
    ensures var f := Run(AsWritten, NeedBytes(nbytes), buf, chunks); f.items == [] && Lost(f)
    decreases |chunks|
  {
    if chunks != [] {
      var f := Drain(AsWritten, NeedBytes(nbytes), buf + chunks[0]);
      if f.last == Pending {
        NeverResumes(nbytes, f.buf, chunks[1..]);
      }
    }
  }

  /** How waiting ends: with a panic if the next read brings the buffer to no more than the size waited for, and
      never otherwise. */
  lemma {:induction false} WaitingEnds(nbytes: nat, buf: Bytes, chunks: seq<Bytes>)
    ensures Run(AsWritten, NeedBytes(nbytes), buf, chunks) ==
      if chunks == [] then Frames([], Pending, NeedBytes(nbytes), buf)
      else if |buf| + |chunks[0]| <= nbytes then Frames([], Panic, NeedBytes(nbytes), buf + chunks[0])
      else Frames([], Pending, NeedBytes(nbytes), buf + Concat(chunks))
    decreases |chunks|
  {
    if chunks != [] && |buf| + |chunks[0]| > nbytes {
      WaitingEnds(nbytes, buf + chunks[0], chunks[1..]);
      assert buf + Concat(chunks) == buf + chunks[0] + Concat(chunks[1..]);
    }
  }

  /** The result of one call of `decode` as written on a first piece of a packet's encoding, whatever follows. With
      `w` octets of length and a body of `n`: an incomplete header is an error; up to `n` bytes it waits, with
      `n + 1` bytes it panics; from then on a small packet comes out, and any other is an error. */
  lemma {:induction false} PieceEnds(p: Packet, src: Bytes, rest: Bytes)
    requires src != [] && src <= Encode(p) + rest
    ensures var w, n := |EncodeLength(|p.body|)|, |p.body|;
      DecodeAsWritten(NeedFixedHeader, src) ==
        if |src| < 1 + w then Reply(Error, NeedFixedHeader, src)
        else if |src| <= n then Reply(Pending, NeedBytes(n + 1), src)
        else if |src| == n + 1 then Reply(Panic, NeedFixedHeader, src)
        else if w == 1 then Reply(Item(p), NeedFixedHeader, src[n + 2..])
        else Reply(Error, NeedFixedHeader, src[n + 2..])
  {
    var w, n := |EncodeLength(|p.body|)|, |p.body|;
    EncodedWidth(n);
    if |src| < 1 + w {
      ShortHeader(p, src, rest);
    } else {
      LongHeader(p, src, rest);
      if |src| >= n + 2 {
        if w == 1 {
          assert src[..n + 2] == Encode(p);
          ParseEncoded(p);
        } else {
          Truncated(p, n + 2);
          assert src[..n + 2] == Encode(p)[..n + 2];
        }
      }
    }
  }

  lemma {:induction false} ShortHeader(p: Packet, src: Bytes, rest: Bytes)
    requires src != [] && src <= Encode(p) + rest && |src| < 1 + |EncodeLength(|p.body|)|
    ensures DecodeLength(src[1..], 0) == Incomplete
  {
    var e := EncodeLength(|p.body|);
    FourBytes();
    LengthRoundTrip(|p.body|, 0, [], |src| - 1);
    assert src[1..] == e[..|src| - 1];
  }

  lemma {:induction false} LongHeader(p: Packet, src: Bytes, rest: Bytes)
    requires src <= Encode(p) + rest && |src| >= 1 + |EncodeLength(|p.body|)|
    ensures DecodeLength(src[1..], 0) == Length(|p.body|, |EncodeLength(|p.body|)|)
  {
    var e := EncodeLength(|p.body|);
    FourBytes();
    LengthRoundTrip(|p.body|, 0, src[1 + |e|..], 0);
    assert src[1..] == e + src[1 + |e|..];
  }

  lemma {:induction false} WholePacketOut(p: Packet, rest: Bytes)
    requires Small(p)
    ensures var f := Drain(AsWritten, NeedFixedHeader, rest);
      Drain(AsWritten, NeedFixedHeader, Encode(p) + rest) == f.(items := [p] + f.items)
  {
    DecodeHead(p, Encode(p) + rest, rest);
    assert (Encode(p) + rest)[|Encode(p)|..] == rest;
  }

  /** Where a read that ends inside a packet leaves the decoder as written, after any number of whole small
      packets. */
  lemma {:induction false} SplitReadEnds(ps: seq<Packet>, p: Packet, src: Bytes)
    requires AllSmall(ps) && src != [] && |src| < |Encode(p)| && src <= Encode(p)
    ensures Drain(AsWritten, NeedFixedHeader, EncodeAll(ps) + src) == SplitEnd(p, src).(items := ps)
  {
    SmallPacketsOut(ps, src);
    SplitAtOnce(p, src);
    assert ps + [] == ps;
  }

  lemma {:induction false} SmallPacketsOut(ps: seq<Packet>, rest: Bytes)
    requires AllSmall(ps)
    ensures var f := Drain(AsWritten, NeedFixedHeader, rest);
      Drain(AsWritten, NeedFixedHeader, EncodeAll(ps) + rest) == f.(items := ps + f.items)
  {
    if ps == [] {
      assert EncodeAll(ps) + rest == rest;
    } else {
      var first, others := ps[0], ps[1..];
      assert forall i :: 0 <= i < |others| ==> others[i] == ps[i + 1];
      assert EncodeAll(ps) + rest == Encode(first) + (EncodeAll(others) + rest);
      WholePacketOut(first, EncodeAll(others) + rest);
      SmallPacketsOut(others, rest);
      assert ps == [first] + others;
      PrependItems(first, others, Drain(AsWritten, NeedFixedHeader, rest).items);
    }
  }

  /** An incomplete header is an error; a header with not more bytes than the body has waits, for one byte too few;
      one byte more is a panic, and beyond that a longer packet is an error. */
  function SplitEnd(p: Packet, src: Bytes): Frames
    requires |src| < |Encode(p)|
  {
    var w, n := |EncodeLength(|p.body|)|, |p.body|;
    if |src| < 1 + w then Frames([], Error, NeedFixedHeader, src)
    else if |src| <= n then Frames([], Pending, NeedBytes(n + 1), src)
    else if |src| == n + 1 then Frames([], Panic, NeedFixedHeader, src)
    else Frames([], Error, NeedFixedHeader, src[n + 2..])
  }

  lemma {:induction false} SplitAtOnce(p: Packet, src: Bytes)
    requires src != [] && |src| < |Encode(p)| && src <= Encode(p)
    ensures Drain(AsWritten, NeedFixedHeader, src) == SplitEnd(p, src)
  {
    PieceEnds(p, src, []);
    EncodedWidth(|p.body|);
    assert Encode(p) + [] == Encode(p);
  }

  lemma {:induction false} WholeMeans(ps: seq<Packet>, n: nat)
    requires n <= |EncodeAll(ps)|
    ensures Whole(ps, n).Some? ==> EncodeAll(ps[..Whole(ps, n).value]) == EncodeAll(ps)[..n]
  {
    if n == 0 {
      assert ps[..0] == [];
    } else if ps != [] && |Encode(ps[0])| <= n {
      var e := Encode(ps[0]);
      WholeMeans(ps[1..], n - |e|);
      if Whole(ps, n).Some? {
        var k := Whole(ps[1..], n - |e|).value;
        assert ps[..k + 1][1..] == ps[1..][..k];
        assert EncodeAll(ps)[..n] == e + EncodeAll(ps[1..])[..n - |e|];
      }
    }
  }

  /** One read that starts at a packet boundary. */
  lemma {:induction false} DrainRead(ps: seq<Packet>, n: nat)
    requires n <= |EncodeAll(ps)|
    ensures Gives(ps, n, Drain(AsWritten, NeedFixedHeader, EncodeAll(ps)[..n]))
    decreases |ps|
  {
    if n == 0 {
      NothingRead(ps);
    } else if |Encode(ps[0])| <= n && Small(ps[0]) {
      var rest := n - |Encode(ps[0])|;
      var tail := EncodeAll(ps[1..])[..rest];
      DrainRead(ps[1..], rest);
      GivesMore(ps, n, Drain(AsWritten, NeedFixedHeader, tail));
      WholePacketOut(ps[0], tail);
      CutBehind(Encode(ps[0]), EncodeAll(ps[1..]), n);
    } else {
      NoPacketOut(ps, n);
    }
  }

  /** What the first `n` bytes of the encoding give: whole small packets, or a decoder that is lost. */
  predicate Gives(ps: seq<Packet>, n: nat, f: Frames) {
    if Whole(ps, n).Some? && AllSmall(ps[..Whole(ps, n).value])
    then f == Frames(ps[..Whole(ps, n).value], Pending, NeedFixedHeader, []) else Lost(f)
  }

  lemma {:induction false} NothingRead(ps: seq<Packet>)
    ensures Gives(ps, 0, Drain(AsWritten, NeedFixedHeader, EncodeAll(ps)[..0]))
  {
    assert ps[..0] == [];
  }

  lemma {:induction false} GivesMore(ps: seq<Packet>, n: nat, f: Frames)
    requires n > 0 && ps != [] && |Encode(ps[0])| <= n && Small(ps[0])
    requires Gives(ps[1..], n - |Encode(ps[0])|, f)
    ensures Gives(ps, n, f.(items := [ps[0]] + f.items))
  {
    PrependPacket(ps, n);
  }

  lemma {:induction false} NoPacketOut(ps: seq<Packet>, n: nat)
    requires 0 < n <= |EncodeAll(ps)| && ps != [] && (|Encode(ps[0])| > n || !Small(ps[0]))
    ensures Gives(ps, n, Drain(AsWritten, NeedFixedHeader, EncodeAll(ps)[..n]))
  {
    DecodeHead(ps[0], EncodeAll(ps)[..n], EncodeAll(ps[1..]));
    if Whole(ps, n).Some? {
      assert ps[..Whole(ps, n).value][0] == ps[0];
    }
  }

  lemma {:induction false} CutBehind(a: Bytes, b: Bytes, n: nat)
    requires |a| <= n <= |a| + |b|
    ensures (a + b)[..n] == a + b[..n - |a|]
  {
  }

  lemma {:induction false} PrependPacket(ps: seq<Packet>, n: nat)
    requires n > 0 && ps != [] && |Encode(ps[0])| <= n && Small(ps[0])
    ensures Whole(ps, n).Some? <==> Whole(ps[1..], n - |Encode(ps[0])|).Some?
    ensures Whole(ps, n).Some? ==>
      var k := Whole(ps[1..], n - |Encode(ps[0])|).value;
      && Whole(ps, n).value == k + 1 && ps[..k + 1] == [ps[0]] + ps[1..][..k]
      && (AllSmall(ps[..k + 1]) <==> AllSmall(ps[1..][..k]))
  {
    if Whole(ps, n).Some? {
      var k := Whole(ps[1..], n - |Encode(ps[0])|).value;
      assert forall i :: 1 <= i < k + 1 ==> ps[i] == ps[1..][..k][i - 1];
      assert forall i :: 0 <= i < k ==> ps[1..][..k][i] == ps[..k + 1][i + 1];
    }
  }

  lemma {:induction false} EncodeAllSplits(a: seq<Packet>, b: seq<Packet>)
    ensures EncodeAll(a + b) == EncodeAll(a) + EncodeAll(b)
  {
    if a == [] {
      assert a + b == b;
    } else {
      assert (a + b)[1..] == a[1..] + b;
      EncodeAllSplits(a[1..], b);
    }
  }

  /** The decoder as written emits the packets and ends ready for more exactly when every remaining length fits one
      byte and no read ends inside a packet. */
  lemma {:induction false} AsWrittenCorrectIff(ps: seq<Packet>, chunks: seq<Bytes>)
    requires Concat(chunks) == EncodeAll(ps)
    ensures Run(AsWritten, NeedFixedHeader, [], chunks) == Frames(ps, Pending, NeedFixedHeader, [])
            <==> AllSmall(ps) && Aligned(ps, chunks)
    decreases |chunks|
  {
    if chunks == [] {
      assert ps != [] ==> |EncodeAll(ps)| > 0;
    } else {
      var read := chunks[0];
      var n := |read|;
      assert [] + read == read && EncodeAll(ps)[..n] == read;
      DrainRead(ps, n);
      var f := Drain(AsWritten, NeedFixedHeader, read);
      if Lost(f) {
        if f.last == Pending {
          NeverResumes(f.state.nbytes, f.buf, chunks[1..]);
        }
        LostMeans(ps, n);
      } else {
        var k := Whole(ps, n).value;
        RestOfStream(ps, n, chunks);
        AsWrittenCorrectIff(ps[k..], chunks[1..]);
        var g := Run(AsWritten, NeedFixedHeader, [], chunks[1..]);
        SplitPackets(ps, k, g.items);
      }
    }
  }

  lemma {:induction false} RestOfStream(ps: seq<Packet>, n: nat, chunks: seq<Bytes>)
    requires Concat(chunks) == EncodeAll(ps) && chunks != [] && n == |chunks[0]| && Whole(ps, n).Some?
    ensures Concat(chunks[1..]) == EncodeAll(ps[Whole(ps, n).value..])
  {
    var k := Whole(ps, n).value;
    WholeMeans(ps, n);
    assert ps == ps[..k] + ps[k..];
    EncodeAllSplits(ps[..k], ps[k..]);
    assert Concat(chunks)[n..] == Concat(chunks[1..]);
  }

  lemma {:induction false} SplitPackets(ps: seq<Packet>, k: nat, items: seq<Packet>)
    requires k <= |ps|
    ensures ps[..k] + items == ps <==> items == ps[k..]
    ensures AllSmall(ps) <==> AllSmall(ps[..k]) && AllSmall(ps[k..])
  {
    assert ps[..k] + items == ps ==> (ps[..k] + items)[k..] == ps[k..];
    assert forall i :: k <= i < |ps| ==> ps[i] == ps[k..][i - k];
  }

  lemma {:induction false} LostMeans(ps: seq<Packet>, n: nat)
    requires n <= |EncodeAll(ps)| && Lost(Drain(AsWritten, NeedFixedHeader, EncodeAll(ps)[..n]))
    ensures Whole(ps, n).None? || !AllSmall(ps)
  {
    DrainRead(ps, n);
  }
}
