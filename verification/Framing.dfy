/** TCP framing: a two-byte big-endian length, then the packet. */
module Framing {
  import opened Bounded
  import opened Codec

  const MAX_TCP_FRAME_SIZE: nat := 65535

  /** `(len as u16).to_be_bytes()` followed by the packet.  The cast is unchecked. */
  function Frame(data: Bytes): Bytes {
    ToBe(|data| % TWO_16, 2) + data
  }

  /** One round of a reader on the bytes it still has to consume. */
  datatype Read = EndOfStream | BadLength | Got(data: Bytes, rest: Bytes)

  function NextFrame(stream: Bytes): Read {
    if |stream| < 2 then EndOfStream
    else
      var length := FromBe(stream[..2]);
      if length == 0 then BadLength
      else if |stream| < 2 + length then EndOfStream
      else Got(stream[2..2 + length], stream[2 + length..])
  }

  /** Everything a reader hands on before it stops. */
  function Frames(stream: Bytes): seq<Bytes>
    decreases |stream|
  {
    match NextFrame(stream)
    case Got(data, rest) => [data] + Frames(rest)
    case _ => []
  }

  function Stream(packets: seq<Bytes>): Bytes {
    if packets == [] then [] else Frame(packets[0]) + Stream(packets[1..])
  }

  predicate Sendable(data: Bytes) {
    1 <= |data| <= MAX_TCP_FRAME_SIZE
  }

  lemma FrameHead(data: Bytes, rest: Bytes)
    requires Sendable(data)
    ensures NextFrame(Frame(data) + rest) == Got(data, rest)
  {
    var s := Frame(data) + rest;
    HeadOfFrame(data);
    assert s[..2] == Frame(data)[..2];
    assert s[2..2 + |data|] == data && s[2 + |data|..] == rest;
  }

  /** A frame cut short yields nothing. */
  lemma PartialFrame(data: Bytes, k: nat)
    requires Sendable(data) && k < |Frame(data)|
    ensures NextFrame(Frame(data)[..k]).EndOfStream?
  {
    var cut := Frame(data)[..k];
    assert |Frame(data)| == 2 + |data|;
    if k >= 2 {
      HeadOfFrame(data);
      assert cut[..2] == Frame(data)[..2];
    }
  }

  lemma HeadOfFrame(data: Bytes)
    requires Sendable(data)
    ensures FromBe(Frame(data)[..2]) == |data|
  {
    Widths();
    assert |data| % TWO_16 == |data|;
    assert Frame(data)[..2] == ToBe(|data|, 2);
    FromToBe(|data|, 2);
  }

  /** The two bytes before a packet are its length, the more significant one first. */
  lemma FrameLayout(data: Bytes)
    requires Sendable(data)
    ensures |Frame(data)| == 2 + |data| && Frame(data)[2..] == data
    ensures Frame(data)[0] == |data| / 256 && Frame(data)[1] == |data| % 256
  {
    assert |data| % TWO_16 == |data|;
    BigEndian(|data|, 2, 0);
    BigEndian(|data|, 2, 1);
    assert Pow256(1) == 256 && Pow256(0) == 1;
  }

  /** A length of zero ends the stream for the reader, whatever follows. */
  lemma ZeroLengthStops(packets: seq<Bytes>, rest: Bytes)
    requires forall p <- packets :: Sendable(p)
    ensures Frames(Stream(packets) + [0, 0] + rest) == packets
  {
    var tail := [0, 0] + rest;
    assert Stream(packets) + [0, 0] + rest == Stream(packets) + tail;
    FramesOfStream(packets, tail);
    assert FromBe([0]) == 0 && tail[..2] == [0, 0] && FromBe(tail[..2]) == 0;
  }

  lemma FramesCons(data: Bytes, rest: Bytes)
    requires Sendable(data)
    ensures Frames(Frame(data) + rest) == [data] + Frames(rest)
  {
    FrameHead(data, rest);
  }

  lemma {:induction false} FramesOfStream(packets: seq<Bytes>, tail: Bytes)
    requires forall p <- packets :: Sendable(p)
    ensures Frames(Stream(packets) + tail) == packets + Frames(tail)
  {
    if packets == [] {
      assert Stream(packets) + tail == tail;
    } else {
      var more := packets[1..];
      assert Stream(packets) + tail == Frame(packets[0]) + (Stream(more) + tail);
      FramesCons(packets[0], Stream(more) + tail);
      FramesOfStream(more, tail);
      assert packets == [packets[0]] + more;
    }
  }

  lemma {:induction false} StreamAppend(packets: seq<Bytes>, data: Bytes)
    ensures Stream(packets + [data]) == Stream(packets) + Frame(data)
  {
    if packets == [] {
      assert packets + [data] == [data];
      assert Stream([data]) == Frame(data) + Stream([]);
    } else {
      assert (packets + [data])[1..] == packets[1..] + [data];
      StreamAppend(packets[1..], data);
    }
  }

  /** A connection cut at any byte delivers a prefix of what was sent, never anything else. */
  lemma {:induction false} CutStreamIsPrefix(packets: seq<Bytes>, k: nat)
    requires forall p <- packets :: Sendable(p)
    requires k <= |Stream(packets)|
    ensures Frames(Stream(packets)[..k]) <= packets
  {
    if packets != [] {
      var f := Frame(packets[0]);
      var cut := Stream(packets)[..k];
      if k < |f| {
        assert cut == f[..k];
        PartialFrame(packets[0], k);
      } else {
        assert cut == f + Stream(packets[1..])[..k - |f|];
        FramesCons(packets[0], Stream(packets[1..])[..k - |f|]);
        CutStreamIsPrefix(packets[1..], k - |f|);
      }
    }
  }

  /** Whatever the stream, a reader hands on nothing empty and nothing over 65535 bytes. */
  lemma {:induction false} FramesAreSendable(stream: Bytes)
    ensures forall p <- Frames(stream) :: Sendable(p)
    decreases |stream|
  {
    if NextFrame(stream).Got? {
      Widths();
      ToFromBe(stream[..2]);
      FramesAreSendable(NextFrame(stream).rest);
    }
  }

  /** The unchecked cast: a packet survives its own framing exactly when it is not empty and
      no longer than 65535 bytes, that is, when its payload has at most 65523. */
  lemma FramingIsFaithfulExactlyWhen(data: Bytes)
    ensures Frames(Frame(data)) == [data] <==> Sendable(data)
  {
    if Sendable(data) {
      FramesCons(data, []);
      assert Frame(data) + [] == Frame(data);
    } else {
      FramesAreSendable(Frame(data));
      assert data in [data];
    }
  }

  datatype Message = Message(id: U64, seqNo: U32, payload: Bytes)

  const MAX_PAYLOAD: nat := MAX_TCP_FRAME_SIZE - HEADER_SIZE

  function EncodeAll(ms: seq<Message>): (packets: seq<Bytes>)
    ensures |packets| == |ms|
    ensures forall i | 0 <= i < |ms| :: packets[i] == Encode(ms[i].id, ms[i].seqNo, ms[i].payload)
  {
    if ms == [] then [] else [Encode(ms[0].id, ms[0].seqNo, ms[0].payload)] + EncodeAll(ms[1..])
  }

  /** What the handlers see: frames too short to decode are dropped. */
  function DecodeAll(packets: seq<Bytes>): seq<Message> {
    if packets == [] then []
    else
      var rest := DecodeAll(packets[1..]);
      match Decode(packets[0])
      case PacketTooShort => rest
      case Packet(id, seqNo, payload) => [Message(id, seqNo, payload)] + rest
  }

  lemma {:induction false} DecodeAllEncodeAll(ms: seq<Message>)
    ensures DecodeAll(EncodeAll(ms)) == ms
  {
    if ms != [] {
      DecodeEncode(ms[0].id, ms[0].seqNo, ms[0].payload);
      assert EncodeAll(ms)[1..] == EncodeAll(ms[1..]);
      DecodeAllEncodeAll(ms[1..]);
    }
  }

  lemma EncodedIsSendable(ms: seq<Message>, n: nat)
    requires n <= |ms| && forall m <- ms :: |m.payload| <= MAX_PAYLOAD
    ensures forall p <- EncodeAll(ms)[..n] :: Sendable(p)
  {
    var packets := EncodeAll(ms)[..n];
    forall i | 0 <= i < n ensures Sendable(packets[i]) {
      assert ms[i] in ms;
    }
  }

  lemma StreamRoundTrip(ms: seq<Message>)
    requires forall m <- ms :: |m.payload| <= MAX_PAYLOAD
    ensures DecodeAll(Frames(Stream(EncodeAll(ms)))) == ms
  {
    var packets := EncodeAll(ms);
    EncodedIsSendable(ms, |ms|);
    assert packets[..|ms|] == packets;
    FramesOfStream(packets, []);
    assert Stream(packets) + [] == Stream(packets);
    assert Frames([]) == [] && packets + [] == packets;
    DecodeAllEncodeAll(ms);
  }

  /** A connection cut at any byte delivers a prefix of the messages sent. */
  lemma CutStreamDecodes(ms: seq<Message>, n: nat, k: nat)
    requires n <= |ms| && forall m <- ms :: |m.payload| <= MAX_PAYLOAD
    requires k <= |Stream(EncodeAll(ms)[..n])|
    ensures DecodeAll(Frames(Stream(EncodeAll(ms)[..n])[..k])) <= ms
  {
    var all := EncodeAll(ms);
    EncodedIsSendable(ms, n);
    CutStreamIsPrefix(all[..n], k);
    var got := Frames(Stream(all[..n])[..k]);
    assert got == all[..n][..|got|] == all[..|got|];
    EncodeAllPrefix(ms, |got|);
    DecodeAllEncodeAll(ms[..|got|]);
  }

  lemma TakeMore(s: Bytes, i: nat, n: nat)
    requires i + n <= |s|
    ensures s[..i] + s[i..][..n] == s[..i + n]
  {
  }

  lemma DropMore(s: Bytes, i: nat, n: nat)
    requires i + n <= |s|
    ensures s[i..][..n] == s[i..i + n] && s[i..][n..] == s[i + n..]
  {
  }

  // ------------------------------------------------- the loops that move bytes

  datatype SendResult = Sent | FrameTooLarge | ShortWrite | WriteError

  /** The sending half of a connection: `sent` is what the peer will get to read.  A stream
      whose write failed is `broken` and takes nothing more; so is one that took no byte without
      an error, which a stream socket does not do. */
  class Writer {
    var sent: Bytes
    var broken: bool

    constructor ()
      ensures sent == [] && !broken
    {
      sent, broken := [], false;
    }

    /** One `Write`: any number of bytes may go out, with or without an error. */
    method Write(buffer: Bytes) returns (n: nat, failed: bool)
      modifies this
      ensures n <= |buffer| && sent == old(sent) + buffer[..n]
      ensures old(broken) ==> n == 0
      ensures broken == (old(broken) || failed || n == 0)
    {
      n :| 0 <= n <= |buffer| && (broken ==> n == 0);
      failed := *;
      sent := sent + buffer[..n];
      broken := broken || failed || n == 0;
    }

    /** `sendTCPFrame`: the loop over short writes.  Whatever the pattern of short writes, a
        successful call adds one whole frame, and a failed one adds some prefix of it, perhaps
        all of it, and leaves the connection broken. */
    method SendFrame(data: Bytes) returns (r: SendResult)
      modifies this
      ensures r == FrameTooLarge <==> |data| > MAX_TCP_FRAME_SIZE
      ensures r == FrameTooLarge ==> sent == old(sent) && broken == old(broken)
      ensures r == Sent ==> sent == old(sent) + Frame(data) && !old(broken) && !broken
      ensures r == ShortWrite || r == WriteError ==> broken && old(sent) <= sent <= old(sent) + Frame(data)
      ensures old(broken) ==> sent == old(sent)
    {
      if |data| > MAX_TCP_FRAME_SIZE {
        return FrameTooLarge;
      }
      var frame := ToBe(|data| % TWO_16, 2) + data;
      var written := 0;
      while written < |frame|
        invariant written <= |frame|
        invariant sent == old(sent) + frame[..written]
        invariant broken == old(broken) && (broken ==> written == 0)
        decreases |frame| - written
      {
        var n, failed := Write(frame[written..]);
        TakeMore(frame, written, n);
        if failed {
          return WriteError;
        }
        if n == 0 {
          return ShortWrite;
        }
        written := written + n;
      }
      assert frame[..written] == frame;
      return Sent;
    }
  }

  /** The receiving half: `pending` is everything the peer sent before it closed. */
  class Reader {
    var pending: Bytes

    constructor (stream: Bytes)
      ensures pending == stream
    {
      pending := stream;
    }

    /** One `read`: any non-empty part of what is there, nothing at the end of the stream. */
    method Read(limit: nat) returns (chunk: Bytes)
      requires limit > 0
      modifies this
      ensures |chunk| <= limit && chunk + pending == old(pending)
      ensures chunk == [] <==> old(pending) == []
    {
      if pending == [] {
        return [];
      }
      var n :| 1 <= n <= |pending| && n <= limit;
      chunk := pending[..n];
      pending := pending[n..];
    }

    /** `read_exact` / `io.ReadFull`, for any chunking of the stream. */
    method ReadExact(count: nat) returns (data: Option<Bytes>)
      modifies this
      ensures data == if count <= |old(pending)| then Some(old(pending)[..count]) else None
      ensures data.Some? ==> pending == old(pending)[count..]
    {
      var got: Bytes := [];
      while |got| < count
        invariant |got| <= count
        invariant got + pending == old(pending)
        decreases count - |got|
      {
        var chunk := Read(count - |got|);
        if chunk == [] {
          return None;
        }
        got := got + chunk;
      }
      return Some(got);
    }

    /** One turn of the read loop: length, check, body. */
    method ReadFrame() returns (r: Read)
      modifies this
      ensures r == NextFrame(old(pending))
      ensures r.Got? ==> pending == r.rest && |pending| < |old(pending)|
    {
      var head := ReadExact(2);
      if head.None? {
        return EndOfStream;
      }
      var length := FromBe(head.value);
      Widths();
      ToFromBe(head.value);
      if length == 0 || length > MAX_TCP_FRAME_SIZE {
        return BadLength;
      }
      var body := ReadExact(length);
      if body.None? {
        return EndOfStream;
      }
      DropMore(old(pending), 2, length);
      return Got(body.value, pending);
    }

    /** The read loop of `handle_tcp_conn`, `handle_tcp_server_response` and the Go server's
        `handleTCPConn`: hand on one frame after the other until a read fails. */
    method ReadFrames() returns (delivered: seq<Bytes>)
      modifies this
      ensures delivered == Frames(old(pending))
    {
      delivered := [];
      while true
        invariant delivered + Frames(pending) == Frames(old(pending))
        decreases |pending|
      {
        var r := ReadFrame();
        if !r.Got? {
          return;
        }
        delivered := delivered + [r.data];
      }
    }
  }

  // -------------------------------------------------- a connection as a whole

  /** The messages that fit into a frame: the others are refused before a byte is written. */
  function Fitting(ms: seq<Message>): seq<Message> {
    if ms == [] then []
    else
      var last := ms[|ms| - 1];
      Fitting(ms[..|ms| - 1]) + (if |last.payload| <= MAX_PAYLOAD then [last] else [])
  }

  /** The messages whose send succeeded. */
  function Succeeded(ms: seq<Message>, results: seq<SendResult>): seq<Message>
    requires |results| == |ms|
  {
    if ms == [] then []
    else
      var n := |ms| - 1;
      Succeeded(ms[..n], results[..n]) + (if results[n] == Sent then [ms[n]] else [])
  }

  function StreamOf(ms: seq<Message>): Bytes {
    Stream(EncodeAll(ms))
  }

  lemma {:induction false} WireAppend(ms: seq<Message>, m: Message)
    ensures StreamOf(ms + [m]) == StreamOf(ms) + Frame(Encode(m.id, m.seqNo, m.payload))
  {
    assert EncodeAll(ms + [m]) == EncodeAll(ms) + [Encode(m.id, m.seqNo, m.payload)];
    StreamAppend(EncodeAll(ms), Encode(m.id, m.seqNo, m.payload));
  }

  lemma {:induction false} FittingFits(ms: seq<Message>)
    ensures forall m <- Fitting(ms) :: |m.payload| <= MAX_PAYLOAD
  {
    if ms != [] { FittingFits(ms[..|ms| - 1]); }
  }

  lemma Snoc(ms: seq<Message>, m: Message, results: seq<SendResult>, r: SendResult)
    requires |results| == |ms|
    ensures Fitting(ms + [m]) == if |m.payload| <= MAX_PAYLOAD then Fitting(ms) + [m] else Fitting(ms)
    ensures Succeeded(ms + [m], results + [r]) ==
            if r == Sent then Succeeded(ms, results) + [m] else Succeeded(ms, results)
  {
    assert (ms + [m])[..|ms|] == ms && (results + [r])[..|ms|] == results;
  }

  /** What is on the wire after some sends: at least the whole frames of the successful ones, at
      most those of all that fit, and exactly those while the connection is sound. */
  ghost predicate OnWire(sent: Bytes, broken: bool, ms: seq<Message>, results: seq<SendResult>)
    requires |results| == |ms|
  {
    && Succeeded(ms, results) <= Fitting(ms)
    && StreamOf(Succeeded(ms, results)) <= sent <= StreamOf(Fitting(ms))
    && (!broken ==> Succeeded(ms, results) == Fitting(ms))
  }

  /** What sending one message may do to the connection. */
  predicate Sends(sent: Bytes, broken: bool, m: Message, r: SendResult, sent': Bytes, broken': bool) {
    var frame := Frame(Encode(m.id, m.seqNo, m.payload));
    && (r == FrameTooLarge <==> |m.payload| > MAX_PAYLOAD)
    && (r == FrameTooLarge ==> sent' == sent && broken' == broken)
    && (r == Sent ==> sent' == sent + frame && !broken && !broken')
    && (r == ShortWrite || r == WriteError ==> broken' && sent <= sent' <= sent + frame)
    && (broken ==> sent' == sent)
  }

  lemma SendKeeps(sent: Bytes, broken: bool, ms: seq<Message>, results: seq<SendResult>,
                  m: Message, r: SendResult, sent': Bytes, broken': bool)
    requires |results| == |ms| && OnWire(sent, broken, ms, results)
    requires Sends(sent, broken, m, r, sent', broken')
    ensures OnWire(sent', broken', ms + [m], results + [r])
  {
    Snoc(ms, m, results, r);
    WireAppend(Fitting(ms), m);
    var frame := Frame(Encode(m.id, m.seqNo, m.payload));
    if r != FrameTooLarge {
      assert StreamOf(Fitting(ms + [m])) == StreamOf(Fitting(ms)) + frame;
      if !broken {
        assert sent == StreamOf(Fitting(ms));
      } else {
        assert sent' <= StreamOf(Fitting(ms)) <= StreamOf(Fitting(ms + [m]));
      }
      assert StreamOf(Succeeded(ms, results)) <= sent <= sent';
    }
  }

  method SendMessage(w: Writer, m: Message) returns (r: SendResult)
    modifies w
    ensures Sends(old(w.sent), old(w.broken), m, r, w.sent, w.broken)
  {
    var packet := EncodePacket(m.id, m.seqNo, m.payload);
    r := w.SendFrame(packet);
  }

  predicate Refused(ms: seq<Message>, results: seq<SendResult>)
    requires |results| <= |ms|
  {
    forall i | 0 <= i < |results| :: results[i] == FrameTooLarge <==> |ms[i].payload| > MAX_PAYLOAD
  }

  /** The packets of a source, one after the other, over one connection.  The client goes on
      after a failed send; nothing it sends then can reach the peer. */
  method SendAll(w: Writer, ms: seq<Message>) returns (results: seq<SendResult>)
    requires w.sent == [] && !w.broken
    modifies w
    ensures |results| == |ms| && OnWire(w.sent, w.broken, ms, results) && Refused(ms, results)
  {
    results := [];
    ghost var done: seq<Message> := [];
    NothingSent();
    for i := 0 to |ms|
      invariant done == ms[..i] && |results| == i
      invariant OnWire(w.sent, w.broken, done, results)
      invariant Refused(done, results)
    {
      ghost var sent, broken := w.sent, w.broken;
      var r := SendMessage(w, ms[i]);
      SendKeeps(sent, broken, done, results, ms[i], r, w.sent, w.broken);
      done, results := done + [ms[i]], results + [r];
    }
    assert done == ms;
  }

  lemma NothingSent()
    ensures OnWire([], false, [], [])
  {
  }

  method Receive(stream: Bytes) returns (got: seq<Message>)
    ensures got == DecodeAll(Frames(stream))
  {
    var reader := new Reader(stream);
    var packets := reader.ReadFrames();
    got := DecodeAll(packets);
  }

  lemma {:induction false} DecodeAllAppend(a: seq<Bytes>, b: seq<Bytes>)
    ensures DecodeAll(a + b) == DecodeAll(a) + DecodeAll(b)
  {
    if a == [] {
      assert a + b == b;
    } else {
      assert (a + b)[1..] == a[1..] + b;
      DecodeAllAppend(a[1..], b);
    }
  }

  /** A frame too short to be a packet is passed over: what comes before and after it is handled. */
  lemma ShortFramesArePassedOver(a: seq<Bytes>, short: Bytes, b: seq<Bytes>)
    requires |short| < HEADER_SIZE
    ensures DecodeAll(a + [short] + b) == DecodeAll(a) + DecodeAll(b)
  {
    assert a + [short] + b == a + ([short] + b);
    DecodeAllAppend(a, [short] + b);
    assert ([short] + b)[1..] == b;
  }

  /** A stream that begins with the frames of some messages delivers these first. */
  lemma WholeFramesArrive(ms: seq<Message>, stream: Bytes)
    requires (forall m <- ms :: |m.payload| <= MAX_PAYLOAD) && StreamOf(ms) <= stream
    ensures ms <= DecodeAll(Frames(stream))
  {
    var tail := stream[|StreamOf(ms)|..];
    assert stream == StreamOf(ms) + tail;
    EncodedIsSendable(ms, |ms|);
    assert EncodeAll(ms)[..|ms|] == EncodeAll(ms);
    FramesOfStream(EncodeAll(ms), tail);
    DecodeAllAppend(EncodeAll(ms), Frames(tail));
    DecodeAllEncodeAll(ms);
  }

  /** Round trip of a whole connection: encode, frame and send with any pattern of short writes
      and failures, then read with any chunking and decode.  Every message whose send succeeded
      arrives; what arrives is, in order and unaltered, an initial part of the messages that
      fit; and it is all of them if no write failed. */
  method RoundTrip(ms: seq<Message>) returns (results: seq<SendResult>, got: seq<Message>)
    ensures |results| == |ms|
    ensures Succeeded(ms, results) <= got <= Fitting(ms)
    ensures WriteError !in results && ShortWrite !in results ==> got == Fitting(ms)
  {
    var w := new Writer();
    results := SendAll(w, ms);
    got := Receive(w.sent);
    FittingFits(ms);
    var fit := Fitting(ms);
    assert forall m <- Succeeded(ms, results) :: m in fit;
    WholeFramesArrive(Succeeded(ms, results), w.sent);
    assert EncodeAll(fit)[..|fit|] == EncodeAll(fit);
    CutStreamDecodes(fit, |fit|, |w.sent|);
    assert w.sent == StreamOf(fit)[..|w.sent|];
    if WriteError !in results && ShortWrite !in results {
      AllDelivered(ms, results);
    }
  }

  lemma {:induction false} AllDelivered(ms: seq<Message>, results: seq<SendResult>)
    requires |results| == |ms|
    requires Refused(ms, results)
    requires WriteError !in results && ShortWrite !in results
    ensures Succeeded(ms, results) == Fitting(ms)
  {
    if ms != [] {
      var n := |ms| - 1;
      assert results[n] in results;
      AllDelivered(ms[..n], results[..n]);
    }
  }

  /** That a broken connection takes nothing more matters: after a frame that was cut, the next
      one would be misread. */
  lemma FrameAfterCutIsMisread()
    ensures Frames(Frame([7])[..1] + Frame([8])) == []
  {
    Widths();
    FromToBe(1, 2);
    var s := Frame([7])[..1] + Frame([8]);
    assert FromBe(s[..2]) == 0;
  }

  lemma {:induction false} EncodeAllPrefix(ms: seq<Message>, m: nat)
    requires m <= |ms|
    ensures EncodeAll(ms)[..m] == EncodeAll(ms[..m])
  {
  }
}
