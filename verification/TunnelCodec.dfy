/** The tunnel's frames and the incremental decoder (tunnel/src/lib.rs). */
module TunnelCodec {
  import opened Bytes
  import opened Postcard
  import opened Framing
  import Replays

  const FT_DATA: byte := 0
  const FT_ACK: byte := 1
  const FT_HELLO: byte := 2
  const FT_REPLY: byte := 3
  const FT_PING: byte := 4
  const FT_PONG: byte := 5

  /** An ACK at least once per this many octets received, on either side. */
  const ACK_EVERY_BYTES: nat := 128 * 1024

  const HEADER_LEN: nat := 5
  const MAX_FRAME: nat := 1024 * 1024

  /** DATA chunk sizes of the two writers: listener-core's `CHUNK`, wosh-client's `MAX_WIRE_CHUNK`. */
  const CHUNK: nat := 16 * 1024
  const MAX_WIRE_CHUNK: nat := 256 * 1024

  datatype Resume = Resume(sessionId: id16, received: nat)

  datatype Hello = Hello(pairing: bytes, resume: Option<Resume>)

  /** A refusal's reason is kept as its UTF-8 octets. */
  datatype Reply = New(sessionId: id16) | Resumed(received: nat) | Refused(reason: bytes)

  datatype Frame =
    | Data(payload: bytes)
    | Ack(received: nat)
    | HelloFrame(hello: Hello)
    | ReplyFrame(reply: Reply)
    | Ping(word: nat)
    | Pong(word: nat)

  // ---- encoding ----

  function EncodeHello(h: Hello): bytes {
    PutBytes(h.pairing) +
    match h.resume
    case None => [0]
    case Some(r) => [1] + r.sessionId + PutVarint(r.received)
  }

  function EncodeReply(r: Reply): bytes {
    match r
    case New(id) => [0] + id
    case Resumed(n) => [1] + PutVarint(n)
    case Refused(reason) => [2] + PutBytes(reason)
  }

  function FrameType(f: Frame): byte {
    match f
    case Data(_) => FT_DATA
    case Ack(_) => FT_ACK
    case HelloFrame(_) => FT_HELLO
    case ReplyFrame(_) => FT_REPLY
    case Ping(_) => FT_PING
    case Pong(_) => FT_PONG
  }

  function Body(f: Frame): bytes {
    match f
    case Data(p) => p
    case Ack(n) => LeBytes(n, 8)
    case HelloFrame(h) => EncodeHello(h)
    case ReplyFrame(r) => EncodeReply(r)
    case Ping(n) => LeBytes(n, 8)
    case Pong(n) => LeBytes(n, 8)
  }

  /** `put_frame`; four length bytes keep the low 32 bits of the length. */
  function Encode(f: Frame): (wire: bytes)
    ensures |wire| == HEADER_LEN + |Body(f)|
  {
    [FrameType(f)] + LeBytes(|Body(f)|, 4) + Body(f)
  }

  /** What the two ends can construct: u64 words, 16-byte ids, text that is UTF-8, no oversized body. */
  predicate WellFormed(f: Frame) {
    && |Body(f)| <= MAX_FRAME
    && match f
       case Data(_) => true
       case Ack(n) => n < TWO_64
       case Ping(n) => n < TWO_64
       case Pong(n) => n < TWO_64
       case HelloFrame(h) => h.resume.Some? ==> h.resume.value.received < TWO_64
       case ReplyFrame(New(_)) => true
       case ReplyFrame(Resumed(n)) => n < TWO_64
       case ReplyFrame(Refused(reason)) => ValidUtf8(reason)
  }

  // ---- decoding ----

  function ParseHello(b: bytes): Option<Hello> {
    var (pairing, b1) :- ReadBytes(b);
    var (resuming, b2) :- ReadTag(b1);
    if !resuming then Some(Hello(pairing, None))
    else
      var (id, b3) :- Take(b2, 16);
      var (received, _) :- ReadU64(b3);
      Some(Hello(pairing, Some(Resume(id, received))))
  }

  function ParseReply(b: bytes): Option<Reply> {
    var (tag, b1) :- ReadU32(b);
    if tag == 0 then
      var (id, _) :- Take(b1, 16);
      Some(New(id))
    else if tag == 1 then
      var (n, _) :- ReadU64(b1);
      Some(Resumed(n))
    else if tag == 2 then
      var (reason, _) :- ReadText(b1);
      Some(Refused(reason))
    else None
  }

  function ParseWord(b: bytes): Option<nat> {
    if |b| == 8 then Some(LeValue(b)) else None
  }

  function ParseFrame(ty: byte, payload: bytes): Option<Frame> {
    if ty == FT_DATA then Some(Data(payload))
    else if ty == FT_ACK then
      var n :- ParseWord(payload);
      Some(Ack(n))
    else if ty == FT_PING then
      var n :- ParseWord(payload);
      Some(Ping(n))
    else if ty == FT_PONG then
      var n :- ParseWord(payload);
      Some(Pong(n))
    else if ty == FT_HELLO then
      var h :- ParseHello(payload);
      Some(HelloFrame(h))
    else if ty == FT_REPLY then
      var r :- ParseReply(payload);
      Some(ReplyFrame(r))
    else None
  }

  /** One `next_frame`. A bad frame is drained before the error; an oversized header is not. */
  function NextFrame(buf: bytes): Next<Frame> {
    if |buf| < HEADER_LEN then Need
    else
      var len := LeValue(buf[1..5]);
      if len > MAX_FRAME then Bad(buf)
      else if |buf| < HEADER_LEN + len then Need
      else
        var rest := buf[HEADER_LEN + len..];
        match ParseFrame(buf[0], buf[HEADER_LEN..HEADER_LEN + len])
        case Some(f) => Got(f, rest)
        case None => Bad(rest)
  }

  // ---- one frame ----

  lemma HelloRoundTrip(h: Hello)
    requires |h.pairing| < TWO_32
    requires h.resume.Some? ==> h.resume.value.received < TWO_64
    ensures ParseHello(EncodeHello(h)) == Some(h)
  {
    match h.resume {
      case None =>
        BytesRoundTrip(h.pairing, [0]);
      case Some(r) =>
        var tail := PutVarint(r.received);
        BytesRoundTrip(h.pairing, [1] + r.sessionId + tail);
        assert ([1] + r.sessionId + tail)[1..] == r.sessionId + tail;
        TakeRoundTrip(r.sessionId, tail);
        assert tail + [] == tail;
        U64RoundTrip(r.received, []);
    }
  }

  lemma ReplyRoundTrip(r: Reply)
    requires WellFormed(ReplyFrame(r))
    ensures ParseReply(EncodeReply(r)) == Some(r)
  {
    match r {
      case New(id) =>
        assert EncodeReply(r)[1..] == id;
        assert id + [] == id;
        TakeRoundTrip(id, []);
      case Resumed(n) =>
        assert EncodeReply(r)[1..] == PutVarint(n) + [];
        U64RoundTrip(n, []);
      case Refused(reason) =>
        assert EncodeReply(r)[1..] == PutBytes(reason) + [];
        BytesRoundTrip(reason, []);
    }
  }

  lemma WordRoundTrip(n: nat)
    requires n < TWO_64
    ensures ParseWord(LeBytes(n, 8)) == Some(n)
  {
    WordSizes();
    LeRoundTrip(n, 8);
  }

  lemma FrameRoundTrip(f: Frame)
    requires WellFormed(f)
    ensures ParseFrame(FrameType(f), Body(f)) == Some(f)
  {
    hide ParseHello, ParseReply, EncodeReply, ParseWord, LeBytes, ValidUtf8;
    match f {
      case Data(_) =>
      case Ack(n) => WordRoundTrip(n);
      case Ping(n) => WordRoundTrip(n);
      case Pong(n) => WordRoundTrip(n);
      case HelloFrame(h) => HelloRoundTrip(h);
      case ReplyFrame(r) => ReplyRoundTrip(r);
    }
  }

  /** A buffer holding any prefix of `f`'s encoding and what follows it: wait, or take exactly `f`. */
  lemma NextOnPrefix(f: Frame, after: bytes, buf: bytes)
    requires WellFormed(f) && buf <= Encode(f) + after
    ensures if |buf| < |Encode(f)| then NextFrame(buf) == Need
            else NextFrame(buf) == Got(f, buf[|Encode(f)|..])
  {
    var wire, body := Encode(f), Body(f);
    assert wire[1..5] == LeBytes(|body|, 4);
    WordSizes();
    LeRoundTrip(|body|, 4);
    if |buf| >= HEADER_LEN {
      assert buf[1..5] == wire[1..5];
      assert buf[0] == wire[0] == FrameType(f);
    }
    if |buf| >= |wire| {
      assert buf[HEADER_LEN..HEADER_LEN + |body|] == body;
      FrameRoundTrip(f);
    }
  }

  /** Feeding the encodings of well-formed frames in any chunks, polling anywhere, is reassembly. */
  lemma DecoderSplits()
    ensures Splits(Encode, NextFrame, WellFormed)
  {
    forall f, after, buf | WellFormed(f)
      ensures SplitsAt(Encode, NextFrame, f, after, buf)
    {
      if buf <= Encode(f) + after {
        NextOnPrefix(f, after, buf);
      }
    }
  }

  /** The tunnel's decoder on any stream of frames, torn anywhere and chunked anyhow. */
  lemma DecoderYieldsPrefix(fs: seq<Frame>, events: seq<Event>)
    requires forall i :: 0 <= i < |fs| ==> WellFormed(fs[i])
    requires Fed(events) <= EncodeAll(Encode, fs)
    ensures var d := Decode(NextFrame, events);
            && !d.failed
            && d.items <= fs
            && (NextFrame(d.buf) == Need && |d.items| < |fs| ==>
                  |Fed(events)| < |EncodeAll(Encode, fs[..|d.items| + 1])|)
            && (NextFrame(d.buf) == Need && Fed(events) == EncodeAll(Encode, fs) ==> d.items == fs)
  {
    DecoderSplits();
    TornStreamYieldsPrefix(Encode, NextFrame, WellFormed, fs, events);
  }

  // ---- the octets are a contract between two builds ----

  /** A word is eight octets, a type octet above 5 is unknown, and both are refused once the frame is whole. */
  lemma BadFramesRefused(ty: byte, payload: bytes, rest: bytes)
    requires |payload| <= 1024 * 1024
    requires ty > 5 || ((ty == 1 || ty == 4 || ty == 5) && |payload| != 8)
    ensures NextFrame([ty] + LeBytes(|payload|, 4) + payload + rest) == Bad(rest)
  {
    var buf := [ty] + LeBytes(|payload|, 4) + payload + rest;
    WordSizes();
    LeRoundTrip(|payload|, 4);
    assert buf[1..5] == LeBytes(|payload|, 4);
    assert buf[5..5 + |payload|] == payload && buf[5 + |payload|..] == rest;
  }

  /** A header that announces more than a megabyte is refused at once, and stays. */
  lemma OversizedRefused(ty: byte, len: nat, rest: bytes)
    requires 1024 * 1024 < len < TWO_32
    ensures var buf := [ty] + LeBytes(len, 4) + rest; NextFrame(buf) == Bad(buf)
  {
    var buf := [ty] + LeBytes(len, 4) + rest;
    WordSizes();
    LeRoundTrip(len, 4);
    assert buf[1..5] == LeBytes(len, 4);
  }

  lemma LeWord(n: byte)
    ensures LeBytes(n, 4) == [n, 0, 0, 0]
  {
    DigitValues(256, 0, 0, 0, n);
    DigitsUnique(256, [0, 0, 0, n]);
    assert Reverse([0, 0, 0, n]) == [n, 0, 0, 0];
    hide ToDigits, FromDigits, Reverse;
  }

  lemma LeLongWord(n: byte)
    ensures LeBytes(n, 8) == [n, 0, 0, 0, 0, 0, 0, 0]
  {
    hide ToDigits, FromDigits, Reverse, Pow;
    var d := [0, 0, 0, 0, 0, 0, 0, n];
    DigitValues(256, 0, 0, 0, 0);
    DigitValues(256, 0, 0, 0, n);
    FromDigitsSplit(256, [0, 0, 0, 0], [0, 0, 0, n]);
    assert [0, 0, 0, 0] + [0, 0, 0, n] == d;
    DigitsUnique(256, d);
    assert Reverse(d) == [n, 0, 0, 0, 0, 0, 0, 0];
  }

  /** Type, length and body on the wire, on small values: data and the three words. */
  lemma GoldenFrames(a: byte, b: byte, n: byte)
    ensures Encode(Data([a, b])) == [0, 2, 0, 0, 0, a, b]
    ensures Encode(Ack(n)) == [1, 8, 0, 0, 0, n, 0, 0, 0, 0, 0, 0, 0]
    ensures Encode(Ping(n)) == [4, 8, 0, 0, 0, n, 0, 0, 0, 0, 0, 0, 0]
    ensures Encode(Pong(n)) == [5, 8, 0, 0, 0, n, 0, 0, 0, 0, 0, 0, 0]
  {
    hide LeBytes;
    LeLongWord(n);
    LeWord(2);
    LeWord(8);
  }

  lemma Enveloped(f: Frame, ty: byte, body: bytes, len: byte)
    requires FrameType(f) == ty && Body(f) == body && |body| == len
    ensures Encode(f) == [ty, len, 0, 0, 0] + body
  {
    hide LeBytes, Body, FrameType;
    LeWord(len);
  }

  /** The handshake on the wire: a Hello with and without a resume, and the three replies. */
  lemma GoldenHandshake(a: byte, b: byte, n: byte, id: id16)
    requires n < 128
    ensures Encode(HelloFrame(Hello([a, b], Some(Resume(id, n))))) == [2, 21, 0, 0, 0] + ([2, a, b] + ([1] + id + [n]))
    ensures Encode(HelloFrame(Hello([a, b], None))) == [2, 4, 0, 0, 0] + ([2, a, b] + [0])
    ensures Encode(ReplyFrame(New(id))) == [3, 17, 0, 0, 0] + ([0] + id)
    ensures Encode(ReplyFrame(Resumed(n))) == [3, 2, 0, 0, 0] + [1, n]
    ensures Encode(ReplyFrame(Refused([a, b]))) == [3, 4, 0, 0, 0] + [2, 2, a, b]
  {
    hide Encode;
    assert PutVarint(n) == [n] && PutBytes([a, b]) == [2, a, b];
    Enveloped(HelloFrame(Hello([a, b], Some(Resume(id, n)))), 2, [2, a, b] + ([1] + id + [n]), 21);
    Enveloped(HelloFrame(Hello([a, b], None)), 2, [2, a, b] + [0], 4);
    Enveloped(ReplyFrame(New(id)), 3, [0] + id, 17);
    assert [1] + [n] == [1, n] && [2] + [2, a, b] == [2, 2, a, b];
    Enveloped(ReplyFrame(Resumed(n)), 3, [1, n], 2);
    Enveloped(ReplyFrame(Refused([a, b])), 3, [2, 2, a, b], 4);
  }

  // ---- both writers split before they frame ----

  function DataFrames(b: bytes, n: nat): (fs: seq<Frame>)
    requires n > 0
    ensures forall i :: 0 <= i < |fs| ==> fs[i].Data?
  {
    var parts := Chunks(b, n);
    seq(|parts|, i requires 0 <= i < |parts| => Data(parts[i]))
  }

  /** The DATA octets a list of frames carries. */
  function Payload(fs: seq<Frame>): bytes {
    if fs == [] then []
    else (if fs[0].Data? then fs[0].payload else []) + Payload(fs[1..])
  }

  lemma {:induction false} PayloadAppend(a: seq<Frame>, b: seq<Frame>)
    ensures Payload(a + b) == Payload(a) + Payload(b)
  {
    if a == [] {
      assert a + b == b;
    } else {
      assert (a + b)[1..] == a[1..] + b;
      PayloadAppend(a[1..], b);
    }
  }

  lemma {:induction false} PayloadOfParts(parts: seq<bytes>, fs: seq<Frame>)
    requires |parts| == |fs|
    requires forall i :: 0 <= i < |fs| ==> fs[i] == Data(parts[i])
    ensures Payload(fs) == Concat(parts)
  {
    if fs == [] {
    } else {
      PayloadOfParts(parts[1..], fs[1..]);
    }
  }

  /** Splitting loses nothing, and every piece is a frame the peer's decoder accepts. */
  lemma SplittingIsDecodable(b: bytes, n: nat)
    requires 0 < n <= MAX_FRAME
    ensures var fs := DataFrames(b, n);
            && Payload(fs) == b
            && forall i :: 0 <= i < |fs| ==> WellFormed(fs[i]) && 0 < |fs[i].payload| <= n
  {
    PayloadOfParts(Chunks(b, n), DataFrames(b, n));
  }

  /**
   * A replay tail of any size up to the cap, split by either writer, comes out of the peer's decoder
   * in one piece however the transport chops it.
   */
  lemma ReplayTailIsDecodable(tail: bytes, n: nat, events: seq<Event>)
    requires |tail| <= Replays.REPLAY_CAP
    requires n == CHUNK || n == MAX_WIRE_CHUNK
    requires Fed(events) == EncodeAll(Encode, DataFrames(tail, n))
    requires NextFrame(Decode(NextFrame, events).buf) == Need
    ensures var d := Decode(NextFrame, events);
            !d.failed && Payload(d.items) == tail
  {
    SplittingIsDecodable(tail, n);
    DecoderYieldsPrefix(DataFrames(tail, n), events);
  }

  // ---- the stateful decoder ----

  datatype Polled = Pending | Frame(frame: Frame) | Corrupt

  class Decoder {
    var buf: bytes

    constructor ()
      ensures buf == []
    {
      buf := [];
    }

    method Feed(chunk: bytes)
      modifies this
      ensures buf == old(buf) + chunk
    {
      buf := buf + chunk;
    }

    method Take() returns (r: Polled)
      modifies this
      ensures match NextFrame(old(buf))
              case Need => r == Pending && buf == old(buf)
              case Got(f, rest) => r == Polled.Frame(f) && buf == rest
              case Bad(rest) => r == Corrupt && buf == rest
    {
      if |buf| < HEADER_LEN {
        return Pending;
      }
      var ty, len := buf[0], LeValue(buf[1..5]);
      if len > MAX_FRAME {
        return Corrupt;
      }
      if |buf| < HEADER_LEN + len {
        return Pending;
      }
      var payload := buf[HEADER_LEN..HEADER_LEN + len];
      buf := buf[HEADER_LEN + len..];
      match ParseFrame(ty, payload) {
        case Some(f) => r := Polled.Frame(f);
        case None => r := Corrupt;
      }
    }
  }
}
