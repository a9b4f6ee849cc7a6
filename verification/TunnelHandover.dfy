/**
 * Why the decoder hypothesis of the delivery theorem is needed: the client's reader starts with a fresh decoder
 * (wosh-client/src/lib.rs), and a fresh decoder inside a frame does not find its way back.
 */
module TunnelHandover {
  import opened Bytes
  import opened Postcard
  import opened Framing
  import opened TunnelCodec
  import opened Replays
  import opened TunnelSystem
  import opened TunnelTheorems
  import opened TunnelPumps
  import ListenerSession
  import ClientSession

  // ---- a decoder never takes less than a frame encodes to ----

  lemma {:induction false} VarintTakesItsSize(b: bytes, left: nat, maxLast: nat)
    ensures ReadVarint(b, left, maxLast).Some? ==>
              var (n, rest) := ReadVarint(b, left, maxLast).value;
              |PutVarint(n)| + |rest| <= |b|
    decreases left
  {
    if left > 0 && b != [] && b[0] >= 128 {
      VarintTakesItsSize(b[1..], left - 1, maxLast);
      var r := ReadVarint(b[1..], left - 1, maxLast);
      if r.Some? {
        var high := r.value.0;
        assert (b[0] - 128 + 128 * high) / 128 == high;
      }
    }
  }

  lemma BytesTakeTheirSize(b: bytes)
    ensures ReadBytes(b).Some? ==> var (s, rest) := ReadBytes(b).value; |PutBytes(s)| + |rest| <= |b|
  {
    VarintTakesItsSize(b, 5, 15);
  }

  lemma HelloTakesItsSize(b: bytes)
    ensures ParseHello(b).Some? ==> |EncodeHello(ParseHello(b).value)| <= |b|
  {
    hide ReadVarint, PutVarint, ReadBytes, PutBytes;
    BytesTakeTheirSize(b);
    if ParseHello(b).Some? {
      var b2 := ReadTag(ReadBytes(b).value.1).value.1;
      if Take(b2, 16).Some? {
        VarintTakesItsSize(Take(b2, 16).value.1, 10, 1);
      }
    }
  }

  lemma ReplyTakesItsSize(b: bytes)
    ensures ParseReply(b).Some? ==> |EncodeReply(ParseReply(b).value)| <= |b|
  {
    hide ReadVarint, PutVarint, ReadBytes, PutBytes;
    VarintTakesItsSize(b, 5, 15);
    if ReadU32(b).Some? {
      VarintTakesItsSize(ReadU32(b).value.1, 10, 1);
      BytesTakeTheirSize(ReadU32(b).value.1);
      assert |PutVarint(ReadU32(b).value.0)| >= 1;
    }
  }

  lemma NextTakesItsSize(buf: bytes)
    ensures NextFrame(buf).Got? ==> |Encode(NextFrame(buf).item)| + |NextFrame(buf).rest| <= |buf|
  {
    hide ParseHello, ParseReply, EncodeHello, EncodeReply;
    if NextFrame(buf).Got? {
      var payload := buf[HEADER_LEN..HEADER_LEN + LeValue(buf[1..5])];
      HelloTakesItsSize(payload);
      ReplyTakesItsSize(payload);
    }
  }

  lemma {:induction false} DecodingTakesItsSize(events: seq<Event>)
    ensures var d := Decode(NextFrame, events);
            |EncodeAll(Encode, d.items)| + |d.buf| <= |Fed(events)|
  {
    hide NextFrame, Encode;
    if events == [] {
    } else {
      var before := events[..|events| - 1];
      DecodingTakesItsSize(before);
      var d := Decode(NextFrame, before);
      NextTakesItsSize(d.buf);
      BadShrinks(d.buf);
      if NextFrame(d.buf).Got? {
        var f := NextFrame(d.buf).item;
        assert (d.items + [f])[..|d.items|] == d.items;
      }
    }
  }

  lemma BadShrinks(buf: bytes)
    ensures NextFrame(buf).Bad? ==> |NextFrame(buf).rest| <= |buf|
  {
  }

  /** `cut` lies in frame `k`, or right before it. */
  ghost predicate CutsIn(fs: seq<Frame>, k: nat, cut: nat) {
    && k <= |fs| && |EncodeAll(Encode, fs[..k])| <= cut <= |EncodeAll(Encode, fs)|
    && (k < |fs| ==> cut < |EncodeAll(Encode, fs[..k + 1])|)
  }

  /**
   * A fresh decoder that is fed a stream of frames from some octet on yields the frames that are not wholly behind
   * it if and only if that octet is the first of a frame.
   */
  lemma FreshDecoderIff(fs: seq<Frame>, k: nat, cut: nat, events: seq<Event>)
    requires forall i :: 0 <= i < |fs| ==> WellFormed(fs[i])
    requires CutsIn(fs, k, cut) && Fed(events) == EncodeAll(Encode, fs)[cut..]
    requires NextFrame(Decode(NextFrame, events).buf) == Need
    ensures var d := Decode(NextFrame, events);
            (!d.failed && d.items == fs[k..]) <==> cut == |EncodeAll(Encode, fs[..k])|
  {
    hide NextFrame, Encode, WellFormed, Decode, Fed, EncodeAll;
    var past, left := EncodeAll(Encode, fs[..k]), EncodeAll(Encode, fs[k..]);
    assert fs == fs[..k] + fs[k..];
    EncodeAllAppend(Encode, fs[..k], fs[k..]);
    DecodingTakesItsSize(events);
    if cut == |past| {
      assert Fed(events) == left;
      DecoderYieldsPrefix(fs[k..], events);
    }
  }

  // ---- the client's hand-over ----

  /** A read that brings any of a full-sized frame along with the reply never brings all of it. */
  lemma FullFrameIsTorn(c: Conn)
    requires c.reader.Seeded? && 0 < c.reader.held < READ_CHUNK
    requires c.down != [] && c.down[0].Data? && |c.down[0].payload| == CHUNK
    ensures HoldsPart(c) && !HoldsFrame(c)
  {
  }

  /** Six octets that read as a DATA frame of one octet, without their own header. */
  const SIX: bytes := [0, 1, 0, 0, 0, 9]

  lemma SixIsOneFrame()
    ensures DataFrames(SIX, CHUNK) == [Data(SIX)] && DataFrames([], CHUNK) == [] && DataFrames([], MAX_WIRE_CHUNK) == []
    ensures Payload([]) == [] && Payload([ReplyFrame(New(THE_ID))]) == []
  {
  }

  lemma SixOnTheWire()
    ensures EncodeAll(Encode, [Data(SIX)]) == Encode(Data(SIX)) && |Encode(Data(SIX))| == 11
    ensures Encode(Data(SIX))[5..] == SIX
  {
    assert EncodeAll(Encode, [Data(SIX)]) == EncodeAll(Encode, []) + Encode(Data(SIX));
  }

  lemma SixSpellsOneOctet()
    ensures NextFrame(SIX) == Got(Data([9]), [])
  {
    var len: bytes := [1, 0, 0, 0];
    assert SIX[1..5] == len;
    assert Reverse(len) == [0, 0, 0, 1];
    assert FromDigits(256, [0]) == 0;
    assert FromDigits(256, [0, 0]) == 0 by {
      assert [0, 0][..1] == [0];
    }
    assert FromDigits(256, [0, 0, 0]) == 0 by {
      assert [0, 0, 0][..2] == [0, 0];
    }
    assert FromDigits(256, [0, 0, 0, 1]) == 1 by {
      assert [0, 0, 0, 1][..3] == [0, 0, 0];
    }
    assert SIX[5..6] == [9] && SIX[6..] == [];
  }

  /** The listener is attached and sshd's six octets are on the wire behind the reply. */
  ghost predicate Answering(s: System) {
    && s.client == ClientSession.EMPTY_FLOW && s.current.None? && s.attempt == Some(Attempt(0, []))
    && s.conns.Keys == {0}
    && s.conns[0].down == [ReplyFrame(New(THE_ID)), Data(SIX)] && !s.conns[0].closedByClient
    && s.listener.replay == Replay(6, 0, SIX, false) && s.sentByListener == SIX
  }

  /** Attached, with nothing sent yet. */
  ghost predicate Attached(s: System) {
    && s.client == ClientSession.EMPTY_FLOW && s.current.None? && s.attempt == Some(Attempt(0, []))
    && s.listener == ListenerSession.Attach(ListenerSession.OPENED, 0, []) && s.job.None? && s.conns.Keys == {0}
    && s.conns[0].down == [ReplyFrame(New(THE_ID))] && s.conns[0].downOpen && !s.conns[0].closedByClient
    && s.sentByListener == []
  }

  lemma AttachedRun(grace: nat)
    ensures Attached(Do(INITIAL, AttachConn(0), grace)) && Quiet(INITIAL, AttachConn(0))
  {
    hide DataFrames;
  }

  ghost predicate Queued6(s: System) {
    && s.client == ClientSession.EMPTY_FLOW && s.current.None? && s.attempt == Some(Attempt(0, []))
    && s.conns.Keys == {0} && s.job.None? && s.listener.attached && s.listener.send == Some(0)
    && s.conns[0].down == [ReplyFrame(New(THE_ID))] && s.conns[0].downOpen && !s.conns[0].closedByClient
    && s.listener.outq == [Data(SIX)] && s.listener.replay == Replay(6, 0, SIX, false) && s.sentByListener == SIX
  }

  lemma QueuedRun(s: System, grace: nat)
    requires Attached(s)
    ensures Queued6(Do(s, SshdRead(SIX), grace))
  {
    SixIsOneFrame();
    hide DataFrames;
    assert [] + SIX == SIX && [] + [Data(SIX)] == [Data(SIX)];
  }

  lemma AnsweringRun(s: System, grace: nat)
    requires Queued6(s)
    ensures Answering(Do(Do(s, TakeJob, grace), JobWritten(true), grace))
  {
  }

  /** The read that ended with the reply brought five of the eleven octets of the frame behind it. */
  ghost predicate Holding(s: System) {
    && s.client == ClientSession.EMPTY_FLOW && s.current == Some(0)
    && s.conns.Keys == {0} && s.conns[0].down == [Data(SIX)] && s.conns[0].reader == Seeded(5)
    && !s.conns[0].closedByClient
    && s.listener.replay == Replay(6, 0, SIX, false) && s.sentByListener == SIX
  }

  lemma HoldingRun(s: System, grace: nat)
    requires Answering(s)
    ensures Holding(Do(s, ReadAnswer(5), grace))
  {
    SixIsOneFrame();
    SixOnTheWire();
    assert s.conns[0].down[1..] == [Data(SIX)];
    hide DataFrames, Payload, Encode, EncodeAll;
    assert ClientSession.EMPTY_FLOW.fed + [] == [];
  }

  lemma TornRun(s: System, grace: nat)
    requires Holding(s)
    ensures Torn(s)
    ensures var t := Do(Do(s, HandOver, grace), ClientRead, grace);
            Retained(t) && t.client.fed == [9] && t.client.received == 1 && t.sentByListener == SIX
  {
    SixOnTheWire();
    SixSpellsOneOctet();
    hide Encode, EncodeAll, NextFrame, Payload;
  }

  /**
   * A quiet run without overflow in which the reply and the first five octets behind it arrive in one read: the
   * core is fed one octet that sshd never wrote as such, and the counter says 1 where 6 were sent.
   */
  lemma TornFrameGarbles(grace: nat) returns (steps: seq<Step>)
    ensures var s := At(steps, |steps|, grace);
            && QuietRun(steps, |steps|, grace) && Retained(s)
            && s.sentByListener == SIX && s.client.fed == [9] && s.client.received == 1
  {
    hide Do, Attached, Queued6, Answering, Holding, Torn, Retained;
    steps := [AttachConn(0), SshdRead(SIX), TakeJob, JobWritten(true), ReadAnswer(5), HandOver, ClientRead];
    AttachedRun(grace);
    assert At(steps, 1, grace) == Do(INITIAL, AttachConn(0), grace);
    assert At(steps, 2, grace) == Do(At(steps, 1, grace), SshdRead(SIX), grace);
    assert At(steps, 3, grace) == Do(At(steps, 2, grace), TakeJob, grace);
    QueuedRun(At(steps, 1, grace), grace);
    AnsweringRun(At(steps, 2, grace), grace);
    assert At(steps, 4, grace) == Do(At(steps, 3, grace), JobWritten(true), grace);
    HoldingRun(At(steps, 4, grace), grace);
    assert At(steps, 5, grace) == Do(At(steps, 4, grace), ReadAnswer(5), grace);
    TornRun(At(steps, 5, grace), grace);
    assert At(steps, 6, grace) == Do(At(steps, 5, grace), HandOver, grace);
  }
}
