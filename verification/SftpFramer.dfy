/** Reassembly of SFTP packets (sftp/src/lib.rs, `Framer`), an instance of the general theory. */
module SftpFramer {
  import opened Bytes
  import opened Framing

  const MAX_PACKET_LEN: nat := 1024 * 1024

  predicate Sendable(body: bytes) {
    1 <= |body| <= MAX_PACKET_LEN
  }

  /** `frame`: the length of a body and then the body. */
  function Packet(body: bytes): bytes {
    BeBytes(|body|, 4) + body
  }

  /** One look at the buffer; nothing is drained on an error. */
  function NextPacket(buf: bytes): Next<bytes> {
    if |buf| < 4 then Need
    else
      var len := BeValue(buf[..4]);
      if len == 0 || len > MAX_PACKET_LEN then Bad(buf)
      else if |buf| < 4 + len then Need
      else Got(buf[4..4 + len], buf[4 + len..])
  }

  /** The framer after any mix of `feed` and `take_packet`; `items` is what the latter handed out. */
  datatype State = State(buf: bytes, items: seq<bytes>, poisoned: bool)

  function Step(s: State, e: Event): State {
    if s.poisoned then s
    else
      match e
      case Feed(chunk) => s.(buf := s.buf + chunk)
      case Poll =>
        match NextPacket(s.buf)
        case Need => s
        case Got(body, rest) => s.(buf := rest, items := s.items + [body])
        case Bad(_) => s.(poisoned := true)
  }

  function Run(events: seq<Event>): State {
    if events == [] then State([], [], false) else Step(Run(events[..|events| - 1]), events[|events| - 1])
  }

  lemma NextOnPrefix(body: bytes, after: bytes, buf: bytes)
    requires Sendable(body)
    ensures SplitsAt(Packet, NextPacket, body, after, buf)
  {
    var wire := Packet(body);
    WordSizes();
    BeRoundTrip(|body|, 4);
    assert wire[..4] == BeBytes(|body|, 4);
    if buf <= wire + after && |buf| >= 4 {
      assert buf[..4] == wire[..4];
      if |buf| >= |wire| {
        assert buf[4..|wire|] == body;
      }
    }
  }

  /** One look is exact: a packet iff a sendable one is in front, an error iff its length is zero or over a megabyte. */
  lemma NextPacketIff(buf: bytes, body: bytes, rest: bytes)
    ensures NextPacket(buf) == Got(body, rest) <==>
            1 <= |body| <= 1024 * 1024 && buf == BeBytes(|body|, 4) + body + rest
    ensures NextPacket(buf).Bad? <==>
            |buf| >= 4 && (BeValue(buf[..4]) == 0 || BeValue(buf[..4]) > 1024 * 1024)
    ensures |buf| < 4 ==> NextPacket(buf) == Need
  {
    WordSizes();
    if NextPacket(buf) == Got(body, rest) {
      FromDigitsBound(256, buf[..4]);
      DigitsUnique(256, buf[..4]);
      assert buf == buf[..4] + body + rest;
    }
    if 1 <= |body| <= 1024 * 1024 && buf == BeBytes(|body|, 4) + body + rest {
      BeRoundTrip(|body|, 4);
      assert buf[..4] == BeBytes(|body|, 4) && buf[4..4 + |body|] == body && buf[4 + |body|..] == rest;
    }
  }

  /** A bad length prefix stays at the front whatever is fed after it. */
  lemma BadStays(buf: bytes, chunk: bytes)
    requires NextPacket(buf).Bad?
    ensures NextPacket(buf + chunk).Bad?
  {
    assert (buf + chunk)[..4] == buf[..4];
  }

  /**
   * Poisoning only saves work: the framer hands out exactly what a decoder without it would, for its errors
   * never go away either.
   */
  lemma {:induction false} PoisonIsFinal(events: seq<Event>)
    ensures var s, d := Run(events), Decode(NextPacket, events);
            && s.items == d.items && s.poisoned == d.failed
            && (if s.poisoned then NextPacket(d.buf).Bad? else s.buf == d.buf)
  {
    if events == [] {
    } else {
      var before := events[..|events| - 1];
      PoisonIsFinal(before);
      match events[|events| - 1]
      case Feed(chunk) =>
        if Run(before).poisoned {
          BadStays(Decode(NextPacket, before).buf, chunk);
        }
      case Poll =>
    }
  }

  /** Once poisoned it never yields again, and every later call is an error. */
  lemma {:induction false} PoisonedForever(events: seq<Event>, n: nat)
    requires n <= |events| && Run(events[..n]).poisoned
    ensures Run(events) == Run(events[..n])
  {
    if n < |events| {
      assert events[..|events| - 1][..n] == events[..n];
      PoisonedForever(events[..|events| - 1], n);
    } else {
      assert events[..n] == events;
    }
  }

  /** Any list of sendable bodies survives any chunking, any interleaving of calls, and a stream that ends early. */
  lemma PacketsSurviveChunking(bodies: seq<bytes>, events: seq<Event>)
    requires forall i :: 0 <= i < |bodies| ==> 1 <= |bodies[i]| <= 1024 * 1024
    requires Fed(events) <= EncodeAll(Packet, bodies)
    ensures var s := Run(events);
            && !s.poisoned && s.items <= bodies
            && (NextPacket(s.buf) == Need && Fed(events) == EncodeAll(Packet, bodies) ==> s.items == bodies)
  {
    forall body, after, buf | Sendable(body)
      ensures SplitsAt(Packet, NextPacket, body, after, buf)
    {
      NextOnPrefix(body, after, buf);
    }
    assert Splits(Packet, NextPacket, Sendable);
    TornStreamYieldsPrefix(Packet, NextPacket, Sendable, bodies, events);
    PoisonIsFinal(events);
  }

  datatype Taken = Nothing | Body(body: bytes) | AlreadyPoisoned | ZeroLength | TooLarge(len: nat)

  class Framer {
    var buf: bytes
    var poisoned: bool

    constructor ()
      ensures buf == [] && !poisoned
    {
      buf, poisoned := [], false;
    }

    method Feed(chunk: bytes)
      modifies `buf
      ensures State(buf, [], poisoned) == Step(State(old(buf), [], poisoned), Event.Feed(chunk))
    {
      if !poisoned {
        buf := buf + chunk;
      }
    }

    method TakePacket() returns (r: Taken)
      modifies this
      ensures State(buf, if r.Body? then [r.body] else [], poisoned) == Step(State(old(buf), [], old(poisoned)), Poll)
      ensures r.AlreadyPoisoned? <==> old(poisoned)
      ensures poisoned <==> r.AlreadyPoisoned? || r.ZeroLength? || r.TooLarge?
      ensures r.ZeroLength? ==> |old(buf)| >= 4 && BeValue(old(buf)[..4]) == 0
      ensures r.TooLarge? ==> |old(buf)| >= 4 && r.len == BeValue(old(buf)[..4]) > MAX_PACKET_LEN
    {
      if poisoned {
        return AlreadyPoisoned;
      }
      if |buf| < 4 {
        return Nothing;
      }
      var len := BeValue(buf[..4]);
      if len == 0 {
        poisoned := true;
        return ZeroLength;
      }
      if len > MAX_PACKET_LEN {
        poisoned := true;
        return TooLarge(len);
      }
      var need := 4 + len;
      if |buf| < need {
        return Nothing;
      }
      r := Body(buf[4..need]);
      buf := buf[need..];
      assert [] + [r.body] == [r.body];
    }
  }
}
