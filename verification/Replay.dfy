/** One direction's replay bookkeeping (tunnel/src/lib.rs, `Replay`). */
module Replays {
  import opened Bytes

  const REPLAY_CAP: nat := 4 * 1024 * 1024

  /** The counters and the unacknowledged bytes, as a value. */
  datatype Replay = Replay(sentTotal: nat, acked: nat, buf: bytes, overflowed: bool)

  const FRESH: Replay := Replay(0, 0, [], false)

  /** `x as usize` on wasm32, where `usize` has 32 bits. */
  function AsUsize(x: nat): nat {
    x % TWO_32
  }

  function Sent(r: Replay, payload: bytes): Replay {
    var buf := r.buf + payload;
    if |buf| > REPLAY_CAP then
      Replay(r.sentTotal + |payload|, r.acked, buf[|buf| - REPLAY_CAP..], true)
    else
      Replay(r.sentTotal + |payload|, r.acked, buf, r.overflowed)
  }

  function Ack(r: Replay, received: nat): Replay {
    if received <= r.acked || received > r.sentTotal then r
    else
      var drop := Min(AsUsize(received - r.acked), |r.buf|);
      r.(buf := r.buf[drop..], acked := received)
  }

  function TailFrom(r: Replay, received: nat): Option<bytes> {
    if received > r.sentTotal then None
    else
      var missing := AsUsize(r.sentTotal - received);
      if missing > |r.buf| then None else Some(r.buf[|r.buf| - missing..])
  }

  /** `r` is what `Replay` holds after `stream` was handed to `sent`, with any acks in between. */
  ghost predicate Tracks(r: Replay, stream: bytes) {
    && r.sentTotal == |stream|
    && r.acked <= r.sentTotal
    && |r.buf| <= REPLAY_CAP
    && |r.buf| <= |stream|
    && r.buf == stream[|stream| - |r.buf|..]
    && (!r.overflowed ==> |r.buf| == r.sentTotal - r.acked)
  }

  lemma TracksLength(r: Replay, stream: bytes)
    requires Tracks(r, stream)
    ensures r.sentTotal == |stream|
  {
  }

  lemma SentTracks(r: Replay, stream: bytes, payload: bytes)
    requires Tracks(r, stream)
    ensures Tracks(Sent(r, payload), stream + payload)
  {
  }

  lemma AckTracks(r: Replay, stream: bytes, received: nat)
    requires Tracks(r, stream)
    ensures Tracks(Ack(r, received), stream)
    ensures Ack(r, received).sentTotal == r.sentTotal && Ack(r, received).overflowed == r.overflowed
    ensures Ack(r, received).acked == if r.acked < received <= r.sentTotal then received else r.acked
  {
  }

  /** The span a `tail_from` call converts to `usize` fits, so the conversion is exact. */
  ghost predicate SpanFits(r: Replay, received: nat) {
    received <= r.sentTotal ==> r.sentTotal - received < TWO_32
  }

  /**
   * Bytes handed out by `tail_from` are the exact missing suffix if and only if the span fits:
   * a wider span either is refused or is answered with too short a tail.
   */
  lemma TailExactIffSpanFits(r: Replay, stream: bytes, received: nat)
    requires Tracks(r, stream)
    ensures TailFrom(r, received).Some? ==>
              received <= |stream| &&
              (TailFrom(r, received).value == stream[received..] <==> SpanFits(r, received))
  {
  }

  /** Without overflow the tail is defined exactly on the unacknowledged range, at either width of `usize`. */
  lemma TailDefinedIff(r: Replay, stream: bytes, received: nat)
    requires Tracks(r, stream) && !r.overflowed && SpanFits(r, received)
    ensures TailFrom(r, received).Some? <==> r.acked <= received <= r.sentTotal
  {
  }

  /** Counters a peer can honestly hold always fit while nothing overflowed. */
  lemma HonestSpanFits(r: Replay, stream: bytes, received: nat)
    requires Tracks(r, stream) && !r.overflowed
    requires r.acked <= received <= r.sentTotal
    ensures SpanFits(r, received)
    ensures TailFrom(r, received) == Some(stream[received..])
  {
  }

  // ---- whole histories ----

  datatype Op = OpSent(payload: bytes) | OpAck(received: nat)

  function Run(ops: seq<Op>): Replay {
    if ops == [] then FRESH
    else
      var r := Run(ops[..|ops| - 1]);
      match ops[|ops| - 1]
      case OpSent(p) => Sent(r, p)
      case OpAck(n) => Ack(r, n)
  }

  /** Everything ever handed to `sent`. */
  function Stream(ops: seq<Op>): bytes {
    if ops == [] then []
    else
      var s := Stream(ops[..|ops| - 1]);
      match ops[|ops| - 1]
      case OpSent(p) => s + p
      case OpAck(_) => s
  }

  lemma {:induction false} RunTracks(ops: seq<Op>)
    ensures Tracks(Run(ops), Stream(ops))
  {
    if ops == [] {
    } else {
      var before := ops[..|ops| - 1];
      RunTracks(before);
      match ops[|ops| - 1]
      case OpSent(p) => SentTracks(Run(before), Stream(before), p);
      case OpAck(n) => AckTracks(Run(before), Stream(before), n);
    }
  }

  /** After any history at all, stale and nonsense acks included. */
  lemma ReplayAfterAnyHistory(ops: seq<Op>, received: nat)
    ensures var r, s := Run(ops), Stream(ops);
            && |r.buf| <= REPLAY_CAP && |r.buf| <= |s| && r.buf == s[|s| - |r.buf|..]
            && r.acked <= r.sentTotal == |s|
            && (SpanFits(r, received) && TailFrom(r, received).Some? ==>
                  received <= |s| && TailFrom(r, received).value == s[received..])
            && (SpanFits(r, received) ==>
                  (TailFrom(r, received).Some? <==> received <= |s| && |s| - received <= |r.buf|))
            && (!r.overflowed && SpanFits(r, received) ==>
                  (TailFrom(r, received).Some? <==> r.acked <= received <= |s|))
  {
    var r, s := Run(ops), Stream(ops);
    RunTracks(ops);
    hide Run, Stream, TailFrom, AsUsize;
    TailExactIffSpanFits(r, s, received);
    if SpanFits(r, received) {
      TailLength(r, received);
    }
    if !r.overflowed && SpanFits(r, received) {
      TailDefinedIff(r, s, received);
    }
  }

  /**
   * A history with a wide span: 2^32 + 1 octets are sent and none acknowledged, the last 4 MiB are retained, and a
   * peer that has none of them is sent one.
   */
  lemma WideSpanIsTruncated(stream: bytes)
    requires |stream| == TWO_32 + 1
    ensures var ops := [OpSent(stream)];
            && Stream(ops) == stream && Run(ops).overflowed && Run(ops).buf == stream[|stream| - REPLAY_CAP..]
            && TailFrom(Run(ops), 0) == Some(stream[TWO_32..])
  {
    var ops := [OpSent(stream)];
    assert ops[..0] == [];
    assert [] + stream == stream;
    assert Run(ops) == Sent(FRESH, stream);
    assert Stream(ops) == [] + stream;
    assert AsUsize(TWO_32 + 1) == 1;
  }

  /** The flag is set exactly if the buffer would once have grown past the cap. */
  lemma {:induction false} OverflowedIff(ops: seq<Op>)
    ensures Run(ops).overflowed <==> exists i :: 0 <= i < |ops| && Overflows(ops, i)
  {
    if ops == [] {
    } else {
      var n := |ops| - 1;
      OverflowedIff(ops[..n]);
      forall i | 0 <= i < n
        ensures Overflows(ops[..n], i) == Overflows(ops, i)
      {
        assert ops[..n][..i] == ops[..i];
      }
      assert Run(ops).overflowed <==> Run(ops[..n]).overflowed || Overflows(ops, n);
    }
  }

  ghost predicate Overflows(ops: seq<Op>, i: nat) {
    i < |ops| && ops[i].OpSent? && |Run(ops[..i]).buf| + |ops[i].payload| > 4 * 1024 * 1024
  }

  /**
   * An ack whose own tail was still held leaves it held exactly if nothing unacknowledged had been dropped before,
   * or nothing is missing at all: what an overflow dropped from the front is dropped a second time.
   */
  lemma AckKeepsTailIff(r: Replay, stream: bytes, received: nat)
    requires Tracks(r, stream) && r.acked < received && received - r.acked < TWO_32 && SpanFits(r, received)
    requires TailFrom(r, received).Some?
    ensures TailFrom(Ack(r, received), received).Some? <==>
            received == |stream| || |r.buf| >= |stream| - r.acked
    ensures TailFrom(Ack(r, received), received).Some? ==>
              TailFrom(Ack(r, received), received).value == stream[received..]
  {
    hide AsUsize;
    var r1 := Ack(r, received);
    Narrowed(received - r.acked);
    Narrowed(r.sentTotal - received);
    assert |r1.buf| == |r.buf| - Min(received - r.acked, |r.buf|);
    AckTracks(r, stream, received);
    hide Tracks, Ack, TailFrom;
    TailExactIffSpanFits(r1, stream, received);
    TailLength(r1, received);
    TailLength(r, received);
  }

  lemma Narrowed(x: nat)
    requires x < TWO_32
    ensures AsUsize(x) == x
  {
  }

  lemma TailLength(r: Replay, received: nat)
    requires SpanFits(r, received)
    ensures TailFrom(r, received).Some? <==> received <= r.sentTotal && r.sentTotal - received <= |r.buf|
  {
  }

  /** The same on a history: 5 MiB are sent, the peer acknowledges two, and the three it misses are gone. */
  lemma AckDropsUnacknowledged(stream: bytes)
    requires |stream| == 5 * 1024 * 1024
    ensures var two := 2 * 1024 * 1024;
            && TailFrom(Run([OpSent(stream)]), two) == Some(stream[two..])
            && Run([OpSent(stream), OpAck(two)]).acked == two
            && TailFrom(Run([OpSent(stream), OpAck(two)]), two) == None
  {
    var sent, two := [OpSent(stream)], 2 * 1024 * 1024;
    var ops := sent + [OpAck(two)];
    RunTracks(sent);
    assert sent[..0] == [] && [] + stream == stream;
    assert Run(sent) == Sent(FRESH, stream);
    assert Stream(sent) == stream;
    assert ops == [OpSent(stream), OpAck(two)] && ops[..1] == sent;
    TailExactIffSpanFits(Run(sent), stream, two);
    AckKeepsTailIff(Run(sent), stream, two);
  }

  /** The mutable record; `stream` is the ghost history its contracts speak of. */
  class ReplayBuffer {
    var sentTotal: nat
    var acked: nat
    var buf: bytes
    var overflowed: bool
    ghost var stream: bytes

    ghost function View(): Replay
      reads this
    {
      Replay(sentTotal, acked, buf, overflowed)
    }

    ghost predicate Valid()
      reads this
    {
      Tracks(View(), stream)
    }

    constructor ()
      ensures Valid() && View() == FRESH && stream == []
    {
      sentTotal, acked, buf, overflowed, stream := 0, 0, [], false, [];
    }

    method Record(payload: bytes)
      requires Valid()
      modifies this
      ensures Valid() && stream == old(stream) + payload
      ensures View() == Sent(old(View()), payload)
    {
      SentTracks(View(), stream, payload);
      sentTotal := sentTotal + |payload|;
      buf := buf + payload;
      if |buf| > REPLAY_CAP {
        buf := buf[|buf| - REPLAY_CAP..];
        overflowed := true;
      }
      stream := stream + payload;
    }

    method Acknowledge(received: nat)
      requires Valid()
      modifies this
      ensures Valid() && stream == old(stream)
      ensures View() == Ack(old(View()), received)
    {
      hide Tracks;
      AckTracks(View(), stream, received);
      if received <= acked || received > sentTotal {
        return;
      }
      var drop := (received - acked) % TWO_32;
      if drop > |buf| {
        drop := |buf|;
      }
      buf := buf[drop..];
      acked := received;
    }

    method Tail(received: nat) returns (tail: Option<bytes>)
      requires Valid()
      ensures tail == TailFrom(View(), received)
      ensures tail.Some? && SpanFits(View(), received) ==>
                received <= |stream| && tail.value == stream[received..]
    {
      TailExactIffSpanFits(View(), stream, received);
      if received > sentTotal {
        return None;
      }
      var missing := (sentTotal - received) % TWO_32;
      if missing > |buf| {
        return None;
      }
      return Some(buf[|buf| - missing..]);
    }
  }
}
