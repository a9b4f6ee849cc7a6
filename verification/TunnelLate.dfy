/**
 * The bad side of `LateHelloMeetsGapIff` is reached: the Hello of an attempt the client gave up is served after the
 * session has gone on without it, and ends a session that is attached and has lost nothing.
 */
module TunnelLate {
  import opened Bytes
  import opened Framing
  import opened TunnelCodec
  import opened Replays
  import opened TunnelSystem
  import opened TunnelInvariant
  import opened TunnelTheorems
  import opened TunnelPumps
  import opened TunnelWindow
  import ListenerSession
  import ClientSession

  /** Connection 1 was dialled, has said Hello, and was given up before the listener read that. */
  ghost predicate Strays(s: System) {
    && 1 in s.conns && !s.conns[1].served
    && s.conns[1].up == [HelloFrame(Hello([], Some(Resume(THE_ID, 0))))]
    && !s.listener.dead
  }

  ghost predicate GivenUp(s: System) {
    && Strays(s) && s.client == ClientSession.EMPTY_FLOW && s.current == Some(0) && s.attempt.None?
    && s.listener == ListenerSession.Attach(ListenerSession.OPENED, 0, []) && s.job.None?
    && s.conns.Keys == {0, 1} && s.conns[0].closedByClient && s.sentByListener == []
  }

  lemma GivenUpRun(s: System, grace: nat)
    requires Welcomed(s)
    ensures GivenUp(Do(Do(Do(s, ClientClose, grace), ClientHello(1), grace), GiveUp, grace))
  {
    hide EncodeAll, Encode;
  }

  ghost predicate Redialled(s: System) {
    && Strays(s) && s.client == ClientSession.EMPTY_FLOW && s.current == Some(0) && s.attempt == Some(Attempt(2, []))
    && s.listener == ListenerSession.Attach(ListenerSession.OPENED, 0, []) && s.job.None?
    && s.conns.Keys == {0, 1, 2}
    && s.conns[2].snapshot == Some(Snapshot(ListenerSession.Offer([], 0), 0)) && s.conns[2].attachedAs.None?
    && s.conns[2].down == [ReplyFrame(Resumed(0))] && s.conns[2].downOpen && !s.conns[2].closedByClient
    && s.conns[2].up == [] && s.conns[2].upOpen && s.conns[2].pending == [] && s.sentByListener == []
  }

  lemma RedialledRun(s: System, grace: nat)
    requires GivenUp(s)
    ensures Redialled(Do(Do(s, ClientHello(2), grace), ServeHello(2), grace))
  {
    hide EncodeAll, Encode;
  }

  /** Connection 2 is attached, installed and idle. */
  ghost predicate Resumed2(s: System) {
    && Strays(s) && s.client == ClientSession.EMPTY_FLOW && s.current == Some(2) && s.attempt.None?
    && s.listener == ListenerSession.Attach(ListenerSession.Attach(ListenerSession.OPENED, 0, []), 2, [])
    && s.job.None? && 2 in s.conns
    && s.conns[2].attachedAs == Some(2) && s.conns[2].down == [] && s.conns[2].downOpen
    && !s.conns[2].closedByClient && s.conns[2].reader == Steady
    && s.conns[2].up == [] && s.conns[2].upOpen && s.conns[2].pending == [] && s.sentByListener == []
  }

  ghost predicate Answered2(s: System) {
    && Strays(s) && s.client == ClientSession.EMPTY_FLOW && s.current == Some(2) && s.attempt.None?
    && s.listener == ListenerSession.Attach(ListenerSession.Attach(ListenerSession.OPENED, 0, []), 2, [])
    && s.job.None? && 2 in s.conns
    && s.conns[2].attachedAs == Some(2) && s.conns[2].down == [] && s.conns[2].downOpen
    && !s.conns[2].closedByClient && s.conns[2].reader == Seeded(0)
    && s.conns[2].up == [] && s.conns[2].upOpen && s.conns[2].pending == [] && s.sentByListener == []
  }

  ghost predicate Attached2(s: System) {
    && Strays(s) && s.client == ClientSession.EMPTY_FLOW && s.current == Some(0) && s.attempt == Some(Attempt(2, []))
    && s.listener == ListenerSession.Attach(ListenerSession.Attach(ListenerSession.OPENED, 0, []), 2, [])
    && s.job.None? && 2 in s.conns && s.conns[2].attachedAs == Some(2)
    && s.conns[2].down == [ReplyFrame(Resumed(0))] && s.conns[2].downOpen && !s.conns[2].closedByClient
    && s.conns[2].up == [] && s.conns[2].upOpen && s.conns[2].pending == [] && s.sentByListener == []
  }

  lemma Attached2Run(s: System, grace: nat)
    requires Redialled(s)
    ensures Quiet(s, AttachConn(2)) && Attached2(Do(s, AttachConn(2), grace))
  {
    hide DataFrames;
  }

  lemma Answered2Run(s: System, grace: nat)
    requires Attached2(s)
    ensures Answered2(Do(s, ReadAnswer(0), grace))
  {
    OneFrame(0, MAX_WIRE_CHUNK);
    PayloadOfReply(Resumed(0));
    hide EncodeAll, Encode, DataFrames, Payload;
  }

  lemma Resumed2Run(s: System, grace: nat)
    requires Answered2(s)
    ensures Clean(s, HandOver) && Resumed2(Do(s, HandOver, grace))
  {
    hide EncodeAll, Encode;
  }

  /** Enough for the client to acknowledge it; the client has heard all of it. */
  ghost predicate HeardAll(s: System, big: bytes) {
    && Strays(s) && s.client == ClientSession.Feed(ClientSession.EMPTY_FLOW, big)
    && s.current == Some(2) && s.attempt.None?
    && s.listener.generation == 2 && s.listener.replay == Replay(|big|, 0, big, false) && 2 in s.conns
    && s.conns[2].attachedAs == Some(2) && s.conns[2].up == [] && s.conns[2].upOpen && s.conns[2].pending == []
  }

  lemma SshdWrites(s: System, big: bytes, grace: nat)
    requires Resumed2(s) && |big| == ACK_EVERY_BYTES
    ensures var t := Do(s, SshdRead(big), grace);
            && Writes(t, 2) && Strays(t) && t.listener.outq == DataFrames(big, CHUNK) && t.conns == s.conns
            && t.client == s.client && t.current == s.current && t.attempt == s.attempt
            && t.listener.generation == 2 && t.listener.replay == Replay(|big|, 0, big, false)
  {
    OneFrame(0, CHUNK);
    hide DataFrames;
    assert [] + big == big && [] + DataFrames(big, CHUNK) == DataFrames(big, CHUNK);
  }

  lemma HeardRun(s: System, big: bytes, grace: nat) returns (steps: seq<Step>)
    requires Resumed2(s) && |big| == ACK_EVERY_BYTES
    ensures Lawful(s, steps, grace) && HeardAll(After(s, steps, grace), big)
  {
    hide Do, DataFrames, Payload;
    SshdWrites(s, big, grace);
    var t := Do(s, SshdRead(big), grace);
    var flush := FlushOutq(t, 2, grace);
    var u := Delivered(t, 2);
    assert u.conns[2].down == [] + DataFrames(big, CHUNK) == DataFrames(big, CHUNK);
    SplittingIsDecodable(big, CHUNK);
    var hear := DrainDown(u, 2, grace);
    steps := [SshdRead(big)] + (flush + hear);
    AfterCons(s, SshdRead(big), flush + hear, grace);
    AfterAppend(t, flush, hear, grace);
    OrdinaryIsLawful(s, steps, grace);
  }

  /** The client's acknowledgement is about to be written. */
  ghost predicate AckReady(s: System, big: bytes) {
    && Strays(s) && s.attempt.None? && !s.client.replay.overflowed
    && s.listener.generation == 2 && s.listener.replay == Replay(|big|, 0, big, false) && 2 in s.conns
    && s.conns[2].attachedAs == Some(2) && s.conns[2].up == [] && s.conns[2].upOpen
    && s.conns[2].pending == [TunnelCodec.Ack(|big|)]
  }

  lemma AckReadyRun(s: System, big: bytes, grace: nat)
    requires HeardAll(s, big) && |big| == ACK_EVERY_BYTES
    ensures AckReady(Do(Do(s, RequestAck, grace), TakeAck, grace), big)
  {
  }

  /** And now lies unread behind nothing else. */
  ghost predicate AckWritten(s: System, big: bytes) {
    && Strays(s) && s.attempt.None? && !s.client.replay.overflowed
    && s.listener.generation == 2 && s.listener.replay == Replay(|big|, 0, big, false) && 2 in s.conns
    && s.conns[2].attachedAs == Some(2) && s.conns[2].up == [TunnelCodec.Ack(|big|)]
  }

  lemma AckWrittenRun(s: System, big: bytes, grace: nat)
    requires AckReady(s, big)
    ensures AckWritten(Do(s, ClientWrite(2), grace), big)
  {
  }

  lemma WholeAck(big: bytes)
    requires 0 < |big| < TWO_32
    ensures Replays.Ack(Replay(|big|, 0, big, false), |big|) == Replay(|big|, |big|, [], false)
    ensures TailFrom(Replay(|big|, |big|, [], false), 0).None?
  {
    assert AsUsize(|big|) == |big|;
    assert big[|big|..] == [];
  }

  lemma AckReadRun(s: System, big: bytes, grace: nat)
    requires AckWritten(s, big) && |big| == ACK_EVERY_BYTES
    ensures var t := Do(s, ListenerRead(2), grace);
            && Strays(t) && t.attempt.None? && Retained(t)
            && t.listener.replay == Replay(|big|, |big|, [], false)
  {
    WholeAck(big);
    hide Payload, Replays.Ack;
  }

  lemma StrayMeetsGap(t: System, big: bytes)
    requires Strays(t) && t.listener.replay == Replay(|big|, |big|, [], false) && |big| == ACK_EVERY_BYTES
    ensures MeetsGap(t, 1) && ClaimOf(t, 1) < t.listener.replay.acked
  {
    WholeAck(big);
    hide TailFrom;
  }

  lemma ToResumed2(grace: nat) returns (steps: seq<Step>)
    ensures Lawful(INITIAL, steps, grace) && Resumed2(After(INITIAL, steps, grace))
  {
    hide Do, Welcomed, GivenUp, Redialled, Attached2, Answered2, Resumed2, Torn;
    WelcomedRun(grace);
    var s1 := Do(Do(INITIAL, AttachConn(0), grace), ReadAnswer(0), grace);
    GivenUpRun(s1, grace);
    var s2 := Do(Do(Do(s1, ClientClose, grace), ClientHello(1), grace), GiveUp, grace);
    RedialledRun(s2, grace);
    var s3 := Do(Do(s2, ClientHello(2), grace), ServeHello(2), grace);
    Attached2Run(s3, grace);
    Answered2Run(Do(s3, AttachConn(2), grace), grace);
    var s4 := Do(Do(s3, AttachConn(2), grace), ReadAnswer(0), grace);
    Resumed2Run(s4, grace);
    FirstIsQuiet();
    Two(INITIAL, AttachConn(0), ReadAnswer(0), grace);
    Two(s1, ClientClose, ClientHello(1), grace);
    One(Do(Do(s1, ClientClose, grace), ClientHello(1), grace), GiveUp, grace);
    Two(s2, ClientHello(2), ServeHello(2), grace);
    Two(s3, AttachConn(2), ReadAnswer(0), grace);
    One(s4, HandOver, grace);
    steps := [AttachConn(0), ReadAnswer(0)];
    steps := Extend(INITIAL, steps, [ClientClose, ClientHello(1)], grace);
    steps := Extend(INITIAL, steps, [GiveUp], grace);
    steps := Extend(INITIAL, steps, [ClientHello(2), ServeHello(2)], grace);
    steps := Extend(INITIAL, steps, [AttachConn(2), ReadAnswer(0)], grace);
    steps := Extend(INITIAL, steps, [HandOver], grace);
  }

  lemma FirstIsQuiet()
    ensures Quiet(INITIAL, AttachConn(0))
  {
  }

  lemma One(s: System, x: Step, grace: nat)
    requires Quiet(s, x) && Clean(s, x)
    ensures Lawful(s, [x], grace) && After(s, [x], grace) == Do(s, x, grace)
  {
    hide Do, Quiet, Clean;
    AfterOne(s, x, grace);
    assert [x][1..] == [];
  }

  lemma Two(s: System, x: Step, y: Step, grace: nat)
    requires Quiet(s, x) && Clean(s, x) && Quiet(Do(s, x, grace), y) && Clean(Do(s, x, grace), y)
    ensures Lawful(s, [x, y], grace) && After(s, [x, y], grace) == Do(Do(s, x, grace), y, grace)
  {
    hide Do, Quiet, Clean;
    One(Do(s, x, grace), y, grace);
    assert [x, y][1..] == [y];
  }

  lemma Extend(s: System, a: seq<Step>, b: seq<Step>, grace: nat) returns (ab: seq<Step>)
    requires Lawful(s, a, grace) && Lawful(After(s, a, grace), b, grace)
    ensures ab == a + b && Lawful(s, ab, grace) && After(s, ab, grace) == After(After(s, a, grace), b, grace)
  {
    hide Do, Lawful;
    ab := a + b;
    AfterAppend(s, a, b, grace);
    LawfulAppend(s, a, b, grace);
  }

  /**
   * A quiet run without overflow and without a torn frame, after which the listener serves the Hello of connection
   * 1: the client is attached on another connection and has acknowledged `big`, the claim is older, and the session
   * meets a gap.
   */
  lemma LateHelloEndsSession(big: bytes, grace: nat) returns (steps: seq<Step>)
    requires |big| == ACK_EVERY_BYTES
    ensures var s := At(steps, |steps|, grace);
            && QuietRun(steps, |steps|, grace) && CleanRun(steps, |steps|, grace) && Retained(s)
            && MeetsGap(s, 1) && !IsAttempt(s, 1) && ClaimOf(s, 1) < s.listener.replay.acked
  {
    hide Do, Resumed2, AckReady, AckWritten, Lawful, Retained, Quiet, Clean, After;
    var first := ToResumed2(grace);
    var s := After(INITIAL, first, grace);
    var hear := HeardRun(s, big, grace);
    var t := After(s, hear, grace);
    AckReadyRun(t, big, grace);
    var u := Do(Do(t, RequestAck, grace), TakeAck, grace);
    AckWrittenRun(u, big, grace);
    AckReadRun(Do(u, ClientWrite(2), grace), big, grace);
    StrayMeetsGap(Do(Do(u, ClientWrite(2), grace), ListenerRead(2), grace), big);
    Acknowledge(t, grace);
    steps := Extend(INITIAL, first, hear, grace);
    steps := Extend(INITIAL, steps, [RequestAck, TakeAck], grace);
    steps := Extend(INITIAL, steps, [ClientWrite(2), ListenerRead(2)], grace);
    AtIsAfter(steps, |steps|, grace);
    assert steps[..|steps|] == steps;
    forall i | 0 <= i < |steps|
      ensures Quiet(At(steps, i, grace), steps[i]) && Clean(At(steps, i, grace), steps[i])
    {
      AtIsAfter(steps, i, grace);
      LawfulAt(INITIAL, steps, i, grace);
    }
  }

  lemma Acknowledge(t: System, grace: nat)
    ensures var u := Do(Do(t, RequestAck, grace), TakeAck, grace);
            && Lawful(t, [RequestAck, TakeAck], grace) && After(t, [RequestAck, TakeAck], grace) == u
            && Lawful(u, [ClientWrite(2), ListenerRead(2)], grace)
            && After(u, [ClientWrite(2), ListenerRead(2)], grace)
               == Do(Do(u, ClientWrite(2), grace), ListenerRead(2), grace)
  {
    hide Do;
    Two(t, RequestAck, TakeAck, grace);
    Two(Do(Do(t, RequestAck, grace), TakeAck, grace), ClientWrite(2), ListenerRead(2), grace);
  }
}
