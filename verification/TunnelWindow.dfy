/**
 * Why the snapshot hypothesis of the delivery theorem is needed: two short runs in which a listener task acts
 * between `resume_session`'s snapshot and its attach, one for each direction.
 */
module TunnelWindow {
  import opened Bytes
  import opened Framing
  import opened TunnelCodec
  import opened Replays
  import ListenerSession
  import opened TunnelSystem
  import opened TunnelTheorems
  import ClientSession

  lemma OneFrame(x: byte, n: nat)
    requires n > 0
    ensures DataFrames([x], n) == [Data([x])] && DataFrames([], n) == []
    ensures Payload([Data([x])]) == [x] && Payload([]) == []
  {
  }

  lemma NextTwo(steps: seq<Step>, n: nat, grace: nat)
    requires n + 2 <= |steps|
    ensures At(steps, n + 2, grace) == Do(Do(At(steps, n, grace), steps[n], grace), steps[n + 1], grace)
  {
  }

  lemma NextThree(steps: seq<Step>, n: nat, grace: nat)
    requires n + 3 <= |steps|
    ensures At(steps, n + 3, grace)
            == Do(Do(Do(At(steps, n, grace), steps[n], grace), steps[n + 1], grace), steps[n + 2], grace)
  {
    hide Do;
    NextTwo(steps, n, grace);
  }

  /** The session of connection 0 is up; connection 0 has carried nothing. */
  ghost predicate Welcomed(s: System) {
    && s.client == ClientSession.EMPTY_FLOW && s.current == Some(0) && s.attempt.None?
    && s.listener == ListenerSession.Attach(ListenerSession.OPENED, 0, []) && s.job.None?
    && s.conns.Keys == {0}
    && s.conns[0].up == [] && s.conns[0].upOpen && s.conns[0].pending == [] && s.conns[0].down == []
    && s.conns[0].attachedAs == Some(1) && s.conns[0].snapshot.None?
    && s.produced == s.sentByClient == s.sentByListener == s.pushed == s.toSshd == []
  }

  lemma WelcomedRun(grace: nat)
    ensures Welcomed(Do(Do(INITIAL, AttachConn(0), grace), ReadAnswer(0), grace))
  {
    OneFrame(0, CHUNK);
    OneFrame(0, MAX_WIRE_CHUNK);
  }

  // ---- listener to client: sshd's output lands in the window ----

  /** The client redialled on connection 1 and was answered; the attach is still to come. */
  ghost predicate Snapshotted(s: System) {
    && s.client == ClientSession.EMPTY_FLOW && s.current == Some(0) && s.attempt == Some(Attempt(1, []))
    && s.listener == ListenerSession.Attach(ListenerSession.OPENED, 0, []) && s.job.None?
    && s.conns.Keys == {0, 1}
    && s.conns[1].up == [] && s.conns[1].pending == [] && s.conns[1].down == [ReplyFrame(Resumed(0))]
    && s.conns[1].downOpen && s.conns[1].upOpen && !s.conns[1].closedByClient
    && s.conns[1].snapshot == Some(Snapshot(ListenerSession.Offer([], 0), 0))
    && s.sentByListener == []
  }

  lemma RedialRun(s: System, grace: nat)
    requires Welcomed(s)
    ensures Snapshotted(Do(Do(Do(s, ClientClose, grace), ClientHello(1), grace),
                                        ServeHello(1), grace))
  {
  }

  /** sshd wrote one byte before the attach and one after it. */
  ghost predicate Overtaken(s: System) {
    && s.client == ClientSession.EMPTY_FLOW && s.current == Some(0) && s.attempt == Some(Attempt(1, []))
    && s.conns.Keys == {0, 1}
    && s.conns[1].down == [ReplyFrame(Resumed(0))] && s.conns[1].downOpen && !s.conns[1].closedByClient
    && s.listener.attached && s.listener.send == Some(1) && s.listener.outq == [Data([8])]
    && s.listener.replay == Replay(2, 0, [7, 8], false) && s.job.None?
    && s.sentByListener == [7, 8]
  }

  lemma OvertakenRun(s: System, grace: nat)
    requires Snapshotted(s)
    ensures Overtaken(Do(Do(Do(s, SshdRead([7]), grace), AttachConn(1), grace),
                                      SshdRead([8]), grace))
  {
    OneFrame(7, CHUNK);
    OneFrame(8, CHUNK);
  }

  /** The second byte is on the wire and the first never will be. */
  ghost predicate Skipped(s: System) {
    && s.client == ClientSession.EMPTY_FLOW && s.current == Some(0) && s.attempt == Some(Attempt(1, []))
    && s.conns.Keys == {0, 1}
    && s.conns[1].down == [ReplyFrame(Resumed(0)), Data([8])] && !s.conns[1].closedByClient
    && s.listener.replay == Replay(2, 0, [7, 8], false)
    && s.sentByListener == [7, 8]
  }

  lemma SkippedRun(s: System, grace: nat)
    requires Overtaken(s)
    ensures Skipped(Do(Do(s, TakeJob, grace), JobWritten(true), grace))
  {
  }

  /** The client took the answer and nothing with it. */
  ghost predicate Seeded8(s: System) {
    && s.client == ClientSession.EMPTY_FLOW && s.current == Some(1) && s.conns.Keys == {0, 1}
    && s.conns[1].down == [Data([8])] && s.conns[1].reader == Seeded(0) && !s.conns[1].closedByClient
    && s.listener.replay == Replay(2, 0, [7, 8], false)
    && s.sentByListener == [7, 8]
  }

  lemma SeededRun(s: System, grace: nat)
    requires Skipped(s)
    ensures Seeded8(Do(s, ReadAnswer(0), grace))
  {
    hide Encode, EncodeAll;
    OneFrame(8, MAX_WIRE_CHUNK);
    PayloadOfReply(Resumed(0));
  }

  lemma GapRun(s: System, grace: nat)
    requires Seeded8(s)
    ensures Clean(s, HandOver)
    ensures var t := Do(Do(s, HandOver, grace), ClientRead, grace);
            t.client.fed == [8] && t.sentByListener == [7, 8] && Retained(t)
  {
    hide EncodeAll, NextFrame, Body;
    OneFrame(8, CHUNK);
  }

  lemma PayloadOfReply(r: Reply)
    ensures Payload([ReplyFrame(r)]) == []
  {
  }

  /**
   * Two octets are recorded, neither replay overflows, and the core is fed the second without the first: no
   * counter shows the loss.
   */
  lemma WindowLosesOutput(grace: nat) returns (steps: seq<Step>)
    ensures var s := At(steps, |steps|, grace);
            CleanRun(steps, |steps|, grace) && Retained(s) && s.sentByListener == [7, 8] && s.client.fed == [8]
  {
    hide Do, Welcomed, Snapshotted, Overtaken, Skipped, Seeded8, Torn, Retained;
    steps := [AttachConn(0), ReadAnswer(0), ClientClose, ClientHello(1), ServeHello(1),
              SshdRead([7]), AttachConn(1), SshdRead([8]), TakeJob, JobWritten(true), ReadAnswer(0), HandOver,
              ClientRead];
    WelcomedRun(grace);
    NextTwo(steps, 0, grace);
    NextThree(steps, 2, grace);
    RedialRun(At(steps, 2, grace), grace);
    NextThree(steps, 5, grace);
    OvertakenRun(At(steps, 5, grace), grace);
    NextTwo(steps, 8, grace);
    SkippedRun(At(steps, 8, grace), grace);
    SeededRun(At(steps, 10, grace), grace);
    NextTwo(steps, 11, grace);
    GapRun(At(steps, 11, grace), grace);
  }

  // ---- client to listener: the old reader acts in the window ----

  const SENT_ONE: Flow := ClientSession.EMPTY_FLOW.(replay := Replay(1, 0, [5], false))

  /** One octet is on connection 0 and not read yet. */
  ghost predicate InFlight(s: System) {
    && s.client == SENT_ONE && s.current == Some(0) && s.attempt.None?
    && s.listener == ListenerSession.Attach(ListenerSession.OPENED, 0, [])
    && s.conns.Keys == {0}
    && s.conns[0].up == [Data([5])] && s.conns[0].attachedAs == Some(1)
    && s.sentByClient == [5] && s.pushed == []
  }

  lemma InFlightRun(s: System, grace: nat)
    requires Welcomed(s)
    ensures InFlight(Do(Do(Do(s, Output([5]), grace), TakeOutbox, grace),
                                     ClientWrite(0), grace))
  {
  }

  ghost predicate Dated(s: System) {
    && s.client == SENT_ONE && s.current == Some(0) && s.attempt == Some(Attempt(1, []))
    && s.listener == ListenerSession.Attach(ListenerSession.OPENED, 0, [])
    && s.conns.Keys == {0, 1}
    && s.conns[0].up == [Data([5])] && s.conns[0].attachedAs == Some(1)
    && s.conns[1].up == [] && s.conns[1].upOpen && s.conns[1].pending == []
    && s.conns[1].down == [ReplyFrame(Resumed(0))]
    && s.conns[1].snapshot == Some(Snapshot(ListenerSession.Offer([], 0), 0))
    && s.sentByClient == [5] && s.pushed == []
  }

  lemma DatedRun(s: System, grace: nat)
    requires InFlight(s)
    ensures Dated(Do(Do(Do(s, ClientClose, grace), ClientHello(1), grace),
                                  ServeHello(1), grace))
  {
  }

  /** The old reader delivered the octet after the answer promised the client that nothing had arrived. */
  ghost predicate Reread(s: System) {
    && s.client == SENT_ONE && s.current == Some(0) && s.attempt == Some(Attempt(1, [])) && s.conns.Keys == {0, 1}
    && s.listener.generation == 2 && !s.listener.replay.overflowed
    && s.conns[1].attachedAs == Some(2) && s.conns[1].up == [] && s.conns[1].upOpen
    && s.conns[1].down == [ReplyFrame(Resumed(0))]
    && s.sentByClient == [5] && s.pushed == [5]
  }

  lemma RereadRun(s: System, grace: nat)
    requires Dated(s)
    ensures Reread(Do(Do(s, ListenerRead(0), grace), AttachConn(1), grace))
  {
    OneFrame(5, CHUNK);
  }

  ghost predicate Resent(s: System) {
    && !s.client.replay.overflowed && s.conns.Keys == {0, 1}
    && s.listener.generation == 2 && !s.listener.replay.overflowed
    && s.conns[1].attachedAs == Some(2) && s.conns[1].up == [] && s.conns[1].upOpen
    && s.conns[1].pending == [Data([5])]
    && s.sentByClient == [5] && s.pushed == [5]
  }

  lemma ResentRun(s: System, grace: nat)
    requires Reread(s)
    ensures Resent(Do(s, ReadAnswer(0), grace))
  {
    hide Payload, DataFrames;
    OneFrame(5, MAX_WIRE_CHUNK);
    PayloadOfReply(Resumed(0));
  }

  lemma DoubleRun(s: System, grace: nat)
    requires Resent(s)
    ensures var t := Do(Do(s, ClientWrite(1), grace), ListenerRead(1), grace);
            t.sentByClient == [5] && t.pushed == [5, 5] && Retained(t)
  {
    OneFrame(5, CHUNK);
  }

  /** One octet is recorded, neither replay overflows, and the listener queues it for sshd twice. */
  lemma WindowRepeatsInput(grace: nat) returns (steps: seq<Step>)
    ensures var s := At(steps, |steps|, grace);
            CleanRun(steps, |steps|, grace) && Retained(s) && s.sentByClient == [5] && s.pushed == [5, 5]
  {
    hide Do, Welcomed, InFlight, Dated, Reread, Resent, Retained;
    steps := [AttachConn(0), ReadAnswer(0), Output([5]), TakeOutbox, ClientWrite(0), ClientClose, ClientHello(1),
              ServeHello(1), ListenerRead(0), AttachConn(1), ReadAnswer(0), ClientWrite(1), ListenerRead(1)];
    WelcomedRun(grace);
    NextTwo(steps, 0, grace);
    NextThree(steps, 2, grace);
    InFlightRun(At(steps, 2, grace), grace);
    NextThree(steps, 5, grace);
    DatedRun(At(steps, 5, grace), grace);
    NextTwo(steps, 8, grace);
    RereadRun(At(steps, 8, grace), grace);
    ResentRun(At(steps, 10, grace), grace);
    NextTwo(steps, 11, grace);
    DoubleRun(At(steps, 11, grace), grace);
  }
}
