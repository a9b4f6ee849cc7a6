/**
 * The snapshot hypothesis cannot be weakened for the connection the client waits on: whatever moved in the window,
 * the attach can be followed by steps after which octets are lost or repeated.
 */
module TunnelHarm {
  import opened Bytes
  import opened Framing
  import opened TunnelCodec
  import opened Replays
  import opened TunnelSystem
  import opened TunnelInvariant
  import opened TunnelSteps
  import opened TunnelTheorems
  import opened TunnelPumps
  import ClientSession

  /** The client's open attempt is about to be attached in a live session, and nothing of it was cut. */
  ghost predicate Pending(s: System, k: nat) {
    && Inv(s) && Retained(s) && !s.listener.dead
    && IsAttempt(s, k) && k in s.conns && s.conns[k].snapshot.Some? && s.conns[k].upOpen && s.conns[k].downOpen
  }

  /** Delivery has failed: one side was handed something else than a prefix of what the other recorded. */
  ghost predicate Harmed(s: System) {
    !(s.pushed <= s.sentByClient) || !(s.client.fed <= s.sentByListener)
  }

  /** What is true of such a connection: nothing sent on it, and an acceptance as its only frame. */
  lemma PendingIs(s: System, k: nat)
    requires Pending(s, k)
    ensures var c := s.conns[k];
            && c.up == [] && c.pending == [] && !c.installed && c.attachedAs.None? && c.served && !c.closedByClient
            && |c.down| == 1 && c.down[0].ReplyFrame? && !c.down[0].reply.Refused?
            && (if s.current.None? then c.down[0].reply.New? && s.sentByClient == []
                else c.down[0] == ReplyFrame(Resumed(c.snapshot.value.offer.received)))
    ensures var snap := s.conns[k].snapshot.value;
            && snap.offer.received <= s.listener.received <= |s.sentByClient|
            && s.client.received + |snap.offer.tail| == snap.sentTotal <= |s.sentByListener|
            && s.sentByListener[s.client.received..snap.sentTotal] == snap.offer.tail
    ensures s.listener.received == |s.pushed| && s.client.received == |s.client.fed|
    ensures s.client.fed <= s.sentByListener
    ensures s.listener.replay.sentTotal == |s.sentByListener|
    ensures s.job.Some? ==> s.job.value.generation <= s.listener.generation
  {
    hide Payload, Inv, AllBounded;
    Unpack(s, k);
    TracksLength(s.listener.replay, s.sentByListener);
  }

  // ---- the listener had received more than it answered: octets are repeated ----

  /** The attach as the rest of this file needs it. */
  ghost predicate Adopted(s: System, k: nat, t: System) {
    && k in s.conns && k in t.conns && s.conns[k].snapshot.Some?
    && t.client == s.client && t.current == s.current && t.attempt == s.attempt && t.job == s.job
    && t.pushed == s.pushed && t.sentByClient == s.sentByClient && t.sentByListener == s.sentByListener
    && t.conns[k] == s.conns[k].(snapshot := None, attachedAs := Some(t.listener.generation))
    && t.listener.generation == s.listener.generation + 1
    && t.listener.attached && t.listener.send == Some(k) && t.listener.dead == s.listener.dead
    && t.listener.outq == DataFrames(s.conns[k].snapshot.value.offer.tail, CHUNK)
  }

  lemma AttachAdopts(s: System, k: nat, grace: nat)
    requires Pending(s, k)
    ensures Adopted(s, k, Do(s, AttachConn(k), grace))
  {
    hide Inv, DataFrames;
  }

  /** The client takes the acceptance off `k` and starts on what the listener does not claim to have. */
  lemma AnswerInstalls(t: System, k: nat, n: nat)
    requires IsAttempt(t, k) && k in t.conns && t.current.Some? && t.attempt.value.deferred == []
    requires t.conns[k].down != [] && t.conns[k].down[0] == ReplyFrame(Resumed(n))
    requires ClientSession.OnResumed(t.client, n).1.Some?
    ensures var u := DoReadAnswer(t, 0);
            && u.current == Some(k) && k in u.conns && u.listener == t.listener && u.job == t.job
            && u.pushed == t.pushed && u.sentByClient == t.sentByClient && u.sentByListener == t.sentByListener
            && u.client.fed == t.client.fed
            && u.conns[k].pending == DataFrames(ClientSession.OnResumed(t.client, n).1.value, MAX_WIRE_CHUNK)
            && u.conns[k].down == t.conns[k].down[1..] && u.conns[k].reader == Seeded(0)
            && u.conns[k].up == t.conns[k].up && u.conns[k].upOpen == t.conns[k].upOpen
            && u.conns[k].attachedAs == t.conns[k].attachedAs
            && u.conns[k].closedByClient == t.conns[k].closedByClient
  {
    hide Payload, DataFrames, Encode, EncodeAll, TailFrom, Replays.Ack;
    assert t.client.fed + [] == t.client.fed;
  }

  lemma NoDeferred(s: System, k: nat)
    requires Pending(s, k)
    ensures s.attempt.value.deferred == []
  {
    Unpack(s, k);
  }

  lemma RepeatsInput(s: System, k: nat, grace: nat) returns (steps: seq<Step>)
    requires Pending(s, k) && s.conns[k].snapshot.value.offer.received != s.listener.received
    ensures Ordinary(Do(s, AttachConn(k), grace), steps, grace)
    ensures Harmed(After(Do(s, AttachConn(k), grace), steps, grace))
  {
    hide Inv, Do, Payload, DataFrames, TailFrom, Replays.Ack;
    var n := s.conns[k].snapshot.value.offer.received;
    var t := Do(s, AttachConn(k), grace);
    PendingIs(s, k);
    NoDeferred(s, k);
    AnswerIsResumable(s, n);
    AttachAdopts(s, k, grace);
    AnswerInstalls(t, k, n);
    var u := AnswerStep(t, grace);
    var write := FlushPending(u, k, grace);
    var v := After(u, write, grace);
    SplittingIsDecodable(s.sentByClient[n..], MAX_WIRE_CHUNK);
    assert v.conns[k].up == [] + u.conns[k].pending == u.conns[k].pending;
    var read := DrainUp(v, k, grace);
    steps := [ReadAnswer(0)] + (write + read);
    AfterCons(t, ReadAnswer(0), write + read, grace);
    AfterAppend(u, write, read, grace);
    assert |After(t, steps, grace).pushed| > |s.sentByClient|;
  }

  lemma AnswerStep(t: System, grace: nat) returns (u: System)
    ensures u == Do(t, ReadAnswer(0), grace) == DoReadAnswer(t, 0)
  {
    u := DoReadAnswer(t, 0);
  }

  // ---- sshd had written more than the snapshot covers: octets are lost ----

  /** Whatever pump B was doing for an older attachment is over. */
  lemma OldJobEnds(t: System, grace: nat) returns (steps: seq<Step>)
    requires t.job.Some? ==> t.job.value.generation < t.listener.generation
    ensures Ordinary(t, steps, grace)
    ensures After(t, steps, grace) == t.(job := None)
  {
    if t.job.None? {
      steps := [];
    } else {
      steps := [JobWritten(false)];
      AfterCons(t, JobWritten(false), [], grace);
      assert [JobWritten(false)] + [] == steps;
      assert DoJobWritten(t, false, grace) == t.(job := None);
    }
  }

  /** An octet unlike the one the snapshot missed. */
  function Other(x: byte): byte {
    if x == 0 then 1 else 0
  }

  lemma OutputFollows(t: System, k: nat, b: byte)
    requires t.job.None? && k in t.conns && t.conns[k].downOpen && t.listener.attached && t.listener.send == Some(k)
    ensures var u := DoSshdRead(t, [b]);
            && Writes(u, k) && u.listener.outq == t.listener.outq + DataFrames([b], CHUNK)
            && u.sentByListener == t.sentByListener + [b] && u.client == t.client && u.conns == t.conns
            && u.current == t.current && u.attempt == t.attempt
  {
    hide DataFrames, Replays.Sent;
  }

  /** A first connection is welcomed, with nothing to send again. */
  lemma WelcomeInstalls(t: System, k: nat)
    requires IsAttempt(t, k) && k in t.conns && t.current.None? && t.attempt.value.deferred == []
    requires t.conns[k].down != [] && t.conns[k].down[0].ReplyFrame? && t.conns[k].down[0].reply.New?
    ensures var u := DoReadAnswer(t, 0);
            && u.current == Some(k) && k in u.conns && u.client.fed == t.client.fed
            && u.sentByListener == t.sentByListener
            && u.conns[k].down == t.conns[k].down[1..] && u.conns[k].reader == Seeded(0)
            && u.conns[k].closedByClient == t.conns[k].closedByClient
  {
    hide Payload, DataFrames, Encode, EncodeAll;
    assert t.client.fed + [] == t.client.fed;
  }

  lemma HandsOver(u: System, k: nat, grace: nat)
    requires u.current == Some(k) && k in u.conns && u.conns[k].reader == Seeded(0)
    ensures Do(u, HandOver, grace) == u.(conns := u.conns[k := u.conns[k].(reader := Steady)])
  {
    hide Body;
  }

  /** With the connection installed and everything on it data, the client is fed all of it. */
  lemma ReadsEverything(u: System, k: nat, grace: nat) returns (steps: seq<Step>)
    requires u.current == Some(k) && k in u.conns && u.conns[k].reader == Seeded(0) && !u.conns[k].closedByClient
    requires AllData(u.conns[k].down)
    ensures Ordinary(u, steps, grace)
    ensures var w := After(u, steps, grace);
            w.client.fed == u.client.fed + Payload(u.conns[k].down) && w.sentByListener == u.sentByListener
  {
    hide Do, Payload;
    HandsOver(u, k, grace);
    var v := Do(u, HandOver, grace);
    var read := DrainDown(v, k, grace);
    steps := [HandOver] + read;
    AfterCons(u, HandOver, read, grace);
  }

  lemma SshdStep(t: System, buf: bytes, grace: nat) returns (u: System)
    ensures u == Do(t, SshdRead(buf), grace) == DoSshdRead(t, buf)
  {
    u := DoSshdRead(t, buf);
  }

  /** Either acceptance installs the connection. */
  lemma AnswerAny(s: System, t: System, k: nat)
    requires Pending(s, k) && k in t.conns && s.attempt.value.deferred == []
    requires t.client == s.client && t.current == s.current && t.attempt == s.attempt
    requires t.conns[k].down != [] && t.conns[k].down[0] == s.conns[k].down[0]
    requires t.conns[k].closedByClient == s.conns[k].closedByClient
    ensures Narrow(t, ReadAnswer(0))
    ensures var u := DoReadAnswer(t, 0);
            && u.current == Some(k) && k in u.conns && u.client.fed == t.client.fed
            && u.sentByListener == t.sentByListener
            && u.conns[k].down == t.conns[k].down[1..] && u.conns[k].reader == Seeded(0)
            && !u.conns[k].closedByClient
  {
    hide Inv, Payload, DataFrames, TailFrom, Replays.Ack, DoReadAnswer;
    PendingIs(s, k);
    if s.current.None? {
      WelcomeInstalls(t, k);
    } else {
      var n := s.conns[k].snapshot.value.offer.received;
      AnswerIsResumable(s, n);
      AnswerInstalls(t, k, n);
    }
  }

  lemma DataBehindReply(reply: Frame, a: bytes, b: bytes, n: nat)
    requires 0 < n <= MAX_FRAME
    ensures var rest := DataFrames(a, n) + DataFrames(b, n);
            ([reply] + rest)[1..] == rest && AllData(rest) && Payload(rest) == a + b
  {
    SplittingIsDecodable(a, n);
    SplittingIsDecodable(b, n);
    PayloadAppend(DataFrames(a, n), DataFrames(b, n));
  }

  /** The tail and one more octet reach the client on an adopted connection. */
  lemma TailAndOneMore(s: System, k: nat, b: byte, grace: nat) returns (steps: seq<Step>)
    requires Pending(s, k)
    ensures Ordinary(Do(s, AttachConn(k), grace), steps, grace)
    ensures var w := After(Do(s, AttachConn(k), grace), steps, grace);
            && w.client.fed == s.client.fed + (s.conns[k].snapshot.value.offer.tail + [b])
            && w.sentByListener == s.sentByListener + [b]
  {
    hide Inv, Do, Payload, DataFrames, TailFrom, Replays.Ack, DoSshdRead, DoReadAnswer;
    var tail := s.conns[k].snapshot.value.offer.tail;
    var t := Do(s, AttachConn(k), grace);
    PendingIs(s, k);
    NoDeferred(s, k);
    AttachAdopts(s, k, grace);
    var clear := OldJobEnds(t, grace);
    var t1 := t.(job := None);
    OutputFollows(t1, k, b);
    var t2 := SshdStep(t1, [b], grace);
    var flush := FlushOutq(t2, k, grace);
    var t3 := Delivered(t2, k);
    assert s.conns[k].down == [s.conns[k].down[0]];
    DataBehindReply(s.conns[k].down[0], tail, [b], CHUNK);
    AnswerAny(s, t3, k);
    var u := AnswerStep(t3, grace);
    var read := ReadsEverything(u, k, grace);
    var behind := [ReadAnswer(0)] + read;
    steps := clear + ([SshdRead([b])] + (flush + behind));
    AfterAppend(t, clear, [SshdRead([b])] + (flush + behind), grace);
    AfterCons(t1, SshdRead([b]), flush + behind, grace);
    AfterAppend(t2, flush, behind, grace);
    AfterCons(t3, ReadAnswer(0), read, grace);
  }

  lemma LosesOutput(s: System, k: nat, grace: nat) returns (steps: seq<Step>)
    requires Pending(s, k) && s.conns[k].snapshot.value.sentTotal != s.listener.replay.sentTotal
    ensures Ordinary(Do(s, AttachConn(k), grace), steps, grace)
    ensures Harmed(After(Do(s, AttachConn(k), grace), steps, grace))
  {
    hide Inv, Do, After;
    PendingIs(s, k);
    var snap := s.conns[k].snapshot.value;
    var b := Other(s.sentByListener[snap.sentTotal]);
    steps := TailAndOneMore(s, k, b, grace);
    var w := After(Do(s, AttachConn(k), grace), steps, grace);
    assert w.client.fed[snap.sentTotal] == b;
    assert w.sentByListener[snap.sentTotal] == s.sentByListener[snap.sentTotal];
  }

  /** From an unquiet attach, ordinary progress alone goes on to lose or repeat octets. */
  lemma UnquietAttachHarms(s: System, k: nat, grace: nat) returns (steps: seq<Step>)
    requires Pending(s, k) && !Quiet(s, AttachConn(k))
    ensures Ordinary(Do(s, AttachConn(k), grace), steps, grace)
    ensures Harmed(After(Do(s, AttachConn(k), grace), steps, grace))
  {
    hide Inv, Do, After, Harmed, Ordinary;
    if s.conns[k].snapshot.value.offer.received != s.listener.received {
      steps := RepeatsInput(s, k, grace);
    } else {
      steps := LosesOutput(s, k, grace);
    }
  }

  lemma {:induction false} OrdinaryKeeps(s: System, steps: seq<Step>, grace: nat)
    requires Inv(s) && Ordinary(s, steps, grace)
    ensures Inv(After(s, steps, grace))
    decreases |steps|
  {
    hide Inv, Do, Clean, Narrow;
    if steps == [] {
    } else {
      StepKeeps(s, steps[0], grace);
      OrdinaryKeeps(Do(s, steps[0], grace), steps[1..], grace);
    }
  }

  lemma InvIsUnharmed(s: System)
    requires Inv(s)
    ensures !Harmed(s)
  {
    hide ConnOk, Roles;
  }

  /** No ordinary progress behind the attach of `k` ever loses or repeats an octet. */
  ghost predicate Harmless(s: System, k: nat, grace: nat) {
    forall steps :: Ordinary(Do(s, AttachConn(k), grace), steps, grace) ==>
      !Harmed(After(Do(s, AttachConn(k), grace), steps, grace))
  }

  /**
   * The hypothesis is exact: for the client's open attempt, in a live session that overflowed nothing, delivery
   * survives the attach if and only if nothing moved between the snapshot and it.
   */
  lemma HarmlessIffQuiet(s: System, k: nat, grace: nat)
    requires Pending(s, k)
    ensures Harmless(s, k, grace) <==> Quiet(s, AttachConn(k))
  {
    hide Inv, Do, After, Harmed, Ordinary;
    if Quiet(s, AttachConn(k)) {
      hide Quiet;
      AttachStaysOk(s, k, grace);
      forall steps | Ordinary(Do(s, AttachConn(k), grace), steps, grace)
        ensures !Harmed(After(Do(s, AttachConn(k), grace), steps, grace))
      {
        OrdinaryKeeps(Do(s, AttachConn(k), grace), steps, grace);
        InvIsUnharmed(After(Do(s, AttachConn(k), grace), steps, grace));
      }
    } else {
      var steps := UnquietAttachHarms(s, k, grace);
    }
  }

  lemma AttachStaysOk(s: System, k: nat, grace: nat)
    requires Inv(s) && Quiet(s, AttachConn(k))
    ensures Inv(Do(s, AttachConn(k), grace))
  {
    hide Inv, Quiet;
    AttachKeeps(s, k);
  }
}
