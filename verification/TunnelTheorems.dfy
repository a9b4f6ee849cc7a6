/** What the tunnel promises, over every run. */
module TunnelTheorems {
  import opened Bytes
  import opened Framing
  import opened TunnelCodec
  import opened Replays
  import opened TunnelSystem
  import opened TunnelInvariant
  import opened TunnelSteps
  import ListenerSession
  import ClientSession

  /** Every attach of the run finds the listener as its snapshot left it. */
  ghost predicate QuietRun(steps: seq<Step>, n: nat, grace: nat) {
    n <= |steps| && forall i :: 0 <= i < n ==> Quiet(At(steps, i, grace), steps[i])
  }

  /** Every hand-over to a fresh decoder on the client finds the old one empty. */
  ghost predicate CleanRun(steps: seq<Step>, n: nat, grace: nat) {
    n <= |steps| && forall i :: 0 <= i < n ==> Clean(At(steps, i, grace), steps[i])
  }

  ghost predicate NarrowRun(steps: seq<Step>, n: nat, grace: nat) {
    n <= |steps| && forall i :: 0 <= i < n ==> Narrow(At(steps, i, grace), steps[i])
  }

  lemma InitialConn()
    ensures ConnOk(INITIAL, FIRST)
  {
  }

  lemma InitialStreams()
    ensures StreamsOk(INITIAL)
  {
  }

  lemma InitialRoles()
    ensures Roles(INITIAL)
  {
  }

  lemma InitialOk()
    ensures Inv(INITIAL)
  {
    hide ConnOk, StreamsOk, Roles;
    InitialConn();
    InitialStreams();
    InitialRoles();
    assert forall k :: k in INITIAL.conns ==> k == FIRST;
  }

  lemma {:induction false} ReachableInv(steps: seq<Step>, n: nat, grace: nat)
    requires QuietRun(steps, n, grace) && CleanRun(steps, n, grace) && NarrowRun(steps, n, grace)
    ensures Inv(At(steps, n, grace))
  {
    hide Inv, Quiet, Clean, Narrow, Do;
    if n == 0 {
      InitialOk();
    } else {
      ReachableInv(steps, n - 1, grace);
      StepKeeps(At(steps, n - 1, grace), steps[n - 1], grace);
    }
  }

  // ---- the applications at both ends ----

  ghost predicate Conserved(s: System) {
    && s.produced == s.sentByClient + Concat(s.client.outbox)
    && s.pushed == s.toSshd + Concat(s.listener.inq)
  }

  lemma OutputConserves(s: System, o: bytes)
    requires Conserved(s)
    ensures Conserved(s.(client := ClientSession.QueueOutput(s.client, o), produced := s.produced + o))
  {
    hide Concat;
    ConcatEnds(s.client.outbox, o);
    assert s.produced + [] == s.produced;
  }

  lemma TakeOutboxConserves(s: System)
    requires Conserved(s)
    ensures Conserved(DoTakeOutbox(s))
  {
  }

  lemma DrainConserves(s: System)
    requires Conserved(s)
    ensures Conserved(DoDrainInbound(s))
  {
  }

  lemma ListenerReadConserves(s: System, k: nat, grace: nat)
    requires Conserved(s)
    ensures Conserved(DoListenerRead(s, k, grace))
  {
    hide Concat, Payload;
    if k in s.conns && s.conns[k].up != [] {
      var f := s.conns[k].up[0];
      PayloadOfOne(f);
      if f.Data? {
        ConcatEnds(s.listener.inq, f.payload);
      } else {
        assert s.pushed + [] == s.pushed;
      }
    }
  }

  /** What a step does to the queues at the two ends and to the history beside them. */
  lemma StepConserves(s: System, step: Step, grace: nat)
    requires Conserved(s)
    ensures Conserved(Do(s, step, grace))
  {
    hide Concat, Payload, DataFrames, Encode, EncodeAll, NextFrame, DoTakeOutbox, DoDrainInbound, DoListenerRead;
    match step {
      case Output(o) => OutputConserves(s, o);
      case TakeOutbox => TakeOutboxConserves(s);
      case DrainInbound => DrainConserves(s);
      case ListenerRead(k) => ListenerReadConserves(s, k, grace);
      case _ =>
    }
  }

  lemma {:induction false} RunConserves(steps: seq<Step>, n: nat, grace: nat)
    requires n <= |steps|
    ensures Conserved(At(steps, n, grace))
  {
    hide Do, Conserved;
    if n > 0 {
      RunConserves(steps, n - 1, grace);
      StepConserves(At(steps, n - 1, grace), steps[n - 1], grace);
    } else {
      InitialConserved();
    }
  }

  lemma InitialConserved()
    ensures Conserved(INITIAL)
  {
  }

  /**
   * Exactly once and in order, both ways, over any number of parks, supersedes, torn frames and resumes:
   * what the listener queued for sshd is the first `received` octets the client recorded, and what the core
   * was fed is the first `received` octets the listener recorded. End to end, sshd gets a prefix of what the
   * core produced.
   */
  lemma ExactlyOnceInOrder(steps: seq<Step>, n: nat, grace: nat)
    requires QuietRun(steps, n, grace) && CleanRun(steps, n, grace) && NarrowRun(steps, n, grace)
    ensures var s := At(steps, n, grace);
            && s.listener.received <= |s.sentByClient| && s.pushed == s.sentByClient[..s.listener.received]
            && s.client.received <= |s.sentByListener| && s.client.fed == s.sentByListener[..s.client.received]
            && s.toSshd <= s.pushed <= s.produced
  {
    hide Do, Quiet, Clean, Narrow, ConnOk, Roles, Tracks, Concat;
    ReachableInv(steps, n, grace);
    RunConserves(steps, n, grace);
  }

  /** Neither side ever believes the other has more than it has, nor less than it acknowledged. */
  lemma CountersAreHonest(steps: seq<Step>, n: nat, grace: nat)
    requires QuietRun(steps, n, grace) && CleanRun(steps, n, grace) && NarrowRun(steps, n, grace)
    ensures var s := At(steps, n, grace);
            && s.client.replay.acked <= s.listener.received <= s.client.replay.sentTotal
            && s.listener.replay.acked <= s.client.received <= s.listener.replay.sentTotal
  {
    hide Do, Quiet, Clean, Narrow, ConnOk, Roles;
    ReachableInv(steps, n, grace);
  }

  // ---- a resume never meets a gap while neither replay has overflowed ----

  ghost predicate Retained(s: System) {
    !s.client.replay.overflowed && !s.listener.replay.overflowed
  }

  lemma OverflowIsForever(s: System, step: Step, grace: nat)
    requires Retained(Do(s, step, grace))
    ensures Retained(s)
  {
    hide Payload, DataFrames, Concat, Encode, EncodeAll, NextFrame;
  }

  lemma {:induction false} RetainedBefore(steps: seq<Step>, i: nat, n: nat, grace: nat)
    requires i <= n <= |steps| && Retained(At(steps, n, grace))
    ensures Retained(At(steps, i, grace))
  {
    hide Do, Retained;
    if i == n {
    } else {
      OverflowIsForever(At(steps, n - 1, grace), steps[n - 1], grace);
      RetainedBefore(steps, i, n - 1, grace);
    }
  }

  /** The claim of the client's own Hello is honest, and the listener answers it with exactly the missing suffix. */
  lemma OwnHelloIsAnswered(s: System, k: nat)
    requires Inv(s) && Retained(s) && HelloWaits(s, k) && IsAttempt(s, k)
    ensures ClaimOf(s, k) == s.client.received <= |s.sentByListener|
    ensures SpanFits(s.listener.replay, ClaimOf(s, k))
    ensures ListenerSession.OfferFor(s.listener, ClaimOf(s, k))
            == Some(ListenerSession.Offer(s.sentByListener[s.client.received..], s.listener.received))
  {
    hide ConnOk, Roles, Tracks;
    HelloOnly(s, k);
    assert Tracks(s.listener.replay, s.sentByListener);
    TracksLength(s.listener.replay, s.sentByListener);
    IsAtLength(s.sentByListener, 0, s.client.fed);
    HonestSpanFits(s.listener.replay, s.sentByListener, s.client.received);
  }

  lemma IsAtLength(stream: bytes, at: nat, p: bytes)
    requires IsAt(stream, at, p)
    ensures at + |p| <= |stream|
  {
  }

  ghost predicate ResumedWaits(s: System, n: nat) {
    && s.attempt.Some? && s.attempt.value.conn in s.conns && s.conns[s.attempt.value.conn].down != []
    && s.conns[s.attempt.value.conn].down[0] == ReplyFrame(Resumed(n))
  }

  /** The offset a `Resumed` carries is the one the listener reads this connection from; the client still has it all. */
  lemma AnswerIsResumable(s: System, n: nat)
    requires Inv(s) && Retained(s) && ResumedWaits(s, n)
    ensures SpanFits(s.client.replay, n)
    ensures n == s.conns[s.attempt.value.conn].upAt <= |s.sentByClient|
    ensures s.current.Some? ==> ClientSession.OnResumed(s.client, n).1 == Some(s.sentByClient[n..])
  {
    hide DownOk, Payload, Tracks;
    var k := s.attempt.value.conn;
    Unpack(s, k);
    assert UpOk(s.conns[k], s.sentByClient, IsCurrent(s, k), Counted(s, k), s.listener.received);
    TracksLength(s.client.replay, s.sentByClient);
    if s.current.Some? {
      HonestSpanFits(s.client.replay, s.sentByClient, n);
    }
  }

  lemma NarrowFollows(s: System, step: Step)
    requires Inv(s) && Retained(s)
    ensures Narrow(s, step)
  {
  }

  lemma {:induction false} RetainedRunIsNarrow(steps: seq<Step>, n: nat, grace: nat)
    requires QuietRun(steps, n, grace) && CleanRun(steps, n, grace) && Retained(At(steps, n, grace))
    ensures NarrowRun(steps, n, grace) && Inv(At(steps, n, grace))
  {
    hide Inv, Quiet, Clean, Narrow, Do, Retained;
    if n > 0 {
      RetainedBefore(steps, n - 1, n, grace);
      RetainedRunIsNarrow(steps, n - 1, grace);
      NarrowFollows(At(steps, n - 1, grace), steps[n - 1]);
    }
    ReachableInv(steps, n, grace);
  }

  /**
   * Without overflow, delivery needs the snapshot hypothesis alone, and no resume meets a gap: the client's
   * own Hello is offered, and its `Resumed` is answered with, exactly the suffix the other side is missing.
   */
  lemma NoGapWithoutOverflow(steps: seq<Step>, n: nat, grace: nat)
    requires QuietRun(steps, n, grace) && CleanRun(steps, n, grace) && Retained(At(steps, n, grace))
    ensures var s := At(steps, n, grace);
            && s.client.received <= |s.sentByListener| && s.client.fed == s.sentByListener[..s.client.received]
            && s.listener.received <= |s.sentByClient| && s.pushed == s.sentByClient[..s.listener.received]
            && (forall k :: HelloWaits(s, k) && IsAttempt(s, k) ==>
                  ListenerSession.OfferFor(s.listener, ClaimOf(s, k))
                  == Some(ListenerSession.Offer(s.sentByListener[s.client.received..], s.listener.received)))
            && (forall m: nat :: ResumedWaits(s, m) && s.current.Some? ==>
                  m <= |s.sentByClient| && ClientSession.OnResumed(s.client, m).1 == Some(s.sentByClient[m..]))
  {
    hide Inv, Retained, Quiet, Clean, Narrow, Do, ResumedWaits;
    RetainedRunIsNarrow(steps, n, grace);
    ExactlyOnceInOrder(steps, n, grace);
    var s := At(steps, n, grace);
    forall k | HelloWaits(s, k) && IsAttempt(s, k)
      ensures ListenerSession.OfferFor(s.listener, ClaimOf(s, k))
              == Some(ListenerSession.Offer(s.sentByListener[s.client.received..], s.listener.received))
    {
      OwnHelloIsAnswered(s, k);
    }
    forall m: nat | ResumedWaits(s, m) && s.current.Some?
      ensures m <= |s.sentByClient| && ClientSession.OnResumed(s.client, m).1 == Some(s.sentByClient[m..])
    {
      AnswerIsResumable(s, m);
    }
  }

  /** `resume_session` finds a gap: it refuses, and the session ends when the refusal has lingered. */
  ghost predicate MeetsGap(s: System, k: nat) {
    HelloWaits(s, k) && !s.listener.dead && ListenerSession.OfferFor(s.listener, ClaimOf(s, k)).None?
  }

  /**
   * A Hello of an attempt the client has abandoned may arrive late. It meets a gap, which ends a live session,
   * exactly when its claim is older than what the client has acknowledged since; the client's own Hello never does.
   */
  lemma LateHelloMeetsGapIff(steps: seq<Step>, n: nat, grace: nat, k: nat)
    requires QuietRun(steps, n, grace) && CleanRun(steps, n, grace) && Retained(At(steps, n, grace))
    requires var s := At(steps, n, grace);
             HelloWaits(s, k) && !s.listener.dead && SpanFits(s.listener.replay, ClaimOf(s, k))
    ensures var s := At(steps, n, grace);
            && (MeetsGap(s, k) <==> ClaimOf(s, k) < s.listener.replay.acked)
            && (IsAttempt(s, k) ==> !MeetsGap(s, k))
  {
    hide Quiet, Clean, Narrow, Do, ConnOk, Roles;
    RetainedRunIsNarrow(steps, n, grace);
    var s := At(steps, n, grace);
    HelloOnly(s, k);
    TailDefinedIff(s.listener.replay, s.sentByListener, ClaimOf(s, k));
  }

  // ---- the snapshot hypothesis is exact ----

  /** Attaching the connection the client waits on keeps the invariant if and only if nothing moved in between. */
  lemma AttachKeepsIffQuiet(s: System, k: nat)
    requires Inv(s) && IsAttempt(s, k) && k in s.conns && s.conns[k].snapshot.Some? && s.conns[k].downOpen
    ensures Inv(DoAttachConn(s, k)) <==> Quiet(s, AttachConn(k))
  {
    if Quiet(s, AttachConn(k)) {
      AttachKeeps(s, k);
    }
    if Inv(DoAttachConn(s, k)) {
      QuietIsNecessary(s, k);
    }
  }

  lemma QuietIsNecessary(s: System, k: nat)
    requires Inv(s) && IsAttempt(s, k) && k in s.conns && s.conns[k].snapshot.Some? && s.conns[k].downOpen
    requires Inv(DoAttachConn(s, k))
    ensures Quiet(s, AttachConn(k))
  {
    hide Inv, IsAt, Payload, AllBounded, DataFrames;
    var t := DoAttachConn(s, k);
    var tail := s.conns[k].snapshot.value.offer.tail;
    Unpack(s, k);
    Unpack(t, k);
    SplittingIsDecodable(tail, CHUNK);
    TracksLength(s.listener.replay, s.sentByListener);
    assert JobFor(t, k) == [];
    assert Payload(t.conns[k].down) + [] + tail == Payload(t.conns[k].down) + tail;
  }
}
