/**
 * The client's half of a resumable session (wosh-client/src/lib.rs): what each task does to the shared state
 * between two awaits. `fed` is everything handed to the SSH core; time is in milliseconds.
 */
module ClientSession {
  import opened Bytes
  import opened TunnelCodec
  import opened Replays

  const PING_AFTER_IDLE_MS: nat := 10_000
  const PING_VERDICT_MS: nat := 5_000
  const INTERACTIVE_PROBE_MS: nat := 2_000

  datatype Proto = V3 | V2 | V1

  datatype CloseKind = Failed | Lost

  /** Who holds the connection and where a resume stands. */
  datatype Link = Link(
    generation: nat,
    linkDown: bool,
    detached: bool,
    resuming: bool,
    suspended: bool,
    stalled: bool,
    wasReady: bool,
    closeKind: Option<CloseKind>)

  /** The two byte streams. */
  datatype Flow = Flow(
    outbox: seq<bytes>,
    replay: Replay,
    received: nat,
    ackedToPeer: nat,
    ackDue: bool,
    fed: bytes)

  datatype Liveness = Liveness(
    lastInbound: nat,
    pingOutstanding: Option<nat>,
    pingDue: bool,
    pongDue: seq<nat>,
    pingCounter: nat)

  const CONNECTED: Link := Link(0, false, false, false, false, false, false, None)
  const EMPTY_FLOW: Flow := Flow([], FRESH, 0, 0, false, [])

  function AliveSince(now: nat): Liveness {
    Liveness(now, None, false, [], 0)
  }

  // ---- the reader: one frame of `consume_frames`, stream by stream ----

  /** Any frame is evidence of liveness, even one that violates the protocol. */
  function Hear(l: Liveness, f: Frame, proto: Proto, now: nat): Liveness {
    var l1 := l.(lastInbound := now, pingOutstanding := None);
    if f.Ping? && proto == V3 then l1.(pongDue := l1.pongDue + [f.word]) else l1
  }

  function Consume(w: Flow, f: Frame): Flow {
    match f
    case Data(payload) => Feed(w, payload)
    case Ack(n) => w.(replay := Replays.Ack(w.replay, n))
    case _ => w
  }

  function Feed(w: Flow, payload: bytes): Flow {
    w.(fed := w.fed + payload, received := w.received + |payload|)
  }

  predicate Violates(f: Frame, proto: Proto) {
    match f
    case Data(_) => false
    case Ack(_) => false
    case Ping(_) => proto != V3
    case Pong(_) => proto != V3
    case ReplyFrame(_) => true
    case HelloFrame(_) => true
  }

  /** The end of `consume_frames`: ask for an ACK once enough has arrived. */
  function RequestAck(w: Flow): Flow {
    if Monus(w.received, w.ackedToPeer) >= ACK_EVERY_BYTES then w.(ackDue := true) else w
  }

  // ---- the writer ----

  function TakeAck(w: Flow): (Flow, Option<Frame>) {
    if w.ackDue then
      (w.(ackDue := false, ackedToPeer := w.received), Some(TunnelCodec.Ack(w.received)))
    else (w, None)
  }

  function TakePong(l: Liveness): (Liveness, Option<Frame>) {
    if l.pongDue == [] then (l, None) else (l.(pongDue := l.pongDue[1..]), Some(Pong(l.pongDue[0])))
  }

  function TakePing(l: Liveness, proto: Proto, now: nat): (Liveness, Option<Frame>) {
    if proto == V3 && l.pingDue && l.pingOutstanding.None? then
      (l.(pingDue := false, pingCounter := l.pingCounter + 1, pingOutstanding := Some(now)),
       Some(Ping(l.pingCounter + 1)))
    else (l, None)
  }

  /** The next outbox entry, recorded in the replay before it is written. */
  function TakeOutbox(w: Flow): (Flow, Option<bytes>) {
    if w.outbox == [] then (w, None)
    else (w.(outbox := w.outbox[1..], replay := Sent(w.replay, w.outbox[0])), Some(w.outbox[0]))
  }

  /** After a DATA write into a link that has been quiet for a while. */
  function InteractiveProbe(l: Liveness, proto: Proto, now: nat): Liveness {
    if proto == V3 && l.pingOutstanding.None? && !l.pingDue
       && Monus(now, l.lastInbound) >= INTERACTIVE_PROBE_MS
    then l.(pingDue := true) else l
  }

  function QueueOutput(w: Flow, output: bytes): Flow {
    if output == [] then w else w.(outbox := w.outbox + [output])
  }

  // ---- the liveness prober ----

  datatype Tick = Retire | Idle | Probe | Dead

  function KeepaliveTick(k: Link, l: Liveness, generation: nat, now: nat): (Liveness, Tick) {
    if k.generation != generation || k.detached || k.linkDown then (l, Retire)
    else if k.suspended || k.resuming then (l, Idle)
    else if l.pingOutstanding.Some? then
      (l, if Monus(now, l.pingOutstanding.value) >= PING_VERDICT_MS then Dead else Idle)
    else if !l.pingDue && Monus(now, l.lastInbound) >= PING_AFTER_IDLE_MS then
      (l.(pingDue := true), Probe)
    else (l, Idle)
  }

  // ---- the resume machine ----

  datatype Outcome = RetireTask | Die | StartResume

  function LinkLost(k: Link, proto: Proto, generation: nat): (Link, Outcome) {
    if k.generation != generation || k.detached then (k, RetireTask)
    else if proto == V1 then (k, Die)
    else if k.resuming then (k, RetireTask)
    else if k.suspended then (k.(stalled := true), RetireTask)
    else (k.(resuming := true), StartResume)
  }

  function DeclareDead(k: Link): Link {
    if k.linkDown then k
    else k.(resuming := false, linkDown := true, closeKind := Some(if k.wasReady then Lost else Failed))
  }

  predicate Abandoned(k: Link, generation: nat) {
    k.detached || k.linkDown || k.generation != generation
  }

  function StandDown(k: Link): (Link, bool) {
    if !k.suspended then (k, false) else (k.(resuming := false, stalled := true), true)
  }

  /** On `Resumed`: the tail before the ack, because the ack trims exactly what the tail reads. */
  function OnResumed(w: Flow, peerReceived: nat): (Flow, Option<bytes>) {
    match TailFrom(w.replay, peerReceived)
    case None => (w, None)
    case Some(tail) => (w.(replay := Replays.Ack(w.replay, peerReceived)), Some(tail))
  }

  /** `install_connection`, stream by stream. */
  function InstallLink(k: Link): Link {
    k.(resuming := false, generation := k.generation + 1)
  }

  function InstallFlow(w: Flow, deferred: bytes): Flow {
    Feed(w.(ackDue := false), deferred)
  }

  function InstallLiveness(l: Liveness, now: nat): Liveness {
    Liveness(now, None, false, [], l.pingCounter)
  }

  // ---- the page ----

  function Suspend(k: Link, proto: Proto): Link {
    if k.detached || k.linkDown || proto == V1 then k else k.(suspended := true)
  }

  /** A wake finds the session attached (and perhaps a zombie), or stalled, or has nothing to do. */
  predicate WakesAttached(k: Link, proto: Proto) {
    !k.detached && !k.linkDown && !k.stalled && !k.resuming && proto == V3
  }

  predicate WakesStalled(k: Link) {
    !k.detached && !k.linkDown && k.stalled && !k.resuming
  }

  function WakeLink(k: Link): Link {
    if WakesStalled(k) then k.(suspended := false, stalled := false, resuming := true)
    else k.(suspended := false)
  }

  function WakeLiveness(k: Link, l: Liveness, proto: Proto, now: nat): Liveness {
    if WakesAttached(k, proto) then
      l.(pingOutstanding := None, lastInbound := Monus(now, PING_AFTER_IDLE_MS), pingDue := true)
    else l
  }

  // ---- the mutable record ----

  /** Consuming frames in order; a violation stops the caller. */
  function ConsumeAll(w: Flow, frames: seq<Frame>): Flow {
    if frames == [] then w
    else Consume(ConsumeAll(w, frames[..|frames| - 1]), frames[|frames| - 1])
  }

  class Inner {
    const proto: Proto
    const replay: ReplayBuffer
    var generation: nat
    var outbox: seq<bytes>
    var linkDown: bool
    var detached: bool
    var received: nat
    var ackedToPeer: nat
    var ackDue: bool
    var resuming: bool
    var suspended: bool
    var stalled: bool
    var lastInbound: nat
    var pingOutstanding: Option<nat>
    var pingDue: bool
    var pongDue: seq<nat>
    var pingCounter: nat
    var wasReady: bool
    var closeKind: Option<CloseKind>
    var fed: bytes

    ghost function K(): Link
      reads `generation, `linkDown, `detached, `resuming, `suspended, `stalled, `wasReady, `closeKind
    {
      Link(generation, linkDown, detached, resuming, suspended, stalled, wasReady, closeKind)
    }

    ghost function W(): Flow
      reads `outbox, `received, `ackedToPeer, `ackDue, `fed, replay
    {
      Flow(outbox, replay.View(), received, ackedToPeer, ackDue, fed)
    }

    ghost function L(): Liveness
      reads `lastInbound, `pingOutstanding, `pingDue, `pongDue, `pingCounter
    {
      Liveness(lastInbound, pingOutstanding, pingDue, pongDue, pingCounter)
    }

    /** The replay tracks everything ever taken to be sent, and the counter what the core was fed. */
    ghost predicate Valid()
      reads `received, `fed, replay
    {
      replay.Valid() && |fed| == received
    }

    constructor (dialect: Proto, now: nat)
      ensures K() == CONNECTED && W() == EMPTY_FLOW && L() == AliveSince(now) && proto == dialect
      ensures Valid() && replay.stream == [] && fresh(replay)
    {
      hide Tracks;
      proto := dialect;
      generation, outbox, linkDown, detached := 0, [], false, false;
      replay := new ReplayBuffer();
      received, ackedToPeer, ackDue, resuming, suspended, stalled := 0, 0, false, false, false, false;
      lastInbound, pingOutstanding, pingDue, pongDue, pingCounter := now, None, false, [], 0;
      wasReady, closeKind, fed := false, None, [];
    }

    method HearFrame(f: Frame, now: nat)
      modifies `lastInbound, `pingOutstanding, `pongDue
      ensures L() == Hear(old(L()), f, proto, now)
    {
      lastInbound := now;
      pingOutstanding := None;
      if f.Ping? && proto == V3 {
        pongDue := pongDue + [f.word];
      }
    }

    method ConsumeFrame(f: Frame, now: nat) returns (violation: bool)
      requires Valid()
      modifies `lastInbound, `pingOutstanding, `pongDue, `fed, `received, replay
      ensures Valid()
      ensures replay.stream == old(replay.stream)
      ensures K() == old(K()) && W() == Consume(old(W()), f) && L() == Hear(old(L()), f, proto, now)
      ensures violation == Violates(f, proto)
    {
      HearFrame(f, now);
      violation := false;
      match f {
        case Data(payload) =>
          if payload != [] {
            fed := fed + payload;
            received := received + |payload|;
          }
        case Ack(n) =>
          replay.Acknowledge(n);
        case Ping(_) =>
          violation := proto != V3;
        case Pong(_) =>
          violation := proto != V3;
        case ReplyFrame(_) =>
          violation := true;
        case HelloFrame(_) =>
          violation := true;
      }
    }

    /** The frames one read completed: all of them, or all up to the first violation. */
    method ConsumeFrames(frames: seq<Frame>, now: nat) returns (violation: bool)
      requires Valid()
      modifies `lastInbound, `pingOutstanding, `pongDue, `fed, `received, `ackDue, replay
      ensures Valid()
      ensures replay.stream == old(replay.stream)
      ensures K() == old(K())
      ensures violation == exists i :: 0 <= i < |frames| && Violates(frames[i], proto)
      ensures !violation ==> W() == RequestAck(ConsumeAll(old(W()), frames))
      ensures violation ==> exists n :: 0 <= n < |frames| && Violates(frames[n], proto)
                                        && W() == ConsumeAll(old(W()), frames[..n + 1])
    {
      var n := 0;
      while n < |frames|
        invariant n <= |frames|
        invariant Valid() && replay.stream == old(replay.stream)
        invariant K() == old(K()) && W() == ConsumeAll(old(W()), frames[..n])
        invariant forall i :: 0 <= i < n ==> !Violates(frames[i], proto)
      {
        violation := ConsumeFrame(frames[n], now);
        assert frames[..n + 1][..n] == frames[..n];
        if violation {
          return;
        }
        n := n + 1;
      }
      assert frames[..n] == frames;
      violation := false;
      if Monus(received, ackedToPeer) >= ACK_EVERY_BYTES {
        ackDue := true;
      }
    }

    method TakeAckFrame() returns (f: Option<Frame>)
      requires Valid()
      modifies `ackDue, `ackedToPeer
      ensures Valid()
      ensures K() == old(K()) && L() == old(L()) && (W(), f) == TakeAck(old(W()))
    {
      if !ackDue {
        return None;
      }
      ackDue := false;
      ackedToPeer := received;
      return Some(TunnelCodec.Ack(received));
    }

    method TakePongFrame() returns (f: Option<Frame>)
      requires Valid()
      modifies `pongDue
      ensures Valid()
      ensures K() == old(K()) && W() == old(W()) && (L(), f) == TakePong(old(L()))
    {
      if pongDue == [] {
        return None;
      }
      f := Some(Pong(pongDue[0]));
      pongDue := pongDue[1..];
    }

    method TakePingFrame(now: nat) returns (f: Option<Frame>)
      requires Valid()
      modifies `pingDue, `pingCounter, `pingOutstanding
      ensures Valid()
      ensures K() == old(K()) && W() == old(W()) && (L(), f) == TakePing(old(L()), proto, now)
    {
      if proto != V3 || !pingDue || pingOutstanding.Some? {
        return None;
      }
      pingDue := false;
      pingCounter := pingCounter + 1;
      pingOutstanding := Some(now);
      return Some(Ping(pingCounter));
    }

    method TakeOutboxEntry() returns (entry: Option<bytes>)
      requires Valid()
      modifies `outbox, replay
      ensures Valid()
      ensures replay.stream == old(replay.stream) + (if entry.Some? then entry.value else [])
      ensures K() == old(K()) && L() == old(L()) && (W(), entry) == TakeOutbox(old(W()))
    {
      if outbox == [] {
        return None;
      }
      entry := Some(outbox[0]);
      outbox := outbox[1..];
      replay.Record(entry.value);
    }

    method KeepaliveTickAt(gen: nat, now: nat) returns (tick: Tick)
      requires Valid()
      modifies `pingDue
      ensures Valid()
      ensures K() == old(K()) && W() == old(W())
      ensures (L(), tick) == KeepaliveTick(old(K()), old(L()), gen, now)
    {
      if generation != gen || detached || linkDown {
        return Retire;
      }
      if suspended || resuming {
        return Idle;
      }
      if pingOutstanding.Some? {
        return if Monus(now, pingOutstanding.value) >= PING_VERDICT_MS then Dead else Idle;
      }
      if !pingDue && Monus(now, lastInbound) >= PING_AFTER_IDLE_MS {
        pingDue := true;
        return Probe;
      }
      return Idle;
    }

    method OnLinkLost(gen: nat) returns (outcome: Outcome)
      requires Valid()
      modifies `stalled, `resuming
      ensures Valid()
      ensures W() == old(W()) && L() == old(L()) && (K(), outcome) == LinkLost(old(K()), proto, gen)
    {
      if generation != gen || detached {
        return RetireTask;
      }
      if proto == V1 {
        return Die;
      }
      if resuming {
        return RetireTask;
      }
      if suspended {
        stalled := true;
        return RetireTask;
      }
      resuming := true;
      return StartResume;
    }

    method DeclareItDead()
      requires Valid()
      modifies `resuming, `linkDown, `closeKind
      ensures Valid()
      ensures W() == old(W()) && L() == old(L()) && K() == DeclareDead(old(K()))
    {
      if !linkDown {
        resuming := false;
        linkDown := true;
        closeKind := Some(if wasReady then Lost else Failed);
      }
    }

    method StandItDown() returns (stood: bool)
      requires Valid()
      modifies `resuming, `stalled
      ensures Valid()
      ensures W() == old(W()) && L() == old(L()) && (K(), stood) == StandDown(old(K()))
    {
      stood := suspended;
      if stood {
        resuming := false;
        stalled := true;
      }
    }

    method ResumedAt(peerReceived: nat) returns (tail: Option<bytes>)
      requires Valid()
      modifies replay
      ensures Valid()
      ensures replay.stream == old(replay.stream)
      ensures tail.Some? && SpanFits(old(replay.View()), peerReceived) ==>
                peerReceived <= |replay.stream| && tail.value == replay.stream[peerReceived..]
      ensures K() == old(K()) && L() == old(L()) && (W(), tail) == OnResumed(old(W()), peerReceived)
    {
      tail := replay.Tail(peerReceived);
      if tail.Some? {
        replay.Acknowledge(peerReceived);
      }
    }

    /** Payloads that arrived ahead of the reply. */
    method FeedDeferred(deferred: seq<bytes>)
      requires Valid()
      modifies `fed, `received
      ensures Valid()
      ensures W() == Feed(old(W()), Concat(deferred))
    {
      var i := 0;
      while i < |deferred|
        invariant i <= |deferred|
        invariant fed == old(fed) + Concat(deferred[..i])
        invariant received == old(received) + |Concat(deferred[..i])|
      {
        ConcatSnoc(deferred, i);
        fed := fed + deferred[i];
        received := received + |deferred[i]|;
        i := i + 1;
      }
      assert deferred[..i] == deferred;
    }

    method ResetLiveness(now: nat)
      modifies this`lastInbound, this`pingDue, this`pingOutstanding, this`pongDue
      ensures L() == InstallLiveness(old(L()), now)
    {
      lastInbound := now;
      pingDue := false;
      pingOutstanding := None;
      pongDue := [];
    }

    method RaiseGeneration()
      modifies `resuming, `generation
      ensures K() == InstallLink(old(K()))
    {
      resuming := false;
      generation := generation + 1;
    }

    /** One borrow: the order of the assignments is not observable. */
    method InstallConnection(deferred: seq<bytes>, now: nat)
      requires Valid()
      modifies `resuming, `generation, `lastInbound, `pingDue, `pingOutstanding, `pongDue, `ackDue, `fed, `received
      ensures Valid()
      ensures K() == InstallLink(old(K()))
      ensures W() == InstallFlow(old(W()), Concat(deferred))
      ensures L() == InstallLiveness(old(L()), now)
    {
      hide Concat;
      RaiseGeneration();
      ResetLiveness(now);
      ackDue := false;
      FeedDeferred(deferred);
    }

    method SuspendIt()
      requires Valid()
      modifies `suspended
      ensures Valid()
      ensures W() == old(W()) && L() == old(L()) && K() == Suspend(old(K()), proto)
    {
      if !detached && !linkDown && proto != V1 {
        suspended := true;
      }
    }

    method ProbeNow(now: nat)
      modifies `pingOutstanding, `lastInbound, `pingDue
      ensures L() == old(L()).(pingOutstanding := None, lastInbound := Monus(now, PING_AFTER_IDLE_MS), pingDue := true)
    {
      pingOutstanding := None;
      lastInbound := Monus(now, PING_AFTER_IDLE_MS);
      pingDue := true;
    }

    method WakeIt(now: nat) returns (started: bool)
      requires Valid()
      modifies `suspended, `stalled, `resuming, `pingOutstanding, `lastInbound, `pingDue
      ensures Valid()
      ensures W() == old(W()) && K() == WakeLink(old(K())) && started == WakesStalled(old(K()))
      ensures L() == WakeLiveness(old(K()), old(L()), proto, now)
    {
      suspended := false;
      if detached || linkDown || !stalled || resuming {
        if !detached && !linkDown && !stalled && !resuming && proto == V3 {
          ProbeNow(now);
        }
        return false;
      }
      stalled := false;
      resuming := true;
      return true;
    }
  }
}
