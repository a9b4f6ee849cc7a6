/**
 * The listener's half of a resumable session (listener-core/src/session.rs).
 * Connections are named by numbers; a queued frame stands for its encoding.
 */
module ListenerSession {
  import opened Bytes
  import opened TunnelCodec
  import opened Replays

  datatype Listener = Listener(
    replay: Replay,
    received: nat,
    ackedOut: nat,
    outq: seq<Frame>,
    inq: seq<bytes>,
    send: Option<nat>,
    conn: Option<nat>,
    attached: bool,
    generation: nat,
    parkEpoch: nat,
    dead: bool)

  const OPENED: Listener := Listener(FRESH, 0, 0, [], [], None, None, false, 0, 0, false)

  datatype WriteJob = Send(frame: Frame, generation: nat, conn: nat) | Finish(conn: nat) | Exit | Wait

  /** The offsets a resume answers with, taken before the reply is written. */
  datatype Offer = Offer(tail: bytes, received: nat)

  // ---- session transitions ----

  function Attach(st: Listener, conn: nat, tail: bytes): Listener {
    st.(outq := DataFrames(tail, CHUNK),
        send := Some(conn),
        conn := Some(conn),
        attached := true,
        generation := st.generation + 1,
        ackedOut := st.received)
  }

  function EndSession(st: Listener): Listener {
    st.(dead := true)
  }

  /** `grace == 0` means no parking. */
  function Park(st: Listener, grace: nat): Listener {
    if st.dead then st
    else if grace == 0 then EndSession(st)
    else
      st.(conn := None,
          send := None,
          attached := false,
          generation := st.generation + 1,
          parkEpoch := st.parkEpoch + 1)
  }

  /** The grace timer armed by the park numbered `epoch`. */
  function TimerFires(st: Listener, epoch: nat): Listener {
    if !st.dead && !st.attached && st.parkEpoch == epoch then EndSession(st) else st
  }

  /** What a resume is offered, or nothing when the replay has moved past the client. */
  function OfferFor(st: Listener, clientReceived: nat): Option<Offer> {
    match TailFrom(st.replay, clientReceived)
    case None => None
    case Some(tail) => Some(Offer(tail, st.received))
  }

  // ---- the pumps ----

  /** [A] sshd -> client. */
  function SshdRead(st: Listener, buf: bytes): Listener {
    if buf == [] then st
    else st.(replay := Sent(st.replay, buf), outq := st.outq + DataFrames(buf, CHUNK))
  }

  /** [B] outq -> the current attachment. */
  function NextWriteJob(st: Listener): (Listener, WriteJob) {
    if st.attached then
      match st.send
      case Some(conn) =>
        if st.outq != [] then
          (st.(send := None, outq := st.outq[1..]), Send(st.outq[0], st.generation, conn))
        else if st.dead then
          (st.(send := None, attached := false, conn := None), Finish(conn))
        else (st, Wait)
      case None => (st, Wait)
    else if st.dead then (st, Exit)
    else (st, Wait)
  }

  function WriteDone(st: Listener, generation: nat, conn: nat, ok: bool, grace: nat): Listener {
    if st.generation != generation || !st.attached then st
    else if ok then st.(send := Some(conn))
    else Park(st, grace)
  }

  /** [C] inq -> sshd. */
  function NextInbound(st: Listener): (Listener, Option<bytes>) {
    if st.inq == [] then (st, None) else (st.(inq := st.inq[1..]), Some(st.inq[0]))
  }

  /** Applying one decoded frame; the flag reports a protocol violation. */
  function Apply(st: Listener, f: Frame, pings: bool): (Listener, bool) {
    match f
    case Data(payload) =>
      var st1 := st.(received := st.received + |payload|, inq := st.inq + [payload]);
      if st1.received - st1.ackedOut >= ACK_EVERY_BYTES then
        (st1.(ackedOut := st1.received, outq := st1.outq + [TunnelCodec.Ack(st1.received)]), false)
      else (st1, false)
    case Ack(n) => (st.(replay := Replays.Ack(st.replay, n)), false)
    case HelloFrame(_) => (st, true)
    case ReplyFrame(_) => (st, true)
    case Ping(p) => if pings then (st.(outq := st.outq + [Pong(p)]), false) else (st, true)
    case Pong(_) => (st, !pings)
  }

  /** [D] a frame read by the attachment of `generation`: superseded readers retire, violations park. */
  function ReadFrame(st: Listener, generation: nat, f: Frame, pings: bool, grace: nat): Listener {
    if st.generation != generation then st
    else
      var (st1, violation) := Apply(st, f, pings);
      if violation then Park(st1, grace) else st1
  }

  /** [D] the read side of the attachment of `generation` ended or carried a malformed frame. */
  function ReadEnded(st: Listener, generation: nat, grace: nat): Listener {
    if st.generation != generation || st.dead then st else Park(st, grace)
  }

  // ---- runs of one session ----

  datatype Step =
    | AttachStep(conn: nat, tail: bytes)
    | FrameStep(generation: nat, frame: Frame, pings: bool)
    | EndedStep(generation: nat)
    | JobStep
    | WrittenStep(generation: nat, conn: nat, ok: bool)
    | SshdStep(buf: bytes)
    | InboundStep
    | TimerStep(epoch: nat)
    | EndStep

  function Do(st: Listener, step: Step, grace: nat): Listener {
    match step
    case AttachStep(conn, tail) => Attach(st, conn, tail)
    case FrameStep(g, f, pings) => ReadFrame(st, g, f, pings, grace)
    case EndedStep(g) => ReadEnded(st, g, grace)
    case JobStep => NextWriteJob(st).0
    case WrittenStep(g, conn, ok) => WriteDone(st, g, conn, ok, grace)
    case SshdStep(buf) => SshdRead(st, buf)
    case InboundStep => NextInbound(st).0
    case TimerStep(e) => TimerFires(st, e)
    case EndStep => EndSession(st)
  }

  /** The session after the first `n` steps. */
  function At(steps: seq<Step>, n: nat, grace: nat): Listener
    requires n <= |steps|
  {
    if n == 0 then OPENED else Do(At(steps, n - 1, grace), steps[n - 1], grace)
  }

  ghost predicate Attaches(steps: seq<Step>, i: nat)
  {
    i < |steps| && steps[i].AttachStep?
  }

  /** Step `i` parks the session (with a grace period). */
  ghost predicate Parks(steps: seq<Step>, i: nat, grace: nat)
  {
    i < |steps| && At(steps, i + 1, grace).parkEpoch != At(steps, i, grace).parkEpoch
  }

  /** Step `i` is the park that armed the timer of `epoch`. */
  ghost predicate Arms(steps: seq<Step>, i: nat, epoch: nat, grace: nat)
  {
    Parks(steps, i, grace) && At(steps, i + 1, grace).parkEpoch == epoch
  }

  /** The generation the task behind a step was started under, for tasks that belong to an attachment. */
  function TaskOf(step: Step): Option<nat> {
    match step
    case FrameStep(g, _, _) => Some(g)
    case EndedStep(g) => Some(g)
    case WrittenStep(g, _, _) => Some(g)
    case _ => None
  }

  /** What one step may do to the counters that order attachments. */
  lemma StepOrder(st: Listener, step: Step, grace: nat)
    ensures var st1 := Do(st, step, grace);
            && (st.dead ==> st1.dead)
            && st.parkEpoch <= st1.parkEpoch <= st.parkEpoch + 1
            && st.generation <= st1.generation <= st.generation + 1
            && (st.parkEpoch < st1.parkEpoch || step.AttachStep? ==> st.generation < st1.generation)
            && (st.parkEpoch < st1.parkEpoch ==>
                  grace > 0 && !st.dead && !st1.attached && TaskOf(step) == Some(st.generation))
            && (st.generation < st1.generation ==> step.AttachStep? || st.parkEpoch < st1.parkEpoch)
            && (st.attached && !st1.attached ==> st.dead || st.parkEpoch < st1.parkEpoch)
  {
  }

  lemma {:induction false} RunOrder(steps: seq<Step>, i: nat, j: nat, grace: nat)
    requires i <= j <= |steps|
    ensures var a, b := At(steps, i, grace), At(steps, j, grace);
            && (a.dead ==> b.dead)
            && a.parkEpoch <= b.parkEpoch
            && a.generation <= b.generation
  {
    if i == j {
    } else {
      RunOrder(steps, i, j - 1, grace);
      StepOrder(At(steps, j - 1, grace), steps[j - 1], grace);
    }
  }

  /** Every attach and every park with a grace period strictly raises `generation`; nothing else changes it. */
  lemma GenerationCountsAttachesAndParks(steps: seq<Step>, i: nat, grace: nat)
    requires i < |steps|
    ensures At(steps, i + 1, grace).generation ==
            At(steps, i, grace).generation + if Attaches(steps, i) || Parks(steps, i, grace) then 1 else 0
  {
    StepOrder(At(steps, i, grace), steps[i], grace);
  }

  /**
   * Two parks are never the work of one attachment: each is done by a task of the generation current
   * at that moment, and those generations differ.
   */
  lemma ParksOnceEach(steps: seq<Step>, i: nat, j: nat, grace: nat)
    requires i < j && Parks(steps, i, grace) && Parks(steps, j, grace)
    ensures TaskOf(steps[i]).Some? && TaskOf(steps[j]).Some?
    ensures TaskOf(steps[i]).value == At(steps, i, grace).generation < TaskOf(steps[j]).value
  {
    StepOrder(At(steps, i, grace), steps[i], grace);
    StepOrder(At(steps, j, grace), steps[j], grace);
    RunOrder(steps, i + 1, j, grace);
  }

  /** Once another attach or park has happened, nothing the old attachment's tasks do changes the session. */
  lemma SupersededTasksAreInert(steps: seq<Step>, i: nat, j: nat, grace: nat)
    requires i < j < |steps| && TaskOf(steps[j]).Some?
    requires TaskOf(steps[j]).value <= At(steps, i, grace).generation
    requires Attaches(steps, i) || Parks(steps, i, grace)
    ensures At(steps, j + 1, grace) == At(steps, j, grace)
  {
    StepOrder(At(steps, i, grace), steps[i], grace);
    RunOrder(steps, i + 1, j, grace);
  }

  /** Between the park of `epoch` and a later moment with the same epoch, alive and unattached, nobody attached. */
  lemma {:induction false} UnattachedSince(steps: seq<Step>, j: nat, m: nat, i: nat, epoch: nat, grace: nat)
    requires Arms(steps, j, epoch, grace) && j < m <= i <= |steps|
    requires var st := At(steps, i, grace); st.parkEpoch == epoch && !st.dead && !st.attached
    ensures !At(steps, m, grace).attached && !At(steps, m, grace).dead
    decreases i - m
  {
    hide Do;
    RunOrder(steps, j + 1, m, grace);
    RunOrder(steps, m, i, grace);
    if m == i {
    } else {
      UnattachedSince(steps, j, m + 1, i, epoch, grace);
      StepOrder(At(steps, m, grace), steps[m], grace);
      RunOrder(steps, m, m + 1, grace);
      RunOrder(steps, m + 1, i, grace);
    }
  }

  /**
   * A grace timer ends a session only if the session has been unattached without interruption since the
   * very park that armed it.
   */
  lemma TimerEndsOnlyAbandonedSessions(steps: seq<Step>, j: nat, i: nat, grace: nat)
    requires j < i < |steps| && steps[i].TimerStep?
    requires Arms(steps, j, steps[i].epoch, grace)
    requires !At(steps, i, grace).dead && At(steps, i + 1, grace).dead
    ensures grace > 0
    ensures forall m :: j < m <= i ==> !At(steps, m, grace).attached
    ensures forall m :: j < m < i ==> !Attaches(steps, m) && !Parks(steps, m, grace)
  {
    StepOrder(At(steps, j, grace), steps[j], grace);
    forall m | j < m <= i
      ensures !At(steps, m, grace).attached
      ensures m < i ==> !Attaches(steps, m) && !Parks(steps, m, grace)
    {
      UnattachedSince(steps, j, m, i, steps[i].epoch, grace);
      if m < i {
        UnattachedSince(steps, j, m + 1, i, steps[i].epoch, grace);
        RunOrder(steps, j + 1, m, grace);
        RunOrder(steps, m, m + 1, grace);
        RunOrder(steps, m + 1, i, grace);
      }
    }
  }

  // ---- the registry of sessions ----

  const TOMBSTONES: nat := 64

  datatype Tombstone = Tombstone(id: nat, reason: string)

  function LastOf(gone: seq<Tombstone>, n: nat): seq<Tombstone> {
    if |gone| <= n then gone else gone[|gone| - n..]
  }

  function Epitaph(gone: seq<Tombstone>, id: nat): string {
    if gone == [] then "unknown session"
    else if gone[0].id == id then gone[0].reason
    else Epitaph(gone[1..], id)
  }

  class Registry {
    var live: set<nat>
    var gone: seq<Tombstone>

    constructor ()
      ensures live == {} && gone == []
    {
      live, gone := {}, [];
    }

    method Bury(id: nat, reason: string)
      modifies this
      ensures live == old(live) - {id}
      ensures gone == LastOf(old(gone) + [Tombstone(id, reason)], TOMBSTONES)
    {
      live := live - {id};
      gone := gone + [Tombstone(id, reason)];
      ghost var all := gone;
      while |gone| > TOMBSTONES
        invariant live == old(live) - {id}
        invariant |gone| <= |all| && gone == all[|all| - |gone|..]
        invariant |gone| >= TOMBSTONES || gone == all
        decreases |gone|
      {
        gone := gone[1..];
      }
    }

    method EpitaphOf(id: nat) returns (reason: string)
      ensures reason == Epitaph(gone, id)
    {
      var i := 0;
      while i < |gone|
        invariant i <= |gone| && Epitaph(gone, id) == Epitaph(gone[i..], id)
      {
        if gone[i].id == id {
          return gone[i].reason;
        }
        i := i + 1;
      }
      return "unknown session";
    }
  }

  // ---- the mutable session ----

  class Session {
    const replay: ReplayBuffer
    var received: nat
    var ackedOut: nat
    var outq: seq<Frame>
    var inq: seq<bytes>
    var send: Option<nat>
    var conn: Option<nat>
    var attached: bool
    var generation: nat
    var parkEpoch: nat
    var dead: bool

    ghost function View(): Listener
      reads this, replay
    {
      Listener(replay.View(), received, ackedOut, outq, inq, send, conn, attached, generation, parkEpoch, dead)
    }

    /** The replay tracks everything ever read from sshd. */
    ghost predicate Valid()
      reads replay
    {
      replay.Valid()
    }

    constructor ()
      ensures View() == OPENED && Valid() && replay.stream == [] && fresh(replay)
    {
      hide Tracks;
      replay := new ReplayBuffer();
      received, ackedOut, outq, inq := 0, 0, [], [];
      send, conn, attached, generation, parkEpoch, dead := None, None, false, 0, 0, false;
    }

    method AttachTo(newConn: nat, tail: bytes) returns (closed: Option<nat>)
      requires Valid()
      modifies `outq, `send, `conn, `attached, `generation, `ackedOut
      ensures Valid()
      ensures View() == Attach(old(View()), newConn, tail) && closed == old(conn)
    {
      closed := conn;
      outq := [];
      outq := outq + DataFrames(tail, CHUNK);
      send := Some(newConn);
      conn := Some(newConn);
      attached := true;
      generation := generation + 1;
      ackedOut := received;
    }

    method ParkIt(grace: nat) returns (armed: Option<nat>)
      requires Valid()
      modifies `dead, `conn, `send, `attached, `generation, `parkEpoch
      ensures Valid()
      ensures View() == Park(old(View()), grace)
      ensures armed == if old(dead) || grace == 0 then None else Some(parkEpoch)
    {
      if dead {
        return None;
      }
      if grace == 0 {
        dead := true;
        return None;
      }
      conn := None;
      send := None;
      attached := false;
      generation := generation + 1;
      parkEpoch := parkEpoch + 1;
      return Some(parkEpoch);
    }

    method Expire(epoch: nat)
      requires Valid()
      modifies `dead
      ensures Valid()
      ensures View() == TimerFires(old(View()), epoch)
    {
      if !dead && !attached && parkEpoch == epoch {
        dead := true;
      }
    }

    method Offering(clientReceived: nat) returns (offer: Option<Offer>)
      requires Valid()
      ensures offer.Some? && SpanFits(View().replay, clientReceived) ==>
                clientReceived <= |replay.stream| && offer.value.tail == replay.stream[clientReceived..]
      ensures offer == OfferFor(View(), clientReceived)
    {
      var tail := replay.Tail(clientReceived);
      if tail.None? {
        return None;
      }
      return Some(Offer(tail.value, received));
    }

    method OnSshdRead(buf: bytes)
      requires Valid()
      modifies `outq, replay
      ensures Valid()
      ensures replay.stream == old(replay.stream) + buf
      ensures View() == SshdRead(old(View()), buf)
    {
      if buf != [] {
        replay.Record(buf);
        outq := outq + DataFrames(buf, CHUNK);
      }
    }

    method TakeWriteJob() returns (job: WriteJob)
      requires Valid()
      modifies `send, `outq, `attached, `conn
      ensures Valid()
      ensures (View(), job) == NextWriteJob(old(View()))
    {
      if attached {
        if send.Some? {
          var conn0 := send.value;
          send := None;
          if outq != [] {
            var f := outq[0];
            outq := outq[1..];
            return Send(f, generation, conn0);
          }
          if dead {
            attached := false;
            conn := None;
            return Finish(conn0);
          }
          send := Some(conn0);
        }
      } else if dead {
        return Exit;
      }
      return Wait;
    }

    method OnWritten(gen: nat, writtenOn: nat, ok: bool, grace: nat)
      requires Valid()
      modifies `dead, `conn, `send, `attached, `generation, `parkEpoch
      ensures Valid()
      ensures View() == WriteDone(old(View()), gen, writtenOn, ok, grace)
    {
      if generation != gen || !attached {
        return;
      }
      if ok {
        send := Some(writtenOn);
      } else {
        var _ := ParkIt(grace);
      }
    }

    method TakeInbound() returns (chunk: Option<bytes>)
      requires Valid()
      modifies `inq
      ensures Valid()
      ensures (View(), chunk) == NextInbound(old(View()))
    {
      if inq == [] {
        return None;
      }
      chunk := Some(inq[0]);
      inq := inq[1..];
    }

    method ApplyFrame(f: Frame, pings: bool) returns (violation: bool)
      requires Valid()
      modifies `received, `inq, `ackedOut, `outq, replay
      ensures Valid()
      ensures replay.stream == old(replay.stream)
      ensures (View(), violation) == Apply(old(View()), f, pings)
    {
      violation := false;
      match f {
        case Data(payload) =>
          received := received + |payload|;
          inq := inq + [payload];
          if received - ackedOut >= ACK_EVERY_BYTES {
            ackedOut := received;
            outq := outq + [TunnelCodec.Ack(received)];
          }
        case Ack(n) =>
          replay.Acknowledge(n);
        case HelloFrame(_) =>
          violation := true;
        case ReplyFrame(_) =>
          violation := true;
        case Ping(p) =>
          if pings {
            outq := outq + [Pong(p)];
          } else {
            violation := true;
          }
        case Pong(_) =>
          violation := !pings;
      }
    }

    method OnFrame(gen: nat, f: Frame, pings: bool, grace: nat)
      requires Valid()
      modifies this, replay
      ensures Valid()
      ensures replay.stream == old(replay.stream)
      ensures View() == ReadFrame(old(View()), gen, f, pings, grace)
    {
      if generation == gen {
        var violation := ApplyFrame(f, pings);
        if violation {
          var _ := ParkIt(grace);
        }
      }
    }

    method OnReadEnded(gen: nat, grace: nat)
      requires Valid()
      modifies `dead, `conn, `send, `attached, `generation, `parkEpoch
      ensures Valid()
      ensures View() == ReadEnded(old(View()), gen, grace)
    {
      if generation == gen && !dead {
        var _ := ParkIt(grace);
      }
    }
  }
}
