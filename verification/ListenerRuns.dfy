/**
 * What the listener's half of a session does over whole runs (listener-core/src/session.rs): the ACKs it owes, the
 * order in which things reach the client, what ends an attachment and what ends the session.
 */
module ListenerRuns {
  import opened Bytes
  import opened TunnelCodec
  import opened Replays
  import opened ListenerSession

  // ---- acknowledgements keep pace ----

  /** What the client was last told of `received`, by the answer that preceded an attach or by a queued ACK. */
  function ToldAfter(st: Listener, step: Step, st1: Listener, told: nat): nat {
    if step.AttachStep? then st.received
    else if |st1.outq| > |st.outq| && st1.outq[|st1.outq| - 1].Ack? then st1.outq[|st1.outq| - 1].received
    else told
  }

  ghost function Told(steps: seq<Step>, n: nat, grace: nat): nat
    requires n <= |steps|
  {
    if n == 0 then 0
    else ToldAfter(At(steps, n - 1, grace), steps[n - 1], At(steps, n, grace), Told(steps, n - 1, grace))
  }

  lemma AckStep(st: Listener, step: Step, grace: nat)
    requires st.ackedOut <= st.received < st.ackedOut + 128 * 1024
    ensures var st1 := Do(st, step, grace);
            && st1.ackedOut <= st1.received < st1.ackedOut + 128 * 1024
            && st.received <= st1.received
            && (step.AttachStep? ==> st1.ackedOut == st1.received == st.received)
            && (!step.AttachStep? && st1.ackedOut != st.ackedOut ==>
                  st1.ackedOut == st1.received && st1.outq == st.outq + [TunnelCodec.Ack(st1.received)])
            && st1.ackedOut == ToldAfter(st, step, st1, st.ackedOut)
  {
    hide Chunks;
  }

  /** The client was last told `told`, and less than 128 KiB have come in since. */
  ghost predicate Paced(st: Listener, told: nat) {
    st.ackedOut == told && told <= st.received < told + 128 * 1024
  }

  lemma PaceStep(st: Listener, step: Step, grace: nat, told: nat)
    requires Paced(st, told)
    ensures var st1 := Do(st, step, grace); Paced(st1, ToldAfter(st, step, st1, told))
  {
    hide Do, ToldAfter;
    AckStep(st, step, grace);
  }

  lemma {:induction false} RunIsPaced(steps: seq<Step>, n: nat, grace: nat)
    requires n <= |steps|
    ensures Paced(At(steps, n, grace), Told(steps, n, grace))
  {
    if n == 0 {
    } else {
      hide Do, ToldAfter, Paced;
      RunIsPaced(steps, n - 1, grace);
      PaceStep(At(steps, n - 1, grace), steps[n - 1], grace, Told(steps, n - 1, grace));
    }
  }

  /**
   * In every reachable state less than 128 KiB have been received since the client was last told; `ackedOut` is what
   * it was told.
   */
  lemma AcksKeepPace(steps: seq<Step>, n: nat, grace: nat)
    requires n <= |steps|
    ensures var st := At(steps, n, grace);
            && st.ackedOut == Told(steps, n, grace)
            && Told(steps, n, grace) <= st.received < Told(steps, n, grace) + 128 * 1024
  {
    hide At, Told;
    RunIsPaced(steps, n, grace);
  }

  /** Outside an attach `ackedOut` moves only together with one ACK of the new counter, put last into the queue. */
  lemma AckIsQueued(steps: seq<Step>, i: nat, grace: nat)
    requires i < |steps|
    ensures var a, b := At(steps, i, grace), At(steps, i + 1, grace);
            && (steps[i].AttachStep? ==> b.ackedOut == b.received == a.received)
            && (!steps[i].AttachStep? && b.ackedOut != a.ackedOut ==>
                  b.ackedOut == b.received && b.outq == a.outq + [TunnelCodec.Ack(b.received)])
  {
    hide Do;
    AcksKeepPace(steps, i, grace);
    AckStep(At(steps, i, grace), steps[i], grace);
  }

  lemma AtNext(steps: seq<Step>, n: nat, grace: nat)
    requires 0 < n <= |steps|
    ensures At(steps, n, grace) == Do(At(steps, n - 1, grace), steps[n - 1], grace)
  {
  }

  // ---- what reaches the writer, and in which order ----

  /** What one step adds to what the current attachment is owed, `told` being what the client was last told. */
  function OwedAfter(st: Listener, step: Step, told: nat, owed: seq<Frame>): seq<Frame> {
    match step
    case AttachStep(_, tail) => DataFrames(tail, CHUNK)
    case SshdStep(buf) => owed + DataFrames(buf, CHUNK)
    case FrameStep(g, Ping(word), true) => if g == st.generation then owed + [Pong(word)] else owed
    case FrameStep(g, Data(payload), _) =>
      var received := st.received + |payload|;
      if g == st.generation && received >= told + 128 * 1024 then owed + [TunnelCodec.Ack(received)] else owed
    case _ => owed
  }

  ghost function Owed(steps: seq<Step>, n: nat, grace: nat): seq<Frame>
    requires n <= |steps|
  {
    if n == 0 then []
    else OwedAfter(At(steps, n - 1, grace), steps[n - 1], Told(steps, n - 1, grace), Owed(steps, n - 1, grace))
  }

  /** And to what pump B was given to write since the current attachment. */
  function HandedAfter(st: Listener, step: Step, handed: seq<Frame>): seq<Frame> {
    match step
    case AttachStep(_, _) => []
    case JobStep => if NextWriteJob(st).1.Send? then handed + [NextWriteJob(st).1.frame] else handed
    case _ => handed
  }

  ghost function Handed(steps: seq<Step>, n: nat, grace: nat): seq<Frame>
    requires n <= |steps|
  {
    if n == 0 then []
    else HandedAfter(At(steps, n - 1, grace), steps[n - 1], Handed(steps, n - 1, grace))
  }

  lemma QueueStep(st: Listener, step: Step, grace: nat)
    ensures var b := Do(st, step, grace);
            match step
            case AttachStep(_, tail) => b.outq == DataFrames(tail, CHUNK)
            case SshdStep(buf) => b.outq == st.outq + DataFrames(buf, CHUNK)
            case FrameStep(g, Ping(word), true) =>
              b.outq == if g == st.generation then st.outq + [Pong(word)] else st.outq
            case FrameStep(g, Data(payload), _) =>
              b.outq == if g == st.generation && st.received + |payload| >= st.ackedOut + 128 * 1024
                        then st.outq + [TunnelCodec.Ack(st.received + |payload|)] else st.outq
            case JobStep =>
              (match NextWriteJob(st).1
               case Send(f, _, _) => st.outq == [f] + b.outq
               case _ => b.outq == st.outq)
            case _ => b.outq == st.outq
  {
    hide Chunks;
  }

  /** One step of the way through the queue, with what was owed and handed out before. */
  lemma FifoStep(st: Listener, step: Step, grace: nat, owed: seq<Frame>, handed: seq<Frame>)
    requires owed == handed + st.outq
    ensures OwedAfter(st, step, st.ackedOut, owed) == HandedAfter(st, step, handed) + Do(st, step, grace).outq
  {
    QueueStep(st, step, grace);
    var outq := Do(st, step, grace).outq;
    hide Do, DataFrames, NextWriteJob;
    if step.JobStep? && NextWriteJob(st).1.Send? {
      var f := NextWriteJob(st).1.frame;
      assert handed + ([f] + outq) == handed + [f] + outq;
    }
  }

  /**
   * Since the last attach: what is owed was handed to the writer or still waits in the queue, in order. Nothing is
   * dropped, doubled or overtaken, every PING is echoed, and every ACK is there.
   */
  lemma {:induction false} QueueIsFifo(steps: seq<Step>, n: nat, grace: nat)
    requires n <= |steps|
    ensures Owed(steps, n, grace) == Handed(steps, n, grace) + At(steps, n, grace).outq
  {
    if n == 0 {
    } else {
      QueueIsFifo(steps, n - 1, grace);
      AcksKeepPace(steps, n - 1, grace);
      AtNext(steps, n, grace);
      FifoStep(At(steps, n - 1, grace), steps[n - 1], grace, Owed(steps, n - 1, grace), Handed(steps, n - 1, grace));
      hide At, Do, OwedAfter, HandedAfter, Told;
    }
  }

  /** Pump B finishes the stream of a dead session exactly when everything owed to it has been handed out. */
  lemma FinishIffFlushed(steps: seq<Step>, n: nat, grace: nat, conn: nat)
    requires n <= |steps|
    ensures var st := At(steps, n, grace);
            && (NextWriteJob(st).1 == Finish(conn) <==>
                  st.dead && st.attached && st.send == Some(conn) && Owed(steps, n, grace) == Handed(steps, n, grace))
            && (NextWriteJob(st).1.Finish? ==>
                  !NextWriteJob(st).0.attached && NextWriteJob(st).0.conn.None? && NextWriteJob(st).0.send.None?)
            && (NextWriteJob(st).1 == Exit <==> st.dead && !st.attached)
  {
    QueueIsFifo(steps, n, grace);
    var owed, handed, outq := Owed(steps, n, grace), Handed(steps, n, grace), At(steps, n, grace).outq;
    assert owed == handed <==> outq == [] by {
      assert |owed| == |handed| + |outq|;
      assert handed + [] == handed;
    }
  }

  /** A write is only started with the write half at hand, under the generation that owns it, and takes it away. */
  lemma WritesOneAtATime(st: Listener, f: Frame, generation: nat, conn: nat)
    ensures NextWriteJob(st).1 == Send(f, generation, conn) <==>
            && st.attached && st.send == Some(conn) && st.generation == generation
            && st.outq != [] && st.outq[0] == f
    ensures NextWriteJob(st).1.Send? ==>
              NextWriteJob(st).0.send.None? && NextWriteJob(NextWriteJob(st).0).1 == ListenerSession.Wait
  {
  }

  // ---- what ends an attachment, and what ends the session ----

  /** The current attachment fails: its write, its read side, or the protocol. */
  ghost predicate Loses(st: Listener, step: Step) {
    match step
    case WrittenStep(g, _, ok) => g == st.generation && st.attached && !ok
    case EndedStep(g) => g == st.generation
    case FrameStep(g, HelloFrame(_), _) => g == st.generation
    case FrameStep(g, ReplyFrame(_), _) => g == st.generation
    case FrameStep(g, Ping(_), pings) => g == st.generation && !pings
    case FrameStep(g, Pong(_), pings) => g == st.generation && !pings
    case _ => false
  }

  /**
   * A live session is parked exactly when its current attachment fails and there is a grace period, and then keeps
   * both streams; it dies exactly without one, at its timer, or when it is ended.
   */
  lemma ParkedIffLost(steps: seq<Step>, i: nat, grace: nat)
    requires i < |steps| && !At(steps, i, grace).dead
    ensures var a, b := At(steps, i, grace), At(steps, i + 1, grace);
            && (Parks(steps, i, grace) <==> Loses(a, steps[i]) && grace > 0)
            && (Parks(steps, i, grace) ==>
                  b == a.(attached := false, conn := None, send := None,
                          generation := a.generation + 1, parkEpoch := a.parkEpoch + 1))
            && (b.dead <==> (Loses(a, steps[i]) && grace == 0) || steps[i].EndStep?
                            || (steps[i] == TimerStep(a.parkEpoch) && !a.attached))
            && (b.dead ==> b == a.(dead := true))
  {
    hide DataFrames;
  }

  /** An attach takes the session over whole, and keeps both streams; a write that worked gives the write half back. */
  lemma AttachTakesOver(steps: seq<Step>, i: nat, grace: nat)
    requires i < |steps|
    ensures var a, b := At(steps, i, grace), At(steps, i + 1, grace);
            match steps[i]
            case AttachStep(conn, _) =>
              && b.attached && b.conn == b.send == Some(conn) && b.generation == a.generation + 1
              && b.replay == a.replay && b.received == a.received && b.inq == a.inq
              && b.parkEpoch == a.parkEpoch && b.dead == a.dead
            case WrittenStep(g, conn, true) =>
              b == if g == a.generation && a.attached then a.(send := Some(conn)) else a
            case _ => true
  {
  }

  /** After its death a session takes no new sides: nothing parks it, and only an attach raises its generation. */
  lemma DeadIsNotParked(steps: seq<Step>, i: nat, grace: nat)
    requires i < |steps| && At(steps, i, grace).dead
    ensures !Parks(steps, i, grace)
    ensures At(steps, i + 1, grace).dead
  {
    hide DataFrames;
  }

  ghost predicate Whole(st: Listener) {
    && (st.attached <==> st.conn.Some?)
    && (st.send.Some? ==> st.attached)
  }

  lemma WholeStep(st: Listener, step: Step, grace: nat)
    requires Whole(st)
    ensures Whole(Do(st, step, grace))
  {
    hide DataFrames;
  }

  /** An attachment comes and goes as a whole: no connection is held, and nothing is writable, while unattached. */
  lemma {:induction false} AttachmentIsWhole(steps: seq<Step>, n: nat, grace: nat)
    requires n <= |steps|
    ensures var st := At(steps, n, grace);
            (st.attached <==> st.conn.Some?) && (st.send.Some? ==> st.attached)
  {
    if n == 0 {
    } else {
      hide Do;
      AttachmentIsWhole(steps, n - 1, grace);
      WholeStep(At(steps, n - 1, grace), steps[n - 1], grace);
    }
  }

  /** Nobody attaches and nothing parks between a park and a later moment: the session is then as the park left it. */
  lemma {:induction false} StaysParked(steps: seq<Step>, j: nat, i: nat, epoch: nat, grace: nat)
    requires Arms(steps, j, epoch, grace) && j < i <= |steps|
    requires forall m :: j < m < i ==> !Attaches(steps, m) && !Parks(steps, m, grace)
    ensures At(steps, i, grace).parkEpoch == epoch && !At(steps, i, grace).attached
    decreases i
  {
    hide Do;
    if i == j + 1 {
      StepOrder(At(steps, j, grace), steps[j], grace);
    } else {
      StaysParked(steps, j, i - 1, epoch, grace);
      assert !Attaches(steps, i - 1) && !Parks(steps, i - 1, grace);
      DetachedStep(At(steps, i - 1, grace), steps[i - 1], grace);
    }
  }

  lemma DetachedStep(st: Listener, step: Step, grace: nat)
    requires !st.attached && !step.AttachStep?
    ensures !Do(st, step, grace).attached
  {
  }

  /** The grace timer of a park ends a live session exactly if nobody attached and nothing parked it since. */
  lemma TimerEndsIffAbandoned(steps: seq<Step>, j: nat, i: nat, grace: nat)
    requires j < i < |steps| && steps[i].TimerStep?
    requires Arms(steps, j, steps[i].epoch, grace) && !At(steps, i, grace).dead
    ensures At(steps, i + 1, grace).dead <==>
            forall m :: j < m < i ==> !Attaches(steps, m) && !Parks(steps, m, grace)
  {
    hide Do;
    if At(steps, i + 1, grace).dead {
      TimerEndsOnlyAbandonedSessions(steps, j, i, grace);
    }
    if forall m :: j < m < i ==> !Attaches(steps, m) && !Parks(steps, m, grace) {
      StaysParked(steps, j, i, steps[i].epoch, grace);
      ParkedIffLost(steps, i, grace);
    }
  }

  // ---- both streams ----

  /** What sshd was given, what still waits for it, and what the attachments carried. */
  ghost function Carried(steps: seq<Step>, n: nat, grace: nat): bytes
    requires n <= |steps|
  {
    if n == 0 then []
    else
      var before := Carried(steps, n - 1, grace);
      match steps[n - 1]
      case FrameStep(g, Data(payload), _) =>
        if g == At(steps, n - 1, grace).generation then before + payload else before
      case _ => before
  }

  ghost function GivenToSshd(steps: seq<Step>, n: nat, grace: nat): bytes
    requires n <= |steps|
  {
    if n == 0 then []
    else
      var a, before := At(steps, n - 1, grace), GivenToSshd(steps, n - 1, grace);
      if steps[n - 1].InboundStep? && NextInbound(a).1.Some? then before + NextInbound(a).1.value else before
  }

  ghost function FromSshd(steps: seq<Step>, n: nat): bytes
    requires n <= |steps|
  {
    if n == 0 then []
    else if steps[n - 1].SshdStep? then FromSshd(steps, n - 1) + steps[n - 1].buf
    else FromSshd(steps, n - 1)
  }

  lemma StreamStep(st: Listener, step: Step, grace: nat)
    ensures var b := Do(st, step, grace);
            match step
            case FrameStep(g, Data(payload), _) =>
              && b.inq == (if g == st.generation then st.inq + [payload] else st.inq)
              && b.received == if g == st.generation then st.received + |payload| else st.received
            case InboundStep =>
              && b.received == st.received
              && (match NextInbound(st).1
                  case Some(chunk) => st.inq == [chunk] + b.inq
                  case None => st.inq == b.inq == [])
            case _ => b.inq == st.inq && b.received == st.received
  {
    hide DataFrames;
  }

  lemma ReplayStep(st: Listener, step: Step, grace: nat, sshd: bytes)
    requires Tracks(st.replay, sshd)
    ensures var b := Do(st, step, grace);
            && Tracks(b.replay, if step.SshdStep? then sshd + step.buf else sshd)
            && b.replay.acked == match step
                                 case FrameStep(g, Ack(n), _) =>
                                   if g == st.generation && st.replay.acked < n <= |sshd| then n else st.replay.acked
                                 case _ => st.replay.acked
  {
    hide DataFrames, Tracks;
    match step {
      case SshdStep(buf) =>
        assert sshd + [] == sshd;
        SentTracks(st.replay, sshd, buf);
      case FrameStep(g, Ack(n), _) =>
        TracksLength(st.replay, sshd);
        AckTracks(st.replay, sshd, n);
      case _ =>
    }
  }

  /** One step of the way from an attachment to sshd, with what went that way before. */
  lemma InboundStepKeeps(st: Listener, step: Step, grace: nat, carried: bytes, given: bytes)
    requires carried == given + Concat(st.inq) && st.received == |carried|
    ensures var b := Do(st, step, grace);
            match step
            case FrameStep(g, Data(payload), _) =>
              var carried' := if g == st.generation then carried + payload else carried;
              carried' == given + Concat(b.inq) && b.received == |carried'|
            case InboundStep =>
              var given' := if NextInbound(st).1.Some? then given + NextInbound(st).1.value else given;
              carried == given' + Concat(b.inq) && b.received == |carried|
            case _ => carried == given + Concat(b.inq) && b.received == |carried|
  {
    StreamStep(st, step, grace);
    var b := Do(st, step, grace);
    hide Do, Concat, NextInbound;
    match step {
      case FrameStep(g, Data(payload), _) =>
        ConcatEnds(st.inq, payload);
        assert given + Concat(st.inq) + payload == given + (Concat(st.inq) + payload);
      case InboundStep =>
        if NextInbound(st).1.Some? {
          var chunk := NextInbound(st).1.value;
          ConcatEnds(b.inq, chunk);
          assert given + (chunk + Concat(b.inq)) == given + chunk + Concat(b.inq);
        }
      case _ =>
    }
  }

  /**
   * Over every park, resume and supersede: what the attachments carried is what sshd was given and what waits for
   * it, octet for octet, and `received` counts it.
   */
  lemma {:induction false} InboundIsKept(steps: seq<Step>, n: nat, grace: nat)
    requires n <= |steps|
    ensures var st := At(steps, n, grace);
            && Carried(steps, n, grace) == GivenToSshd(steps, n, grace) + Concat(st.inq)
            && st.received == |Carried(steps, n, grace)|
  {
    if n == 0 {
    } else {
      InboundIsKept(steps, n - 1, grace);
      AtNext(steps, n, grace);
      var a := At(steps, n - 1, grace);
      InboundStepKeeps(a, steps[n - 1], grace, Carried(steps, n - 1, grace), GivenToSshd(steps, n - 1, grace));
      hide At, Do, Concat, NextInbound;
    }
  }

  /** The replay tracks everything sshd ever said. */
  lemma {:induction false} ReplayIsKept(steps: seq<Step>, n: nat, grace: nat)
    requires n <= |steps|
    ensures Tracks(At(steps, n, grace).replay, FromSshd(steps, n))
  {
    if n == 0 {
    } else {
      ReplayIsKept(steps, n - 1, grace);
      AtNext(steps, n, grace);
      ReplayStep(At(steps, n - 1, grace), steps[n - 1], grace, FromSshd(steps, n - 1));
      hide At, Do, Tracks;
    }
  }

  /** An ACK on the current attachment trims the replay to it, unless it is stale or nonsense; nothing else does. */
  lemma AcksTrimTheReplay(steps: seq<Step>, i: nat, grace: nat)
    requires i < |steps|
    ensures var a, b := At(steps, i, grace), At(steps, i + 1, grace);
            b.replay.acked == match steps[i]
                              case FrameStep(g, Ack(n), _) =>
                                if g == a.generation && a.replay.acked < n <= |FromSshd(steps, i)| then n
                                else a.replay.acked
                              case _ => a.replay.acked
  {
    hide Do, Tracks;
    ReplayIsKept(steps, i, grace);
    ReplayStep(At(steps, i, grace), steps[i], grace, FromSshd(steps, i));
  }

  // ---- epitaphs ----

  /** The epitaphs kept after these burials. */
  function Graves(burials: seq<Tombstone>): seq<Tombstone> {
    if burials == [] then []
    else LastOf(Graves(burials[..|burials| - 1]) + [burials[|burials| - 1]], TOMBSTONES)
  }

  /** Exactly the last 64 burials are remembered, in order. */
  lemma {:induction false} LastBurialsRemembered(burials: seq<Tombstone>)
    ensures Graves(burials) == if |burials| <= 64 then burials else burials[|burials| - 64..]
  {
    if burials == [] {
    } else {
      LastBurialsRemembered(burials[..|burials| - 1]);
    }
  }

  lemma {:induction false} EpitaphIs(gone: seq<Tombstone>, id: nat)
    ensures (forall k :: 0 <= k < |gone| ==> gone[k].id != id) ==> Epitaph(gone, id) == "unknown session"
    ensures forall k :: 0 <= k < |gone| && gone[k].id == id && (forall m :: 0 <= m < k ==> gone[m].id != id) ==>
              Epitaph(gone, id) == gone[k].reason
  {
    if gone == [] {
    } else {
      EpitaphIs(gone[1..], id);
      forall k | 0 <= k < |gone| && gone[k].id == id && (forall m :: 0 <= m < k ==> gone[m].id != id)
        ensures Epitaph(gone, id) == gone[k].reason
      {
        if k > 0 {
          assert gone[1..][k - 1] == gone[k];
        }
      }
    }
  }

  /** A session buried once is answered with its own reason until 64 others were buried after it. */
  lemma EpitaphIsRemembered(burials: seq<Tombstone>, k: nat)
    requires k < |burials| && forall m :: 0 <= m < |burials| && m != k ==> burials[m].id != burials[k].id
    ensures Epitaph(Graves(burials), burials[k].id)
            == if |burials| - k <= 64 then burials[k].reason else "unknown session"
  {
    hide Epitaph, Graves;
    LastBurialsRemembered(burials);
    var g := Graves(burials);
    EpitaphIs(g, burials[k].id);
    if |burials| - k <= 64 {
      var at := k - (|burials| - |g|);
      assert g[at] == burials[k];
      assert forall m :: 0 <= m < at ==> g[m].id != burials[k].id;
    }
  }
}
