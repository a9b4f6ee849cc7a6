/**
 * The client's two byte streams over whole runs (wosh-client/src/lib.rs): the ACKs it owes the listener, what the
 * SSH core is fed, and what the replay holds.
 */
module ClientFlow {
  import opened Bytes
  import opened TunnelCodec
  import opened Replays
  import opened ClientSession

  /** `consume_frames` over what one read completed; a violation cuts it short before it asks for an ACK. */
  datatype Step =
    | ReadStep(frames: seq<Frame>, violated: bool)
    | TakeAckStep
    | OutputStep(output: bytes)
    | TakeOutboxStep
    | ResumedStep(peerReceived: nat)
    | InstallStep(deferred: bytes)

  function Do(w: Flow, step: Step): Flow {
    match step
    case ReadStep(frames, violated) => if violated then ConsumeAll(w, frames) else RequestAck(ConsumeAll(w, frames))
    case TakeAckStep => TakeAck(w).0
    case OutputStep(output) => QueueOutput(w, output)
    case TakeOutboxStep => TakeOutbox(w).0
    case ResumedStep(n) => OnResumed(w, n).0
    case InstallStep(deferred) => InstallFlow(w, deferred)
  }

  function At(steps: seq<Step>, n: nat): Flow
    requires n <= |steps|
  {
    if n == 0 then EMPTY_FLOW else Do(At(steps, n - 1), steps[n - 1])
  }

  // ---- what a read does ----

  /** The highest counter in a list of frames that an honest peer could send; stale and nonsense ones do not count. */
  function Highest(frames: seq<Frame>, acked: nat, sent: nat): nat {
    if frames == [] then acked
    else
      var last, before := frames[|frames| - 1], Highest(frames[..|frames| - 1], acked, sent);
      if last.Ack? && before < last.received <= sent then last.received else before
  }

  lemma {:induction false} ReadIs(w: Flow, frames: seq<Frame>, stream: bytes)
    requires Tracks(w.replay, stream)
    ensures var w1 := ConsumeAll(w, frames);
            && w1.fed == w.fed + Payload(frames)
            && w1.received == w.received + |Payload(frames)|
            && Tracks(w1.replay, stream)
            && w1.replay.acked == Highest(frames, w.replay.acked, |stream|)
            && w1.outbox == w.outbox && w1.ackDue == w.ackDue && w1.ackedToPeer == w.ackedToPeer
  {
    if frames == [] {
      assert w.fed + [] == w.fed;
    } else {
      var before, last := frames[..|frames| - 1], frames[|frames| - 1];
      var v := ConsumeAll(w, before);
      ReadIs(w, before, stream);
      PayloadLast(before, last);
      assert before + [last] == frames;
      assert w.fed + (Payload(before) + Payload([last])) == w.fed + Payload(before) + Payload([last]);
      assert v.fed + [] == v.fed;
      if last.Ack? {
        TracksLength(v.replay, stream);
        AckTracks(v.replay, stream, last.received);
      }
      hide Tracks;
    }
  }

  lemma PayloadLast(fs: seq<Frame>, f: Frame)
    ensures Payload(fs + [f]) == Payload(fs) + Payload([f])
    ensures Payload([f]) == if f.Data? then f.payload else []
  {
    PayloadAppend(fs, [f]);
    assert Payload([f]) == (if f.Data? then f.payload else []) + Payload([]);
    assert forall b: bytes :: b + [] == b;
  }

  // ---- whole runs ----

  /** Everything taken off the outbox so far. */
  ghost function Taken(steps: seq<Step>, n: nat): bytes
    requires n <= |steps|
  {
    if n == 0 then []
    else
      var before, entry := Taken(steps, n - 1), TakeOutbox(At(steps, n - 1)).1;
      if steps[n - 1].TakeOutboxStep? && entry.Some? then before + entry.value else before
  }

  ghost function Produced(steps: seq<Step>, n: nat): bytes
    requires n <= |steps|
  {
    if n == 0 then []
    else if steps[n - 1].OutputStep? then Produced(steps, n - 1) + steps[n - 1].output
    else Produced(steps, n - 1)
  }

  /** The DATA octets of every frame read and of everything that came ahead of a reply. */
  ghost function Arrived(steps: seq<Step>, n: nat): bytes
    requires n <= |steps|
  {
    if n == 0 then []
    else
      match steps[n - 1]
      case ReadStep(frames, _) => Arrived(steps, n - 1) + Payload(frames)
      case InstallStep(deferred) => Arrived(steps, n - 1) + deferred
      case _ => Arrived(steps, n - 1)
  }

  /** What the listener was last told of `received`. */
  ghost function Told(steps: seq<Step>, n: nat): nat
    requires n <= |steps|
  {
    if n == 0 then 0
    else
      match steps[n - 1]
      case TakeAckStep =>
        (match TakeAck(At(steps, n - 1)).1
         case Some(Ack(received)) => received
         case _ => Told(steps, n - 1))
      case _ => Told(steps, n - 1)
  }

  lemma InboundStep(w: Flow, step: Step, stream: bytes)
    requires Tracks(w.replay, stream)
    ensures var w1 := Do(w, step);
            match step
            case ReadStep(frames, _) =>
              w1.fed == w.fed + Payload(frames) && w1.received == w.received + |Payload(frames)|
            case InstallStep(deferred) => w1.fed == w.fed + deferred && w1.received == w.received + |deferred|
            case _ => w1.fed == w.fed && w1.received == w.received
    ensures var w1 := Do(w, step);
            match step
            case TakeAckStep =>
              if w.ackDue then TakeAck(w).1 == Some(TunnelCodec.Ack(w.received)) && w1.ackedToPeer == w.received
              else TakeAck(w).1 == None && w1.ackedToPeer == w.ackedToPeer
            case _ => w1.ackedToPeer == w.ackedToPeer
  {
    match step {
      case ReadStep(frames, _) => ReadIs(w, frames, stream);
      case _ =>
    }
  }

  lemma OutboundStep(w: Flow, step: Step, stream: bytes)
    requires Tracks(w.replay, stream)
    ensures var w1 := Do(w, step);
            match step
            case TakeOutboxStep =>
              (match TakeOutbox(w).1
               case Some(b) => w.outbox == [b] + w1.outbox && Tracks(w1.replay, stream + b)
               case None => w.outbox == w1.outbox == [] && Tracks(w1.replay, stream))
            case OutputStep(output) =>
              w1.outbox == (if output == [] then w.outbox else w.outbox + [output]) && Tracks(w1.replay, stream)
            case _ => w1.outbox == w.outbox && Tracks(w1.replay, stream)
  {
    hide Tracks;
    match step {
      case ReadStep(frames, _) => ReadIs(w, frames, stream);
      case ResumedStep(n) => AckTracks(w.replay, stream, n);
      case TakeOutboxStep =>
        if w.outbox != [] {
          SentTracks(w.replay, stream, w.outbox[0]);
        }
      case _ =>
    }
  }

  lemma AtNext(steps: seq<Step>, n: nat)
    requires 0 < n <= |steps|
    ensures At(steps, n) == Do(At(steps, n - 1), steps[n - 1])
  {
  }

  /** One step of the way from the core to the wire, with what was produced and taken before. */
  lemma OutboundStepKeeps(w: Flow, step: Step, produced: bytes, taken: bytes)
    requires produced == taken + Concat(w.outbox) && Tracks(w.replay, taken)
    ensures var w1 := Do(w, step);
            match step
            case TakeOutboxStep =>
              var entry := TakeOutbox(w).1;
              var taken' := if entry.Some? then taken + entry.value else taken;
              produced == taken' + Concat(w1.outbox) && Tracks(w1.replay, taken')
            case OutputStep(output) => produced + output == taken + Concat(w1.outbox) && Tracks(w1.replay, taken)
            case _ => produced == taken + Concat(w1.outbox) && Tracks(w1.replay, taken)
  {
    hide Do, Concat, Tracks, TakeOutbox;
    OutboundStep(w, step, taken);
    var w1 := Do(w, step);
    match step {
      case TakeOutboxStep =>
        var entry := TakeOutbox(w).1;
        if entry.Some? {
          ConcatEnds(w1.outbox, entry.value);
          assert taken + (entry.value + Concat(w1.outbox)) == taken + entry.value + Concat(w1.outbox);
        }
      case OutputStep(output) =>
        ConcatEnds(w.outbox, output);
        assert taken + Concat(w.outbox) + output == taken + (Concat(w.outbox) + output);
      case _ =>
    }
  }

  /** What the core produced was taken and recorded, or waits in the outbox, in order; the replay tracks the former. */
  lemma {:induction false} OutputIsKept(steps: seq<Step>, n: nat)
    requires n <= |steps|
    ensures Produced(steps, n) == Taken(steps, n) + Concat(At(steps, n).outbox)
    ensures Tracks(At(steps, n).replay, Taken(steps, n))
  {
    if n == 0 {
    } else {
      OutputIsKept(steps, n - 1);
      AtNext(steps, n);
      OutboundStepKeeps(At(steps, n - 1), steps[n - 1], Produced(steps, n - 1), Taken(steps, n - 1));
      hide At, Do, Concat, Tracks, TakeOutbox;
    }
  }

  /** The core is fed what arrived, `received` counts it, and `ackedToPeer` is what the listener was last told. */
  lemma {:induction false} InputIsKept(steps: seq<Step>, n: nat)
    requires n <= |steps|
    ensures var w := At(steps, n);
            w.fed == Arrived(steps, n) && w.received == |Arrived(steps, n)| && w.ackedToPeer == Told(steps, n)
  {
    if n == 0 {
    } else {
      InputIsKept(steps, n - 1);
      OutputIsKept(steps, n - 1);
      AtNext(steps, n);
      InboundStep(At(steps, n - 1), steps[n - 1], Taken(steps, n - 1));
      hide At, Do, Payload, Tracks, TakeAck;
    }
  }

  // ---- acknowledgements keep pace ----

  ghost predicate Paced(w: Flow) {
    w.ackDue || w.received < w.ackedToPeer + 128 * 1024
  }

  lemma PaceStep(w: Flow, step: Step)
    requires Paced(w) || (step.ReadStep? && !step.violated)
    requires !step.InstallStep? && !(step.ReadStep? && step.violated)
    ensures Paced(Do(w, step))
  {
  }

  /**
   * From the end of any read on, and over anything but another connection: an ACK is due, or less than 128 KiB have
   * arrived since the listener was last told. A connection starts without that, until its first read.
   */
  lemma {:induction false} AcksKeepPace(steps: seq<Step>, i: nat, n: nat)
    requires i < n <= |steps| && steps[i].ReadStep?
    requires forall k :: i <= k < n ==> !steps[k].InstallStep? && !(steps[k].ReadStep? && steps[k].violated)
    ensures var w := At(steps, n); w.ackDue || |Arrived(steps, n)| < Told(steps, n) + 128 * 1024
    decreases n
  {
    hide Do, Paced;
    InputIsKept(steps, n - 1);
    InputIsKept(steps, n);
    AtNext(steps, n);
    assert !steps[n - 1].InstallStep?;
    if i < n - 1 {
      AcksKeepPace(steps, i, n - 1);
    }
    PacedIs(At(steps, n - 1));
    PacedIs(At(steps, n));
    PaceStep(At(steps, n - 1), steps[n - 1]);
  }

  lemma PacedIs(w: Flow)
    ensures Paced(w) <==> w.ackDue || w.received < w.ackedToPeer + 128 * 1024
  {
  }

  /** A read asks for an ACK exactly if 128 KiB have arrived since the listener was last told. */
  lemma AckAskedIff(steps: seq<Step>, i: nat)
    requires i < |steps| && steps[i].ReadStep? && !At(steps, i).ackDue
    ensures At(steps, i + 1).ackDue <==>
            !steps[i].violated && |Arrived(steps, i + 1)| >= Told(steps, i) + 128 * 1024
  {
    hide Arrived, Told, Tracks;
    InputIsKept(steps, i);
    InputIsKept(steps, i + 1);
    OutputIsKept(steps, i);
    AtNext(steps, i + 1);
    ReadIs(At(steps, i), steps[i].frames, Taken(steps, i));
  }

  /** An ACK that is due is taken with the counter of that moment; a new connection owes none. */
  lemma AckTaken(steps: seq<Step>, i: nat)
    requires i < |steps|
    ensures var w, w1 := At(steps, i), At(steps, i + 1);
            && (steps[i].TakeAckStep? && w.ackDue ==>
                  TakeAck(w).1 == Some(TunnelCodec.Ack(|Arrived(steps, i)|)) && !w1.ackDue)
            && (steps[i].TakeAckStep? && !w.ackDue ==> TakeAck(w).1 == None && w1 == w)
            && (steps[i].InstallStep? ==> !w1.ackDue)
  {
    hide Arrived;
    InputIsKept(steps, i);
    AtNext(steps, i + 1);
  }

  // ---- acknowledgements heard ----

  /**
   * The replay is trimmed by the ACKs read, up to the highest that is neither stale nor nonsense, and by an answer
   * `Resumed` whose tail is still held, which is what is sent again.
   */
  lemma TrimmedByTheListener(steps: seq<Step>, i: nat)
    requires i < |steps|
    ensures var w, w1, sent := At(steps, i), At(steps, i + 1), Taken(steps, i);
            match steps[i]
            case ReadStep(frames, _) => w1.replay.acked == Highest(frames, w.replay.acked, |sent|)
            case ResumedStep(n) =>
              if n <= |sent| && |sent| - n <= |w.replay.buf| && SpanFits(w.replay, n)
              then OnResumed(w, n).1 == Some(sent[n..])
                   && w1.replay.acked == if n > w.replay.acked then n else w.replay.acked
              else SpanFits(w.replay, n) ==> OnResumed(w, n).1 == None && w1 == w
            case _ => w1.replay.acked == w.replay.acked
  {
    var w, sent := At(steps, i), Taken(steps, i);
    OutputIsKept(steps, i);
    AtNext(steps, i + 1);
    match steps[i] {
      case ReadStep(frames, _) => ReadIs(w, frames, sent);
      case ResumedStep(n) =>
        if SpanFits(w.replay, n) {
          ResumedIs(w, sent, n);
        }
      case _ =>
    }
    hide Tracks, TailFrom;
  }

  lemma ResumedIs(w: Flow, sent: bytes, n: nat)
    requires Tracks(w.replay, sent) && SpanFits(w.replay, n)
    ensures if n <= |sent| && |sent| - n <= |w.replay.buf|
            then OnResumed(w, n).1 == Some(sent[n..])
                 && OnResumed(w, n).0.replay.acked == if n > w.replay.acked then n else w.replay.acked
            else OnResumed(w, n) == (w, None)
  {
    TracksLength(w.replay, sent);
    TailLength(w.replay, n);
    TailExactIffSpanFits(w.replay, sent, n);
    AckTracks(w.replay, sent, n);
  }
}
