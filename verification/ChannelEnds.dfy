/**
 * How a bulk channel ends (ssh-core/core/channel.go): which event leads to which phase, what happens to the tail the
 * far end sent before it hung up, and what `finish` sets going.
 */
module ChannelEnds {
  import opened Bytes
  import opened BulkChannel

  // ---- which event leads where ----

  /** The four ways to the terminal state: the open is refused, a read breaks, a write fails, the embedder closes. */
  ghost predicate Closes(c: System, step: Step) {
    match step
    case Refused => c.reader.NotReading?
    case EndReading => c.reader == Ending(Broken)
    case WriteFails => c.writer.InWrite?
    case CallClose => true
    case _ => false
  }

  /** The far end has hung up and the reader acts on it. */
  ghost predicate HangsUp(c: System, step: Step) {
    step.EndReading? && c.reader == Ending(EndOfStream)
  }

  lemma PhaseStep(c: System, step: Step)
    ensures var d := Do(c, step);
            d.shared.phase == if c.shared.phase == Closed || Closes(c, step) then Closed
                              else if HangsUp(c, step) then Eof
                              else c.shared.phase
    ensures !HangsUp(c, step) || !Closes(c, step)
  {
    hide TakeJob, RoomIn;
    if step.TopOfWrite? {
      JobKeepsPhase(c.shared);
    }
  }

  lemma JobKeepsPhase(c: Shared)
    ensures TakeJob(c).0.phase == c.phase
  {
  }

  /** A channel is closed by exactly these events, and a far end that hangs up is not one of them: it leads to `eof`. */
  lemma ClosedIff(steps: seq<Step>, i: nat)
    requires i < |steps| && At(steps, i).shared.phase != Closed
    ensures var c, d := At(steps, i), At(steps, i + 1);
            && (d.shared.phase == Closed <==> Closes(c, steps[i]))
            && (HangsUp(c, steps[i]) ==> d.shared.phase == Eof)
            && (d.shared.phase == Eof && c.shared.phase == Open ==> HangsUp(c, steps[i]))
  {
    hide Do;
    PhaseStep(At(steps, i), steps[i]);
  }

  /** Whatever the reader ends with is what a read of this run returned. */
  lemma {:induction false} EndingWasReturned(steps: seq<Step>, n: nat) returns (i: nat)
    requires n <= |steps|
    requires var r := At(steps, n).reader; r.Ending? || (r.Holding? && r.error.Some?)
    ensures i < n && steps[i].ReadReturns? && At(steps, i).reader.InRead?
    ensures var r := At(steps, n).reader;
            steps[i].error == Some(if r.Ending? then r.why else r.error.value)
    ensures At(steps, n).fetched == At(steps, i).fetched + steps[i].data
  {
    var c, d := At(steps, n - 1), At(steps, n);
    ReaderStep(c, steps[n - 1]);
    hide Do;
    if steps[n - 1].ReadReturns? && c.reader.InRead? && d.reader != c.reader {
      i := n - 1;
    } else {
      i := EndingWasReturned(steps, n - 1);
    }
  }

  lemma ReaderStep(c: System, step: Step)
    ensures var d := Do(c, step);
            && (d.reader.Ending? ==>
                  d.fetched == c.fetched
                  && (d.reader == c.reader || (c.reader.Holding? && c.reader.error == Some(d.reader.why))))
            && (d.reader.Holding? && d.reader != c.reader ==>
                  step == ReadReturns(d.reader.data, d.reader.error) && c.reader.InRead?
                  && d.fetched == c.fetched + d.reader.data)
            && (d.reader.Holding? && d.reader == c.reader ==> d.fetched == c.fetched)
  {
    hide TakeJob, RoomIn;
  }

  /** From step `i` to before step `j` nothing closes the channel. */
  ghost predicate NothingCloses(steps: seq<Step>, i: nat, j: nat)
    requires j <= |steps|
  {
    forall k :: i <= k < j ==> !Closes(At(steps, k), steps[k])
  }

  lemma {:induction false} EofLasts(steps: seq<Step>, i: nat, j: nat)
    requires i < j <= |steps| && At(steps, i).shared.phase != Closed && HangsUp(At(steps, i), steps[i])
    requires NothingCloses(steps, i + 1, j)
    ensures At(steps, j).shared.phase == Eof
    decreases j
  {
    hide Do, Closes;
    if i + 1 == j {
      PhaseStep(At(steps, i), steps[i]);
    } else {
      EofLasts(steps, i, j - 1);
      assert !Closes(At(steps, j - 1), steps[j - 1]);
      PhaseStep(At(steps, j - 1), steps[j - 1]);
    }
  }

  /**
   * The tail is not eaten: after the far end hung up, and until one of the four events, everything it ever sent has
   * been handed to the embedder or still waits for it, in order, and nothing more is read.
   */
  lemma TailSurvives(steps: seq<Step>, i: nat, j: nat)
    requires i < j <= |steps| && At(steps, i).shared.phase != Closed && HangsUp(At(steps, i), steps[i])
    requires NothingCloses(steps, i + 1, j)
    ensures var d := At(steps, j);
            && d.shared.phase == Eof
            && d.fetched == At(steps, i).fetched
            && d.fetched == d.drained + d.shared.inbound
  {
    hide *;
    HungUp(steps, i);
    EofLasts(steps, i, j);
    WhileEof(steps, i + 1, j);
  }

  lemma HungUp(steps: seq<Step>, i: nat)
    requires i < |steps| && At(steps, i).shared.phase != Closed && HangsUp(At(steps, i), steps[i])
    ensures At(steps, i + 1).shared.phase == Eof && At(steps, i + 1).fetched == At(steps, i).fetched
  {
    PhaseStep(At(steps, i), steps[i]);
    FetchedKept(At(steps, i), steps[i]);
  }

  lemma WhileEof(steps: seq<Step>, i: nat, j: nat)
    requires i <= j <= |steps| && At(steps, i).shared.phase == Eof && At(steps, j).shared.phase == Eof
    ensures var d := At(steps, j);
            d.fetched == At(steps, i).fetched && d.fetched == d.drained + d.shared.inbound
  {
    hide *;
    PhasesOnlyAdvance(steps, i, j);
  }

  lemma FetchedKept(c: System, step: Step)
    requires !step.ReadReturns?
    ensures Do(c, step).fetched == c.fetched
  {
    hide TakeJob, RoomIn;
  }

  /** A drain hands over the front of the buffer, and less than asked for only if it empties it. */
  lemma DrainGives(steps: seq<Step>, i: nat, max: nat)
    requires i < |steps| && steps[i] == CallDrain(max)
    ensures var c, d := At(steps, i), At(steps, i + 1);
            && c.drained <= d.drained
            && (|d.drained| == |c.drained| + max || d.shared.inbound == [])
            && |d.drained| <= |c.drained| + max
            && d == c.(drained := d.drained, shared := c.shared.(inbound := d.shared.inbound))
            && c.drained + c.shared.inbound == d.drained + d.shared.inbound
  {
    var c := At(steps, i);
    var k := Min(|c.shared.inbound|, max);
    assert c.shared.inbound == c.shared.inbound[..k] + c.shared.inbound[k..];
    assert c.drained + c.shared.inbound == c.drained + c.shared.inbound[..k] + c.shared.inbound[k..];
  }

  /**
   * The reader reads whenever there is room: it parks exactly on a full buffer, and a read may take all the room there
   * is, up to its chunk.
   */
  lemma ReaderParksIffFull(steps: seq<Step>, i: nat)
    requires i < |steps| && steps[i].AwaitRoom? && At(steps, i).reader.AtRoom?
    ensures var c, d := At(steps, i), At(steps, i + 1);
            && (d.reader.AtRoom? <==> c.shared.phase != Closed && |c.shared.inbound| == 262_144)
            && (d.reader.ReaderGone? <==> c.shared.phase == Closed)
            && (d.reader.InRead? ==>
                  d.reader.room == 32_768
                  || (d.reader.room < 32_768 && |c.shared.inbound| + d.reader.room == 262_144))
            && d == c.(reader := d.reader)
  {
    RunOk(steps, i);
  }

  // ---- the goroutines ----

  /** These steps and no others. */
  function Drive(c: System, steps: seq<Step>): System {
    if steps == [] then c else Do(Drive(c, steps[..|steps| - 1]), steps[|steps| - 1])
  }

  lemma DriveSnoc(c: System, steps: seq<Step>, step: Step)
    ensures Drive(c, steps + [step]) == Do(Drive(c, steps), step)
    ensures Drive(c, []) == c
  {
    assert (steps + [step])[..|steps|] == steps;
  }

  /** A grant starts both goroutines, unless the channel was closed while the open was on its way. */
  lemma GrantStarts(steps: seq<Step>, i: nat)
    requires i < |steps| && steps[i].Granted? && At(steps, i).reader.NotReading?
    ensures var c := At(steps, i);
            At(steps, i + 1) == if c.shared.phase == Closed then c else c.(reader := AtRoom, writer := AtTop)
  {
  }

  /** One turn of the reader: what the read returned is buffered, and an error is acted on only behind it. */
  lemma ReaderTurn(c: System, data: bytes, error: Option<ReadError>)
    requires c.reader.AtRoom? && c.shared.phase != Closed
    requires |data| <= 32_768 && |c.shared.inbound| + |data| <= 262_144 && |c.shared.inbound| < 262_144
    ensures Drive(c, [AwaitRoom, ReadReturns(data, error), StoreRead])
            == c.(shared := c.shared.(inbound := c.shared.inbound + data), fetched := c.fetched + data,
                  reader := if error.None? then AtRoom else Ending(error.value))
  {
    var room := RoomIn(c.shared).n;
    DriveSnoc(c, [], AwaitRoom);
    DriveSnoc(c, [AwaitRoom], ReadReturns(data, error));
    DriveSnoc(c, [AwaitRoom, ReadReturns(data, error)], StoreRead);
    assert [] + [AwaitRoom] == [AwaitRoom];
    assert [AwaitRoom] + [ReadReturns(data, error)] == [AwaitRoom, ReadReturns(data, error)];
    assert [AwaitRoom, ReadReturns(data, error)] + [StoreRead] == [AwaitRoom, ReadReturns(data, error), StoreRead];
    assert Do(c, AwaitRoom) == c.(reader := InRead(room));
    assert Do(Do(c, AwaitRoom), ReadReturns(data, error))
           == c.(reader := Holding(data, error), fetched := c.fetched + data);
  }

  /** Once the channel is closed nothing is buffered and nothing taken, and each goroutine leaves when it next looks. */
  lemma ClosedIsInert(c: System, step: Step)
    requires c.shared.phase == Closed
    ensures step.CallDrain? || Do(c, step).shared == c.shared
    ensures Do(c, step).accepted == c.accepted
    ensures c.reader.AtRoom? ==> Do(c, AwaitRoom).reader.ReaderGone?
    ensures c.reader.Holding? && c.reader.data != [] ==> Do(c, StoreRead).reader.ReaderGone?
    ensures c.reader.Holding? && c.reader.data == [] ==>
              Do(c, StoreRead).reader == if c.reader.error.None? then AtRoom else Ending(c.reader.error.value)
    ensures c.reader.Ending? ==> Do(c, EndReading).reader.ReaderGone?
    ensures c.writer.AtTop? ==> Do(c, TopOfWrite).writer.WriterGone?
  {
    ClosedStretches(c.shared);
  }

  /** Every stretch under the mutex leaves a closed channel alone, but for what the embedder still drains. */
  lemma ClosedStretches(c: Shared)
    requires c.phase == Closed
    ensures RoomIn(c) == Terminal && TakeJob(c) == (c, Retire)
    ensures MarkEof(c) == c && MarkClosed(c) == c && Finish(c) == c
    ensures forall data: bytes :: Store(c, data) == c && Write(c, data) == c && Accept(c, data) == None
  {
  }

  /** The writer waits exactly while there is nothing to write and no EOF to send. */
  lemma WriterWaitsIffIdle(steps: seq<Step>, i: nat)
    requires i < |steps| && steps[i].TopOfWrite? && At(steps, i).writer.AtTop?
    requires At(steps, i).shared.phase != Closed
    ensures var c, d := At(steps, i), At(steps, i + 1);
            && (d.writer.AtTop? <==>
                  c.shared.outbound == [] && !(c.shared.finishAsked && !c.shared.finishDone))
            && (d.writer.AtTop? ==> d == c)
  {
  }

  /** A failed write ends the writer and the channel. */
  lemma FailedWriteEnds(steps: seq<Step>, i: nat)
    requires i < |steps| && steps[i].WriteFails? && At(steps, i).writer.InWrite?
    ensures At(steps, i + 1).writer.WriterGone? && At(steps, i + 1).shared.phase == Closed
  {
  }

  /** A write is refused exactly after `finish` or a close; else it takes everything, or fills the buffer. */
  lemma WriteAcceptsOrFills(steps: seq<Step>, i: nat, data: bytes)
    requires i < |steps| && steps[i] == CallWrite(data)
    ensures var c, d := At(steps, i), At(steps, i + 1);
            && (Accept(c.shared, data).None? <==> c.shared.phase == Closed || c.shared.finishAsked)
            && (Accept(c.shared, data).None? ==> d == c)
            && (Accept(c.shared, data).Some? ==>
                  var n := Accept(c.shared, data).value;
                  && n <= |data|
                  && d == c.(shared := c.shared.(outbound := c.shared.outbound + data[..n]),
                             accepted := c.accepted + data[..n])
                  && (n == |data| || |d.shared.outbound| == 262_144))
  {
    RunOk(steps, i);
    var c := At(steps, i);
    if |c.shared.outbound| >= WRITE_AHEAD_CAP {
      assert c.shared.outbound + data[..0] == c.shared.outbound;
    }
  }

  // ---- finish ----

  /** `finish` is remembered on any channel that is not closed, and changes nothing else. */
  lemma FinishAsks(steps: seq<Step>, i: nat)
    requires i < |steps| && steps[i].CallFinish?
    ensures var c := At(steps, i);
            At(steps, i + 1) == if c.shared.phase == Closed then c else c.(shared := c.shared.(finishAsked := true))
  {
  }

  lemma EofOnceStep(c: System, step: Step)
    requires OutboundOk(c)
    ensures var d := Do(c, step);
            && (c.shared.finishDone ==> d.shared.finishDone)
            && (c.shared.finishDone && d.writer.InEof? ==> c.writer.InEof?)
  {
    hide RoomIn;
  }

  lemma {:induction false} NoSecondEof(steps: seq<Step>, i: nat, j: nat)
    requires i <= j <= |steps| && At(steps, i).shared.finishDone && !At(steps, i).writer.InEof?
    ensures At(steps, j).shared.finishDone && !At(steps, j).writer.InEof?
    decreases j
  {
    hide Do, OutboundOk;
    if i < j {
      NoSecondEof(steps, i, j - 1);
      RunOk(steps, j - 1);
      EofOnceStep(At(steps, j - 1), steps[j - 1]);
    }
  }

  /** Step `i` is the return of the writer's one call that sends the SSH EOF. */
  ghost predicate SendsEof(steps: seq<Step>, i: nat) {
    i < |steps| && steps[i].EofReturns? && At(steps, i).writer.InEof?
  }

  /** The SSH EOF is sent at most once, and only after `finish`, behind everything that was accepted. */
  lemma EofIsSentOnce(steps: seq<Step>, i: nat, j: nat)
    requires i <= j && SendsEof(steps, i) && SendsEof(steps, j)
    ensures i == j && At(steps, i).shared.finishAsked && At(steps, i).written == At(steps, i).accepted
  {
    RunOk(steps, i);
    if i < j {
      NoSecondEof(steps, i + 1, j);
    }
  }

  /** One write of everything that waits. */
  lemma WriterFlushes(c: System)
    requires OutboundOk(c) && c.writer.AtTop? && c.shared.phase != Closed && c.shared.outbound != []
    ensures var out := c.shared.outbound;
            Drive(c, [TopOfWrite, WriteAdvances(|out|), WriteReturns])
            == c.(shared := c.shared.(outbound := []), written := c.accepted)
  {
    var out := c.shared.outbound;
    var c1 := c.(shared := c.shared.(outbound := []), writer := InWrite(out));
    DriveSnoc(c, [], TopOfWrite);
    DriveSnoc(c, [TopOfWrite], WriteAdvances(|out|));
    DriveSnoc(c, [TopOfWrite, WriteAdvances(|out|)], WriteReturns);
    assert [] + [TopOfWrite] == [TopOfWrite];
    assert [TopOfWrite] + [WriteAdvances(|out|)] == [TopOfWrite, WriteAdvances(|out|)];
    assert [TopOfWrite, WriteAdvances(|out|)] + [WriteReturns] == [TopOfWrite, WriteAdvances(|out|), WriteReturns];
    assert Do(c, TopOfWrite) == c1;
    assert out[..|out|] == out && out[|out|..] == [];
    assert c.written + [] + out == c.written + out == c.accepted;
    var c2 := c1.(written := c.accepted, writer := InWrite([]));
    assert Do(c1, WriteAdvances(|out|)) == c2;
    assert Do(c2, WriteReturns) == c2.(writer := AtTop);
  }

  lemma WriterFinishes(c: System)
    requires OutboundOk(c) && c.writer.AtTop? && c.shared.phase != Closed && c.shared.outbound == []
    requires c.shared.finishAsked && !c.shared.finishDone
    ensures Drive(c, [TopOfWrite, EofReturns]) == c.(shared := c.shared.(finishDone := true), eofSent := true)
  {
    DriveSnoc(c, [], TopOfWrite);
    DriveSnoc(c, [TopOfWrite], EofReturns);
    assert [] + [TopOfWrite] == [TopOfWrite] && [TopOfWrite] + [EofReturns] == [TopOfWrite, EofReturns];
    var c1 := c.(shared := c.shared.(finishDone := true), writer := InEof);
    assert Do(c, TopOfWrite) == c1;
    assert Do(c1, EofReturns) == c1.(writer := AtTop, eofSent := true);
  }

  /**
   * `finish` is honoured: from any reachable state of an unclosed channel whose writer is at its top, two turns of the
   * writer write everything that was accepted, and then the SSH EOF if `finish` was called.
   */
  lemma FinishIsHonoured(steps: seq<Step>, n: nat) returns (turn: seq<Step>, last: seq<Step>)
    requires n <= |steps|
    requires var c := At(steps, n); c.writer.AtTop? && c.shared.phase != Closed
    ensures var c := At(steps, n);
            var d := Drive(Drive(c, turn), last);
            && d.written == c.accepted == d.accepted && d.shared.outbound == []
            && (c.shared.finishAsked && !c.shared.finishDone ==> !c.eofSent && d.eofSent)
            && d.fetched == c.fetched && d.drained == c.drained && d.shared.inbound == c.shared.inbound
  {
    RunOk(steps, n);
    var c := At(steps, n);
    DriveSnoc(c, [], TopOfWrite);
    turn := [];
    var d := c;
    if c.shared.outbound != [] {
      WriterFlushes(c);
      turn := [TopOfWrite, WriteAdvances(|c.shared.outbound|), WriteReturns];
      d := c.(shared := c.shared.(outbound := []), written := c.accepted);
    } else {
      assert c.written + [] + [] == c.written;
    }
    assert d == Drive(c, turn) && d.written == c.accepted;
    last := [];
    DriveSnoc(d, [], TopOfWrite);
    if d.shared.finishAsked && !d.shared.finishDone {
      assert OutboundOk(d) by {
        assert d.written + [] + [] == d.written;
      }
      WriterFinishes(d);
      last := [TopOfWrite, EofReturns];
    }
  }

  /** The reason given is kept in front of whatever the helper said, which is kept whole. */
  lemma ReasonTells(reason: string, stderr: string)
    ensures Reason(reason, "") == reason
    ensures stderr != "" ==>
              var r := Reason(reason, stderr);
              |r| == |reason| + |stderr| + 11 && r[..|reason|] == reason && r[|reason| + 10..|r| - 1] == stderr
  {
    var r := reason + " (stderr: " + stderr + ")";
    assert r[|reason| + 10..|r| - 1] == stderr;
  }
}
