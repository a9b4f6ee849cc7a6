/**
 * One bulk channel (ssh-core/core/channel.go): a reader and a writer goroutine and the embedder's calls, each
 * step being one stretch under the channel's mutex or one return of a blocking read or write.
 */
module BulkChannel {
  import opened Bytes

  const READ_AHEAD_CAP: nat := 256 * 1024
  const WRITE_AHEAD_CAP: nat := 256 * 1024
  const READ_CHUNK: nat := 32 * 1024

  datatype Phase = Open | Eof | Closed

  /** What the mutex guards. */
  datatype Shared = Shared(phase: Phase, inbound: bytes, outbound: bytes, finishAsked: bool, finishDone: bool)

  const BORN: Shared := Shared(Open, [], [], false, false)

  // ---- the stretches under the mutex ----

  /** `awaitRoom`: how much may be read, nothing while the buffer is full. */
  datatype Room = Park | Terminal | May(n: nat)

  function RoomIn(c: Shared): Room {
    if c.phase == Closed then Terminal
    else if |c.inbound| < READ_AHEAD_CAP then May(Min(READ_AHEAD_CAP - |c.inbound|, READ_CHUNK))
    else Park
  }

  function Store(c: Shared, data: bytes): Shared {
    if c.phase == Closed then c else c.(inbound := c.inbound + data)
  }

  /** What the writer does next. */
  datatype Job = Wait | Retire | SendEof | Push(chunk: bytes)

  function TakeJob(c: Shared): (Shared, Job) {
    if c.phase == Closed then (c, Retire)
    else if c.outbound == [] then
      if c.finishAsked && !c.finishDone then (c.(finishDone := true), SendEof) else (c, Wait)
    else (c.(outbound := []), Push(c.outbound))
  }

  /** Sticky: only an open channel moves to `eof`. */
  function MarkEof(c: Shared): Shared {
    if c.phase == Open then c.(phase := Eof) else c
  }

  function MarkClosed(c: Shared): Shared {
    if c.phase == Closed then c else c.(phase := Closed, inbound := [], outbound := [])
  }

  /** How many octets of `data` are accepted; `None` is the error. */
  function Accept(c: Shared, data: bytes): Option<nat> {
    if c.phase == Closed || c.finishAsked then None
    else if |c.outbound| >= WRITE_AHEAD_CAP then Some(0)
    else Some(Min(WRITE_AHEAD_CAP - |c.outbound|, |data|))
  }

  function Write(c: Shared, data: bytes): Shared {
    var n := Accept(c, data);
    if n.None? then c else c.(outbound := c.outbound + data[..n.value])
  }

  function Drained(c: Shared, max: nat): bytes {
    c.inbound[..Min(|c.inbound|, max)]
  }

  function Drain(c: Shared, max: nat): Shared {
    c.(inbound := c.inbound[Min(|c.inbound|, max)..])
  }

  function Finish(c: Shared): Shared {
    if c.phase == Closed then c else c.(finishAsked := true)
  }

  // ---- the two goroutines ----

  datatype ReadError = EndOfStream | Broken

  datatype Reader =
    | NotReading
    | AtRoom
    | InRead(room: nat)
    | Holding(data: bytes, error: Option<ReadError>)
    | Ending(why: ReadError)
    | ReaderGone

  datatype Writer =
    | NotWriting
    | AtTop
    | InWrite(chunk: bytes)
    | InEof
    | WriterGone

  /**
   * The channel, its goroutines, and what has passed through: octets the far end handed over, handed to the
   * embedder, accepted from it, and pushed to the wire; `eofSent` is the SSH EOF.
   */
  datatype System = System(
    shared: Shared,
    reader: Reader,
    writer: Writer,
    fetched: bytes,
    drained: bytes,
    accepted: bytes,
    written: bytes,
    eofSent: bool)

  const OPENING: System := System(BORN, NotReading, NotWriting, [], [], [], [], false)

  datatype Step =
    | Granted
    | Refused
    | AwaitRoom
    | ReadReturns(data: bytes, error: Option<ReadError>)
    | StoreRead
    | EndReading
    | TopOfWrite
    | WriteAdvances(n: nat)
    | WriteReturns
    | WriteFails
    | EofReturns
    | CallWrite(data: bytes)
    | CallDrain(max: nat)
    | CallFinish
    | CallClose

  /** A step whose goroutine is elsewhere does nothing. */
  function Do(c: System, step: Step): System {
    match step
    case Granted =>
      if c.reader != NotReading || c.shared.phase == Closed then c else c.(reader := AtRoom, writer := AtTop)
    case Refused => if c.reader != NotReading then c else c.(shared := MarkClosed(c.shared))
    case AwaitRoom =>
      if c.reader != AtRoom then c
      else
        (match RoomIn(c.shared)
         case Park => c
         case Terminal => c.(reader := ReaderGone)
         case May(n) => c.(reader := InRead(n)))
    case ReadReturns(data, error) =>
      if !c.reader.InRead? || |data| > c.reader.room then c
      else c.(reader := Holding(data, error), fetched := c.fetched + data)
    case StoreRead =>
      if !c.reader.Holding? then c
      else if c.reader.data != [] && c.shared.phase == Closed then c.(reader := ReaderGone)
      else
        c.(shared := Store(c.shared, c.reader.data),
           reader := if c.reader.error.None? then AtRoom else Ending(c.reader.error.value))
    case EndReading =>
      if !c.reader.Ending? then c
      else
        c.(reader := ReaderGone,
           shared := if c.reader.why == EndOfStream then MarkEof(c.shared) else MarkClosed(c.shared))
    case TopOfWrite =>
      if c.writer != AtTop then c
      else
        var (s, job) := TakeJob(c.shared);
        (match job
         case Wait => c
         case Retire => c.(writer := WriterGone)
         case SendEof => c.(shared := s, writer := InEof)
         case Push(chunk) => c.(shared := s, writer := InWrite(chunk)))
    case WriteAdvances(n) =>
      if !c.writer.InWrite? || n > |c.writer.chunk| then c
      else c.(written := c.written + c.writer.chunk[..n], writer := InWrite(c.writer.chunk[n..]))
    case WriteReturns => if c.writer != InWrite([]) then c else c.(writer := AtTop)
    case WriteFails =>
      if !c.writer.InWrite? then c else c.(writer := WriterGone, shared := MarkClosed(c.shared))
    case EofReturns => if c.writer != InEof then c else c.(writer := AtTop, eofSent := true)
    case CallWrite(data) =>
      (match Accept(c.shared, data)
       case None => c
       case Some(n) => c.(shared := Write(c.shared, data), accepted := c.accepted + data[..n]))
    case CallDrain(max) => c.(shared := Drain(c.shared, max), drained := c.drained + Drained(c.shared, max))
    case CallFinish => c.(shared := Finish(c.shared))
    case CallClose => c.(shared := MarkClosed(c.shared))
  }

  function At(steps: seq<Step>, n: nat): System
    requires n <= |steps|
  {
    if n == 0 then OPENING else Do(At(steps, n - 1), steps[n - 1])
  }

  // ---- conservation and bounds ----

  function InHand(r: Reader): bytes {
    if r.Holding? then r.data else []
  }

  function InFlight(w: Writer): bytes {
    if w.InWrite? then w.chunk else []
  }

  ghost predicate InboundOk(c: System) {
    && |c.shared.inbound| <= READ_AHEAD_CAP
    && (c.reader.InRead? && c.shared.phase != Closed ==> |c.shared.inbound| + c.reader.room <= READ_AHEAD_CAP)
    && (c.reader.Holding? && c.shared.phase != Closed ==> |c.shared.inbound| + |c.reader.data| <= READ_AHEAD_CAP)
    && (c.shared.phase != Closed ==> c.fetched == c.drained + c.shared.inbound + InHand(c.reader))
    && (c.shared.phase == Closed ==> c.shared.inbound == [])
    && (c.shared.phase == Eof ==> c.reader == ReaderGone)
    && c.drained <= c.fetched
  }

  ghost predicate OutboundOk(c: System) {
    && |c.shared.outbound| <= WRITE_AHEAD_CAP
    && (c.shared.phase != Closed ==> c.accepted == c.written + InFlight(c.writer) + c.shared.outbound)
    && (c.shared.phase == Closed ==> c.shared.outbound == [])
    && c.written + InFlight(c.writer) <= c.accepted
    && (c.shared.finishDone ==> c.shared.finishAsked && c.written == c.accepted && !c.writer.InWrite?)
    && (c.writer.InEof? || c.eofSent ==> c.shared.finishDone)
    && (c.writer.NotWriting? ==> !c.shared.finishDone)
    && (c.reader.NotReading? <==> c.writer.NotWriting?)
  }

  lemma StoreReadInbound(c: System)
    requires InboundOk(c)
    ensures InboundOk(Do(c, StoreRead))
  {
  }

  lemma CallDrainInbound(c: System, max: nat)
    requires InboundOk(c)
    ensures InboundOk(Do(c, CallDrain(max)))
  {
    var k := Min(|c.shared.inbound|, max);
    assert c.shared.inbound == c.shared.inbound[..k] + c.shared.inbound[k..];
    assert c.drained + c.shared.inbound + InHand(c.reader)
           == c.drained + c.shared.inbound[..k] + c.shared.inbound[k..] + InHand(c.reader);
  }

  lemma ReadReturnsInbound(c: System, data: bytes, error: Option<ReadError>)
    requires InboundOk(c)
    ensures InboundOk(Do(c, ReadReturns(data, error)))
  {
  }

  lemma StepInbound(c: System, step: Step)
    requires InboundOk(c)
    ensures InboundOk(Do(c, step))
  {
    match step {
      case StoreRead => StoreReadInbound(c);
      case CallDrain(max) => CallDrainInbound(c, max);
      case ReadReturns(data, error) => ReadReturnsInbound(c, data, error);
      case _ =>
    }
  }

  lemma TopOfWriteOutbound(c: System)
    requires OutboundOk(c)
    ensures OutboundOk(Do(c, TopOfWrite))
  {
  }

  lemma WriteAdvancesOutbound(c: System, n: nat)
    requires OutboundOk(c)
    ensures OutboundOk(Do(c, WriteAdvances(n)))
  {
  }

  lemma CallWriteOutbound(c: System, data: bytes)
    requires OutboundOk(c)
    ensures OutboundOk(Do(c, CallWrite(data)))
  {
  }

  lemma WriteFailsOutbound(c: System)
    requires OutboundOk(c)
    ensures OutboundOk(Do(c, WriteFails))
  {
  }

  lemma StepOutbound(c: System, step: Step)
    requires OutboundOk(c)
    ensures OutboundOk(Do(c, step))
  {
    match step {
      case TopOfWrite => TopOfWriteOutbound(c);
      case WriteAdvances(n) => WriteAdvancesOutbound(c, n);
      case CallWrite(data) => CallWriteOutbound(c, data);
      case WriteFails => WriteFailsOutbound(c);
      case _ =>
    }
  }

  lemma {:induction false} RunOk(steps: seq<Step>, n: nat)
    requires n <= |steps|
    ensures InboundOk(At(steps, n)) && OutboundOk(At(steps, n))
  {
    if n == 0 {
    } else {
      hide Do, InboundOk, OutboundOk;
      RunOk(steps, n - 1);
      StepInbound(At(steps, n - 1), steps[n - 1]);
      StepOutbound(At(steps, n - 1), steps[n - 1]);
    }
  }

  /**
   * Under every interleaving: until the channel is closed nothing that was read or accepted is lost, repeated
   * or reordered; the buffers stay within their caps; and the SSH EOF goes out only after every accepted octet
   * has been written. After a close what was handed over is still a prefix of what came in.
   */
  lemma Conservation(steps: seq<Step>, n: nat)
    requires n <= |steps|
    ensures var c := At(steps, n);
            && (c.shared.phase != Closed ==>
                  && c.fetched == c.drained + c.shared.inbound + InHand(c.reader)
                  && c.accepted == c.written + InFlight(c.writer) + c.shared.outbound)
            && c.drained <= c.fetched && c.written <= c.accepted
            && |c.shared.inbound| <= READ_AHEAD_CAP && |c.shared.outbound| <= WRITE_AHEAD_CAP
            && (c.eofSent ==> c.written == c.accepted)
  {
    RunOk(steps, n);
    var c := At(steps, n);
    assert c.written <= c.written + InFlight(c.writer);
  }

  // ---- phases ----

  function Rank(p: Phase): nat {
    match p
    case Open => 0
    case Eof => 1
    case Closed => 2
  }

  lemma StepForward(c: System, step: Step)
    requires InboundOk(c) && OutboundOk(c)
    ensures var d := Do(c, step);
            && Rank(c.shared.phase) <= Rank(d.shared.phase)
            && c.drained <= d.drained && c.accepted <= d.accepted
            && (c.shared.phase != Open ==> d.fetched == c.fetched || d.shared.phase == Closed)
            && (c.shared.phase == Closed ==> d.drained == c.drained && d.accepted == c.accepted)
            && (c.shared.finishAsked ==> d.shared.finishAsked && d.accepted == c.accepted)
  {
  }

  /**
   * Phases only move open, eof, closed. Once the far end has finished nothing more is fetched while the
   * buffered tail stays drainable, once `finish` was called nothing more is accepted, and a closed channel
   * takes and gives nothing.
   */
  lemma {:induction false} PhasesOnlyAdvance(steps: seq<Step>, i: nat, j: nat)
    requires i <= j <= |steps|
    ensures var c, d := At(steps, i), At(steps, j);
            && Rank(c.shared.phase) <= Rank(d.shared.phase)
            && c.drained <= d.drained && c.accepted <= d.accepted
            && (c.shared.phase == Eof && d.shared.phase == Eof ==>
                  d.fetched == c.fetched && d.drained + d.shared.inbound == d.fetched)
            && (c.shared.phase == Closed ==> d.drained == c.drained && d.accepted == c.accepted)
            && (c.shared.finishAsked ==> d.shared.finishAsked && d.accepted == c.accepted)
  {
    hide Do;
    RunOk(steps, j);
    if i == j {
    } else {
      PhasesOnlyAdvance(steps, i, j - 1);
      RunOk(steps, j - 1);
      StepForward(At(steps, j - 1), steps[j - 1]);
    }
  }

  // ---- the mutable channel ----

  const STDERR_TAIL_CAP: nat := 8 * 1024

  /** A close reason, with what an exec-started helper may have said about it. */
  function Reason(reason: string, stderr: string): string {
    if stderr == "" then reason else reason + " (stderr: " + stderr + ")"
  }

  class Channel {
    var phase: Phase
    var inbound: bytes
    var outbound: bytes
    var finishAsked: bool
    var finishDone: bool
    var closeMsg: string
    var stderrTail: string

    ghost function View(): Shared
      reads this
    {
      Shared(phase, inbound, outbound, finishAsked, finishDone)
    }

    constructor ()
      ensures View() == BORN && closeMsg == "" && stderrTail == ""
    {
      phase, inbound, outbound, finishAsked, finishDone := Open, [], [], false, false;
      closeMsg, stderrTail := "", "";
    }

    method RoomNow() returns (room: Room)
      ensures room == RoomIn(View())
    {
      if phase == Closed {
        return Terminal;
      }
      if |inbound| < READ_AHEAD_CAP {
        var room0 := READ_AHEAD_CAP - |inbound|;
        return May(if room0 > READ_CHUNK then READ_CHUNK else room0);
      }
      return Park;
    }

    method StoreRead(data: bytes)
      modifies this`inbound
      ensures View() == Store(old(View()), data)
    {
      if phase != Closed {
        inbound := inbound + data;
      }
    }

    /** A short head of the diagnostics is kept, the rest read and dropped. */
    method StoreStderr(text: string)
      modifies this`stderrTail
      ensures |old(stderrTail)| <= STDERR_TAIL_CAP ==>
                stderrTail == (old(stderrTail) + text)[..Min(|old(stderrTail)| + |text|, STDERR_TAIL_CAP)]
    {
      if |stderrTail| < STDERR_TAIL_CAP {
        var room := STDERR_TAIL_CAP - |stderrTail|;
        if room > |text| {
          room := |text|;
        }
        stderrTail := stderrTail + text[..room];
      }
    }

    method NextJob() returns (job: Job)
      modifies this`outbound, this`finishDone
      ensures (View(), job) == TakeJob(old(View()))
    {
      if phase == Closed {
        return Retire;
      }
      if |outbound| == 0 {
        if finishAsked && !finishDone {
          finishDone := true;
          return SendEof;
        }
        return Wait;
      }
      job := Push(outbound);
      outbound := [];
    }

    method RemoteEof()
      modifies this`phase
      ensures View() == MarkEof(old(View()))
    {
      if phase == Open {
        phase := Eof;
      }
    }

    /** The first reason is latched, with what the far end said on stderr. */
    method CloseFor(reason: string)
      modifies this`phase, this`inbound, this`outbound, this`closeMsg
      ensures View() == MarkClosed(old(View()))
      ensures old(phase) == Closed ==> closeMsg == old(closeMsg)
      ensures old(phase) != Closed ==> closeMsg == Reason(reason, stderrTail)
    {
      if phase == Closed {
        return;
      }
      phase := Closed;
      closeMsg := if |stderrTail| > 0 then reason + " (stderr: " + stderrTail + ")" else reason;
      inbound := [];
      outbound := [];
    }

    method WriteData(data: bytes) returns (accepted: Option<nat>)
      modifies this`outbound
      ensures View() == Write(old(View()), data) && accepted == Accept(old(View()), data)
    {
      if phase == Closed {
        return None;
      }
      if finishAsked {
        return None;
      }
      var room := WRITE_AHEAD_CAP - |outbound|;
      if room > |data| {
        room := |data|;
      }
      if room <= 0 {
        assert outbound + data[..0] == outbound;
        return Some(0);
      }
      outbound := outbound + data[..room];
      return Some(room);
    }

    method DrainUpTo(max: nat) returns (out: bytes)
      modifies this`inbound
      ensures View() == Drain(old(View()), max) && out == Drained(old(View()), max)
    {
      var n := |inbound|;
      if n > max {
        n := max;
      }
      if n == 0 {
        return [];
      }
      out := inbound[..n];
      inbound := inbound[n..];
    }

    method FinishWriting()
      modifies this`finishAsked
      ensures View() == Finish(old(View()))
    {
      if phase == Closed {
        return;
      }
      finishAsked := true;
    }
  }
}
