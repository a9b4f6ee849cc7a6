/**
 * Client, listener and the connections between them, as one step system.
 *
 * A connection is two FIFO directions. Either may be cut at any moment, which loses any suffix of what was
 * written and not read and everything written afterwards; a frame torn by the cut is lost whole, as
 * `TunnelCodec.DecoderYieldsPrefix` allows. The client closes a connection before it says Hello on another
 * one, and reads nothing further from a connection it closed.
 *
 * The listener keeps one decoder for a connection. The client changes decoders behind the reply: what the old one
 * holds of a frame is thrown away, and from then on the direction is read by its octets.
 *
 * The fields `produced`, `sentByClient`, `sentByListener`, `pushed`, `toSshd`, `upAt` and `downAt` are history:
 * no step's outcome depends on them.
 */
module TunnelSystem {
  import opened Bytes
  import opened Postcard
  import opened Framing
  import opened TunnelCodec
  import opened Replays
  import opened ListenerSession
  import ClientSession

  type Flow = ClientSession.Flow

  /** The snapshot `resume_session` takes and later attaches with; `sentTotal` dates it. */
  datatype Snapshot = Snapshot(offer: Offer, sentTotal: nat)

  /** The most one read of the client returns. */
  const READ_CHUNK: nat := 16 * 1024

  /**
   * Whose decoder reads the listener's direction: the handshake's, the same one still holding `held` octets behind
   * the reply, a fresh one in step with the frames, or a fresh one that started inside a frame and has taken or
   * never seen the first `at` octets of what `down` encodes to.
   */
  datatype Reader = Handshaking | Seeded(held: nat) | Steady | Skewed(at: nat)

  datatype Conn = Conn(
    up: seq<Frame>,
    upOpen: bool,
    pending: seq<Frame>,
    down: seq<Frame>,
    downOpen: bool,
    served: bool,
    snapshot: Option<Snapshot>,
    attachedAs: Option<nat>,
    installed: bool,
    closedByClient: bool,
    reader: Reader,
    upAt: nat,
    downAt: nat)

  datatype Attempt = Attempt(conn: nat, deferred: bytes)

  datatype Job = Job(frame: Frame, generation: nat, conn: nat)

  datatype System = System(
    client: Flow,
    current: Option<nat>,
    attempt: Option<Attempt>,
    listener: Listener,
    job: Option<Job>,
    conns: map<nat, Conn>,
    produced: bytes,
    sentByClient: bytes,
    sentByListener: bytes,
    pushed: bytes,
    toSshd: bytes)

  const FIRST: nat := 0
  const THE_ID: id16 := [0, 0, 0, 0, 0, 0, 0, 0, 0, 0, 0, 0, 0, 0, 0, 0]

  /** `start_session` has said `New` on the first connection and not attached it yet. */
  const INITIAL: System :=
    System(ClientSession.EMPTY_FLOW, None, Some(Attempt(FIRST, [])), OPENED, None,
           map[FIRST := Conn([], true, [], [ReplyFrame(New(THE_ID))], true, true,
                             Some(Snapshot(Offer([], 0), 0)), None, false, false, Handshaking, 0, 0)],
           [], [], [], [], [])

  datatype Step =
    | Output(output: bytes)
    | TakeOutbox
    | TakeAck
    | TakeControl(frame: Frame)
    | ClientWrite(conn: nat)
    | ClientRead
    | RequestAck
    | ClientClose
    | ClientHello(conn: nat)
    | GiveUp
    | ReadAnswer(held: nat)
    | HandOver
    | ServeHello(conn: nat)
    | AttachConn(conn: nat)
    | SshdRead(buf: bytes)
    | TakeJob
    | JobWritten(ok: bool)
    | ListenerRead(conn: nat)
    | ReadEnds(conn: nat)
    | DrainInbound
    | TimerFires(epoch: nat)
    | EndSession
    | CutUp(conn: nat, kept: nat)
    | CutDown(conn: nat, kept: nat)

  // ---- the client ----

  function WriterIdle(s: System): bool {
    s.current.Some? && s.current.value in s.conns && s.conns[s.current.value].pending == []
  }

  function Queue(s: System, frames: seq<Frame>): System
    requires WriterIdle(s)
  {
    var k := s.current.value;
    s.(conns := s.conns[k := s.conns[k].(pending := frames)])
  }

  function DoTakeOutbox(s: System): System {
    if !WriterIdle(s) then s
    else
      var (w, entry) := ClientSession.TakeOutbox(s.client);
      match entry
      case None => s
      case Some(b) =>
        Queue(s, DataFrames(b, MAX_WIRE_CHUNK)).(client := w, sentByClient := s.sentByClient + b)
  }

  function DoTakeAck(s: System): System {
    if !WriterIdle(s) then s
    else
      var (w, f) := ClientSession.TakeAck(s.client);
      if f.None? then s else Queue(s, [f.value]).(client := w)
  }

  function DoTakeControl(s: System, f: Frame): System {
    if !WriterIdle(s) || !(f.Ping? || f.Pong?) then s else Queue(s, [f])
  }

  function DoClientWrite(s: System, k: nat): System {
    if k !in s.conns || s.conns[k].pending == [] then s
    else
      var c := s.conns[k];
      s.(conns := s.conns[k := c.(pending := c.pending[1..],
                                  up := if c.upOpen then c.up + [c.pending[0]] else c.up)])
  }

  predicate CanRead(s: System) {
    && s.current.Some? && s.current.value in s.conns
    && !s.conns[s.current.value].closedByClient && s.conns[s.current.value].down != []
  }

  /** The reader left once `f` is taken off the front; none while the decoder in charge lacks part of it. */
  function ReaderAfter(r: Reader, f: Frame): Option<Reader> {
    match r
    case Seeded(held) => if |Encode(f)| <= held then Some(Seeded(held - |Encode(f)|)) else None
    case Steady => Some(Steady)
    case _ => None
  }

  function DoClientRead(s: System): System {
    if !CanRead(s) then s
    else
      var k := s.current.value;
      var c := s.conns[k];
      if c.reader.Skewed? then DoSkewedRead(s, k)
      else
        var f := c.down[0];
        match ReaderAfter(c.reader, f)
        case None => s
        case Some(r) =>
          var c1 := c.(down := c.down[1..], downAt := c.downAt + |Payload([f])|, reader := r);
          if ClientSession.Violates(f, ClientSession.V3) then s.(conns := s.conns[k := c1.(closedByClient := true)])
          else s.(conns := s.conns[k := c1], client := ClientSession.Consume(s.client, f))
  }

  /** A decoder out of step takes whatever the octets before it spell. */
  function DoSkewedRead(s: System, k: nat): System
    requires k in s.conns && s.conns[k].reader.Skewed?
  {
    var c := s.conns[k];
    var octets := EncodeAll(Encode, c.down);
    if c.reader.at > |octets| then s
    else
      match NextFrame(octets[c.reader.at..])
      case Need => s
      case Bad(_) => s.(conns := s.conns[k := c.(closedByClient := true)])
      case Got(f, rest) =>
        if |rest| > |octets| then s
        else
          var c1 := c.(reader := Skewed(|octets| - |rest|));
          if ClientSession.Violates(f, ClientSession.V3) then s.(conns := s.conns[k := c1.(closedByClient := true)])
          else s.(conns := s.conns[k := c1], client := ClientSession.Consume(s.client, f))
  }

  predicate Seeding(s: System) {
    s.current.Some? && s.current.value in s.conns && s.conns[s.current.value].reader.Seeded?
  }

  /** The old decoder has a whole frame left, which is still fed. */
  predicate HoldsFrame(c: Conn)
    requires c.reader.Seeded?
  {
    c.down != [] && |Encode(c.down[0])| <= c.reader.held
  }

  /** Part of a frame is in the old decoder and the rest of it in the connection. */
  predicate HoldsPart(c: Conn)
    requires c.reader.Seeded?
  {
    c.down != [] && 0 < c.reader.held < |Encode(c.down[0])|
  }

  /** `reader_task` starts with an empty decoder, whatever the handshake's still holds. */
  function DoHandOver(s: System): System {
    if !Seeding(s) || HoldsFrame(s.conns[s.current.value]) then s
    else
      var c := s.conns[s.current.value];
      s.(conns := s.conns[s.current.value := c.(reader := if HoldsPart(c) then Skewed(c.reader.held) else Steady)])
  }

  function DoClientClose(s: System): System {
    if s.current.None? || s.current.value !in s.conns then s
    else s.(conns := s.conns[s.current.value := s.conns[s.current.value].(closedByClient := true)])
  }

  function HelloFrom(w: Flow): Frame {
    HelloFrame(Hello([], Some(Resume(THE_ID, w.received))))
  }

  function DoClientHello(s: System, k: nat): System {
    if k in s.conns || s.attempt.Some? || s.current.None? || s.current.value !in s.conns
       || !s.conns[s.current.value].closedByClient then s
    else
      s.(attempt := Some(Attempt(k, [])),
         conns := s.conns[k := Conn([HelloFrom(s.client)], true, [], [], true, false,
                                    None, None, false, false, Handshaking, 0, 0)])
  }

  function DoGiveUp(s: System): System {
    if s.attempt.None? || s.attempt.value.conn !in s.conns then s
    else
      var k := s.attempt.value.conn;
      s.(attempt := None, conns := s.conns[k := s.conns[k].(closedByClient := true)])
  }

  function InstallConn(s: System, k: nat, w: Flow, tail: bytes, held: nat): System
    requires k in s.conns && s.attempt.Some?
  {
    s.(current := Some(k),
       attempt := None,
       client := ClientSession.InstallFlow(w, s.attempt.value.deferred),
       conns := s.conns[k := s.conns[k].(installed := true, pending := DataFrames(tail, MAX_WIRE_CHUNK),
                                      reader := Seeded(held))])
  }

  /** One read may bring `held` octets of what follows along with the end of the frame in front. */
  predicate Brings(c: Conn, held: nat)
    requires c.down != []
  {
    held == 0 || (held < READ_CHUNK && held <= |EncodeAll(Encode, c.down[1..])|)
  }

  /** `handshake`, one frame at a time, and what `connect` or `resume_loop` does with the reply. */
  function DoReadAnswer(s: System, held: nat): System {
    if s.attempt.None? || s.attempt.value.conn !in s.conns || s.conns[s.attempt.value.conn].down == []
       || !Brings(s.conns[s.attempt.value.conn], held) then s
    else
      var k := s.attempt.value.conn;
      var c := s.conns[k];
      var f := c.down[0];
      var s1 := s.(conns := s.conns[k := c.(down := c.down[1..], downAt := c.downAt + |Payload([f])|)]);
      match f
      case Data(payload) => s1.(attempt := Some(Attempt(k, s.attempt.value.deferred + payload)))
      case Ack(_) => s1
      case ReplyFrame(Resumed(n)) =>
        if s.current.None? then DoGiveUp(s1)
        else
          var (w, tail) := ClientSession.OnResumed(s.client, n);
          if tail.None? then DoGiveUp(s1) else InstallConn(s1, k, w, tail.value, held)
      case ReplyFrame(New(_)) => if s.current.None? then InstallConn(s1, k, s.client, [], held) else DoGiveUp(s1)
      case _ => DoGiveUp(s1)
  }

  // ---- the listener ----

  predicate HelloWaits(s: System, k: nat) {
    && k in s.conns && !s.conns[k].served && s.conns[k].up != []
    && s.conns[k].up[0].HelloFrame? && s.conns[k].up[0].hello.resume.Some?
  }

  function ClaimOf(s: System, k: nat): nat
    requires HelloWaits(s, k)
  {
    s.conns[k].up[0].hello.resume.value.received
  }

  function Say(c: Conn, f: Frame): seq<Frame> {
    if c.downOpen then c.down + [f] else c.down
  }

  /**
   * The first half of `resume_session`: snapshot the tail and the counter, and say so. At a gap the refusal lingers
   * a second before the session is ended, which is an `EndSession` step.
   */
  function DoServeHello(s: System, k: nat): System {
    if !HelloWaits(s, k) then s
    else
      var c := s.conns[k].(up := s.conns[k].up[1..], served := true,
                           upAt := s.listener.received, downAt := ClaimOf(s, k));
      if s.listener.dead then
        s.(conns := s.conns[k := c.(down := Say(c, ReplyFrame(Refused([]))))])
      else
        match OfferFor(s.listener, ClaimOf(s, k))
        case None => s.(conns := s.conns[k := c.(down := Say(c, ReplyFrame(Refused([]))))])
        case Some(o) =>
          s.(conns := s.conns[k := c.(down := Say(c, ReplyFrame(Resumed(o.received))),
                                      snapshot := Some(Snapshot(o, s.listener.replay.sentTotal)))])
  }

  /** The second half, once the reply's write returned: whatever happened meanwhile is not looked at. */
  function DoAttachConn(s: System, k: nat): System {
    if k !in s.conns || s.conns[k].snapshot.None? then s
    else
      var l := Attach(s.listener, k, s.conns[k].snapshot.value.offer.tail);
      s.(listener := l,
         conns := s.conns[k := s.conns[k].(snapshot := None, attachedAs := Some(l.generation))])
  }

  function DoSshdRead(s: System, buf: bytes): System {
    s.(listener := ListenerSession.SshdRead(s.listener, buf), sentByListener := s.sentByListener + buf)
  }

  function DoTakeJob(s: System): System {
    if s.job.Some? then s
    else
      var (l, job) := NextWriteJob(s.listener);
      match job
      case Send(f, g, k) => s.(listener := l, job := Some(Job(f, g, k)))
      case _ => s.(listener := l)
  }

  function DoJobWritten(s: System, ok: bool, grace: nat): System {
    if s.job.None? then s
    else
      var j := s.job.value;
      var s1 := s.(job := None, listener := WriteDone(s.listener, j.generation, j.conn, ok, grace));
      if !ok || j.conn !in s.conns then s1
      else s1.(conns := s.conns[j.conn := s.conns[j.conn].(down := Say(s.conns[j.conn], j.frame))])
  }

  function DoListenerRead(s: System, k: nat, grace: nat): System {
    if k !in s.conns || s.conns[k].attachedAs.None? || s.conns[k].up == [] then s
    else
      var c := s.conns[k];
      var g, f := c.attachedAs.value, c.up[0];
      s.(conns := s.conns[k := c.(up := c.up[1..], upAt := c.upAt + |Payload([f])|)],
         listener := ReadFrame(s.listener, g, f, true, grace),
         pushed := if g == s.listener.generation then s.pushed + Payload([f]) else s.pushed)
  }

  function DoDrainInbound(s: System): System {
    match NextInbound(s.listener)
    case (l, Some(chunk)) => s.(listener := l, toSshd := s.toSshd + chunk)
    case (l, None) => s
  }

  function DoReadEnds(s: System, k: nat, grace: nat): System {
    if k !in s.conns || s.conns[k].attachedAs.None? then s
    else s.(listener := ReadEnded(s.listener, s.conns[k].attachedAs.value, grace))
  }

  // ---- the network ----

  function DoCutUp(s: System, k: nat, kept: nat): System {
    if k !in s.conns || kept > |s.conns[k].up| then s
    else s.(conns := s.conns[k := s.conns[k].(up := s.conns[k].up[..kept], upOpen := false)])
  }

  function DoCutDown(s: System, k: nat, kept: nat): System {
    if k !in s.conns || kept > |s.conns[k].down| then s
    else s.(conns := s.conns[k := s.conns[k].(down := s.conns[k].down[..kept], downOpen := false)])
  }

  function Do(s: System, step: Step, grace: nat): System {
    match step
    case Output(o) => s.(client := ClientSession.QueueOutput(s.client, o), produced := s.produced + o)
    case TakeOutbox => DoTakeOutbox(s)
    case TakeAck => DoTakeAck(s)
    case TakeControl(f) => DoTakeControl(s, f)
    case ClientWrite(k) => DoClientWrite(s, k)
    case ClientRead => DoClientRead(s)
    case RequestAck => s.(client := ClientSession.RequestAck(s.client))
    case ClientClose => DoClientClose(s)
    case ClientHello(k) => DoClientHello(s, k)
    case GiveUp => DoGiveUp(s)
    case ReadAnswer(held) => DoReadAnswer(s, held)
    case HandOver => DoHandOver(s)
    case ServeHello(k) => DoServeHello(s, k)
    case AttachConn(k) => DoAttachConn(s, k)
    case SshdRead(buf) => DoSshdRead(s, buf)
    case TakeJob => DoTakeJob(s)
    case JobWritten(ok) => DoJobWritten(s, ok, grace)
    case ListenerRead(k) => DoListenerRead(s, k, grace)
    case ReadEnds(k) => DoReadEnds(s, k, grace)
    case DrainInbound => DoDrainInbound(s)
    case TimerFires(e) => s.(listener := ListenerSession.TimerFires(s.listener, e))
    case EndSession => s.(listener := ListenerSession.EndSession(s.listener))
    case CutUp(k, n) => DoCutUp(s, k, n)
    case CutDown(k, n) => DoCutDown(s, k, n)
  }

  function At(steps: seq<Step>, n: nat, grace: nat): System
    requires n <= |steps|
  {
    if n == 0 then INITIAL else Do(At(steps, n - 1, grace), steps[n - 1], grace)
  }

  // ---- who is who ----

  ghost predicate IsCurrent(s: System, k: nat) {
    s.current == Some(k)
  }

  ghost predicate IsAttempt(s: System, k: nat) {
    s.attempt.Some? && s.attempt.value.conn == k
  }

  // ---- the three hypotheses ----

  /**
   * Nothing was received between the snapshot and the attach that uses it, if the client sends on that connection,
   * and nothing recorded, if it reads there. An attempt the client has abandoned is neither.
   */
  ghost predicate Quiet(s: System, step: Step) {
    step.AttachConn? && step.conn in s.conns && s.conns[step.conn].snapshot.Some? ==>
      var snap := s.conns[step.conn].snapshot.value;
      && (IsAttempt(s, step.conn) || s.conns[step.conn].installed ==> snap.offer.received == s.listener.received)
      && (IsAttempt(s, step.conn) || IsCurrent(s, step.conn) ==> snap.sentTotal == s.listener.replay.sentTotal)
  }

  /** The old decoder would be dropped with part of a frame in it. */
  ghost predicate Torn(s: System) {
    Seeding(s) && HoldsPart(s.conns[s.current.value])
  }

  /** The handshake's decoder is empty when the reader takes over. */
  ghost predicate Clean(s: System, step: Step) {
    step.HandOver? ==> !Torn(s)
  }

  /** Each tail the client's own resume asks for spans less than 2^32 bytes. */
  ghost predicate Narrow(s: System, step: Step) {
    && (step.ServeHello? && HelloWaits(s, step.conn) && s.attempt.Some? && s.attempt.value.conn == step.conn ==>
          SpanFits(s.listener.replay, ClaimOf(s, step.conn)))
    && (step.ReadAnswer? && s.attempt.Some? && s.attempt.value.conn in s.conns ==>
          var down := s.conns[s.attempt.value.conn].down;
          down != [] && down[0].ReplyFrame? && down[0].reply.Resumed? ==>
            SpanFits(s.client.replay, down[0].reply.received))
  }
}
