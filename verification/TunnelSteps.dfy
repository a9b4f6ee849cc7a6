/** Each step of the tunnel keeps the invariant; the two steps of a resume do so under their hypothesis. */
module TunnelSteps {
  import opened Bytes
  import opened Framing
  import opened TunnelCodec
  import opened Replays
  import opened ListenerSession
  import opened TunnelSystem
  import opened TunnelInvariant
  import ClientSession

  lemma UpSame(c: Conn, d: Conn, stream: bytes, mine: bool, attached: bool, received: nat)
    requires UpOk(c, stream, mine, attached, received)
    requires c.up == d.up && c.upOpen == d.upOpen && c.pending == d.pending && c.upAt == d.upAt
    requires c.installed == d.installed && c.served == d.served
    requires d.snapshot.None? || (c.snapshot == d.snapshot && c.attachedAs == d.attachedAs)
    ensures UpOk(d, stream, mine, attached, received)
  {
  }

  lemma DownSame(c: Conn, d: Conn, stream: bytes, job: bytes, serving: bool, outq: bytes)
    requires DownOk(c, stream, job, serving, outq)
    requires c.down == d.down && c.downOpen == d.downOpen && c.downAt == d.downAt && c.snapshot == d.snapshot
    ensures DownOk(d, stream, job, serving, outq)
  {
  }

  lemma ReplySame(c: Conn, d: Conn, open: bool)
    requires ReplyOk(c, open)
    requires c.down == d.down && c.downOpen == d.downOpen && c.served == d.served && c.installed == d.installed
    requires c.snapshot == d.snapshot && c.attachedAs == d.attachedAs && c.upAt == d.upAt && c.reader == d.reader
    ensures ReplyOk(d, open)
  {
  }

  lemma IsAtJoins(stream: bytes, at: nat, a: bytes, b: bytes)
    requires IsAt(stream, at, a) && IsAt(stream, at + |a|, b)
    ensures IsAt(stream, at, a + b)
  {
  }

  // ---- assembling the invariant ----

  lemma Unpack(s: System, j: nat)
    requires Inv(s) && j in s.conns
    ensures StreamsOk(s) && Roles(s) && ConnOk(s, j)
  {
  }

  /** What `Roles` reads of a connection. */
  ghost predicate SameRole(c: Conn, d: Conn) {
    c.installed == d.installed && c.attachedAs == d.attachedAs && (c.closedByClient ==> d.closedByClient)
  }

  lemma RolesEdited(s: System, t: System, k: nat, d: Conn)
    requires Roles(s) && k in s.conns && SameRole(s.conns[k], d) && t.conns == s.conns[k := d]
    requires t.current == s.current && t.attempt == s.attempt
    requires d.closedByClient ==> s.conns[k].closedByClient || !IsAttempt(s, k)
    requires t.sentByClient == s.sentByClient || s.current.Some?
    requires t.job == s.job && t.listener.send == s.listener.send && t.listener.generation == s.listener.generation
    ensures Roles(t)
  {
  }

  /** One connection is edited and nothing else. */
  lemma EditedElsewhere(s: System, k: nat, d: Conn, j: nat)
    requires k in s.conns && j in s.conns && j != k && ConnOk(s, j)
    ensures ConnOk(s.(conns := s.conns[k := d]), j)
  {
    hide UpOk, DownOk, IsAt, Payload, AllBounded, ReplyOk;
  }

  lemma EditKeeps(s: System, k: nat, d: Conn)
    requires Inv(s) && k in s.conns && SameRole(s.conns[k], d)
    requires d.closedByClient ==> s.conns[k].closedByClient || !IsAttempt(s, k)
    requires ConnOk(s.(conns := s.conns[k := d]), k)
    ensures Inv(s.(conns := s.conns[k := d]))
  {
    hide ConnOk, Tracks, IsAt;
    var t := s.(conns := s.conns[k := d]);
    RolesEdited(s, t, k, d);
    forall j | j in t.conns
      ensures ConnOk(t, j)
    {
      if j != k {
        EditedElsewhere(s, k, d, j);
      }
    }
  }

  /** The listener's half of `j` as the client's steps see it. */
  lemma DownStays(s: System, d: Conn, j: nat)
    requires j in s.conns && ConnOk(s, j)
    requires var c := s.conns[j];
             c.down == d.down && c.downOpen == d.downOpen && c.downAt == d.downAt && c.snapshot == d.snapshot
    ensures IsCurrent(s, j) || IsAttempt(s, j) ==>
              DownOk(d, s.sentByListener, JobFor(s, j), Serving(s, j), Payload(s.listener.outq))
  {
    hide UpOk, DownOk, IsAt, Payload, AllBounded, ReplyOk;
    if IsCurrent(s, j) || IsAttempt(s, j) {
      DownSame(s.conns[j], d, s.sentByListener, JobFor(s, j), Serving(s, j), Payload(s.listener.outq));
    }
  }

  /** The client's half of `j` as the listener's steps see it. */
  lemma UpStays(s: System, d: Conn, j: nat)
    requires j in s.conns && ConnOk(s, j)
    requires var c := s.conns[j];
             && c.up == d.up && c.upOpen == d.upOpen && c.pending == d.pending && c.upAt == d.upAt
             && c.installed == d.installed && c.snapshot == d.snapshot && c.attachedAs == d.attachedAs
             && c.served == d.served
    ensures UpOk(d, s.sentByClient, IsCurrent(s, j), Counted(s, j), s.listener.received)
  {
    hide UpOk, DownOk, IsAt, Payload, AllBounded, ReplyOk;
    UpSame(s.conns[j], d, s.sentByClient, IsCurrent(s, j), Counted(s, j), s.listener.received);
  }

  /** The history of what the two applications hold is not read by the invariant. */
  lemma ApplicationsAside(s: System, produced: bytes, toSshd: bytes)
    requires Inv(s)
    ensures Inv(s.(produced := produced, toSshd := toSshd))
  {
    hide UpOk, DownOk, Tracks, IsAt, Payload, AllBounded, ReplyOk;
    var t := s.(produced := produced, toSshd := toSshd);
    forall j | j in t.conns
      ensures ConnOk(t, j)
    {
      assert ConnOk(s, j);
    }
  }

  // ---- the client's writer and page ----

  lemma SameCounters(s: System, w: ClientSession.Flow)
    requires Inv(s)
    requires w.replay == s.client.replay && w.received == s.client.received && w.fed == s.client.fed
    ensures Inv(s.(client := w))
  {
    hide UpOk, DownOk, Tracks, IsAt, Payload, AllBounded, ReplyOk;
    var t := s.(client := w);
    forall j | j in t.conns
      ensures ConnOk(t, j)
    {
      assert ConnOk(s, j);
    }
  }

  lemma QueueKeeps(s: System, f: Frame)
    requires Inv(s) && WriterIdle(s) && !f.Data? && Bounded(f, s.client.received)
    ensures Inv(Queue(s, [f]))
  {
    hide UpOk, DownOk, Tracks, IsAt, Payload, Inv;
    var k := s.current.value;
    Unpack(s, k);
    var d := s.conns[k].(pending := [f]);
    UpTakesControl(s.conns[k], s.sentByClient, f, true, Counted(s, k), s.listener.received);
    DownStays(s, d, k);
    EditKeeps(s, k, d);
  }

  lemma TakeAckKeeps(s: System)
    requires Inv(s)
    ensures Inv(DoTakeAck(s))
  {
    hide Inv;
    if WriterIdle(s) && s.client.ackDue {
      var f := TunnelCodec.Ack(s.client.received);
      QueueKeeps(s, f);
      SameCounters(Queue(s, [f]), ClientSession.TakeAck(s.client).0);
    }
  }

  lemma WrittenBounded(up: seq<Frame>, pending: seq<Frame>, n: nat)
    requires AllBounded(up, n) && AllBounded(pending, n) && pending != []
    ensures AllBounded(up + [pending[0]], n) && AllBounded(pending[1..], n)
  {
  }

  lemma ClientWriteKeeps(s: System, k: nat)
    requires Inv(s)
    ensures Inv(DoClientWrite(s, k))
  {
    hide UpOk, DownOk, Tracks, IsAt, Payload, Inv, AllBounded, ReplyOk, StreamsOk, Roles;
    if k in s.conns && s.conns[k].pending != [] {
      Unpack(s, k);
      var c := s.conns[k];
      var d := c.(pending := c.pending[1..], up := if c.upOpen then c.up + [c.pending[0]] else c.up);
      WrittenBounded(c.up, c.pending, s.client.received);
      ReplySame(c, d, IsAttempt(s, k));
      UpWrites(c, s.sentByClient, IsCurrent(s, k), Counted(s, k), s.listener.received);
      DownStays(s, d, k);
      EditKeeps(s, k, d);
    }
  }

  lemma ClientCloseKeeps(s: System, k: nat)
    requires Inv(s) && k in s.conns && !IsAttempt(s, k)
    ensures Inv(s.(conns := s.conns[k := s.conns[k].(closedByClient := true)]))
  {
    hide UpOk, DownOk, Tracks, IsAt, Payload, Inv, StreamsOk, Roles;
    Unpack(s, k);
    var d := s.conns[k].(closedByClient := true);
    UpStays(s, d, k);
    DownStays(s, d, k);
    EditKeeps(s, k, d);
  }

  lemma CutUpKeeps(s: System, k: nat, kept: nat)
    requires Inv(s)
    ensures Inv(DoCutUp(s, k, kept))
  {
    hide UpOk, DownOk, Tracks, IsAt, Payload, Inv, StreamsOk, Roles;
    if k in s.conns && kept <= |s.conns[k].up| {
      Unpack(s, k);
      var c := s.conns[k];
      var d := c.(up := c.up[..kept], upOpen := false);
      UpCut(c, s.sentByClient, IsCurrent(s, k), Counted(s, k), s.listener.received, kept);
      DownStays(s, d, k);
      EditKeeps(s, k, d);
    }
  }

  lemma CutDownKeeps(s: System, k: nat, kept: nat)
    requires Inv(s)
    ensures Inv(DoCutDown(s, k, kept))
  {
    hide UpOk, DownOk, Tracks, IsAt, Payload, Inv, StreamsOk, Roles;
    if k in s.conns && kept <= |s.conns[k].down| {
      Unpack(s, k);
      var c := s.conns[k];
      var d := c.(down := c.down[..kept], downOpen := false);
      UpStays(s, d, k);
      if IsCurrent(s, k) || IsAttempt(s, k) {
        DownCut(c, s.sentByListener, JobFor(s, k), Serving(s, k), Payload(s.listener.outq), kept);
      }
      EditKeeps(s, k, d);
    }
  }

  lemma TakeOutboxConn(s: System, j: nat)
    requires StreamsOk(s) && Roles(s) && j in s.conns && ConnOk(s, j)
    requires WriterIdle(s) && s.client.outbox != []
    ensures ConnOk(DoTakeOutbox(s), j)
  {
    hide UpOk, DownOk, Tracks, IsAt, Payload;
    var t, b := DoTakeOutbox(s), s.client.outbox[0];
    if IsCurrent(s, j) {
      UpTakes(s.conns[j], s.sentByClient, b, Counted(s, j), s.listener.received);
      DownStays(s, t.conns[j], j);
    } else {
      UpGrows(s.conns[j], s.sentByClient, b, Counted(s, j), s.listener.received);
    }
  }

  lemma TakeOutboxStreams(s: System)
    requires StreamsOk(s) && WriterIdle(s) && s.client.outbox != []
    ensures StreamsOk(DoTakeOutbox(s))
  {
    hide Tracks, IsAt, DataFrames;
    SentTracks(s.client.replay, s.sentByClient, s.client.outbox[0]);
    IsAtGrows(s.sentByClient, s.client.outbox[0], 0, s.pushed);
  }

  lemma TakeOutboxKeeps(s: System)
    requires Inv(s)
    ensures Inv(DoTakeOutbox(s))
  {
    if WriterIdle(s) && s.client.outbox != [] {
      hide ConnOk, StreamsOk, DataFrames;
      var t, k := DoTakeOutbox(s), s.current.value;
      TakeOutboxStreams(s);
      RolesEdited(s, t, k, t.conns[k]);
      forall j | j in t.conns
        ensures ConnOk(t, j)
      {
        TakeOutboxConn(s, j);
      }
    }
  }

  // ---- the client's reader ----

  /** The decoder in charge has the next frame whole. */
  predicate Reads(s: System) {
    CanRead(s) && ReaderAfter(s.conns[s.current.value].reader, s.conns[s.current.value].down[0]).Some?
  }

  lemma ReadBounded(c: Conn, before: nat, after: nat, n: nat)
    requires AllBounded(c.up, before) && AllBounded(c.pending, before) && AllBounded(c.down, n)
    requires before <= after && c.down != []
    ensures AllBounded(c.up, after) && AllBounded(c.pending, after) && AllBounded(c.down[1..], n)
  {
  }

  lemma ReplyAfterRead(c: Conn, d: Conn)
    requires ReplyOk(c, false) && c.down != [] && !d.reader.Skewed?
    requires d == c.(down := c.down[1..], downAt := d.downAt, reader := d.reader, closedByClient := d.closedByClient)
    ensures ReplyOk(d, false)
  {
  }

  lemma ClientReadCurrent(s: System)
    requires Roles(s) && Reads(s) && ConnOk(s, s.current.value)
    ensures ConnOk(DoClientRead(s), s.current.value)
  {
    hide Encode, EncodeAll, NextFrame, DoSkewedRead, UpOk, DownOk, IsAt, Payload, Replays.Ack, AllBounded, ReplyOk;
    var t, k := DoClientRead(s), s.current.value;
    var c := s.conns[k];
    ReplyAfterRead(c, t.conns[k]);
    PayloadOfOne(c.down[0]);
    ReadBounded(c, s.client.received, t.client.received, s.listener.received);
    UpStays(s, t.conns[k], k);
    DownReads(c, s.sentByListener, JobFor(s, k), Serving(s, k), Payload(s.listener.outq));
    DownSame(c.(down := c.down[1..], downAt := c.downAt + |Payload([c.down[0]])|), t.conns[k],
             s.sentByListener, JobFor(s, k), Serving(s, k), Payload(s.listener.outq));
  }

  lemma ClientReadOther(s: System, j: nat)
    requires Roles(s) && Reads(s) && j in s.conns && !IsCurrent(s, j) && ConnOk(s, j)
    ensures ConnOk(DoClientRead(s), j)
  {
    hide Encode, EncodeAll, NextFrame, DoSkewedRead, UpOk, DownOk, IsAt, Payload, ReplyOk;
  }

  lemma ClientReadStreams(s: System)
    requires StreamsOk(s) && Roles(s) && Reads(s) && ConnOk(s, s.current.value)
    ensures StreamsOk(DoClientRead(s))
  {
    hide Encode, EncodeAll, NextFrame, DoSkewedRead, UpOk, DownOk, Tracks, IsAt, Payload;
    var c := s.conns[s.current.value];
    var f := c.down[0];
    PayloadOfOne(f);
    DownReads(c, s.sentByListener, JobFor(s, s.current.value), Serving(s, s.current.value), Payload(s.listener.outq));
    IsAtJoins(s.sentByListener, 0, s.client.fed, Payload([f]));
    assert Bounded(f, s.listener.received);
    if f.Ack? {
      AckTracks(s.client.replay, s.sentByClient, f.received);
    }
  }

  lemma NeverSkewed(s: System, k: nat)
    requires k in s.conns && ConnOk(s, k)
    ensures !s.conns[k].reader.Skewed?
  {
    hide UpOk, DownOk, IsAt, Payload, AllBounded;
  }

  lemma NoReadNoStep(s: System)
    requires Inv(s) && !Reads(s)
    ensures DoClientRead(s) == s
  {
    hide ConnOk, Encode, EncodeAll, NextFrame, DoSkewedRead;
    if CanRead(s) {
      NeverSkewed(s, s.current.value);
    }
  }

  lemma ReadingKeeps(s: System)
    requires Inv(s) && Reads(s)
    ensures Inv(DoClientRead(s))
  {
    hide UpOk, DownOk, Tracks, IsAt, Payload, ConnOk, StreamsOk, Encode, EncodeAll, NextFrame, DoSkewedRead;
    var t, k := DoClientRead(s), s.current.value;
    ClientReadStreams(s);
    RolesEdited(s, t, k, t.conns[k]);
    forall j | j in t.conns
      ensures ConnOk(t, j)
    {
      if j == k {
        ClientReadCurrent(s);
      } else {
        ClientReadOther(s, j);
      }
    }
  }

  lemma ClientReadKeeps(s: System)
    requires Inv(s)
    ensures Inv(DoClientRead(s))
  {
    hide Inv, DoClientRead;
    if Reads(s) {
      ReadingKeeps(s);
    } else {
      NoReadNoStep(s);
    }
  }

  /** A clean hand-over only forgets an empty decoder. */
  lemma HandOverKeeps(s: System)
    requires Inv(s) && Clean(s, HandOver)
    ensures Inv(DoHandOver(s))
  {
    hide UpOk, DownOk, Tracks, IsAt, Payload, Inv, AllBounded, StreamsOk, Roles, Encode;
    if DoHandOver(s) != s {
      var k := s.current.value;
      Unpack(s, k);
      var d := s.conns[k].(reader := Steady);
      UpStays(s, d, k);
      DownStays(s, d, k);
      EditKeeps(s, k, d);
    }
  }

  function Dialed(w: ClientSession.Flow): Conn {
    Conn([HelloFrom(w)], true, [], [], true, false, None, None, false, false, Handshaking, 0, 0)
  }

  lemma DialedOk(w: ClientSession.Flow, up: bytes, down: bytes, received: nat, outq: bytes)
    ensures UpOk(Dialed(w), up, false, false, received) && DownOk(Dialed(w), down, [], false, outq)
  {
    PayloadOfOne(HelloFrom(w));
    assert Payload([HelloFrom(w)]) + [] == [];
  }

  lemma ClientHelloConn(s: System, k: nat, j: nat)
    requires Roles(s) && DoClientHello(s, k) != s && j in DoClientHello(s, k).conns
    requires j != k ==> j in s.conns && ConnOk(s, j)
    ensures ConnOk(DoClientHello(s, k), j)
  {
    hide UpOk, DownOk, IsAt, Payload;
    DialedOk(s.client, s.sentByClient, s.sentByListener, s.listener.received, Payload(s.listener.outq));
  }

  lemma ClientHelloRoles(s: System, k: nat)
    requires Roles(s) && DoClientHello(s, k) != s
    ensures Roles(DoClientHello(s, k))
  {
  }

  lemma ClientHelloKeeps(s: System, k: nat)
    requires Inv(s)
    ensures Inv(DoClientHello(s, k))
  {
    hide Roles, ConnOk, Tracks, IsAt;
    var t := DoClientHello(s, k);
    if t != s {
      ClientHelloRoles(s, k);
      forall j | j in t.conns
        ensures ConnOk(t, j)
      {
        ClientHelloConn(s, k, j);
      }
    }
  }

  lemma DropAttemptKeeps(s: System)
    requires Inv(s)
    ensures Inv(s.(attempt := None))
  {
    hide UpOk, DownOk, Tracks, IsAt, Payload;
    var t := s.(attempt := None);
    forall j | j in t.conns
      ensures ConnOk(t, j)
    {
      assert ConnOk(s, j);
      UpDetached(s.conns[j], s.sentByClient, IsCurrent(s, j), Counted(s, j), s.listener.received, s.listener.received);
    }
  }

  lemma GiveUpKeeps(s: System)
    requires Inv(s)
    ensures Inv(DoGiveUp(s))
  {
    hide Inv;
    if s.attempt.Some? && s.attempt.value.conn in s.conns {
      DropAttemptKeeps(s);
      ClientCloseKeeps(s.(attempt := None), s.attempt.value.conn);
    }
  }

  // ---- the reply to a Hello ----

  /** The reply has been taken off connection `k`, which is no longer being waited for. */
  function Popped(c: Conn): Conn
    requires c.down != []
  {
    c.(down := c.down[1..], downAt := c.downAt + |Payload([c.down[0]])|)
  }

  ghost predicate Answered(s: System) {
    && s.attempt.Some? && s.attempt.value.conn in s.conns
    && s.conns[s.attempt.value.conn].down != []
  }

  lemma PopsReply(s: System)
    requires Inv(s) && Answered(s)
    ensures var c := s.conns[s.attempt.value.conn];
            c.served && c.down[0].ReplyFrame? && Popped(c) == c.(down := c.down[1..])
  {
    hide UpOk, DownOk, Tracks, IsAt;
    var k := s.attempt.value.conn;
    Unpack(s, k);
    PayloadOfOne(s.conns[k].down[0]);
  }

  /** Any answer but a usable one: the attempt is over and its connection closed. */
  lemma RefusedKeeps(s: System)
    requires Inv(s) && Answered(s)
    ensures var k := s.attempt.value.conn;
            Inv(s.(attempt := None, conns := s.conns[k := Popped(s.conns[k]).(closedByClient := true)]))
  {
    hide UpOk, DownOk, Tracks, IsAt, Payload, Inv;
    var k := s.attempt.value.conn;
    PopsReply(s);
    DropAttemptKeeps(s);
    var r := s.(attempt := None);
    Unpack(s, k);
    Unpack(r, k);
    var d := Popped(s.conns[k]).(closedByClient := true);
    UpStays(r, d, k);
    EditKeeps(r, k, d);
  }

  lemma InstalledCurrent(s: System, w: ClientSession.Flow, tail: bytes, held: nat)
    requires Inv(s) && Answered(s)
    requires w == s.client.(replay := w.replay) && w.replay.acked >= s.client.replay.acked
    requires var c := s.conns[s.attempt.value.conn]; c.upAt <= |s.sentByClient| && tail == s.sentByClient[c.upAt..]
    ensures var k := s.attempt.value.conn;
            ConnOk(InstallConn(s.(conns := s.conns[k := Popped(s.conns[k])]), k, w, tail, held), k)
  {
    hide UpOk, DownOk, Tracks, IsAt, Payload, Inv;
    var k := s.attempt.value.conn;
    var t := InstallConn(s.(conns := s.conns[k := Popped(s.conns[k])]), k, w, tail, held);
    Unpack(s, k);
    PopsReply(s);
    var c, d := s.conns[k], t.conns[k];
    UpInstalls(c, s.sentByClient, Counted(s, k), s.listener.received);
    UpSame(c.(installed := true, pending := DataFrames(tail, MAX_WIRE_CHUNK)), d,
           s.sentByClient, true, Counted(s, k), s.listener.received);
    DownReads(c, s.sentByListener, JobFor(s, k), Serving(s, k), Payload(s.listener.outq));
    DownSame(Popped(c), d, s.sentByListener, JobFor(s, k), Serving(s, k), Payload(s.listener.outq));
  }

  lemma InstalledOther(s: System, w: ClientSession.Flow, tail: bytes, held: nat, j: nat)
    requires Inv(s) && Answered(s)
    requires w == s.client.(replay := w.replay)
    requires j in s.conns && !IsAttempt(s, j)
    ensures var k := s.attempt.value.conn;
            ConnOk(InstallConn(s.(conns := s.conns[k := Popped(s.conns[k])]), k, w, tail, held), j)
  {
    hide UpOk, DownOk, Tracks, IsAt, Payload, Inv, ReplyOk;
    Unpack(s, j);
    UpDetached(s.conns[j], s.sentByClient, IsCurrent(s, j), Counted(s, j), s.listener.received, 0);
  }

  lemma InstalledRoles(s: System, w: ClientSession.Flow, tail: bytes, held: nat)
    requires Roles(s) && Answered(s)
    ensures var k := s.attempt.value.conn;
            Roles(InstallConn(s.(conns := s.conns[k := Popped(s.conns[k])]), k, w, tail, held))
  {
    hide Payload;
  }

  lemma InstallKeeps(s: System, w: ClientSession.Flow, tail: bytes, held: nat)
    requires Inv(s) && Answered(s)
    requires w == s.client.(replay := w.replay)
    requires Tracks(w.replay, s.sentByClient) && s.client.replay.acked <= w.replay.acked <= s.listener.received
    requires var c := s.conns[s.attempt.value.conn]; c.upAt <= |s.sentByClient| && tail == s.sentByClient[c.upAt..]
    ensures var k := s.attempt.value.conn;
            Inv(InstallConn(s.(conns := s.conns[k := Popped(s.conns[k])]), k, w, tail, held))
  {
    hide ConnOk, Tracks, IsAt, Payload;
    var k := s.attempt.value.conn;
    var t := InstallConn(s.(conns := s.conns[k := Popped(s.conns[k])]), k, w, tail, held);
    InstalledRoles(s, w, tail, held);
    assert t.client.fed == s.client.fed;
    forall j | j in t.conns
      ensures ConnOk(t, j)
    {
      if j == k {
        InstalledCurrent(s, w, tail, held);
      } else {
        InstalledOther(s, w, tail, held, j);
      }
    }
  }

  lemma ResumedKeeps(s: System, n: nat, held: nat)
    requires Inv(s) && Answered(s) && s.conns[s.attempt.value.conn].down[0] == ReplyFrame(Resumed(n))
    requires SpanFits(s.client.replay, n) && TailFrom(s.client.replay, n).Some?
    ensures var k := s.attempt.value.conn;
            var (w, tail) := ClientSession.OnResumed(s.client, n);
            Inv(InstallConn(s.(conns := s.conns[k := Popped(s.conns[k])]), k, w, tail.value, held))
  {
    hide UpOk, DownOk, Tracks, Payload, Inv;
    var k := s.attempt.value.conn;
    Unpack(s, k);
    PopsReply(s);
    assert Bounded(s.conns[k].down[0], s.listener.received);
    TailExactIffSpanFits(s.client.replay, s.sentByClient, n);
    AckTracks(s.client.replay, s.sentByClient, n);
    InstallKeeps(s, ClientSession.OnResumed(s.client, n).0, TailFrom(s.client.replay, n).value, held);
  }

  lemma WelcomedKeeps(s: System, held: nat)
    requires Inv(s) && Answered(s) && s.current.None?
    ensures var k := s.attempt.value.conn;
            Inv(InstallConn(s.(conns := s.conns[k := Popped(s.conns[k])]), k, s.client, [], held))
  {
    hide DownOk, Tracks, Payload, Inv;
    Unpack(s, s.attempt.value.conn);
    assert s.sentByClient[s.conns[s.attempt.value.conn].upAt..] == [];
    InstallKeeps(s, s.client, [], held);
  }

  lemma ReadAnswerKeeps(s: System, held: nat)
    requires Inv(s) && Narrow(s, ReadAnswer(held))
    ensures Inv(DoReadAnswer(s, held))
  {
    hide ConnOk, Tracks, Payload, Inv, Brings;
    if Answered(s) && Brings(s.conns[s.attempt.value.conn], held) {
      var k := s.attempt.value.conn;
      var c := s.conns[k];
      PopsReply(s);
      RefusedKeeps(s);
      assert DoGiveUp(s.(conns := s.conns[k := Popped(c)])).conns
             == s.conns[k := Popped(c).(closedByClient := true)];
      match c.down[0].reply {
        case Resumed(n) =>
          if s.current.Some? && TailFrom(s.client.replay, n).Some? {
            ResumedKeeps(s, n, held);
          }
        case New(_) =>
          if s.current.None? {
            WelcomedKeeps(s, held);
          }
        case Refused(_) =>
      }
    }
  }

  // ---- the listener ----

  /** Only the queue to sshd and the verdict of death change. */
  lemma MinorKeeps(s: System, inq: seq<bytes>, dead: bool)
    requires Inv(s)
    ensures Inv(s.(listener := s.listener.(inq := inq, dead := dead)))
  {
    hide UpOk, DownOk, Tracks, IsAt, Payload, AllBounded, ReplyOk;
    var t := s.(listener := s.listener.(inq := inq, dead := dead));
    forall j | j in t.conns
      ensures ConnOk(t, j)
    {
      assert ConnOk(s, j);
    }
  }

  lemma ParkedConn(s: System, grace: nat, j: nat)
    requires Roles(s) && j in s.conns && ConnOk(s, j) && !s.listener.dead && grace > 0
    ensures ConnOk(s.(listener := Park(s.listener, grace)), j)
  {
    hide UpOk, DownOk, Tracks, IsAt, Payload, AllBounded, ReplyOk;
    UpDetached(s.conns[j], s.sentByClient, IsCurrent(s, j), Counted(s, j), s.listener.received, s.listener.received);
    if IsCurrent(s, j) || IsAttempt(s, j) {
      DownForgets(s.conns[j], s.sentByListener, JobFor(s, j), Serving(s, j), Payload(s.listener.outq),
                  JobFor(s, j), Payload(s.listener.outq));
    }
  }

  lemma ParkKeeps(s: System, grace: nat)
    requires Inv(s)
    ensures Inv(s.(listener := Park(s.listener, grace)))
  {
    hide ConnOk, Tracks, IsAt, Payload;
    if s.listener.dead {
    } else if grace == 0 {
      hide Inv;
      MinorKeeps(s, s.listener.inq, true);
    } else {
      var t := s.(listener := Park(s.listener, grace));
      forall j | j in t.conns
        ensures ConnOk(t, j)
      {
        ParkedConn(s, grace, j);
      }
    }
  }

  /** A write that failed: the frame it carried is gone, and so is the write half. */
  lemma DropJobKeeps(s: System)
    requires Inv(s) && s.job.Some?
    ensures Inv(s.(job := None))
  {
    hide UpOk, DownOk, Tracks, IsAt, Payload, AllBounded, ReplyOk;
    var t := s.(job := None);
    forall j | j in t.conns
      ensures ConnOk(t, j)
    {
      assert ConnOk(s, j);
      if (IsCurrent(s, j) || IsAttempt(s, j)) && j == s.job.value.conn {
        DownForgets(s.conns[j], s.sentByListener, JobFor(s, j), Serving(s, j), Payload(s.listener.outq),
                    [], Payload(s.listener.outq));
      }
    }
  }

  lemma SshdReadConn(s: System, buf: bytes, j: nat)
    requires j in s.conns && ConnOk(s, j)
    ensures ConnOk(DoSshdRead(s, buf), j)
  {
    hide UpOk, DownOk, Tracks, IsAt, Payload, AllBounded, ReplyOk;
    SplittingIsDecodable(buf, CHUNK);
    PayloadAppend(s.listener.outq, DataFrames(buf, CHUNK));
    assert Payload(s.listener.outq) + [] == Payload(s.listener.outq);
    if IsCurrent(s, j) || IsAttempt(s, j) {
      DownGrows(s.conns[j], s.sentByListener, buf, JobFor(s, j), Serving(s, j), Payload(s.listener.outq));
    }
  }

  lemma SshdReadKeeps(s: System, buf: bytes)
    requires Inv(s)
    ensures Inv(DoSshdRead(s, buf))
  {
    hide ConnOk, Tracks, IsAt, Payload;
    var t := DoSshdRead(s, buf);
    SentTracks(s.listener.replay, s.sentByListener, buf);
    IsAtGrows(s.sentByListener, buf, 0, s.client.fed);
    assert s.sentByListener + [] == s.sentByListener;
    forall j | j in t.conns
      ensures ConnOk(t, j)
    {
      SshdReadConn(s, buf, j);
    }
  }

  lemma TakenJobConn(s: System, j: nat)
    requires Roles(s) && j in s.conns && ConnOk(s, j) && s.job.None?
    requires NextWriteJob(s.listener).1.Send?
    ensures ConnOk(DoTakeJob(s), j)
  {
    hide UpOk, DownOk, Tracks, IsAt, Payload, AllBounded, ReplyOk;
    var f, rest := s.listener.outq[0], s.listener.outq[1..];
    assert s.listener.outq == [f] + rest;
    if IsCurrent(s, j) || IsAttempt(s, j) {
      if Serving(s, j) {
        DownTakes(s.conns[j], s.sentByListener, f, rest);
      } else {
        DownForgets(s.conns[j], s.sentByListener, JobFor(s, j), false, Payload(s.listener.outq), [], Payload(rest));
      }
    }
  }

  lemma RetiredConn(s: System, j: nat)
    requires Roles(s) && j in s.conns && ConnOk(s, j) && s.job.None?
    requires !NextWriteJob(s.listener).1.Send?
    ensures ConnOk(DoTakeJob(s), j)
  {
    hide UpOk, DownOk, Tracks, IsAt, Payload, AllBounded, ReplyOk;
    if IsCurrent(s, j) || IsAttempt(s, j) {
      DownForgets(s.conns[j], s.sentByListener, JobFor(s, j), Serving(s, j), Payload(s.listener.outq),
                  [], Payload(s.listener.outq));
    }
  }

  lemma TakeJobKeeps(s: System)
    requires Inv(s)
    ensures Inv(DoTakeJob(s))
  {
    hide ConnOk, Tracks, IsAt, Payload, Bounded;
    if s.job.None? {
      var t := DoTakeJob(s);
      forall j | j in t.conns
        ensures ConnOk(t, j)
      {
        if NextWriteJob(s.listener).1.Send? {
          TakenJobConn(s, j);
        } else {
          RetiredConn(s, j);
        }
      }
    }
  }

  lemma AttachedOnce(s: System, k: nat)
    requires Roles(s) && k in s.conns && ConnOk(s, k) && s.conns[k].attachedAs.Some?
    ensures s.conns[k].snapshot.None?
  {
  }

  lemma JobSaidOn(s: System)
    requires StreamsOk(s) && Roles(s) && s.job.Some? && ConnOk(s, s.job.value.conn)
    ensures ConnOk(DoJobWritten(s, true, 0), s.job.value.conn)
  {
    hide UpOk, DownOk, Tracks, IsAt, Payload;
    var t, k, f := DoJobWritten(s, true, 0), s.job.value.conn, s.job.value.frame;
    var c := s.conns[k];
    UpStays(s, t.conns[k], k);
    AttachedOnce(s, k);
    if IsCurrent(s, k) || IsAttempt(s, k) {
      DownSays(c, s.sentByListener, f, Serving(s, k), Payload(s.listener.outq));
    }
  }

  lemma JobSaidElsewhere(s: System, j: nat)
    requires Roles(s) && s.job.Some? && j in s.conns && j != s.job.value.conn && ConnOk(s, j)
    ensures ConnOk(DoJobWritten(s, true, 0), j)
  {
    hide UpOk, DownOk, Tracks, IsAt, Payload, AllBounded, ReplyOk;
  }

  lemma JobSaidRoles(s: System)
    requires Roles(s) && s.job.Some?
    ensures Roles(DoJobWritten(s, true, 0))
  {
  }

  lemma JobWrittenKeeps(s: System, ok: bool, grace: nat)
    requires Inv(s)
    ensures Inv(DoJobWritten(s, ok, grace))
  {
    if s.job.Some? {
      if ok {
        hide ConnOk, Roles, Tracks, IsAt, Payload;
        var t := DoJobWritten(s, true, 0);
        assert t == DoJobWritten(s, ok, grace);
        JobSaidRoles(s);
        forall j | j in t.conns
          ensures ConnOk(t, j)
        {
          if j == s.job.value.conn {
            JobSaidOn(s);
          } else {
            JobSaidElsewhere(s, j);
          }
        }
      } else {
        hide Inv;
        DropJobKeeps(s);
        ParkKeeps(s.(job := None), grace);
      }
    }
  }

  // ---- the two halves of a resume ----

  lemma HelloOnly(s: System, k: nat)
    requires Inv(s) && HelloWaits(s, k)
    ensures var c := s.conns[k];
            && c.up[1..] == [] && c.down == [] && c.pending == [] && !c.installed && c.attachedAs.None?
            && c.snapshot.None?
            && ClaimOf(s, k) <= s.client.received
            && (IsAttempt(s, k) ==> ClaimOf(s, k) == s.client.received)
  {
    Unpack(s, k);
  }

  /** A connection that has said Hello and been answered with `reply`. */
  function Served(s: System, k: nat, reply: Frame, snapshot: Option<Snapshot>): Conn
    requires HelloWaits(s, k)
  {
    var c := s.conns[k].(up := s.conns[k].up[1..], served := true,
                         upAt := s.listener.received, downAt := ClaimOf(s, k));
    c.(down := Say(c, reply), snapshot := snapshot)
  }

  lemma ServedSides(s: System, k: nat, reply: Frame, snapshot: Option<Snapshot>)
    requires Inv(s) && HelloWaits(s, k) && reply.ReplyFrame?
    requires snapshot.Some? ==> snapshot.value.offer.received == s.listener.received
    requires snapshot.Some? && IsAttempt(s, k) ==>
               ClaimOf(s, k) + |snapshot.value.offer.tail| == snapshot.value.sentTotal
               && IsAt(s.sentByListener, ClaimOf(s, k), snapshot.value.offer.tail)
    ensures var d := Served(s, k, reply, snapshot);
            && UpOk(d, s.sentByClient, false, false, s.listener.received)
            && (IsAttempt(s, k) ==>
                  DownOk(d, s.sentByListener, [], false, Payload(s.listener.outq)))
  {
    hide Inv, Payload, ConnOk, Roles, Tracks;
    Unpack(s, k);
    HelloOnly(s, k);
    PayloadOfOne(reply);
    NoPayload();
    assert s.conns[k].down + [reply] == [reply];
  }

  lemma NoPayload()
    ensures Payload([]) == []
  {
  }

  lemma ServedConn(s: System, k: nat, reply: Frame, snapshot: Option<Snapshot>)
    requires Inv(s) && HelloWaits(s, k) && reply.ReplyFrame?
    requires reply.reply.Resumed? ==> reply.reply.received == s.listener.received
    requires if snapshot.Some? then reply.reply.Resumed? else reply.reply.Refused?
    requires snapshot.Some? ==> snapshot.value.offer.received == s.listener.received
    requires snapshot.Some? && IsAttempt(s, k) ==>
               ClaimOf(s, k) + |snapshot.value.offer.tail| == snapshot.value.sentTotal
               && IsAt(s.sentByListener, ClaimOf(s, k), snapshot.value.offer.tail)
    ensures Inv(s.(conns := s.conns[k := Served(s, k, reply, snapshot)]))
  {
    hide UpOk, DownOk, Tracks, IsAt, Payload, Inv;
    Unpack(s, k);
    HelloOnly(s, k);
    ServedSides(s, k, reply, snapshot);
    EditKeeps(s, k, Served(s, k, reply, snapshot));
  }

  lemma OfferIsMissingPart(s: System, k: nat)
    requires Inv(s) && HelloWaits(s, k) && IsAttempt(s, k)
    requires SpanFits(s.listener.replay, ClaimOf(s, k)) && OfferFor(s.listener, ClaimOf(s, k)).Some?
    ensures var o := OfferFor(s.listener, ClaimOf(s, k)).value;
            ClaimOf(s, k) + |o.tail| == s.listener.replay.sentTotal
            && IsAt(s.sentByListener, ClaimOf(s, k), o.tail)
  {
    hide ConnOk;
    var tail := TailFrom(s.listener.replay, ClaimOf(s, k)).value;
    TailExactIffSpanFits(s.listener.replay, s.sentByListener, ClaimOf(s, k));
    assert tail == s.sentByListener[ClaimOf(s, k)..];
  }

  lemma ServeHelloKeeps(s: System, k: nat)
    requires Inv(s) && Narrow(s, ServeHello(k))
    ensures Inv(DoServeHello(s, k))
  {
    hide Inv, UpOk, DownOk, Tracks, IsAt, Payload;
    if HelloWaits(s, k) {
      var claim := ClaimOf(s, k);
      HelloOnly(s, k);
      if s.listener.dead || OfferFor(s.listener, claim).None? {
        ServedConn(s, k, ReplyFrame(Refused([])), None);
      } else {
        var o := OfferFor(s.listener, claim).value;
        if IsAttempt(s, k) {
          OfferIsMissingPart(s, k);
        }
        ServedConn(s, k, ReplyFrame(Resumed(o.received)), Some(Snapshot(o, s.listener.replay.sentTotal)));
      }
    }
  }

  lemma AttachedDown(s: System, k: nat)
    requires StreamsOk(s) && Roles(s) && k in s.conns && s.conns[k].snapshot.Some? && ConnOk(s, k)
    requires s.conns[k].attachedAs.None? && Quiet(s, AttachConn(k))
    ensures var t := DoAttachConn(s, k);
            IsCurrent(s, k) || IsAttempt(s, k) ==>
              DownOk(t.conns[k], s.sentByListener, JobFor(t, k), Serving(t, k), Payload(t.listener.outq))
  {
    hide DownOk, UpOk, IsAt, Payload, AllBounded, ReplyOk;
    var t, c := DoAttachConn(s, k), s.conns[k];
    if IsCurrent(s, k) || IsAttempt(s, k) {
      DownForgets(c, s.sentByListener, JobFor(s, k), Serving(s, k), Payload(s.listener.outq), [], []);
      DownAttaches(c, s.sentByListener);
      DownSame(c.(snapshot := None), t.conns[k], s.sentByListener, [], true, Payload(t.listener.outq));
    }
  }

  lemma AttachedUp(s: System, k: nat)
    requires k in s.conns && s.conns[k].snapshot.Some? && ConnOk(s, k) && Quiet(s, AttachConn(k))
    ensures var t := DoAttachConn(s, k);
            UpOk(t.conns[k], s.sentByClient, IsCurrent(s, k), Counted(t, k), s.listener.received)
  {
    hide DownOk, IsAt, Payload, AllBounded, ReplyOk;
  }

  lemma AttachedItself(s: System, k: nat)
    requires StreamsOk(s) && Roles(s) && k in s.conns && s.conns[k].snapshot.Some? && ConnOk(s, k)
    requires s.conns[k].attachedAs.None? && Quiet(s, AttachConn(k))
    ensures ConnOk(DoAttachConn(s, k), k)
  {
    hide UpOk, DownOk, IsAt, Payload, AllBounded;
    AttachedUp(s, k);
    AttachedDown(s, k);
  }

  lemma AttachedAnother(s: System, k: nat, j: nat)
    requires Roles(s) && k in s.conns && s.conns[k].snapshot.Some? && j in s.conns && j != k && ConnOk(s, j)
    ensures ConnOk(DoAttachConn(s, k), j)
  {
    hide UpOk, DownOk, IsAt, Payload, AllBounded, ReplyOk;
    UpDetached(s.conns[j], s.sentByClient, IsCurrent(s, j), Counted(s, j), s.listener.received, s.listener.received);
    if IsCurrent(s, j) || IsAttempt(s, j) {
      DownForgets(s.conns[j], s.sentByListener, JobFor(s, j), Serving(s, j), Payload(s.listener.outq),
                  JobFor(s, j), Payload(DoAttachConn(s, k).listener.outq));
    }
  }

  lemma AttachedRoles(s: System, k: nat)
    requires Roles(s) && k in s.conns && s.conns[k].snapshot.Some? && s.conns[k].attachedAs.None?
    ensures Roles(DoAttachConn(s, k))
  {
    hide DataFrames;
    var t := DoAttachConn(s, k);
    forall i, j | i in t.conns && j in t.conns && SameReader(t.conns[i], t.conns[j])
      ensures i == j
    {
      assert i != k && j != k ==> SameReader(s.conns[i], s.conns[j]);
    }
  }

  lemma AttachKeeps(s: System, k: nat)
    requires Inv(s) && Quiet(s, AttachConn(k))
    ensures Inv(DoAttachConn(s, k))
  {
    hide Roles, Tracks, IsAt, Payload, UpOk, DownOk, ConnOk, ReplyOk, AllBounded;
    if k in s.conns && s.conns[k].snapshot.Some? {
      var t := DoAttachConn(s, k);
      assert s.conns[k].attachedAs.None? by {
        PendingIsUnattached(s, k);
      }
      AttachedRoles(s, k);
      forall j | j in t.conns
        ensures ConnOk(t, j)
      {
        if j == k {
          AttachedItself(s, k);
        } else {
          AttachedAnother(s, k, j);
        }
      }
    }
  }

  lemma PendingIsUnattached(s: System, k: nat)
    requires Inv(s) && k in s.conns && s.conns[k].snapshot.Some?
    ensures s.conns[k].attachedAs.None?
  {
    Unpack(s, k);
  }

  // ---- the listener's reader ----

  /** The frame at the head of `k` is applied, before any park a violation causes. */
  function Applied(s: System, k: nat): System
    requires k in s.conns && s.conns[k].up != []
  {
    var c := s.conns[k];
    var head := Payload([c.up[0]]);
    s.(conns := s.conns[k := c.(up := c.up[1..], upAt := c.upAt + |head|)],
       listener := Apply(s.listener, c.up[0], true).0,
       pushed := s.pushed + head)
  }

  lemma ControlQueued(outq: seq<Frame>, f: Frame)
    requires !f.Data?
    ensures Payload(outq + [f]) == Payload(outq)
  {
    PayloadOfOne(f);
    PayloadAppend(outq, [f]);
  }

  lemma AppliedData(l: Listener, payload: bytes)
    ensures ApplyKeeps(l, Data(payload))
  {
    hide Payload;
    PayloadOfOne(Data(payload));
    ControlQueued(l.outq, TunnelCodec.Ack(l.received + |payload|));
  }

  lemma AppliedPing(l: Listener, word: nat)
    ensures ApplyKeeps(l, Ping(word))
  {
    hide Payload;
    PayloadOfOne(Ping(word));
    ControlQueued(l.outq, Pong(word));
  }

  ghost predicate ApplyKeeps(l: Listener, f: Frame) {
    var l1 := Apply(l, f, true).0;
    && l1.received == l.received + |Payload([f])|
    && Payload(l1.outq) == Payload(l.outq)
    && l1.attached == l.attached && l1.send == l.send && l1.generation == l.generation
    && l1.replay == (if f.Ack? then Replays.Ack(l.replay, f.received) else l.replay)
    && (l.ackedOut <= l.received ==> l1.ackedOut <= l1.received)
    && (forall i :: 0 <= i < |l1.outq| ==>
          (i < |l.outq| && l1.outq[i] == l.outq[i]) || Queued(l1.outq[i], l1.received))
  }

  lemma AppliedListener(l: Listener, f: Frame)
    ensures ApplyKeeps(l, f)
  {
    match f {
      case Data(payload) => AppliedData(l, payload);
      case Ping(word) => AppliedPing(l, word);
      case _ => PayloadOfOne(f);
    }
  }

  /** Before the client installed a connection it has sent no data on it. */
  lemma NoDataYet(c: Conn, stream: bytes, mine: bool, attached: bool, received: nat)
    requires UpOk(c, stream, mine, attached, received) && !c.installed && c.up != []
    ensures Payload([c.up[0]]) == []
  {
    HeadPayload(c.up);
  }

  lemma AppliedItself(s: System, k: nat)
    requires Roles(s) && k in s.conns && s.conns[k].up != [] && ConnOk(s, k) && IsAttached(s, k)
    ensures ConnOk(Applied(s, k), k)
    ensures IsAt(s.sentByClient, s.listener.received, Payload([s.conns[k].up[0]]))
  {
    hide DownOk, IsAt, Payload, Apply;
    var t, c := Applied(s, k), s.conns[k];
    AppliedListener(s.listener, c.up[0]);
    UpReads(c, s.sentByClient, IsCurrent(s, k), true, s.listener.received);
    DownStays(s, t.conns[k], k);
    if !c.installed {
      NoDataYet(c, s.sentByClient, IsCurrent(s, k), true, s.listener.received);
    }
  }

  lemma AppliedElsewhere(s: System, k: nat, j: nat)
    requires Roles(s) && k in s.conns && s.conns[k].up != [] && IsAttached(s, k)
    requires j in s.conns && j != k && ConnOk(s, j)
    ensures ConnOk(Applied(s, k), j)
  {
    hide UpOk, DownOk, IsAt, Payload, ReplyOk, Apply;
    AppliedListener(s.listener, s.conns[k].up[0]);
    assert SameReader(s.conns[k], s.conns[j]) || !IsAttached(s, j);
    UpDetached(s.conns[j], s.sentByClient, IsCurrent(s, j), Counted(s, j), s.listener.received,
               Applied(s, k).listener.received);
  }

  lemma AppliedStreams(s: System, k: nat)
    requires StreamsOk(s) && k in s.conns && s.conns[k].up != [] && AllBounded(s.conns[k].up, s.client.received)
    requires IsAt(s.sentByClient, s.listener.received, Payload([s.conns[k].up[0]]))
    ensures StreamsOk(Applied(s, k))
  {
    hide IsAt, Payload, Apply, Tracks;
    var f := s.conns[k].up[0];
    AppliedListener(s.listener, f);
    IsAtJoins(s.sentByClient, 0, s.pushed, Payload([f]));
    assert Bounded(f, s.client.received);
    if f.Ack? {
      AckTracks(s.listener.replay, s.sentByListener, f.received);
    }
  }

  lemma AppliedRoles(s: System, k: nat)
    requires Roles(s) && k in s.conns && s.conns[k].up != []
    ensures Roles(Applied(s, k))
  {
    hide Payload, Apply;
    AppliedListener(s.listener, s.conns[k].up[0]);
    RolesEdited(s, Applied(s, k), k, Applied(s, k).conns[k]);
  }

  lemma AppliedKeeps(s: System, k: nat)
    requires Inv(s) && k in s.conns && s.conns[k].up != [] && IsAttached(s, k)
    ensures Inv(Applied(s, k))
  {
    hide StreamsOk, Roles, ConnOk, IsAt, Payload, Apply, AllBounded;
    var t := Applied(s, k);
    AppliedRoles(s, k);
    AppliedItself(s, k);
    UpBounded(s, k);
    AppliedStreams(s, k);
    forall j | j in t.conns
      ensures ConnOk(t, j)
    {
      if j != k {
        AppliedElsewhere(s, k, j);
      }
    }
  }

  lemma UpBounded(s: System, k: nat)
    requires Inv(s) && k in s.conns
    ensures AllBounded(s.conns[k].up, s.client.received)
  {
    Unpack(s, k);
  }

  lemma StaleReadKeeps(s: System, k: nat)
    requires Inv(s) && k in s.conns && s.conns[k].attachedAs.Some? && !IsAttached(s, k) && s.conns[k].up != []
    ensures var c := s.conns[k];
            Inv(s.(conns := s.conns[k := c.(up := c.up[1..], upAt := c.upAt + |Payload([c.up[0]])|)]))
  {
    hide UpOk, DownOk, Tracks, IsAt, Payload, Inv;
    Unpack(s, k);
    AttachedOnce(s, k);
    var c := s.conns[k];
    var d := c.(up := c.up[1..], upAt := c.upAt + |Payload([c.up[0]])|);
    UpReads(c, s.sentByClient, IsCurrent(s, k), false, s.listener.received);
    DownStays(s, d, k);
    if !c.installed {
      NoDataYet(c, s.sentByClient, IsCurrent(s, k), false, s.listener.received);
    }
    EditKeeps(s, k, d);
  }

  lemma ListenerReadKeeps(s: System, k: nat, grace: nat)
    requires Inv(s)
    ensures Inv(DoListenerRead(s, k, grace))
  {
    hide Inv, Apply, Park, Payload;
    if k in s.conns && s.conns[k].attachedAs.Some? && s.conns[k].up != [] {
      if IsAttached(s, k) {
        AppliedKeeps(s, k);
        ParkKeeps(Applied(s, k), grace);
      } else {
        StaleReadKeeps(s, k);
      }
    }
  }

  lemma CurrentIsNoAttempt(s: System)
    requires Inv(s) && s.current.Some?
    ensures !IsAttempt(s, s.current.value)
  {
    hide ConnOk, StreamsOk;
  }

  // ---- every step ----

  lemma StepKeeps(s: System, step: TunnelSystem.Step, grace: nat)
    requires Inv(s) && Quiet(s, step) && Clean(s, step) && Narrow(s, step)
    ensures Inv(TunnelSystem.Do(s, step, grace))
  {
    hide Inv, Quiet, Clean, Narrow, Attach, Park, NextWriteJob, ReadFrame, WriteDone;
    match step {
      case Output(o) =>
        var w := ClientSession.QueueOutput(s.client, o);
        SameCounters(s, w);
        ApplicationsAside(s.(client := w), s.produced + o, s.toSshd);
      case TakeOutbox => TakeOutboxKeeps(s);
      case TakeAck => TakeAckKeeps(s);
      case TakeControl(f) =>
        if WriterIdle(s) && (f.Ping? || f.Pong?) {
          QueueKeeps(s, f);
        }
      case ClientWrite(k) => ClientWriteKeeps(s, k);
      case ClientRead => ClientReadKeeps(s);
      case RequestAck => SameCounters(s, ClientSession.RequestAck(s.client));
      case ClientClose =>
        if s.current.Some? && s.current.value in s.conns {
          CurrentIsNoAttempt(s);
          ClientCloseKeeps(s, s.current.value);
        }
      case ClientHello(k) => ClientHelloKeeps(s, k);
      case GiveUp => GiveUpKeeps(s);
      case ReadAnswer(held) => ReadAnswerKeeps(s, held);
      case HandOver => HandOverKeeps(s);
      case ServeHello(k) => ServeHelloKeeps(s, k);
      case AttachConn(k) => AttachKeeps(s, k);
      case SshdRead(buf) => SshdReadKeeps(s, buf);
      case TakeJob => TakeJobKeeps(s);
      case JobWritten(ok) => JobWrittenKeeps(s, ok, grace);
      case ListenerRead(k) => ListenerReadKeeps(s, k, grace);
      case ReadEnds(k) => ParkKeeps(s, grace);
      case DrainInbound =>
        if s.listener.inq != [] {
          var t := s.(listener := s.listener.(inq := s.listener.inq[1..], dead := s.listener.dead));
          MinorKeeps(s, s.listener.inq[1..], s.listener.dead);
          ApplicationsAside(t, s.produced, s.toSshd + s.listener.inq[0]);
        }
      case TimerFires(e) => MinorKeeps(s, s.listener.inq, ListenerSession.TimerFires(s.listener, e).dead);
      case EndSession => MinorKeeps(s, s.listener.inq, true);
      case CutUp(k, n) => CutUpKeeps(s, k, n);
      case CutDown(k, n) => CutDownKeeps(s, k, n);
    }
  }
}
