/** What every reachable state of the tunnel keeps, under the two named hypotheses. */
module TunnelInvariant {
  import opened Bytes
  import opened TunnelCodec
  import opened Replays
  import opened ListenerSession
  import opened TunnelSystem

  // ---- pieces of a stream ----

  /** `p` is what `stream` holds from offset `at` on. */
  ghost predicate IsAt(stream: bytes, at: nat, p: bytes) {
    at + |p| <= |stream| && stream[at..at + |p|] == p
  }

  lemma IsAtGrows(stream: bytes, more: bytes, at: nat, p: bytes)
    requires IsAt(stream, at, p)
    ensures IsAt(stream + more, at, p)
    ensures at + |p| == |stream| ==> IsAt(stream + more, at, p + more)
  {
    assert (stream + more)[at..at + |p|] == stream[at..at + |p|];
    if at + |p| == |stream| {
      assert (stream + more)[at..] == stream[at..] + more;
    }
  }

  lemma IsAtSplits(stream: bytes, at: nat, a: bytes, b: bytes)
    requires IsAt(stream, at, a + b)
    ensures IsAt(stream, at, a) && IsAt(stream, at + |a|, b)
  {
    var whole := stream[at..at + |a + b|];
    assert stream[at..at + |a|] == whole[..|a|] == a;
    assert stream[at + |a|..at + |a| + |b|] == whole[|a|..] == b;
  }

  lemma HeadPayload(fs: seq<Frame>)
    requires fs != []
    ensures Payload(fs) == Payload([fs[0]]) + Payload(fs[1..])
  {
    assert fs == [fs[0]] + fs[1..];
    PayloadAppend([fs[0]], fs[1..]);
  }

  /** Reading the head of a direction moves its offset past the head's payload. */
  lemma HeadLeaves(stream: bytes, at: nat, fs: seq<Frame>, rest: bytes)
    requires fs != [] && IsAt(stream, at, Payload(fs) + rest)
    ensures var head := Payload([fs[0]]);
            && IsAt(stream, at, head)
            && IsAt(stream, at + |head|, Payload(fs[1..]) + rest)
            && at + |Payload(fs) + rest| == at + |head| + |Payload(fs[1..]) + rest|
  {
    hide Payload, IsAt;
    var head := Payload([fs[0]]);
    HeadPayload(fs);
    assert Payload(fs) + rest == head + (Payload(fs[1..]) + rest);
    IsAtSplits(stream, at, head, Payload(fs[1..]) + rest);
  }

  lemma CutKeepsPrefix(stream: bytes, at: nat, fs: seq<Frame>, kept: nat)
    requires kept <= |fs| && IsAt(stream, at, Payload(fs))
    ensures IsAt(stream, at, Payload(fs[..kept]))
  {
    assert fs == fs[..kept] + fs[kept..];
    PayloadAppend(fs[..kept], fs[kept..]);
    IsAtSplits(stream, at, Payload(fs[..kept]), Payload(fs[kept..]));
  }

  // ---- acknowledgements in flight ----

  ghost predicate Bounded(f: Frame, n: nat) {
    && (f.Ack? ==> f.received <= n)
    && (f.ReplyFrame? && f.reply.Resumed? ==> f.reply.received <= n)
  }

  /** Frames pump B may carry: replies are never queued. */
  ghost predicate Queued(f: Frame, n: nat) {
    Bounded(f, n) && !f.ReplyFrame?
  }

  ghost predicate AllBounded(fs: seq<Frame>, n: nat) {
    forall i :: 0 <= i < |fs| ==> Bounded(fs[i], n)
  }

  // ---- one connection, client to listener ----

  /**
   * `mine` says the client's writer owns this connection now; `attached` that the listener counts what it reads
   * from it.
   */
  ghost predicate UpOk(c: Conn, stream: bytes, mine: bool, attached: bool, received: nat) {
    && IsAt(stream, c.upAt, Payload(c.up))
    && (c.upOpen ==> IsAt(stream, c.upAt, Payload(c.up) + Payload(c.pending)))
    && (c.upOpen && mine ==> c.upAt + |Payload(c.up) + Payload(c.pending)| == |stream|)
    && (attached ==> c.upAt == received)
    && (!c.installed ==> Payload(c.up) == [] && c.pending == [])
    && (c.served && !c.installed ==> c.up == [])
    && (c.snapshot.Some? ==> c.upAt == c.snapshot.value.offer.received && c.attachedAs.None?)
  }

  // ---- one connection, listener to client ----

  /** Only one reply is ever said, first; nothing else comes before it. */
  ghost predicate ReplyOk(c: Conn, open: bool) {
    && (!c.served ==> c.down == [] && c.snapshot.None? && c.attachedAs.None? && !c.installed)
    && (forall i :: 1 <= i < |c.down| ==> !c.down[i].ReplyFrame?)
    && (c.installed && c.down != [] ==> !c.down[0].ReplyFrame?)
    && (open && c.served ==> if c.down == [] then !c.downOpen else c.down[0].ReplyFrame?)
    && (c.down != [] && c.down[0].ReplyFrame? && c.down[0].reply.Resumed? ==> c.down[0].reply.received == c.upAt)
    && (c.snapshot.Some? ==> |c.down| <= 1 && (c.down != [] ==> c.down[0].ReplyFrame? && !c.down[0].reply.Refused?))
    && !c.reader.Skewed?
  }

  /** `job` and `outq` are the payloads on their way to this connection; `serving` that more will follow. */
  ghost predicate DownOk(c: Conn, stream: bytes, job: bytes, serving: bool, outq: bytes) {
    && IsAt(stream, c.downAt, Payload(c.down))
    && (c.downOpen ==> IsAt(stream, c.downAt, Payload(c.down) + job))
    && (c.downOpen && serving ==>
          IsAt(stream, c.downAt, Payload(c.down) + job + outq)
          && c.downAt + |Payload(c.down) + job + outq| == |stream|)
    && (c.snapshot.Some? ==>
          var snap := c.snapshot.value;
          Payload(c.down) == [] && c.downAt + |snap.offer.tail| == snap.sentTotal
          && IsAt(stream, c.downAt, snap.offer.tail))
  }

  // ---- who is who ----

  ghost predicate IsAttached(s: System, k: nat)
    requires k in s.conns
  {
    s.conns[k].attachedAs == Some(s.listener.generation)
  }

  /** The listener reads `k`, and the client sends there or is about to. */
  ghost predicate Counted(s: System, k: nat)
    requires k in s.conns
  {
    IsAttached(s, k) && (IsAttempt(s, k) || s.conns[k].installed)
  }

  function JobFor(s: System, k: nat): bytes {
    if s.job.Some? && s.job.value.conn == k then Payload([s.job.value.frame]) else []
  }

  /** Pump B still holds, or will get back, the write half of `k`. */
  ghost predicate Serving(s: System, k: nat) {
    && s.listener.attached
    && (s.listener.send == Some(k)
        || (s.job.Some? && s.job.value.conn == k && s.job.value.generation == s.listener.generation))
  }

  ghost predicate SameReader(c: Conn, d: Conn) {
    c.attachedAs.Some? && c.attachedAs == d.attachedAs
  }

  ghost predicate Roles(s: System) {
    && (s.current.Some? ==>
          s.current.value in s.conns && s.conns[s.current.value].installed)
    && (s.attempt.Some? ==>
          s.attempt.value.conn in s.conns && !s.conns[s.attempt.value.conn].installed
          && !s.conns[s.attempt.value.conn].closedByClient
          && s.attempt.value.deferred == []
          && (s.current.Some? ==> s.conns[s.current.value].closedByClient))
    && (s.current.None? ==> s.sentByClient == [])
    && (s.job.Some? ==>
          && s.job.value.conn in s.conns
          && s.conns[s.job.value.conn].attachedAs == Some(s.job.value.generation)
          && (s.job.value.generation == s.listener.generation ==> s.listener.send.None?))
    && (s.listener.send.Some? ==>
          s.listener.send.value in s.conns && s.conns[s.listener.send.value].attachedAs == Some(s.listener.generation))
    && (forall k :: k in s.conns && s.conns[k].attachedAs.Some? ==>
          s.conns[k].attachedAs.value <= s.listener.generation)
    && (forall k, j :: k in s.conns && j in s.conns && SameReader(s.conns[k], s.conns[j]) ==> k == j)
  }

  /** The client's own offset into what the listener sends. */
  ghost predicate ClientAt(s: System, k: nat)
    requires k in s.conns
  {
    var c := s.conns[k];
    && (IsCurrent(s, k) && !c.closedByClient ==> s.client.received == c.downAt)
    && (IsAttempt(s, k) && c.served ==>
          && s.client.received == c.downAt && (s.current.Some? ==> s.client.replay.acked <= c.upAt)
          && (c.down != [] && c.down[0].ReplyFrame? ==>
                (c.down[0].reply.New? ==> s.current.None?) && (c.down[0].reply.Resumed? ==> s.current.Some?)))
    && (IsAttempt(s, k) && !c.served ==> s.current.Some?)
    && (!c.served ==>
          && |c.up| <= 1 && c.pending == []
          && (c.up != [] ==>
                c.up[0].HelloFrame? && c.up[0].hello.resume.Some?
                && c.up[0].hello.resume.value.received <= s.client.received
                && (IsAttempt(s, k) ==> c.up[0].hello.resume.value.received == s.client.received)))
  }

  ghost predicate AcksOk(s: System, k: nat)
    requires k in s.conns
  {
    var c := s.conns[k];
    && AllBounded(c.up, s.client.received) && AllBounded(c.pending, s.client.received)
    && AllBounded(c.down, s.listener.received)
    && (c.snapshot.Some? ==> c.snapshot.value.offer.received <= s.listener.received)
  }

  ghost predicate ConnOk(s: System, k: nat)
    requires k in s.conns
  {
    var c := s.conns[k];
    && UpOk(c, s.sentByClient, IsCurrent(s, k), Counted(s, k), s.listener.received)
    && ReplyOk(c, IsAttempt(s, k))
    && (IsCurrent(s, k) || IsAttempt(s, k) ==>
          DownOk(c, s.sentByListener, JobFor(s, k), Serving(s, k), Payload(s.listener.outq)))
    && ClientAt(s, k)
    && AcksOk(s, k)
  }

  ghost predicate StreamsOk(s: System) {
    && Tracks(s.client.replay, s.sentByClient)
    && Tracks(s.listener.replay, s.sentByListener)
    && IsAt(s.sentByClient, 0, s.pushed) && |s.pushed| == s.listener.received
    && IsAt(s.sentByListener, 0, s.client.fed) && |s.client.fed| == s.client.received
    && s.client.replay.acked <= s.listener.received
    && s.listener.replay.acked <= s.client.received
    && s.listener.ackedOut <= s.listener.received
    && (forall i :: 0 <= i < |s.listener.outq| ==> Queued(s.listener.outq[i], s.listener.received))
    && (s.job.Some? ==> Queued(s.job.value.frame, s.listener.received))
  }

  ghost predicate Inv(s: System) {
    StreamsOk(s) && Roles(s) && forall k :: k in s.conns ==> ConnOk(s, k)
  }

  // ---- one direction at a time: client to listener ----

  lemma PayloadOfOne(f: Frame)
    ensures Payload([f]) == if f.Data? then f.payload else []
  {
    assert Payload([f]) == (if f.Data? then f.payload else []) + Payload([]);
  }

  lemma UpDetached(c: Conn, stream: bytes, mine: bool, attached: bool, received: nat, received': nat)
    requires UpOk(c, stream, mine, attached, received)
    ensures UpOk(c, stream, mine, false, received') && UpOk(c, stream, false, attached, received)
  {
  }

  lemma UpGrows(c: Conn, stream: bytes, more: bytes, attached: bool, received: nat)
    requires UpOk(c, stream, false, attached, received)
    ensures UpOk(c, stream + more, false, attached, received)
  {
    IsAtGrows(stream, more, c.upAt, Payload(c.up));
    if c.upOpen {
      IsAtGrows(stream, more, c.upAt, Payload(c.up) + Payload(c.pending));
    }
  }

  /** The writer of the current connection takes an outbox entry. */
  lemma UpTakes(c: Conn, stream: bytes, b: bytes, attached: bool, received: nat)
    requires UpOk(c, stream, true, attached, received) && c.pending == [] && c.installed
    ensures UpOk(c.(pending := DataFrames(b, MAX_WIRE_CHUNK)), stream + b, true, attached, received)
  {
    SplittingIsDecodable(b, MAX_WIRE_CHUNK);
    IsAtGrows(stream, b, c.upAt, Payload(c.up));
    if c.upOpen {
      assert Payload(c.up) + Payload(c.pending) == Payload(c.up);
    }
  }

  lemma UpTakesControl(c: Conn, stream: bytes, f: Frame, mine: bool, attached: bool, received: nat)
    requires UpOk(c, stream, mine, attached, received) && c.pending == [] && c.installed && !f.Data?
    ensures UpOk(c.(pending := [f]), stream, mine, attached, received)
  {
    PayloadOfOne(f);
  }

  lemma UpWrites(c: Conn, stream: bytes, mine: bool, attached: bool, received: nat)
    requires UpOk(c, stream, mine, attached, received) && c.pending != []
    ensures UpOk(c.(pending := c.pending[1..], up := if c.upOpen then c.up + [c.pending[0]] else c.up),
                 stream, mine, attached, received)
  {
    var f, rest := c.pending[0], c.pending[1..];
    assert c.pending == [f] + rest;
    PayloadAppend([f], rest);
    PayloadAppend(c.up, [f]);
    assert Payload(c.up) + Payload(c.pending) == Payload(c.up + [f]) + Payload(rest);
    if c.upOpen {
      IsAtSplits(stream, c.upAt, Payload(c.up + [f]), Payload(rest));
    }
  }

  /** A reader takes the head of the direction; only the attached one counts it. */
  lemma UpReads(c: Conn, stream: bytes, mine: bool, attached: bool, received: nat)
    requires UpOk(c, stream, mine, attached, received) && c.up != [] && c.snapshot.None?
    ensures var head := Payload([c.up[0]]);
            && IsAt(stream, c.upAt, head)
            && UpOk(c.(up := c.up[1..], upAt := c.upAt + |head|), stream, mine, attached,
                    if attached then received + |head| else received)
  {
    hide Payload, IsAt;
    assert Payload(c.up) + [] == Payload(c.up) && Payload(c.up[1..]) + [] == Payload(c.up[1..]);
    HeadLeaves(stream, c.upAt, c.up, []);
    HeadPayload(c.up);
    if c.upOpen {
      HeadLeaves(stream, c.upAt, c.up, Payload(c.pending));
    }
  }

  lemma UpCut(c: Conn, stream: bytes, mine: bool, attached: bool, received: nat, kept: nat)
    requires UpOk(c, stream, mine, attached, received) && kept <= |c.up|
    ensures UpOk(c.(up := c.up[..kept], upOpen := false), stream, mine, attached, received)
  {
    CutKeepsPrefix(stream, c.upAt, c.up, kept);
    assert c.up == c.up[..kept] + c.up[kept..];
    PayloadAppend(c.up[..kept], c.up[kept..]);
  }

  /** The replay tail, queued on a connection that has carried no data yet, ends where the stream ends. */
  lemma UpInstalls(c: Conn, stream: bytes, attached: bool, received: nat)
    requires UpOk(c, stream, false, attached, received) && !c.installed
    ensures UpOk(c.(installed := true, pending := DataFrames(stream[c.upAt..], MAX_WIRE_CHUNK)),
                 stream, true, attached, received)
  {
    SplittingIsDecodable(stream[c.upAt..], MAX_WIRE_CHUNK);
    assert Payload(c.up) + stream[c.upAt..] == stream[c.upAt..];
  }

  // ---- one direction at a time: listener to client ----

  lemma DownForgets(c: Conn, stream: bytes, job: bytes, serving: bool, outq: bytes, job': bytes, outq': bytes)
    requires DownOk(c, stream, job, serving, outq) && (job' == job || job' == [])
    ensures DownOk(c, stream, job', false, outq')
  {
    assert Payload(c.down) + [] == Payload(c.down);
  }

  lemma DownGrows(c: Conn, stream: bytes, more: bytes, job: bytes, serving: bool, outq: bytes)
    requires DownOk(c, stream, job, serving, outq)
    ensures DownOk(c, stream + more, job, serving, outq + more)
  {
    IsAtGrows(stream, more, c.downAt, Payload(c.down));
    if c.downOpen {
      IsAtGrows(stream, more, c.downAt, Payload(c.down) + job);
      if serving {
        IsAtGrows(stream, more, c.downAt, Payload(c.down) + job + outq);
        assert Payload(c.down) + job + (outq + more) == Payload(c.down) + job + outq + more;
      }
    }
    if c.snapshot.Some? {
      IsAtGrows(stream, more, c.downAt, c.snapshot.value.offer.tail);
    }
  }

  /** Pump B takes the head of the queue for this connection. */
  lemma DownTakes(c: Conn, stream: bytes, f: Frame, rest: seq<Frame>)
    requires DownOk(c, stream, [], true, Payload([f] + rest))
    ensures DownOk(c, stream, Payload([f]), true, Payload(rest))
  {
    PayloadAppend([f], rest);
    var d := Payload(c.down);
    assert d + [] + Payload([f] + rest) == d + Payload([f]) + Payload(rest);
    if c.downOpen {
      IsAtSplits(stream, c.downAt, d + Payload([f]), Payload(rest));
    }
  }

  lemma DownSays(c: Conn, stream: bytes, f: Frame, serving: bool, outq: bytes)
    requires DownOk(c, stream, Payload([f]), serving, outq)
    requires c.snapshot.Some? ==> Payload([f]) == []
    ensures DownOk(c.(down := Say(c, f)), stream, [], serving, outq)
  {
    PayloadAppend(c.down, [f]);
    assert Payload(c.down + [f]) + [] == Payload(c.down + [f]);
  }

  lemma DownReads(c: Conn, stream: bytes, job: bytes, serving: bool, outq: bytes)
    requires DownOk(c, stream, job, serving, outq) && c.down != []
    ensures var head := Payload([c.down[0]]);
            && IsAt(stream, c.downAt, head)
            && DownOk(c.(down := c.down[1..], downAt := c.downAt + |head|), stream, job, serving, outq)
  {
    hide Payload, IsAt;
    var p, q := Payload(c.down), Payload(c.down[1..]);
    assert p + [] == p && q + [] == q;
    HeadLeaves(stream, c.downAt, c.down, []);
    HeadPayload(c.down);
    if c.downOpen {
      HeadLeaves(stream, c.downAt, c.down, job);
      if serving {
        assert p + job + outq == p + (job + outq) && q + job + outq == q + (job + outq);
        HeadLeaves(stream, c.downAt, c.down, job + outq);
      }
    }
  }

  lemma DownCut(c: Conn, stream: bytes, job: bytes, serving: bool, outq: bytes, kept: nat)
    requires DownOk(c, stream, job, serving, outq) && kept <= |c.down|
    ensures DownOk(c.(down := c.down[..kept], downOpen := false), stream, job, serving, outq)
  {
    CutKeepsPrefix(stream, c.downAt, c.down, kept);
    assert c.down == c.down[..kept] + c.down[kept..];
    PayloadAppend(c.down[..kept], c.down[kept..]);
  }

  /** An attach whose snapshot is still current queues exactly what the client is missing. */
  lemma DownAttaches(c: Conn, stream: bytes)
    requires DownOk(c, stream, [], false, []) && c.snapshot.Some?
    requires c.snapshot.value.sentTotal == |stream|
    ensures DownOk(c.(snapshot := None), stream, [], true, Payload(DataFrames(c.snapshot.value.offer.tail, CHUNK)))
  {
    var tail := c.snapshot.value.offer.tail;
    SplittingIsDecodable(tail, CHUNK);
    assert Payload(c.down) + [] + tail == tail;
  }
}
