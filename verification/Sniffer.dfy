/**
 * The passive observer of a server's cleartext handshake (hostkey/src/sniff.rs; RFC 4253 sections 4.2 and 6).
 * How a key blob parses is a parameter.
 */
module Sniffing {
  import opened Bytes

  const MAX_SCAN: nat := 512 * 1024
  const MAX_PACKET: nat := 256 * 1024
  const MAX_LINE: nat := 255
  const MSG_NEWKEYS: byte := 21
  const CR: byte := 13
  const LF: byte := 10
  const SSH: bytes := [0x53, 0x53, 0x48, 0x2D]

  type Parser<!K> = bytes -> Option<K>

  datatype State = Ident | Packets | Done

  // ---- one line, one packet ----

  datatype IdentStep = NeedLine | Consumed(n: nat, done: bool) | BadLine

  /** The first LF at `i` or later, below `horizon`. */
  function FindLf(buf: bytes, i: nat, horizon: nat): (r: Option<nat>)
    requires i <= horizon <= |buf|
    ensures r.Some? ==> i <= r.value < horizon && buf[r.value] == LF && LF !in buf[i..r.value]
    ensures r.None? ==> LF !in buf[i..horizon]
    decreases horizon - i
  {
    if i == horizon then None
    else if buf[i] == LF then Some(i)
    else
      var r := FindLf(buf, i + 1, horizon);
      assert buf[i..horizon] == [buf[i]] + buf[i + 1..horizon];
      assert r.Some? ==> buf[i..r.value] == [buf[i]] + buf[i + 1..r.value];
      r
  }

  function ConsumeIdent(buf: bytes): (s: IdentStep)
    ensures s.Consumed? ==> 0 < s.n <= |buf|
  {
    match FindLf(buf, 0, Min(|buf|, MAX_LINE))
    case None => if |buf| >= MAX_LINE then BadLine else NeedLine
    case Some(lf) =>
      if lf == 0 || buf[lf - 1] != CR then BadLine
      else Consumed(lf + 1, SSH <= buf[..lf - 1])
  }

  datatype PacketStep = NeedPacket | Packet(total: nat, payload: bytes) | BadPacket

  function NextPacket(buf: bytes): (s: PacketStep)
    ensures s.Packet? ==> 0 < s.total <= |buf| && s.payload != []
  {
    if |buf| < 5 then NeedPacket
    else
      var length, padding := BeValue(buf[..4]), buf[4] as nat;
      if padding < 4 || length <= padding + 1 || length > MAX_PACKET then BadPacket
      else if |buf| < 4 + length then NeedPacket
      else Packet(4 + length, buf[5..5 + (length - padding - 1)])
  }

  /** `checked_add` never fails here: `rest` is shorter than a packet, so a length near 2^32 runs past it. */
  function HostKeyIn<K>(parse: Parser<K>, msg: byte, rest: bytes): Option<K> {
    if msg != 30 && msg != 31 && msg != 33 then None
    else if |rest| < 4 then None
    else
      var len := BeValue(rest[..4]);
      if 4 + len > |rest| then None else parse(rest[4..4 + len])
  }

  // ---- the scan ----

  /** What is complete at the front of `buf`. */
  datatype Advance<K> = Need | Stop | Found(key: K) | Move(state: State, n: nat)

  function Front<K>(parse: Parser<K>, state: State, buf: bytes): (a: Advance<K>)
    ensures a.Move? ==> 0 < a.n <= |buf|
  {
    match state
    case Done => Need
    case Ident =>
      (match ConsumeIdent(buf)
       case NeedLine => Need
       case BadLine => Stop
       case Consumed(n, done) => Move(if done then Packets else Ident, n))
    case Packets =>
      match NextPacket(buf)
      case NeedPacket => Need
      case BadPacket => Stop
      case Packet(total, payload) =>
        if payload[0] == MSG_NEWKEYS then Stop
        else
          match HostKeyIn(parse, payload[0], payload[1..])
          case Some(k) => Found(k)
          case None => Move(Packets, total)
  }

  /** Where the scan stands: still looking with `buf` left over, or finished. */
  datatype Scan<K> = Scan(state: State, buf: bytes, key: Option<K>)

  function Drive<K>(parse: Parser<K>, state: State, buf: bytes): Scan<K>
    decreases |buf|
  {
    match Front(parse, state, buf)
    case Need => Scan(state, buf, None)
    case Stop => Scan(Done, [], None)
    case Found(k) => Scan(Done, [], Some(k))
    case Move(state1, n) => Drive(parse, state1, buf[n..])
  }

  /** The one-shot parse of a whole stream. */
  function KeyOf<K>(parse: Parser<K>, stream: bytes): Option<K> {
    Drive(parse, Ident, stream).key
  }

  datatype Watch<K> = Watch(state: State, buf: bytes, seen: nat, key: Option<K>)

  function Fresh<K>(): Watch<K> {
    Watch(Ident, [], 0, None)
  }

  /** `feed`; the second half is what the call returns. */
  function Feed<K>(parse: Parser<K>, w: Watch<K>, chunk: bytes): (Watch<K>, Option<K>) {
    if w.state == Done then (w, None)
    else
      var seen := w.seen + |chunk|;
      var r := Drive(parse, w.state, w.buf + chunk);
      if r.key.Some? then (Watch(Done, [], seen, r.key), r.key)
      else if seen > MAX_SCAN then (Watch(Done, [], seen, w.key), None)
      else (Watch(r.state, r.buf, seen, w.key), None)
  }

  function FeedAll<K>(parse: Parser<K>, chunks: seq<bytes>): Watch<K> {
    if chunks == [] then Fresh() else Feed(parse, FeedAll(parse, chunks[..|chunks| - 1]), chunks[|chunks| - 1]).0
  }

  /** What the call that feeds `chunks[i]` returns. */
  function Reported<K>(parse: Parser<K>, chunks: seq<bytes>, i: nat): Option<K>
    requires i < |chunks|
  {
    Feed(parse, FeedAll(parse, chunks[..i]), chunks[i]).1
  }

  // ---- chunk boundaries do not matter ----

  lemma {:induction false} FindLfExtends(buf: bytes, more: bytes, i: nat, h: nat, g: nat)
    requires i <= h <= |buf| && h <= g <= |buf| + |more|
    ensures FindLf(buf, i, h).Some? ==> FindLf(buf + more, i, g) == FindLf(buf, i, h)
    decreases h - i
  {
    if i < h && buf[i] != LF {
      FindLfExtends(buf, more, i + 1, h, g);
    }
  }

  lemma {:induction false} FindLfSame(buf: bytes, more: bytes, i: nat, h: nat)
    requires i <= h <= |buf|
    ensures FindLf(buf + more, i, h) == FindLf(buf, i, h)
    decreases h - i
  {
    if i < h && buf[i] != LF {
      FindLfSame(buf, more, i + 1, h);
    }
  }

  /** Whatever is decided on a buffer stays decided when more arrives. */
  lemma FrontExtends<K>(parse: Parser<K>, state: State, buf: bytes, more: bytes)
    requires Front(parse, state, buf) != Need
    ensures Front(parse, state, buf + more) == Front(parse, state, buf)
  {
    var all := buf + more;
    match state {
      case Ident =>
        var h, g := Min(|buf|, MAX_LINE), Min(|all|, MAX_LINE);
        FindLfExtends(buf, more, 0, h, g);
        FindLfSame(buf, more, 0, h);
        var lf := FindLf(buf, 0, h);
        if lf.Some? && lf.value > 0 {
          assert all[..lf.value - 1] == buf[..lf.value - 1];
        }
      case Packets =>
        assert |buf| >= 5 && all[..4] == buf[..4];
        var length := BeValue(buf[..4]);
        if length <= MAX_PACKET && |buf| >= 4 + length && length > buf[4] as nat + 1 {
          var n := 5 + (length - buf[4] as nat - 1);
          assert all[5..n] == buf[5..n];
        }
      case Done =>
    }
  }

  lemma {:induction false} DriveExtends<K>(parse: Parser<K>, state: State, buf: bytes, more: bytes)
    requires state != Done
    ensures var r := Drive(parse, state, buf);
            Drive(parse, state, buf + more) == if r.state == Done then r else Drive(parse, r.state, r.buf + more)
    decreases |buf|
  {
    var front := Front(parse, state, buf);
    if front != Need {
      FrontExtends(parse, state, buf, more);
    }
    if front.Move? {
      assert (buf + more)[front.n..] == buf[front.n..] + more;
      DriveExtends(parse, front.state, buf[front.n..], more);
    }
  }

  lemma {:induction false} DriveShape<K>(parse: Parser<K>, state: State, buf: bytes)
    requires state != Done
    ensures var r := Drive(parse, state, buf);
            && (r.key.Some? ==> r.state == Done)
            && (r.state == Done ==> r.buf == [])
            && (r.state != Done ==> |r.buf| <= MAX_PACKET + 3 && Front(parse, r.state, r.buf) == Need)
    decreases |buf|
  {
    var front := Front(parse, state, buf);
    if front.Move? {
      DriveShape(parse, front.state, buf[front.n..]);
    }
  }

  /** What a run gets to look at: everything up to and including the chunk that crosses the cap. */
  function Inspected(chunks: seq<bytes>): bytes {
    if chunks == [] then []
    else
      var before := Inspected(chunks[..|chunks| - 1]);
      if |before| > MAX_SCAN then before else before + chunks[|chunks| - 1]
  }

  /** Every run is the one-shot parse of what it inspected. */
  lemma {:induction false} RunIsOneShot<K>(parse: Parser<K>, chunks: seq<bytes>)
    ensures var w, r := FeedAll(parse, chunks), Drive(parse, Ident, Inspected(chunks));
            && w.key == r.key
            && |w.buf| <= MAX_PACKET + 3
            && (w.state == Done <==> r.state == Done || |Inspected(chunks)| > MAX_SCAN)
            && (w.state != Done ==> w.state == r.state && w.buf == r.buf && w.seen == |Inspected(chunks)|)
            && (w.state == Done ==> w.buf == [])
  {
    if chunks == [] {
    } else {
      var front, last := chunks[..|chunks| - 1], chunks[|chunks| - 1];
      RunIsOneShot(parse, front);
      var before := Inspected(front);
      DriveExtends(parse, Ident, before, last);
      DriveShape(parse, Ident, before);
      DriveShape(parse, Ident, before + last);
    }
  }

  lemma {:induction false} InspectedIs(chunks: seq<bytes>)
    ensures Inspected(chunks) <= Concat(chunks)
    ensures |Inspected(chunks)| <= MAX_SCAN ==> Inspected(chunks) == Concat(chunks)
  {
    if chunks == [] {
    } else {
      var n := |chunks| - 1;
      ConcatSnoc(chunks, n);
      assert chunks[..n + 1] == chunks;
      InspectedIs(chunks[..n]);
    }
  }

  /**
   * Up to 512 KiB any split finds exactly what a one-shot parse finds; beyond that a run finds the
   * same key or none. At no time does the buffer hold more than the
   * largest packet and three octets.
   */
  lemma ChunkingDoesNotMatter<K>(parse: Parser<K>, chunks: seq<bytes>)
    ensures var w, stream := FeedAll(parse, chunks), Concat(chunks);
            && (|stream| <= 512 * 1024 ==> w.key == KeyOf(parse, stream))
            && (w.key.Some? ==> w.key == KeyOf(parse, stream))
            && (w.state != Done ==> w.seen == |stream| <= 512 * 1024)
            && |w.buf| <= 256 * 1024 + 3
  {
    RunIsOneShot(parse, chunks);
    InspectedIs(chunks);
    var seen, stream := Inspected(chunks), Concat(chunks);
    DriveExtends(parse, Ident, seen, stream[|seen|..]);
    DriveShape(parse, Ident, seen);
    assert seen + stream[|seen|..] == stream;
  }

  lemma {:induction false} DoneStays<K>(parse: Parser<K>, chunks: seq<bytes>, i: nat)
    requires i <= |chunks| && FeedAll(parse, chunks[..i]).state == Done
    ensures FeedAll(parse, chunks) == FeedAll(parse, chunks[..i])
  {
    if i < |chunks| {
      assert chunks[..|chunks| - 1][..i] == chunks[..i];
      DoneStays(parse, chunks[..|chunks| - 1], i);
    } else {
      assert chunks[..i] == chunks;
    }
  }

  lemma ReportEnds<K>(parse: Parser<K>, chunks: seq<bytes>, i: nat)
    requires i < |chunks| && Reported(parse, chunks, i).Some?
    ensures FeedAll(parse, chunks[..i + 1]).state == Done
    ensures FeedAll(parse, chunks).state == Done && FeedAll(parse, chunks).key == Reported(parse, chunks, i)
  {
    hide Drive;
    var here := chunks[..i + 1];
    assert here[..i] == chunks[..i] && here[i] == chunks[i];
    assert FeedAll(parse, here) == Feed(parse, FeedAll(parse, chunks[..i]), chunks[i]).0;
    DoneStays(parse, chunks, i + 1);
  }

  lemma LaterReportsNothing<K>(parse: Parser<K>, chunks: seq<bytes>, i: nat, j: nat)
    requires i < j < |chunks| && Reported(parse, chunks, i).Some?
    ensures Reported(parse, chunks, j).None?
  {
    assert chunks[..j][..i] == chunks[..i] && chunks[..j][i] == chunks[i];
    ReportEnds(parse, chunks[..j], i);
  }

  /** A key is reported by at most one call, and then it is the key the sniffer keeps. */
  lemma ReportedOnce<K>(parse: Parser<K>, chunks: seq<bytes>, i: nat, j: nat)
    requires i < |chunks| && j < |chunks| && Reported(parse, chunks, i).Some? && Reported(parse, chunks, j).Some?
    ensures i == j && FeedAll(parse, chunks).key == Reported(parse, chunks, i)
  {
    ReportEnds(parse, chunks, i);
    if i < j {
      LaterReportsNothing(parse, chunks, i, j);
    } else if j < i {
      LaterReportsNothing(parse, chunks, j, i);
    }
  }

  /** And one that is kept was reported. */
  lemma {:induction false} KeptWasReported<K>(parse: Parser<K>, chunks: seq<bytes>) returns (i: nat)
    requires FeedAll(parse, chunks).key.Some?
    ensures i < |chunks| && Reported(parse, chunks, i) == FeedAll(parse, chunks).key
  {
    var n := |chunks| - 1;
    RunIsOneShot(parse, chunks[..n]);
    DriveShape(parse, Ident, Inspected(chunks[..n]));
    if FeedAll(parse, chunks[..n]).key.Some? {
      i := KeptWasReported(parse, chunks[..n]);
      assert chunks[..n][..i] == chunks[..i];
    } else {
      i := n;
    }
  }

  // ---- a real handshake ----

  /** A line without its CRLF. */
  predicate PlainLine(l: bytes) {
    |l| + 2 <= 255 && 10 !in l
  }

  function LineWire(l: bytes): bytes {
    l + [13, 10]
  }

  datatype Framed = Framed(payload: bytes, padding: bytes)

  predicate WellFramed(p: Framed) {
    4 <= |p.padding| <= 255 && p.payload != [] && |p.payload| + |p.padding| + 1 <= 256 * 1024
  }

  type packet = p: Framed | WellFramed(p) witness Framed([0], [0, 0, 0, 0])

  function PacketWire(p: packet): bytes {
    BeBytes(|p.payload| + |p.padding| + 1, 4) + [|p.padding| as byte] + p.payload + p.padding
  }

  function Lines(ls: seq<bytes>): bytes {
    if ls == [] then [] else LineWire(ls[0]) + Lines(ls[1..])
  }

  function PacketsWire(ps: seq<packet>): bytes {
    if ps == [] then [] else PacketWire(ps[0]) + PacketsWire(ps[1..])
  }

  /** The first parseable host key before NEWKEYS. */
  function FirstKey<K>(parse: Parser<K>, ps: seq<packet>): Option<K> {
    if ps == [] || ps[0].payload[0] == MSG_NEWKEYS then None
    else
      var here := HostKeyIn(parse, ps[0].payload[0], ps[0].payload[1..]);
      if here.Some? then here else FirstKey(parse, ps[1..])
  }

  /** A message whose first field is the string `blob` (RFC 4253 section 8, RFC 5656 section 4, RFC 4419 section 3). */
  function Message(number: byte, blob: bytes, rest: bytes): bytes {
    [number] + (BeBytes(|blob|, 4) + (blob + rest))
  }

  /** The payload is a key-exchange reply, by any of its three numbers, and the blob in it parses. */
  ghost predicate Carries<K>(parse: Parser<K>, payload: bytes) {
    exists number: byte, blob: bytes, rest: bytes ::
      && payload == Message(number, blob, rest) && |blob| < TWO_32
      && (number == 30 || number == 31 || number == 33) && parse(blob).Some?
  }

  ghost predicate CarriesKey<K>(parse: Parser<K>, payload: bytes, k: K) {
    exists number: byte, blob: bytes, rest: bytes ::
      && payload == Message(number, blob, rest) && |blob| < TWO_32
      && (number == 30 || number == 31 || number == 33) && parse(blob) == Some(k)
  }

  /** A message of that shape yields what its blob parses to if it is a key-exchange reply, and nothing if not. */
  lemma ReplyYieldsItsBlob<K>(parse: Parser<K>, number: byte, blob: bytes, rest: bytes)
    requires |blob| < TWO_32
    ensures var payload := Message(number, blob, rest);
            HostKeyIn(parse, payload[0], payload[1..])
            == if number == 30 || number == 31 || number == 33 then parse(blob) else None
  {
    var field := BeBytes(|blob|, 4) + (blob + rest);
    WordSizes();
    BeRoundTrip(|blob|, 4);
    assert Message(number, blob, rest)[1..] == field;
    assert field[..4] == BeBytes(|blob|, 4) && field[4..4 + |blob|] == blob;
  }

  /** And a payload of any other shape yields nothing. */
  lemma KeyInIffCarried<K>(parse: Parser<K>, payload: bytes, k: K)
    requires payload != []
    ensures HostKeyIn(parse, payload[0], payload[1..]) == Some(k) <==> CarriesKey(parse, payload, k)
    ensures HostKeyIn(parse, payload[0], payload[1..]).Some? <==> Carries(parse, payload)
  {
    forall number: byte, blob: bytes, rest: bytes | payload == Message(number, blob, rest) && |blob| < TWO_32
      ensures HostKeyIn(parse, payload[0], payload[1..])
              == if number == 30 || number == 31 || number == 33 then parse(blob) else None
    {
      ReplyYieldsItsBlob(parse, number, blob, rest);
    }
    if HostKeyIn(parse, payload[0], payload[1..]).Some? {
      var blob, rest := BlobOf(payload);
      ReplyYieldsItsBlob(parse, payload[0], blob, rest);
    }
  }

  lemma BlobOf(payload: bytes) returns (blob: bytes, rest: bytes)
    requires |payload| >= 5 && 5 + BeValue(payload[1..][..4]) <= |payload|
    ensures payload == Message(payload[0], blob, rest) && |blob| == BeValue(payload[1..][..4]) < TWO_32
  {
    var head := payload[1..][..4];
    WordSizes();
    FromDigitsBound(256, head);
    DigitsUnique(256, head);
    hide BeValue;
    blob, rest := payload[5..5 + BeValue(head)], payload[5 + BeValue(head)..];
    assert payload == [payload[0]] + (head + (blob + rest));
  }

  /** Packet `n` carries the key `k`, and none before it is NEWKEYS or carries any. */
  ghost predicate FirstCarried<K>(parse: Parser<K>, ps: seq<packet>, k: K, n: nat) {
    && n < |ps| && CarriesKey(parse, ps[n].payload, k)
    && forall i :: 0 <= i < n ==> ps[i].payload[0] != 21 && !Carries(parse, ps[i].payload)
  }

  lemma {:induction false} FirstKeyIff<K>(parse: Parser<K>, ps: seq<packet>, k: K)
    ensures FirstKey(parse, ps) == Some(k) <==> exists n: nat :: FirstCarried(parse, ps, k, n)
  {
    if ps == [] {
    } else {
      var first, more := ps[0].payload, ps[1..];
      KeyInIffCarried(parse, first, k);
      FirstKeyIff(parse, more, k);
      hide CarriesKey, Carries, HostKeyIn;
      forall n: nat | FirstCarried(parse, ps, k, n)
        ensures FirstKey(parse, ps) == Some(k)
      {
        if n == 0 {
          ReplyIsNotNewkeys(parse, first, k);
        } else {
          assert forall i :: 0 <= i < n - 1 ==> more[i] == ps[i + 1];
          assert FirstCarried(parse, more, k, n - 1);
        }
      }
      if FirstKey(parse, ps) == Some(k) {
        if Carries(parse, first) {
          assert FirstCarried(parse, ps, k, 0);
        } else {
          var n: nat :| FirstCarried(parse, more, k, n);
          assert forall i :: 0 < i <= n ==> ps[i] == more[i - 1];
          assert FirstCarried(parse, ps, k, n + 1);
        }
      }
    }
  }

  lemma ReplyIsNotNewkeys<K>(parse: Parser<K>, payload: bytes, k: K)
    requires payload != [] && CarriesKey(parse, payload, k)
    ensures payload[0] != 21
  {
  }

  lemma LineTaken(l: bytes, rest: bytes)
    requires PlainLine(l)
    ensures ConsumeIdent(LineWire(l) + rest) == Consumed(|l| + 2, SSH <= l)
  {
    var buf := LineWire(l) + rest;
    var h := Min(|buf|, MAX_LINE);
    var r := FindLf(buf, 0, h);
    assert buf[|l| + 1] == LF;
    assert forall i :: 0 <= i < |l| ==> buf[i] == l[i];
    assert buf[0..h][|l| + 1] == LF;
    assert r.Some?;
    assert buf[..|l|] == l;
  }

  lemma PacketTaken(p: packet, rest: bytes)
    ensures NextPacket(PacketWire(p) + rest) == Packet(|PacketWire(p)|, p.payload)
  {
    var length := |p.payload| + |p.padding| + 1;
    var buf := PacketWire(p) + rest;
    WordSizes();
    BeRoundTrip(length, 4);
    assert buf[..4] == BeBytes(length, 4);
    assert buf[4] as nat == |p.padding|;
    assert buf[5..5 + |p.payload|] == p.payload;
  }

  lemma ConsumedIsLine(buf: bytes) returns (l: bytes)
    requires ConsumeIdent(buf).Consumed?
    ensures PlainLine(l) && LineWire(l) <= buf && ConsumeIdent(buf) == Consumed(|l| + 2, SSH <= l)
  {
    var lf := FindLf(buf, 0, Min(|buf|, MAX_LINE)).value;
    l := buf[..lf - 1];
    assert buf[0..lf] == l + [CR];
    assert LineWire(l) == buf[..lf + 1];
  }

  /** A line is consumed exactly if the buffer starts with one. */
  lemma LineIff(buf: bytes, n: nat, done: bool)
    ensures ConsumeIdent(buf) == Consumed(n, done) <==>
            exists l: bytes :: PlainLine(l) && LineWire(l) <= buf && n == |l| + 2
                               && done == ([0x53, 0x53, 0x48, 0x2D] <= l)
  {
    hide ConsumeIdent, PlainLine;
    if ConsumeIdent(buf) == Consumed(n, done) {
      var _ := ConsumedIsLine(buf);
    }
    forall l: bytes | PlainLine(l) && LineWire(l) <= buf
      ensures ConsumeIdent(buf) == Consumed(|l| + 2, SSH <= l)
    {
      LineTaken(l, buf[|l| + 2..]);
      assert LineWire(l) + buf[|l| + 2..] == buf;
    }
  }

  /** And the scan waits for the rest of one exactly below 255 octets without LF. */
  lemma NeedLineIff(buf: bytes)
    ensures ConsumeIdent(buf) == NeedLine <==> |buf| < 255 && 10 !in buf
  {
    var h := Min(|buf|, MAX_LINE);
    assert h == |buf| ==> buf[0..h] == buf;
  }

  /** A packet is split off exactly if the buffer starts with a well-framed one. */
  lemma PacketIff(buf: bytes, total: nat, payload: bytes)
    ensures NextPacket(buf) == Packet(total, payload) <==>
            exists p: packet :: PacketWire(p) <= buf && total == |PacketWire(p)| && payload == p.payload
  {
    if NextPacket(buf) == Packet(total, payload) {
      var p := Fill(buf, total);
      assert PacketWire(p) == buf[..total];
    }
    forall p: packet | PacketWire(p) <= buf
      ensures NextPacket(buf) == Packet(|PacketWire(p)|, p.payload)
    {
      PacketTaken(p, buf[|PacketWire(p)|..]);
      assert PacketWire(p) + buf[|PacketWire(p)|..] == buf;
    }
  }

  /** Once the header is there, the scan waits exactly while the buffer is a proper part of a well-framed packet. */
  lemma NeedPacketIff(buf: bytes)
    requires |buf| >= 5
    ensures NextPacket(buf) == NeedPacket <==> exists p: packet :: buf < PacketWire(p)
  {
    if NextPacket(buf) == NeedPacket {
      var total := 4 + BeValue(buf[..4]);
      var whole := buf + seq(total - |buf|, _ => 0);
      assert whole[..4] == buf[..4] && whole[..total] == whole;
      var p := Fill(whole, total);
      assert buf < PacketWire(p);
    }
    forall p: packet | buf < PacketWire(p)
      ensures NextPacket(buf) == NeedPacket
    {
      var wire := PacketWire(p);
      PacketTaken(p, []);
      assert wire + [] == wire && buf[..4] == wire[..4] && buf[4] == wire[4];
    }
  }

  /** The packet a whole buffer with a good header holds. */
  lemma Fill(buf: bytes, total: nat) returns (p: packet)
    requires 5 <= total <= |buf| && total == 4 + BeValue(buf[..4])
    requires 4 <= buf[4] && buf[4] + 1 < BeValue(buf[..4]) <= 256 * 1024
    ensures PacketWire(p) == buf[..total] && p.payload == buf[5..total - buf[4]]
  {
    var head, pad, body := buf[..4], buf[4], buf[5..total];
    HeadIs(head);
    hide BeBytes, BeValue;
    FillBody(head, pad, body);
    p := Framed(body[..|body| - pad], body[|body| - pad..]);
    assert buf[..total] == head + [pad] + body;
  }

  lemma HeadIs(head: bytes)
    requires |head| == 4
    ensures BeBytes(BeValue(head), 4) == head
  {
    DigitsUnique(256, head);
  }

  lemma FillBody(head: bytes, pad: byte, body: bytes)
    requires 4 <= pad < |body| && |body| + 1 <= 256 * 1024 && head == BeBytes(|body| + 1, 4)
    ensures var p := Framed(body[..|body| - pad], body[|body| - pad..]);
            WellFramed(p) && PacketWire(p) == head + [pad] + body
  {
    hide BeBytes;
    var n := |body| - pad;
    assert head + [pad] + body[..n] + body[n..] == head + [pad] + body;
  }

  lemma {:induction false} PacketsScanned<K>(parse: Parser<K>, ps: seq<packet>)
    ensures Drive(parse, Packets, PacketsWire(ps)).key == FirstKey(parse, ps)
  {
    if ps == [] {
    } else {
      var wire, rest := PacketWire(ps[0]), PacketsWire(ps[1..]);
      PacketTaken(ps[0], rest);
      assert (wire + rest)[|wire|..] == rest;
      PacketsScanned(parse, ps[1..]);
    }
  }

  lemma {:induction false} LinesSkipped<K>(parse: Parser<K>, ls: seq<bytes>, rest: bytes)
    requires forall i :: 0 <= i < |ls| ==> PlainLine(ls[i]) && !(SSH <= ls[i])
    ensures Drive(parse, Ident, Lines(ls) + rest) == Drive(parse, Ident, rest)
  {
    hide ConsumeIdent, PlainLine;
    if ls == [] {
      assert Lines(ls) + rest == rest;
    } else {
      var wire, more := LineWire(ls[0]), Lines(ls[1..]) + rest;
      assert Lines(ls) + rest == wire + more;
      LineTaken(ls[0], more);
      assert (wire + more)[|wire|..] == more;
      LinesSkipped(parse, ls[1..], rest);
    }
  }

  /**
   * Any preamble, the identification line, then packets: the scan finds the key `k` exactly if some packet is a
   * key-exchange reply whose blob parses to `k`, and no packet before it is NEWKEYS or such a reply.
   */
  lemma HandshakeScanned<K>(parse: Parser<K>, preamble: seq<bytes>, ident: bytes, ps: seq<packet>, k: K)
    requires forall i :: 0 <= i < |preamble| ==> PlainLine(preamble[i]) && !([0x53, 0x53, 0x48, 0x2D] <= preamble[i])
    requires PlainLine(ident) && [0x53, 0x53, 0x48, 0x2D] <= ident
    ensures KeyOf(parse, Lines(preamble) + (LineWire(ident) + PacketsWire(ps))) == Some(k) <==>
            exists n: nat :: FirstCarried(parse, ps, k, n)
  {
    hide Front, PlainLine, FirstCarried;
    var wire, rest := LineWire(ident), PacketsWire(ps);
    LinesSkipped(parse, preamble, wire + rest);
    IdentTaken(parse, ident, rest);
    PacketsScanned(parse, ps);
    FirstKeyIff(parse, ps, k);
  }

  lemma IdentTaken<K>(parse: Parser<K>, ident: bytes, rest: bytes)
    requires PlainLine(ident) && SSH <= ident
    ensures Drive(parse, Ident, LineWire(ident) + rest) == Drive(parse, Packets, rest)
  {
    var wire := LineWire(ident);
    LineTaken(ident, rest);
    assert (wire + rest)[|wire|..] == rest;
  }

  // ---- the mutable observer ----

  class Sniffer<!K> {
    const parse: Parser<K>
    var state: State
    var buf: bytes
    var seen: nat
    var key: Option<K>

    ghost function View(): Watch<K>
      reads this
    {
      Watch(state, buf, seen, key)
    }

    constructor (parser: Parser<K>)
      ensures View() == Fresh() && parse == parser
    {
      parse := parser;
      state, buf, seen, key := Ident, [], 0, None;
    }

    method GiveUp()
      modifies `state, `buf
      ensures state == Done && buf == []
    {
      state := Done;
      buf := [];
    }

    method DriveOn() returns (found: bool)
      requires key.None?
      modifies `state, `buf, `key
      ensures Drive(parse, old(state), old(buf)) == Scan(state, buf, key)
      ensures found == key.Some?
    {
      while true
        invariant key.None?
        invariant Drive(parse, state, buf) == Drive(parse, old(state), old(buf))
        decreases |buf|
      {
        match state {
          case Done => return false;
          case Ident =>
            match ConsumeIdent(buf) {
              case NeedLine => return false;
              case BadLine =>
                GiveUp();
                return false;
              case Consumed(n, done) =>
                buf := buf[n..];
                if done {
                  state := Packets;
                }
            }
          case Packets =>
            match NextPacket(buf) {
              case NeedPacket => return false;
              case BadPacket =>
                GiveUp();
                return false;
              case Packet(total, payload) =>
                if payload[0] == MSG_NEWKEYS {
                  GiveUp();
                  return false;
                }
                buf := buf[total..];
                var k := HostKeyIn(parse, payload[0], payload[1..]);
                if k.Some? {
                  key := k;
                  GiveUp();
                  return true;
                }
            }
        }
      }
    }

    method FeedChunk(chunk: bytes) returns (report: Option<K>)
      requires state != Done ==> key.None?
      modifies this
      ensures (View(), report) == Feed(parse, old(View()), chunk)
      ensures state != Done ==> key.None?
    {
      if state == Done {
        return None;
      }
      seen := seen + |chunk|;
      buf := buf + chunk;
      ghost var was := state;
      DriveShapeOnce(parse, was, buf);
      var found := DriveOn();
      if !found && seen > MAX_SCAN {
        GiveUp();
      }
      return if found then key else None;
    }
  }

  lemma DriveShapeOnce<K>(parse: Parser<K>, state: State, buf: bytes)
    requires state != Done
    ensures var r := Drive(parse, state, buf);
            (r.key.Some? ==> r.state == Done) && (r.state == Done ==> r.buf == [])
  {
    DriveShape(parse, state, buf);
  }
}
