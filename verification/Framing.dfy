/**
 * Reassembly of any length-delimited stream. `enc` writes one item, `next` takes one off a buffer;
 * the tunnel's decoder and the SFTP framer are both instances.
 */
module Framing {
  import opened Bytes

  /** The verdict of one attempt and what stays buffered. */
  datatype Next<F> = Need | Got(item: F, rest: bytes) | Bad(rest: bytes)

  datatype Event = Feed(chunk: bytes) | Poll

  datatype Decoding<F> = Decoding(buf: bytes, items: seq<F>, failed: bool)

  /** Feeding and polling in any order; `failed` records whether a poll ever reported an error. */
  function Decode<F>(next: bytes -> Next<F>, events: seq<Event>): Decoding<F> {
    if events == [] then Decoding([], [], false)
    else
      var d := Decode(next, events[..|events| - 1]);
      match events[|events| - 1]
      case Feed(chunk) => d.(buf := d.buf + chunk)
      case Poll =>
        match next(d.buf)
        case Need => d
        case Got(f, rest) => d.(buf := rest, items := d.items + [f])
        case Bad(rest) => d.(buf := rest, failed := true)
  }

  /** What one more poll does: nothing while more is needed, else what `next` leaves is what stays. */
  lemma PollTakes<F>(next: bytes -> Next<F>, events: seq<Event>)
    ensures var d, d1 := Decode(next, events), Decode(next, events + [Poll]);
            match next(d.buf)
            case Need => d1 == d
            case Got(f, rest) => d1 == Decoding(rest, d.items + [f], d.failed)
            case Bad(rest) => d1 == Decoding(rest, d.items, true)
  {
    assert (events + [Poll])[..|events|] == events;
  }

  function Fed(events: seq<Event>): bytes {
    if events == [] then []
    else
      var b := Fed(events[..|events| - 1]);
      match events[|events| - 1]
      case Feed(chunk) => b + chunk
      case Poll => b
  }

  function EncodeAll<F>(enc: F -> bytes, fs: seq<F>): bytes {
    if fs == [] then [] else EncodeAll(enc, fs[..|fs| - 1]) + enc(fs[|fs| - 1])
  }

  /** A buffer holding part of `f` and then `after` is left alone until `f` is whole, then yields exactly `f`. */
  ghost predicate SplitsAt<F>(enc: F -> bytes, next: bytes -> Next<F>, f: F, after: bytes, buf: bytes) {
    buf <= enc(f) + after ==>
      if |buf| < |enc(f)| then next(buf) == Need else next(buf) == Got(f, buf[|enc(f)|..])
  }

  ghost predicate Splits<F(!new)>(enc: F -> bytes, next: bytes -> Next<F>, good: F -> bool) {
    && next([]) == Need
    && forall f, after, buf | good(f) :: SplitsAt(enc, next, f, after, buf)
  }

  lemma {:induction false} EncodeAllSplit<F>(enc: F -> bytes, fs: seq<F>, k: nat)
    requires k < |fs|
    ensures exists after :: EncodeAll(enc, fs) == EncodeAll(enc, fs[..k]) + (enc(fs[k]) + after)
  {
    var front := fs[..|fs| - 1];
    if k == |front| {
      var none: bytes := [];
      assert EncodeAll(enc, fs) == EncodeAll(enc, fs[..k]) + (enc(fs[k]) + none);
    } else {
      EncodeAllSplit(enc, front, k);
      assert front[..k] == fs[..k];
      var after :| EncodeAll(enc, front) == EncodeAll(enc, front[..k]) + (enc(fs[k]) + after);
      var more := after + enc(fs[|fs| - 1]);
      assert EncodeAll(enc, fs) == EncodeAll(enc, fs[..k]) + (enc(fs[k]) + more);
    }
  }

  lemma EncodeAllSnoc<F>(enc: F -> bytes, fs: seq<F>, k: nat)
    requires k < |fs|
    ensures EncodeAll(enc, fs[..k + 1]) == EncodeAll(enc, fs[..k]) + enc(fs[k])
  {
    assert fs[..k + 1][..k] == fs[..k];
  }

  lemma {:induction false} EncodeAllAppend<F>(enc: F -> bytes, a: seq<F>, b: seq<F>)
    ensures EncodeAll(enc, a + b) == EncodeAll(enc, a) + EncodeAll(enc, b)
  {
    if b == [] {
      assert a + b == a;
    } else {
      assert (a + b)[..|a + b| - 1] == a + b[..|b| - 1];
      EncodeAllAppend(enc, a, b[..|b| - 1]);
    }
  }

  /** The decoder holds exactly what arrived and was not handed out yet. */
  ghost predicate Faithful<F>(enc: F -> bytes, fs: seq<F>, d: Decoding<F>, fed: bytes) {
    && !d.failed
    && |d.items| <= |fs|
    && d.items == fs[..|d.items|]
    && EncodeAll(enc, d.items) + d.buf == fed
    && fed <= EncodeAll(enc, fs)
  }

  lemma FrontOfBuffer<F(!new)>(enc: F -> bytes, next: bytes -> Next<F>, good: F -> bool,
                               fs: seq<F>, d: Decoding<F>, fed: bytes)
    requires Splits(enc, next, good) && forall i :: 0 <= i < |fs| ==> good(fs[i])
    requires Faithful(enc, fs, d, fed)
    ensures var k := |d.items|;
            if k == |fs| then d.buf == [] && next(d.buf) == Need
            else if |d.buf| < |enc(fs[k])| then next(d.buf) == Need
            else next(d.buf) == Got(fs[k], d.buf[|enc(fs[k])|..]) && d.buf[..|enc(fs[k])|] == enc(fs[k])
  {
    var k := |d.items|;
    if k == |fs| {
      assert fs[..k] == fs;
    } else {
      EncodeAllSplit(enc, fs, k);
      var past := EncodeAll(enc, fs[..k]);
      var after :| EncodeAll(enc, fs) == past + (enc(fs[k]) + after);
      assert d.buf == fed[|past|..];
      assert (past + (enc(fs[k]) + after))[|past|..] == enc(fs[k]) + after;
      assert d.buf <= enc(fs[k]) + after;
      assert SplitsAt(enc, next, fs[k], after, d.buf);
    }
  }

  lemma FeedIsFaithful<F>(enc: F -> bytes, fs: seq<F>, d: Decoding<F>, fed: bytes, chunk: bytes)
    requires Faithful(enc, fs, d, fed) && fed + chunk <= EncodeAll(enc, fs)
    ensures Faithful(enc, fs, d.(buf := d.buf + chunk), fed + chunk)
  {
    assert EncodeAll(enc, d.items) + (d.buf + chunk) == EncodeAll(enc, d.items) + d.buf + chunk;
  }

  lemma PollIsFaithful<F(!new)>(enc: F -> bytes, next: bytes -> Next<F>, good: F -> bool,
                                fs: seq<F>, d: Decoding<F>, fed: bytes)
    requires Splits(enc, next, good) && forall i :: 0 <= i < |fs| ==> good(fs[i])
    requires Faithful(enc, fs, d, fed)
    ensures match next(d.buf)
            case Need => true
            case Got(f, rest) => Faithful(enc, fs, d.(buf := rest, items := d.items + [f]), fed)
            case Bad(_) => false
  {
    FrontOfBuffer(enc, next, good, fs, d, fed);
    if next(d.buf).Got? {
      var k := |d.items|;
      var f, rest := fs[k], d.buf[|enc(fs[k])|..];
      EncodeAllSnoc(enc, fs, k);
      assert fs[..k + 1] == d.items + [f];
      assert d.buf == enc(f) + rest;
      assert EncodeAll(enc, d.items) + enc(f) + rest == EncodeAll(enc, d.items) + (enc(f) + rest);
      hide Splits;
    }
  }

  lemma {:induction false} DecodingIsFaithful<F(!new)>(enc: F -> bytes, next: bytes -> Next<F>, good: F -> bool,
                                                       fs: seq<F>, events: seq<Event>)
    requires Splits(enc, next, good) && forall i :: 0 <= i < |fs| ==> good(fs[i])
    requires Fed(events) <= EncodeAll(enc, fs)
    ensures Faithful(enc, fs, Decode(next, events), Fed(events))
  {
    if events == [] {
    } else {
      var before := events[..|events| - 1];
      var d := Decode(next, before);
      assert Fed(before) <= Fed(events);
      hide Splits, Faithful, EncodeAll;
      DecodingIsFaithful(enc, next, good, fs, before);
      match events[|events| - 1]
      case Feed(chunk) => FeedIsFaithful(enc, fs, d, Fed(before), chunk);
      case Poll => PollIsFaithful(enc, next, good, fs, d, Fed(before));
    }
  }

  /**
   * A stream torn anywhere, mid-item included: whatever the chunking and wherever polls fall, what comes out
   * is a prefix of what was sent and never an error. Once a poll asks for more, every whole item that
   * arrived has come out; when everything arrived, that is the whole list.
   */
  lemma TornStreamYieldsPrefix<F(!new)>(enc: F -> bytes, next: bytes -> Next<F>, good: F -> bool,
                                        fs: seq<F>, events: seq<Event>)
    requires Splits(enc, next, good) && forall i :: 0 <= i < |fs| ==> good(fs[i]) && enc(fs[i]) != []
    requires Fed(events) <= EncodeAll(enc, fs)
    ensures var d := Decode(next, events);
            && !d.failed
            && d.items <= fs
            && (next(d.buf) == Need && |d.items| < |fs| ==>
                  |Fed(events)| < |EncodeAll(enc, fs[..|d.items| + 1])|)
            && (next(d.buf) == Need && Fed(events) == EncodeAll(enc, fs) ==> d.items == fs)
  {
    var d := Decode(next, events);
    DecodingIsFaithful(enc, next, good, fs, events);
    FrontOfBuffer(enc, next, good, fs, d, Fed(events));
    var k := |d.items|;
    if k < |fs| {
      EncodeAllSnoc(enc, fs, k);
      EncodeAllSplit(enc, fs, k);
    }
  }
}
