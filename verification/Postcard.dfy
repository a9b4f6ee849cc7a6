/**
 * The part of the postcard 1.x wire format the tunnel and the connection string use.
 * A reader returns the value and the bytes after it, or nothing when the input is malformed.
 */
module Postcard {
  import opened Bytes

  type Read<T> = Option<(T, bytes)>

  type id16 = b: bytes | |b| == 16 witness seq(16, _ => 0)

  // ---- varints ----

  function PutVarint(n: nat): (b: bytes)
    ensures |b| > 0
  {
    if n < 128 then [n] else [n % 128 + 128] + PutVarint(n / 128)
  }

  /** At most `left` more bytes, the last of which may not exceed `maxLast`. */
  function ReadVarint(b: bytes, left: nat, maxLast: nat): (r: Read<nat>)
    ensures r.Some? ==> |r.value.1| < |b|
    decreases left
  {
    if left == 0 || b == [] then None
    else if b[0] < 128 then
      if left == 1 && b[0] > maxLast then None else Some((b[0] as nat, b[1..]))
    else
      var (high, rest) :- ReadVarint(b[1..], left - 1, maxLast);
      Some((b[0] - 128 + 128 * high, rest))
  }

  function VarintLimit(left: nat, maxLast: nat): nat
  {
    if left <= 1 then maxLast + 1 else 128 * VarintLimit(left - 1, maxLast)
  }

  lemma {:induction false} VarintRoundTrip(n: nat, left: nat, maxLast: nat, rest: bytes)
    requires left > 0 && maxLast < 128 && n < VarintLimit(left, maxLast)
    ensures ReadVarint(PutVarint(n) + rest, left, maxLast) == Some((n, rest))
    decreases left
  {
    var wire := PutVarint(n) + rest;
    if n < 128 {
      assert wire[1..] == rest;
    } else {
      assert left > 1;
      assert wire[1..] == PutVarint(n / 128) + rest;
      VarintRoundTrip(n / 128, left - 1, maxLast, rest);
    }
  }

  /** Seven bits an octet, the low ones first, the top bit for more to come. */
  lemma VarintOctets(n: nat)
    ensures n < 128 ==> PutVarint(n) == [n]
    ensures 128 <= n < 16384 ==> PutVarint(n) == [n % 128 + 128, n / 128]
    ensures PutVarint(300) == [0xAC, 0x02]
  {
    assert PutVarint(2) == [2];
  }

  function ReadU64(b: bytes): Read<nat> {
    ReadVarint(b, 10, 1)
  }

  /** Also `usize` on wasm32: lengths are varints of the same width. */
  function ReadU32(b: bytes): Read<nat> {
    ReadVarint(b, 5, 15)
  }

  lemma U64RoundTrip(n: nat, rest: bytes)
    requires n < TWO_64
    ensures ReadU64(PutVarint(n) + rest) == Some((n, rest))
  {
    assert VarintLimit(5, 1) == 0x2000_0000;
    VarintRoundTrip(n, 10, 1, rest);
  }

  lemma U32RoundTrip(n: nat, rest: bytes)
    requires n < TWO_32
    ensures ReadU32(PutVarint(n) + rest) == Some((n, rest))
  {
    VarintRoundTrip(n, 5, 15, rest);
  }

  lemma {:induction false} VarintBound(b: bytes, left: nat, maxLast: nat)
    requires left > 0 && maxLast < 128 && ReadVarint(b, left, maxLast).Some?
    ensures ReadVarint(b, left, maxLast).value.0 < VarintLimit(left, maxLast)
    decreases left
  {
    if b[0] >= 128 {
      VarintBound(b[1..], left - 1, maxLast);
    } else if left > 1 {
      LimitAtLeast(left, maxLast);
    }
  }

  lemma {:induction false} LimitAtLeast(left: nat, maxLast: nat)
    requires left > 1
    ensures VarintLimit(left, maxLast) >= 128
  {
    if left > 2 {
      LimitAtLeast(left - 1, maxLast);
    }
  }

  /** No varint is read that does not fit its type. */
  lemma VarintsFit(b: bytes)
    ensures ReadU64(b).Some? ==> ReadU64(b).value.0 < TWO_64
    ensures ReadU32(b).Some? ==> ReadU32(b).value.0 < TWO_32
  {
    assert VarintLimit(5, 1) == 0x2000_0000;
    if ReadU64(b).Some? {
      VarintBound(b, 10, 1);
    }
    if ReadU32(b).Some? {
      VarintBound(b, 5, 15);
    }
  }

  // ---- byte strings ----

  function Take(b: bytes, n: nat): (r: Read<bytes>)
    ensures r.Some? ==> |r.value.0| == n && r.value.0 + r.value.1 == b
  {
    if |b| < n then None else Some((b[..n], b[n..]))
  }

  lemma TakeRoundTrip(a: bytes, rest: bytes)
    ensures Take(a + rest, |a|) == Some((a, rest))
  {
  }

  function PutBytes(b: bytes): bytes {
    PutVarint(|b|) + b
  }

  function ReadBytes(b: bytes): Read<bytes> {
    var (n, rest) :- ReadU32(b);
    Take(rest, n)
  }

  lemma BytesRoundTrip(a: bytes, rest: bytes)
    requires |a| < TWO_32
    ensures ReadBytes(PutBytes(a) + rest) == Some((a, rest))
  {
    assert PutBytes(a) + rest == PutVarint(|a|) + (a + rest);
    U32RoundTrip(|a|, a + rest);
    TakeRoundTrip(a, rest);
  }

  // ---- strings: length-prefixed UTF-8 (RFC 3629 section 4) ----

  predicate Continues(b: bytes, from: nat, to: nat) {
    to <= |b| && forall i :: from <= i < to ==> 0x80 <= b[i] <= 0xBF
  }

  predicate ValidUtf8(b: bytes) {
    if b == [] then true
    else if b[0] <= 0x7F then ValidUtf8(b[1..])
    else if 0xC2 <= b[0] <= 0xDF then Continues(b, 1, 2) && ValidUtf8(b[2..])
    else if 0xE0 <= b[0] <= 0xEF then
      && Continues(b, 1, 3)
      && (b[0] == 0xE0 ==> b[1] >= 0xA0)
      && (b[0] == 0xED ==> b[1] <= 0x9F)
      && ValidUtf8(b[3..])
    else if 0xF0 <= b[0] <= 0xF4 then
      && Continues(b, 1, 4)
      && (b[0] == 0xF0 ==> b[1] >= 0x90)
      && (b[0] == 0xF4 ==> b[1] <= 0x8F)
      && ValidUtf8(b[4..])
    else false
  }

  function ReadText(b: bytes): Read<bytes> {
    var (text, rest) :- ReadBytes(b);
    if ValidUtf8(text) then Some((text, rest)) else None
  }

  // ---- options: a 0 or 1 tag byte, then the payload ----

  function ReadTag(b: bytes): Read<bool> {
    if b == [] || b[0] > 1 then None else Some((b[0] == 1, b[1..]))
  }

  /** Text is read exactly if it is UTF-8, a tag exactly if it is 0 or 1. */
  lemma TextAndTagIff(text: bytes, rest: bytes, tag: byte)
    requires |text| < TWO_32
    ensures ReadText(PutBytes(text) + rest) == if ValidUtf8(text) then Some((text, rest)) else None
    ensures ReadTag([tag] + rest) == if tag == 0 || tag == 1 then Some((tag == 1, rest)) else None
    ensures ReadTag([]) == None
  {
    BytesRoundTrip(text, rest);
    assert ([tag] + rest)[1..] == rest;
    hide ReadBytes, PutBytes, ValidUtf8;
  }
}
