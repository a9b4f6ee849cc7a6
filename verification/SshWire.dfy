/** Integers and strings as SSH puts them on the wire (RFC 4251 section 5), with what is left after reading one. */
module SshWire {
  import opened Bytes
  import opened Postcard

  predicate Word(n: nat) {
    n < TWO_32
  }

  function U32(b: bytes): Read<nat> {
    var (s, rest) :- Take(b, 4);
    Some((BeValue(s), rest))
  }

  function U64(b: bytes): Read<nat> {
    var (s, rest) :- Take(b, 8);
    Some((BeValue(s), rest))
  }

  function Str(b: bytes): (r: Read<bytes>)
    ensures r.Some? ==> |b| == 4 + |r.value.0| + |r.value.1|
  {
    var (n, rest) :- U32(b);
    Take(rest, n)
  }

  /** A length and that many octets, of any kind. */
  function PutStr(b: bytes): bytes {
    BeBytes(|b|, 4) + b
  }

  // ---- each reader inverts its writer, and nothing else ----

  lemma TakeIff(b: bytes, n: nat, x: bytes, rest: bytes)
    ensures Take(b, n) == Some((x, rest)) <==> |x| == n && b == x + rest
  {
  }

  lemma FixedIff(b: bytes, width: nat, n: nat, rest: bytes)
    ensures (Take(b, width).Some? && BeValue(Take(b, width).value.0) == n && Take(b, width).value.1 == rest)
            <==> n < Pow(256, width) && b == BeBytes(n, width) + rest
  {
    if Take(b, width).Some? && BeValue(Take(b, width).value.0) == n && Take(b, width).value.1 == rest {
      FromDigitsBound(256, b[..width]);
      DigitsUnique(256, b[..width]);
      assert b == b[..width] + b[width..];
    }
    if n < Pow(256, width) && b == BeBytes(n, width) + rest {
      TakeIff(b, width, BeBytes(n, width), rest);
      BeRoundTrip(n, width);
    }
  }

  lemma U32Iff(b: bytes, n: nat, rest: bytes)
    ensures U32(b) == Some((n, rest)) <==> Word(n) && b == BeBytes(n, 4) + rest
  {
    WordSizes();
    FixedIff(b, 4, n, rest);
  }

  lemma U64Iff(b: bytes, n: nat, rest: bytes)
    ensures U64(b) == Some((n, rest)) <==> n < TWO_64 && b == BeBytes(n, 8) + rest
  {
    WordSizes();
    FixedIff(b, 8, n, rest);
  }

  lemma StrIff(b: bytes, s: bytes, rest: bytes)
    ensures Str(b) == Some((s, rest)) <==> Word(|s|) && b == PutStr(s) + rest
  {
    hide U32, Word, Take;
    assert PutStr(s) + rest == BeBytes(|s|, 4) + (s + rest);
    U32Iff(b, |s|, s + rest);
    TakeIff(s + rest, |s|, s, rest);
    if Str(b) == Some((s, rest)) {
      var (n, b1) := U32(b).value;
      TakeIff(b1, n, s, rest);
    }
  }
}
