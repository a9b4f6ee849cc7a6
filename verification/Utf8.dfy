/** What UTF-8 is (RFC 3629 section 3): the octets of Unicode scalar values, and nothing else. */
module Utf8 {
  import opened Bytes
  import opened Postcard

  /** A code point that is not a surrogate. */
  type scalar = c: nat | c < 0xD800 || 0xE000 <= c < 0x11_0000

  function Octets(c: scalar): (b: bytes)
    ensures 0 < |b| <= 4
  {
    if c < 0x80 then [c]
    else if c < 0x800 then [0xC0 + c / 64, 0x80 + c % 64]
    else if c < 0x1_0000 then [0xE0 + c / 64 / 64, 0x80 + c / 64 % 64, 0x80 + c % 64]
    else [0xF0 + c / 64 / 64 / 64, 0x80 + c / 64 / 64 % 64, 0x80 + c / 64 % 64, 0x80 + c % 64]
  }

  function Text(cs: seq<scalar>): bytes {
    if cs == [] then [] else Octets(cs[0]) + Text(cs[1..])
  }

  lemma ScalarIsValid(c: scalar, rest: bytes)
    ensures ValidUtf8(Octets(c) + rest) == ValidUtf8(rest)
  {
    var b := Octets(c) + rest;
    assert b[|Octets(c)|..] == rest;
    if c < 0x80 {
    } else if c < 0x800 {
      assert b[0] == 0xC0 + c / 64 && b[1] == 0x80 + c % 64;
    } else if c < 0x1_0000 {
      assert b[0] == 0xE0 + c / 64 / 64 && b[1] == 0x80 + c / 64 % 64 && b[2] == 0x80 + c % 64;
    } else {
      assert b[0] == 0xF0 + c / 64 / 64 / 64 && b[1] == 0x80 + c / 64 / 64 % 64;
      assert b[2] == 0x80 + c / 64 % 64 && b[3] == 0x80 + c % 64;
    }
  }

  /** A lead and continuation octets, taken apart and put together again. */
  lemma TwoOctets(a: byte, b: byte) returns (c: scalar)
    requires 0xC2 <= a <= 0xDF && 0x80 <= b <= 0xBF
    ensures Octets(c) == [a, b]
  {
    c := (a as int - 0xC0) * 64 + (b as int - 0x80);
  }

  lemma ThreeOctets(a: byte, b: byte, d: byte) returns (c: scalar)
    requires 0xE0 <= a <= 0xEF && 0x80 <= b <= 0xBF && 0x80 <= d <= 0xBF
    requires (a == 0xE0 ==> b >= 0xA0) && (a == 0xED ==> b <= 0x9F)
    ensures Octets(c) == [a, b, d]
  {
    var high := (a as int - 0xE0) * 64 + (b as int - 0x80);
    c := high * 64 + (d as int - 0x80);
    assert c / 64 == high && high / 64 == a - 0xE0;
  }

  lemma FourOctets(a: byte, b: byte, d: byte, e: byte) returns (c: scalar)
    requires 0xF0 <= a <= 0xF4 && 0x80 <= b <= 0xBF && 0x80 <= d <= 0xBF && 0x80 <= e <= 0xBF
    requires (a == 0xF0 ==> b >= 0x90) && (a == 0xF4 ==> b <= 0x8F)
    ensures Octets(c) == [a, b, d, e]
  {
    var top := (a as int - 0xF0) * 64 + (b as int - 0x80);
    var high := top * 64 + (d as int - 0x80);
    c := high * 64 + (e as int - 0x80);
    assert c / 64 == high && high / 64 == top && top / 64 == a - 0xF0;
  }

  lemma FirstScalar(b: bytes) returns (c: scalar)
    requires b != [] && ValidUtf8(b)
    ensures Octets(c) <= b && ValidUtf8(b[|Octets(c)|..])
  {
    hide Octets;
    if b[0] < 0x80 {
      c := b[0];
      OneOctet(b[0]);
      assert b == [b[0]] + b[1..];
    } else if b[0] <= 0xDF {
      c := TwoOctets(b[0], b[1]);
      assert b[..2] == [b[0], b[1]];
    } else if b[0] <= 0xEF {
      c := ThreeOctets(b[0], b[1], b[2]);
      assert b[..3] == [b[0], b[1], b[2]];
    } else {
      c := FourOctets(b[0], b[1], b[2], b[3]);
      assert b[..4] == [b[0], b[1], b[2], b[3]];
    }
  }

  lemma OneOctet(a: byte)
    requires a < 0x80
    ensures Octets(a) == [a]
  {
  }

  lemma {:induction false} TextIsValid(cs: seq<scalar>)
    ensures ValidUtf8(Text(cs))
  {
    if cs == [] {
    } else {
      ScalarIsValid(cs[0], Text(cs[1..]));
      TextIsValid(cs[1..]);
    }
  }

  lemma {:induction false} ValidIsText(b: bytes) returns (cs: seq<scalar>)
    requires ValidUtf8(b)
    ensures b == Text(cs)
    decreases |b|
  {
    if b == [] {
      cs := [];
    } else {
      var c := FirstScalar(b);
      var rest := b[|Octets(c)|..];
      var more := ValidIsText(rest);
      cs := [c] + more;
      assert cs[1..] == more && b == Octets(c) + rest;
    }
  }

  /** Octets are accepted as text exactly if they are the encoding of some sequence of scalar values. */
  lemma ValidIff(b: bytes)
    ensures ValidUtf8(b) <==> exists cs: seq<scalar> :: b == Text(cs)
  {
    if ValidUtf8(b) {
      var cs := ValidIsText(b);
    }
    forall cs: seq<scalar> | b == Text(cs)
      ensures ValidUtf8(b)
    {
      TextIsValid(cs);
    }
  }
}
