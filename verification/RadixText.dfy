/**
 * Octets as text in a power-of-two alphabet without padding (RFC 4648 sections 5 and 6): the bits run on, and
 * the last symbol is filled with zero bits, which a decoder insists on.
 */
module RadixText {
  import opened Bytes

  function Bits(n: nat): (p: nat)
    ensures p > 0
  {
    PowPositive(2, n);
    Pow(2, n)
  }

  /** Symbols for `m` octets at `k` bits each. */
  function SymbolCount(k: nat, m: nat): (n: nat)
    requires 0 < k <= 8
    ensures 8 * m <= k * n < 8 * m + k
  {
    CeilingIs(k, 8 * m);
    (8 * m + k - 1) / k
  }

  lemma CeilingIs(k: nat, x: nat)
    requires k > 0
    ensures var n := (x + k - 1) / k; x <= k * n < x + k
  {
  }

  function EncodeBits(k: nat, b: bytes): (d: seq<nat>)
    requires 0 < k <= 8
    ensures |d| == SymbolCount(k, |b|) && forall i :: 0 <= i < |d| ==> d[i] < Bits(k)
  {
    var n := SymbolCount(k, |b|);
    ToDigits(Bits(k), n, Bits(k * n - 8 * |b|) * BeValue(b))
  }

  /** Whole octets come out; what is left over must be less than a symbol, and zero. */
  function DecodeBits(k: nat, d: seq<nat>): Option<bytes>
    requires 0 < k <= 8
  {
    var v, m, spare := FromDigits(Bits(k), d), k * |d| / 8, k * |d| % 8;
    if spare >= k || v % Bits(spare) != 0 then None else Some(BeBytes(v / Bits(spare), m))
  }

  lemma {:induction false} PowOfBits(k: nat, n: nat)
    ensures Pow(Bits(k), n) == Bits(k * n)
  {
    if n == 0 {
    } else {
      PowOfBits(k, n - 1);
      assert k * n == k + k * (n - 1);
      PowAdd(2, k, k * (n - 1));
    }
  }

  lemma OctetBits()
    ensures Bits(8) == 256
  {
  }

  lemma {:induction false} ScaledBound(a: nat, b: nat, c: nat)
    requires a > 0 && b < c
    ensures a * b < a * c
  {
  }

  lemma DivideExactly(a: nat, b: nat)
    requires a > 0
    ensures (a * b) / a == b && (a * b) % a == 0
  {
    DivModOf(a, b, 0);
  }

  lemma SymbolCountIs(k: nat, n: nat, m: nat)
    requires 0 < k <= 8 && 8 * m <= k * n < 8 * m + k
    ensures SymbolCount(k, m) == n
  {
  }

  lemma EncodeIs(k: nat, n: nat, b: bytes)
    requires 0 < k <= 8 && 8 * |b| <= k * n < 8 * |b| + k
    ensures EncodeBits(k, b) == ToDigits(Bits(k), n, Bits(k * n - 8 * |b|) * BeValue(b))
  {
    SymbolCountIs(k, n, |b|);
  }

  /** A symbol string is as wide as its octets and the spare bits together. */
  lemma Widths(k: nat, n: nat, m: nat, spare: nat)
    requires k * n == 8 * m + spare
    ensures Pow(Bits(k), n) == Bits(spare) * Pow(256, m)
  {
    OctetBits();
    PowOfBits(8, m);
    PowOfBits(k, n);
    PowAdd(2, spare, 8 * m);
  }

  /** Encoding then decoding is the identity. */
  lemma BitsRoundTrip(k: nat, b: bytes)
    requires 0 < k <= 8
    ensures DecodeBits(k, EncodeBits(k, b)) == Some(b)
  {
    var m, n := |b|, SymbolCount(k, |b|);
    var spare := k * n - 8 * m;
    hide ToDigits, FromDigits, Pow, EncodeBits, SymbolCount, Bits;
    EncodeIs(k, n, b);
    Widths(k, n, m, spare);
    FromDigitsBound(256, b);
    ScaledBound(Bits(spare), BeValue(b), Pow(256, m));
    DigitsRoundTrip(Bits(k), n, Bits(spare) * BeValue(b));
    DivideExactly(Bits(spare), BeValue(b));
    assert k * n / 8 == m && k * n % 8 == spare;
    DigitsUnique(256, b);
  }

  /** Only encodings decode: no octets have two spellings. */
  lemma OnlyEncodingsDecode(k: nat, d: seq<nat>, b: bytes)
    requires 0 < k <= 8 && forall i :: 0 <= i < |d| ==> d[i] < Bits(k)
    requires DecodeBits(k, d) == Some(b)
    ensures d == EncodeBits(k, b)
  {
    hide ToDigits, FromDigits, Pow, EncodeBits, Bits;
    var v, m, spare := FromDigits(Bits(k), d), k * |d| / 8, k * |d| % 8;
    var w := v / Bits(spare);
    assert spare < k && v % Bits(spare) == 0 && b == BeBytes(w, m);
    hide DecodeBits;
    Widths(k, |d|, m, spare);
    FromDigitsBound(Bits(k), d);
    DivisionBound(Bits(spare), Pow(256, m), v);
    BeRoundTrip(w, m);
    Recompose(Bits(spare), v);
    DigitsUnique(Bits(k), d);
    EncodeIs(k, |d|, b);
  }

  // ---- group by group, as the RFC writes it ----

  lemma ScaledSum(scale: nat, x: nat, p: nat, v: nat)
    ensures scale * (x * p + v) == x * (scale * p) + scale * v
  {
    MulAssoc(x, scale, p);
    MulAssoc(scale, x, p);
  }

  /** The octets of `b` leave room for what precedes them. */
  lemma ShiftedValue(k: nat, n: nat, spare: nat, x: nat, b: bytes)
    requires k * n == 8 * |b| + spare
    ensures Bits(spare) * (x * Pow(256, |b|) + BeValue(b)) == x * Pow(Bits(k), n) + Bits(spare) * BeValue(b)
    ensures Bits(spare) * BeValue(b) < Pow(Bits(k), n)
  {
    OctetBits();
    PowOfBits(8, |b|);
    PowOfBits(k, n);
    PowAdd(2, spare, 8 * |b|);
    FromDigitsBound(256, b);
    ScaledBound(Bits(spare), BeValue(b), Bits(8 * |b|));
    ScaledSum(Bits(spare), x, Bits(8 * |b|), BeValue(b));
  }

  /** Octets that fill whole symbols are spelled on their own, and what follows them too. */
  lemma GroupsAreIndependent(k: nat, s: nat, a: bytes, b: bytes)
    requires 0 < k <= 8 && k * s == 8 * |a|
    ensures EncodeBits(k, a + b) == EncodeBits(k, a) + EncodeBits(k, b)
  {
    hide ToDigits, FromDigits, Pow, EncodeBits, SymbolCount;
    var n := SymbolCount(k, |b|);
    var spare := k * n - 8 * |b|;
    assert k * (s + n) == k * s + k * n;
    assert Bits(0) == 1 by {
      NoBits();
    }
    EncodeIs(k, s, a);
    EncodeIs(k, n, b);
    EncodeIs(k, s + n, a + b);
    FromDigitsSplit(256, a, b);
    ShiftedValue(k, n, spare, BeValue(a), b);
    DigitsSplit(Bits(k), s, n, BeValue(a), Bits(spare) * BeValue(b));
  }

  lemma NoBits()
    ensures Bits(0) == 1
  {
  }

  lemma SpelledBy(k: nat, b: bytes, d: seq<nat>)
    requires 0 < k <= 8 && 8 * |b| <= k * |d| < 8 * |b| + k && forall i :: 0 <= i < |d| ==> d[i] < Bits(k)
    requires FromDigits(Bits(k), d) == Bits(k * |d| - 8 * |b|) * BeValue(b)
    ensures EncodeBits(k, b) == d
  {
    hide ToDigits, FromDigits, Pow, EncodeBits;
    EncodeIs(k, |d|, b);
    DigitsUnique(Bits(k), d);
  }

  lemma SmallPowers()
    ensures Bits(6) == 64 && Bits(5) == 32 && Bits(4) == 16 && Bits(2) == 4 && Bits(0) == 1
  {
  }

  lemma Regroup(a: nat, b: nat, c: nat)
    ensures 64 * (64 * (64 * (a / 4) + (a % 4 * 16 + b / 16)) + (b % 16 * 4 + c / 64)) + c % 64
            == 256 * (256 * a + b) + c
    ensures 64 * (64 * (a / 4) + (a % 4 * 16 + b / 16)) + b % 16 * 4 == 4 * (256 * a + b)
    ensures 64 * (a / 4) + a % 4 * 16 == 16 * a
  {
  }

  /** Base64 (RFC 4648 section 4): three octets are four symbols, and one or two left over are two or three. */
  lemma SixBitGroups(a: byte, b: byte, c: byte)
    ensures EncodeBits(6, [a, b, c]) == [a / 4, a % 4 * 16 + b / 16, b % 16 * 4 + c / 64, c % 64]
    ensures EncodeBits(6, [a, b]) == [a / 4, a % 4 * 16 + b / 16, b % 16 * 4]
    ensures EncodeBits(6, [a]) == [a / 4, a % 4 * 16]
  {
    hide Bits, ToDigits, FromDigits, Pow, EncodeBits;
    SmallPowers();
    Regroup(a, b, c);
    var p, q, r, s: nat := a / 4, a % 4 * 16 + b / 16, b % 16 * 4 + c / 64, c % 64;
    var q1, r1: nat := a % 4 * 16, b % 16 * 4;
    DigitValues(256, a, b, c, 0);
    DigitValues(64, p, q, r, s);
    DigitValues(64, p, q, r1, 0);
    DigitValues(64, p, q1, 0, 0);
    SpelledBy(6, [a, b, c], [p, q, r, s]);
    SpelledBy(6, [a, b], [p, q, r1]);
    SpelledBy(6, [a], [p, q1]);
  }

  lemma MoreDigits(base: nat, d: seq<nat>, p: nat, q: nat, r: nat, s: nat)
    ensures FromDigits(base, d + [p, q, r, s])
            == base * (base * (base * (base * FromDigits(base, d) + p) + q) + r) + s
  {
    assert d + [p, q, r, s] == d + [p] + [q] + [r] + [s];
    FromSnoc(base, d, p);
    FromSnoc(base, d + [p], q);
    FromSnoc(base, d + [p] + [q], r);
    FromSnoc(base, d + [p] + [q] + [r], s);
    hide FromDigits;
  }

  lemma RegroupHigh(a: nat, b: nat, c: nat)
    ensures 32 * (32 * (32 * (a / 8) + (a % 8 * 4 + b / 64)) + b % 64 / 2) + (b % 2 * 16 + c / 16)
            == 16 * (256 * a + b) + c / 16
    ensures 32 * (a / 8) + a % 8 * 4 == 4 * a
  {
    assert b % 64 == 2 * (b % 64 / 2) + b % 2;
  }

  lemma RegroupLow(high: nat, c: nat, d: nat, e: nat)
    ensures 32 * (32 * (32 * (32 * (16 * high + c / 16) + (c % 16 * 2 + d / 128)) + d % 128 / 4) + (d % 4 * 8 + e / 32))
            + e % 32
            == 256 * (256 * (256 * high + c) + d) + e
  {
    var s1 := 32 * (16 * high + c / 16) + (c % 16 * 2 + d / 128);
    var s2 := 32 * s1 + d % 128 / 4;
    var s3 := 32 * s2 + (d % 4 * 8 + e / 32);
    assert s1 == 2 * (256 * high + c) + d / 128;
    assert s2 == 64 * (256 * high + c) + d / 4 by {
      assert d % 128 == 4 * (d % 128 / 4) + d % 4 && d == 128 * (d / 128) + d % 128;
    }
    assert s3 == 8 * (256 * (256 * high + c) + d) + e / 32;
  }

  /** Base32 (RFC 4648 section 6): five octets are eight symbols, and one left over is two. */
  lemma FiveBitGroups(a: byte, b: byte, c: byte, d: byte, e: byte)
    ensures EncodeBits(5, [a, b, c, d, e])
            == [a / 8, a % 8 * 4 + b / 64, b % 64 / 2, b % 2 * 16 + c / 16,
                c % 16 * 2 + d / 128, d % 128 / 4, d % 4 * 8 + e / 32, e % 32]
    ensures EncodeBits(5, [a]) == [a / 8, a % 8 * 4]
  {
    hide Bits, ToDigits, FromDigits, Pow, EncodeBits;
    SmallPowers();
    RegroupHigh(a, b, c);
    RegroupLow(256 * a + b, c, d, e);
    var p, q, r, s: nat := a / 8, a % 8 * 4 + b / 64, b % 64 / 2, b % 2 * 16 + c / 16;
    var t, u, v, w: nat := c % 16 * 2 + d / 128, d % 128 / 4, d % 4 * 8 + e / 32, e % 32;
    var q1: nat := a % 8 * 4;
    DigitValues(256, a, b, c, d);
    assert [a, b, c, d, e] == [a, b, c, d] + [e];
    FromSnoc(256, [a, b, c, d], e);
    DigitValues(32, p, q, r, s);
    MoreDigits(32, [p, q, r, s], t, u, v, w);
    assert [p, q, r, s] + [t, u, v, w] == [p, q, r, s, t, u, v, w];
    DigitValues(32, p, q1, 0, 0);
    SpelledBy(5, [a, b, c, d, e], [p, q, r, s, t, u, v, w]);
    SpelledBy(5, [a], [p, q1]);
  }

  // ---- alphabets ----

  ghost predicate Distinct(symbols: string) {
    forall i, j :: 0 <= i < j < |symbols| ==> symbols[i] != symbols[j]
  }

  function IndexOf(symbols: string, c: char, i: nat): (r: Option<nat>)
    requires i <= |symbols|
    ensures r.Some? ==> r.value < |symbols| && symbols[r.value] == c
    ensures r.None? ==> c !in symbols[i..]
    decreases |symbols| - i
  {
    if i == |symbols| then None
    else if symbols[i] == c then Some(i)
    else
      assert symbols[i..] == [symbols[i]] + symbols[i + 1..];
      IndexOf(symbols, c, i + 1)
  }

  function Spell(symbols: string, d: seq<nat>): (s: string)
    requires forall i :: 0 <= i < |d| ==> d[i] < |symbols|
    ensures |s| == |d| && forall i :: 0 <= i < |s| ==> s[i] == symbols[d[i]]
  {
    seq(|d|, i requires 0 <= i < |d| => symbols[d[i]])
  }

  function Unspell(symbols: string, s: string): (r: Option<seq<nat>>)
    ensures r.Some? ==>
              && |r.value| == |s|
              && forall i :: 0 <= i < |s| ==> r.value[i] < |symbols| && symbols[r.value[i]] == s[i]
    ensures r.None? ==> exists i :: 0 <= i < |s| && s[i] !in symbols
  {
    if s == [] then Some([])
    else
      var first := IndexOf(symbols, s[0], 0);
      if first.None? then
        assert symbols[0..] == symbols;
        None
      else
        var rest := Unspell(symbols, s[1..]);
        if rest.None? then
          var i :| 0 <= i < |s[1..]| && s[1..][i] !in symbols;
          assert s[i + 1] !in symbols;
          None
        else Some([first.value] + rest.value)
  }

  lemma UnspellIff(symbols: string, s: string, d: seq<nat>)
    requires Distinct(symbols) && forall i :: 0 <= i < |d| ==> d[i] < |symbols|
    ensures Unspell(symbols, s) == Some(d) <==> s == Spell(symbols, d)
  {
    var r := Unspell(symbols, s);
    if s == Spell(symbols, d) {
      assert forall i :: 0 <= i < |s| ==> s[i] in symbols;
      assert r.Some?;
      forall i | 0 <= i < |s|
        ensures r.value[i] == d[i]
      {
        assert symbols[r.value[i]] == symbols[d[i]];
      }
      assert r.value == d;
    }
  }
}
