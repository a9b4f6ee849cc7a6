/** Octets, fixed-width integers and slicing shared by every wire format. */
module Bytes {

  type byte = b: int | 0 <= b < 256 witness 0

  type bytes = seq<byte>

  datatype Option<+T> = None | Some(value: T) {

    predicate IsFailure() {
      None?
    }

    function PropagateFailure<U>(): Option<U>
      requires None?
    {
      None
    }

    function Extract(): T
      requires Some?
    {
      value
    }
  }

  /** Two ASCII letters that differ in case only. */
  predicate SameLetter(c: char, d: char) {
    ('a' <= c <= 'z' && d as int == c as int - 32) || ('A' <= c <= 'Z' && d as int == c as int + 32)
  }

  const TWO_32: nat := 0x1_0000_0000
  const TWO_64: nat := 0x1_0000_0000_0000_0000

  function Min(a: nat, b: nat): nat {
    if a <= b then a else b
  }

  /** u64 `saturating_sub`. */
  function Monus(a: nat, b: nat): nat {
    if a <= b then 0 else a - b
  }

  /** base^exp */
  function Pow(base: nat, exp: nat): nat {
    if exp == 0 then 1 else base * Pow(base, exp - 1)
  }

  lemma PowPositive(base: nat, exp: nat)
    requires base > 0
    ensures Pow(base, exp) > 0
  {
  }

  // ---- big-endian positional notation in any base ----

  /** The `width` low digits of `n`, most significant first. */
  function ToDigits(base: nat, width: nat, n: nat): (d: seq<nat>)
    requires base > 0
    ensures |d| == width
    ensures forall i :: 0 <= i < |d| ==> d[i] < base
  {
    if width == 0 then [] else ToDigits(base, width - 1, n / base) + [n % base]
  }

  function FromDigits(base: nat, d: seq<nat>): nat {
    if d == [] then 0 else base * FromDigits(base, d[..|d| - 1]) + d[|d| - 1]
  }

  lemma Recompose(base: nat, n: nat)
    requires base > 0
    ensures base * (n / base) + n % base == n
  {
  }

  lemma DivisionBound(base: nat, m: nat, n: nat)
    requires base > 0 && n < base * m
    ensures n / base < m
  {
  }

  lemma {:induction false} DigitsRoundTrip(base: nat, width: nat, n: nat)
    requires base > 0 && n < Pow(base, width)
    ensures FromDigits(base, ToDigits(base, width, n)) == n
  {
    if width == 0 {
    } else {
      var d := ToDigits(base, width, n);
      assert d[..|d| - 1] == ToDigits(base, width - 1, n / base);
      assert d[|d| - 1] == n % base;
      DivisionBound(base, Pow(base, width - 1), n);
      DigitsRoundTrip(base, width - 1, n / base);
      Recompose(base, n);
    }
  }

  lemma {:induction false} PowAdd(base: nat, m: nat, n: nat)
    ensures Pow(base, m + n) == Pow(base, m) * Pow(base, n)
  {
    if m == 0 {
    } else {
      PowAdd(base, m - 1, n);
      MulAssoc(base, Pow(base, m - 1), Pow(base, n));
    }
  }

  lemma MulAssoc(a: nat, b: nat, c: nat)
    ensures a * (b * c) == (a * b) * c
  {
  }

  lemma ToSnoc(base: nat, width: nat, q: nat, r: nat)
    requires r < base
    ensures ToDigits(base, width + 1, base * q + r) == ToDigits(base, width, q) + [r]
  {
    DivModOf(base, q, r);
  }

  lemma ShiftUp(base: nat, x: nat, p: nat, q: nat, r: nat, power: nat, y: nat)
    requires power == base * p && y == base * q + r
    ensures x * power + y == base * (x * p + q) + r
  {
    MulAssoc(base, x, p);
    MulAssoc(x, base, p);
  }

  /** High digits and low digits may be written separately. */
  lemma {:induction false} DigitsSplit(base: nat, m: nat, n: nat, x: nat, y: nat)
    requires base > 0 && y < Pow(base, n)
    ensures ToDigits(base, m + n, x * Pow(base, n) + y) == ToDigits(base, m, x) + ToDigits(base, n, y)
  {
    if n == 0 {
    } else {
      var q, r, p, power := y / base, y % base, Pow(base, n - 1), Pow(base, n);
      hide ToDigits, Pow;
      Recompose(base, y);
      DivisionBound(base, p, y);
      ShiftUp(base, x, p, q, r, power, y);
      DigitsSplit(base, m, n - 1, x, q);
      ToSnoc(base, m + n - 1, x * p + q, r);
      ToSnoc(base, n - 1, q, r);
    }
  }

  /** And read separately. */
  lemma {:induction false} FromDigitsSplit(base: nat, a: seq<nat>, b: seq<nat>)
    ensures FromDigits(base, a + b) == FromDigits(base, a) * Pow(base, |b|) + FromDigits(base, b)
  {
    if b == [] {
      assert a + b == a;
    } else {
      var front, last, p, power := b[..|b| - 1], b[|b| - 1], Pow(base, |b| - 1), Pow(base, |b|);
      hide FromDigits, Pow;
      assert a + b == a + front + [last] && b == front + [last];
      FromSnoc(base, a + front, last);
      FromSnoc(base, front, last);
      FromDigitsSplit(base, a, front);
      ShiftUp(base, FromDigits(base, a), p, FromDigits(base, front), last, power, FromDigits(base, b));
    }
  }

  lemma FromSnoc(base: nat, d: seq<nat>, x: nat)
    ensures FromDigits(base, d + [x]) == base * FromDigits(base, d) + x
  {
    assert (d + [x])[..|d + [x]| - 1] == d;
  }

  lemma OneDigit(base: nat, p: nat)
    ensures FromDigits(base, [p]) == p
  {
    assert [p] == [] + [p];
    FromSnoc(base, [], p);
    assert FromDigits(base, []) == 0;
  }

  lemma TwoDigits(base: nat, p: nat, q: nat)
    ensures FromDigits(base, [p, q]) == base * p + q
  {
    hide FromDigits;
    assert [p, q] == [p] + [q];
    FromSnoc(base, [p], q);
    OneDigit(base, p);
  }

  lemma ThreeDigits(base: nat, p: nat, q: nat, r: nat)
    ensures FromDigits(base, [p, q, r]) == base * (base * p + q) + r
  {
    hide FromDigits;
    assert [p, q, r] == [p, q] + [r];
    FromSnoc(base, [p, q], r);
    TwoDigits(base, p, q);
  }

  lemma DigitValues(base: nat, p: nat, q: nat, r: nat, s: nat)
    ensures FromDigits(base, [p]) == p
    ensures FromDigits(base, [p, q]) == base * p + q
    ensures FromDigits(base, [p, q, r]) == base * (base * p + q) + r
    ensures FromDigits(base, [p, q, r, s]) == base * (base * (base * p + q) + r) + s
  {
    hide FromDigits;
    OneDigit(base, p);
    TwoDigits(base, p, q);
    ThreeDigits(base, p, q, r);
    assert [p, q, r, s] == [p, q, r] + [s];
    FromSnoc(base, [p, q, r], s);
  }

  lemma MulMono(k: nat, a: nat, b: nat)
    requires a <= b
    ensures k * a <= k * b
  {
  }

  lemma BelowNext(base: nat, x: nat, m: nat, last: nat)
    requires x < m && last < base
    ensures base * x + last < base * m
  {
    MulMono(base, x + 1, m);
    assert base * (x + 1) == base * x + base;
  }

  lemma {:induction false} FromDigitsBound(base: nat, d: seq<nat>)
    requires base > 0
    requires forall i :: 0 <= i < |d| ==> d[i] < base
    ensures FromDigits(base, d) < Pow(base, |d|)
  {
    if d == [] {
    } else {
      var front := d[..|d| - 1];
      FromDigitsBound(base, front);
      BelowNext(base, FromDigits(base, front), Pow(base, |front|), d[|d| - 1]);
    }
  }

  lemma {:induction false} DigitsUnique(base: nat, d: seq<nat>)
    requires base > 0
    requires forall i :: 0 <= i < |d| ==> d[i] < base
    ensures ToDigits(base, |d|, FromDigits(base, d)) == d
  {
    if d == [] {
    } else {
      var front, last := d[..|d| - 1], d[|d| - 1];
      var q := FromDigits(base, front);
      DivModOf(base, q, last);
      DigitsUnique(base, front);
      assert d == front + [last];
    }
  }

  lemma SmallMultiple(base: nat, k: int)
    requires base * k < base && base * k + base > 0
    ensures k == 0
  {
  }

  lemma DivModOf(base: nat, q: nat, r: nat)
    requires r < base
    ensures (base * q + r) / base == q && (base * q + r) % base == r
  {
    var x, y := (base * q + r) / base, (base * q + r) % base;
    assert base * q + r == base * x + y;
    assert base * (q - x) == base * q - base * x;
    SmallMultiple(base, q - x);
  }

  /** `to_be_bytes` of the low `8 * width` bits of `n`. */
  function BeBytes(n: nat, width: nat): (b: bytes)
    ensures |b| == width
  {
    ToDigits(256, width, n)
  }

  function BeValue(b: bytes): nat {
    FromDigits(256, b)
  }

  lemma BeRoundTrip(n: nat, width: nat)
    requires n < Pow(256, width)
    ensures BeValue(BeBytes(n, width)) == n
  {
    DigitsRoundTrip(256, width, n);
  }

  /** `to_le_bytes`: the same digits, least significant first. */
  function LeBytes(n: nat, width: nat): (b: bytes)
    ensures |b| == width
  {
    Reverse(BeBytes(n, width))
  }

  function LeValue(b: bytes): nat {
    BeValue(Reverse(b))
  }

  function Reverse(b: bytes): (r: bytes)
    ensures |r| == |b|
    ensures forall i :: 0 <= i < |b| ==> r[i] == b[|b| - 1 - i]
  {
    if b == [] then [] else [b[|b| - 1]] + Reverse(b[..|b| - 1])
  }

  lemma LeRoundTrip(n: nat, width: nat)
    requires n < Pow(256, width)
    ensures LeValue(LeBytes(n, width)) == n
  {
    var b := BeBytes(n, width);
    assert Reverse(Reverse(b)) == b;
    BeRoundTrip(n, width);
  }

  lemma WordSizes()
    ensures Pow(256, 4) == TWO_32 && Pow(256, 8) == TWO_64
  {
  }

  // ---- slicing ----

  function Concat(parts: seq<bytes>): bytes {
    if parts == [] then [] else parts[0] + Concat(parts[1..])
  }

  lemma {:induction false} ConcatAppend(a: seq<bytes>, b: seq<bytes>)
    ensures Concat(a + b) == Concat(a) + Concat(b)
  {
    if a == [] {
      assert a + b == b;
    } else {
      assert (a + b)[1..] == a[1..] + b;
      ConcatAppend(a[1..], b);
    }
  }

  lemma ConcatEnds(parts: seq<bytes>, part: bytes)
    ensures Concat([part] + parts) == part + Concat(parts)
    ensures Concat(parts + [part]) == Concat(parts) + part
  {
    ConcatAppend(parts, [part]);
    assert Concat([part]) == part + Concat([]);
    assert part + Concat([]) == part;
  }

  lemma ConcatSnoc(parts: seq<bytes>, i: nat)
    requires i < |parts|
    ensures Concat(parts[..i + 1]) == Concat(parts[..i]) + parts[i]
  {
    assert parts[..i + 1] == parts[..i] + [parts[i]];
    ConcatAppend(parts[..i], [parts[i]]);
    assert Concat([parts[i]]) == parts[i] + Concat([]);
    assert parts[i] + Concat([]) == parts[i];
  }

  /** Rust's `slice.chunks(n)`. */
  function Chunks(b: bytes, n: nat): (parts: seq<bytes>)
    requires n > 0
    ensures forall i :: 0 <= i < |parts| ==> 0 < |parts[i]| <= n
    ensures Concat(parts) == b
    decreases |b|
  {
    if b == [] then []
    else if |b| <= n then
      assert [b][1..] == [];
      [b]
    else
      assert b == b[..n] + b[n..];
      [b[..n]] + Chunks(b[n..], n)
  }
}
