/**
 * ECDSA signatures in DER: the strict parser (webauthn-ssh/src/lib.rs) and the browser's converter to raw form
 * (site/passkey-store.ts). ITU-T X.690 sections 8.3 and 10.1.
 */
module EcdsaDer {
  import opened Bytes
  import opened SshWire

  const SEQUENCE: byte := 0x30
  const INTEGER: byte := 0x02

  // ---- the strict parser ----

  /** One element of the expected tag and what follows it; short form or the one-byte long form. */
  function DerTake(input: bytes, tag: byte): (r: Option<(bytes, bytes)>)
    ensures r.Some? ==> |r.value.0| + |r.value.1| < |input|
  {
    if input == [] || input[0] != tag || |input| == 1 then None
    else if input[1] < 0x80 then Split(input[2..], input[1])
    else if input[1] == 0x81 && |input| > 2 && input[2] >= 0x80 then Split(input[3..], input[2])
    else None
  }

  function Split(content: bytes, len: byte): (r: Option<(bytes, bytes)>)
    ensures r.Some? ==> r.value.0 + r.value.1 == content && |r.value.0| == len
  {
    if |content| < len then None else Some((content[..len], content[len..]))
  }

  /** No sign bit, no zero, no leading zero that the sign does not need. */
  predicate CheckDerInteger(v: bytes) {
    v != [] && v[0] < 0x80 && (v[0] == 0 ==> |v| > 1 && v[1] >= 0x80)
  }

  function EcdsaDerParts(der: bytes): Option<(bytes, bytes)> {
    var (body, after) :- DerTake(der, SEQUENCE);
    if after != [] then None
    else
      var (r, afterR) :- DerTake(body, INTEGER);
      var (s, afterS) :- DerTake(afterR, INTEGER);
      if afterS != [] || !CheckDerInteger(r) || !CheckDerInteger(s) then None else Some((r, s))
  }

  // ---- what it accepts ----

  /** The definite form with the fewest length octets, for contents below 256 octets. */
  function Element(tag: byte, content: bytes): bytes
    requires |content| < 256
  {
    (if |content| < 0x80 then [tag, |content|] else [tag, 0x81, |content|]) + content
  }

  lemma TakeIsElement(input: bytes, tag: byte, content: bytes, rest: bytes)
    ensures DerTake(input, tag) == Some((content, rest)) <==> |content| < 256 && input == Element(tag, content) + rest
  {
    if |content| < 256 && input == Element(tag, content) + rest {
      var k := if |content| < 0x80 then 2 else 3;
      assert input[k..] == content + rest;
      assert (content + rest)[..|content|] == content && (content + rest)[|content|..] == rest;
    }
    if DerTake(input, tag) == Some((content, rest)) {
      var k := if |content| < 0x80 then 2 else 3;
      assert input[k..] == content + rest;
      assert input == input[..k] + (content + rest);
      assert input[..k] == Element(tag, content)[..k];
      assert Element(tag, content) + rest == input[..k] + (content + rest);
    }
  }

  /** `SEQUENCE { r INTEGER, s INTEGER }`, when every length fits. */
  ghost predicate IsSignature(der: bytes, r: bytes, s: bytes) {
    && |r| < 256 && |s| < 256
    && |Element(INTEGER, r) + Element(INTEGER, s)| < 256
    && der == Element(SEQUENCE, Element(INTEGER, r) + Element(INTEGER, s))
  }

  /** Accepted, with these parts, exactly if the input is the minimal encoding of two positive integers. */
  lemma AcceptsExactlyCanonical(der: bytes, r: bytes, s: bytes)
    ensures EcdsaDerParts(der) == Some((r, s)) <==>
            IsSignature(der, r, s) && CheckDerInteger(r) && CheckDerInteger(s)
  {
    hide DerTake, Element;
    if IsSignature(der, r, s) {
      var er, es := Element(INTEGER, r), Element(INTEGER, s);
      assert Element(SEQUENCE, er + es) + [] == der && es + [] == es;
      TakeIsElement(der, SEQUENCE, er + es, []);
      TakeIsElement(er + es, INTEGER, r, es);
      TakeIsElement(es, INTEGER, s, []);
    }
    if EcdsaDerParts(der) == Some((r, s)) {
      var body := DerTake(der, SEQUENCE).value.0;
      var afterR := DerTake(body, INTEGER).value.1;
      TakeIsElement(der, SEQUENCE, body, []);
      TakeIsElement(body, INTEGER, r, afterR);
      TakeIsElement(afterR, INTEGER, s, []);
      assert Element(INTEGER, s) + [] == Element(INTEGER, s);
      assert Element(SEQUENCE, body) + [] == Element(SEQUENCE, body);
    }
  }

  /** Base-256 digits without a leading zero. */
  function Minimal(n: nat): bytes {
    if n == 0 then [] else Minimal(n / 256) + [n % 256]
  }

  /** The content octets of the INTEGER `n`. */
  function IntegerContent(n: nat): bytes
    requires n > 0
  {
    var d := Minimal(n);
    if d != [] && d[0] < 0x80 then d else [0] + d
  }

  lemma {:induction false} MinimalValue(n: nat)
    ensures BeValue(Minimal(n)) == n
    ensures n > 0 ==> Minimal(n) != [] && Minimal(n)[0] > 0
  {
    if n == 0 {
    } else {
      var d := Minimal(n);
      MinimalValue(n / 256);
      assert d[..|d| - 1] == Minimal(n / 256) && d[|d| - 1] == n % 256;
    }
  }

  lemma {:induction false} MinimalUnique(d: bytes)
    requires d != [] ==> d[0] > 0
    ensures Minimal(BeValue(d)) == d
    ensures d != [] ==> BeValue(d) > 0
  {
    if d == [] {
    } else {
      var front, last := d[..|d| - 1], d[|d| - 1];
      MinimalUnique(front);
      DivModOf(256, BeValue(front), last);
      assert d == front + [last];
    }
  }

  lemma LeadingZero(d: bytes)
    ensures BeValue([0] + d) == BeValue(d)
    decreases |d|
  {
    if d != [] {
      var z := [0] + d;
      LeadingZero(d[..|d| - 1]);
      assert z[..|z| - 1] == [0] + d[..|d| - 1];
    }
  }

  /** The accepted contents are exactly those of positive integers, one for each. */
  lemma CanonicalIffPositiveInteger(v: bytes)
    ensures CheckDerInteger(v) <==> exists n: nat :: n > 0 && v == IntegerContent(n)
    ensures CheckDerInteger(v) ==> BeValue(v) > 0 && v == IntegerContent(BeValue(v))
  {
    if CheckDerInteger(v) {
      if v[0] == 0 {
        assert v == [0] + v[1..];
        LeadingZero(v[1..]);
        MinimalUnique(v[1..]);
      } else {
        MinimalUnique(v);
      }
      assert BeValue(v) > 0 && v == IntegerContent(BeValue(v));
    }
    forall n: nat | n > 0 && v == IntegerContent(n)
      ensures CheckDerInteger(v)
    {
      MinimalValue(n);
    }
  }

  // ---- fixed width ----

  function Zeros(n: nat): (z: bytes)
    ensures |z| == n
  {
    seq(n, _ => 0)
  }

  function Pad32(v: bytes): Option<bytes> {
    var t := if v != [] && v[0] == 0 then v[1..] else v;
    if |t| > 32 then None else Some(Zeros(32 - |t|) + t)
  }

  lemma {:induction false} ZerosValue(n: nat, d: bytes)
    ensures BeValue(Zeros(n) + d) == BeValue(d)
  {
    if n == 0 {
      assert Zeros(n) + d == d;
    } else {
      assert Zeros(n) + d == [0] + (Zeros(n - 1) + d);
      LeadingZero(Zeros(n - 1) + d);
      ZerosValue(n - 1, d);
    }
  }

  lemma {:induction false} LeadingDigitBound(d: bytes)
    requires d != [] && d[0] > 0
    ensures BeValue(d) >= Pow(256, |d| - 1)
  {
    if |d| > 1 {
      var front := d[..|d| - 1];
      LeadingDigitBound(front);
      MulMono(256, Pow(256, |front| - 1), BeValue(front));
    }
  }

  lemma {:induction false} PowMono(base: nat, m: nat, n: nat)
    requires base > 0 && m <= n
    ensures Pow(base, m) <= Pow(base, n)
  {
    if m == n {
    } else {
      PowMono(base, m, n - 1);
      MulMono(Pow(base, n - 1), 1, base);
    }
  }

  /** On accepted scalars: 32 octets of the same value, or nothing exactly when the value needs more. */
  lemma Pad32IsFixedWidth(v: bytes)
    requires CheckDerInteger(v)
    ensures Pad32(v).Some? <==> BeValue(v) < Pow(256, 32)
    ensures Pad32(v).Some? ==> Pad32(v).value == BeBytes(BeValue(v), 32)
  {
    var t := if v[0] == 0 then v[1..] else v;
    if v[0] == 0 {
      assert v == [0] + t;
      LeadingZero(t);
    }
    if |t| > 32 {
      LeadingDigitBound(t);
      PowMono(256, 32, |t| - 1);
    } else {
      var out := Zeros(32 - |t|) + t;
      ZerosValue(32 - |t|, t);
      FromDigitsBound(256, out);
      DigitsUnique(256, out);
    }
  }

  // ---- the browser's converter, with JavaScript's arithmetic ----

  /** A JavaScript number: `None` is `undefined` or NaN. */
  type Num = Option<int>

  function Read(der: bytes, off: int): Num {
    if 0 <= off < |der| then Some(der[off]) else None
  }

  function ToInt32(n: int): int {
    var m := n % 0x1_0000_0000;
    if m >= 0x8000_0000 then m - 0x1_0000_0000 else m
  }

  /** `(acc << 8) | b`, where `undefined` counts as zero. */
  function ShiftIn(acc: int, b: Num): int {
    ToInt32(256 * acc + if b.Some? then b.value else 0)
  }

  function LongLength(der: bytes, off: int, n: nat, acc: int): int
    decreases n
  {
    if n == 0 then acc else LongLength(der, off + 1, n - 1, ShiftIn(acc, Read(der, off)))
  }

  /** The length at `off` and the offset after it. */
  function ReadLength(der: bytes, off: int): (Num, int) {
    match Read(der, off)
    case None => (None, off + 1)
    case Some(first) =>
      if first < 0x80 then (Some(first), off + 1)
      else (Some(LongLength(der, off + 1, first - 0x80, 0)), off + 1 + (first - 0x80))
  }

  /** `subarray(begin, end)`: a negative end counts from the back, and both are clamped. */
  function Subarray(der: bytes, begin: nat, end: int): bytes {
    var e := if end < 0 then end + |der| else end;
    if e <= begin || |der| <= begin then [] else der[begin..if e > |der| then |der| else e]
  }

  /** An INTEGER at `off`, and where the cursor ends up; `None` when it fails or the cursor is lost to NaN. */
  function ReadInt(der: bytes, off: int): Option<(bytes, int)> {
    if Read(der, off) != Some(INTEGER as int) then None
    else
      match ReadLength(der, off + 1)
      case (None, _) => None
      case (Some(len), at) => Some((Subarray(der, at, at + len), at + len))
  }

  function StripZeros(b: bytes): (r: bytes)
    ensures |r| <= |b|
  {
    if |b| > 32 && b[0] == 0 then StripZeros(b[1..]) else b
  }

  function Fit32(b: bytes): Option<bytes> {
    var x := StripZeros(b);
    if |x| > 32 then None else Some(Zeros(32 - |x|) + x)
  }

  function RawSignature(der: bytes): Option<bytes> {
    if Read(der, 0) != Some(SEQUENCE as int) then None
    else
      match ReadLength(der, 1)
      case (None, _) => None
      case (Some(seqLen), off) =>
        if off + seqLen != |der| then None
        else
          var (r, off1) :- ReadInt(der, off);
          var (s, off2) :- ReadInt(der, off1);
          if off2 != |der| then None
          else
            var r32 :- Fit32(r);
            var s32 :- Fit32(s);
            Some(r32 + s32)
  }

  lemma SameResidue(x: int, q: int)
    ensures ToInt32(x + 0x1_0000_0000 * q) == ToInt32(x)
  {
    assert (x + 0x1_0000_0000 * q) % 0x1_0000_0000 == x % 0x1_0000_0000;
  }

  lemma Int32Of(x: int) returns (q: int)
    ensures ToInt32(x) == x + 0x1_0000_0000 * q && -0x8000_0000 <= ToInt32(x) < 0x8000_0000
  {
    q := -(x / 0x1_0000_0000);
    if x % 0x1_0000_0000 >= 0x8000_0000 {
      q := q - 1;
    }
  }

  lemma ShiftsAddUp(x: int, b: int)
    ensures ToInt32(256 * ToInt32(x) + b) == ToInt32(256 * x + b)
  {
    var q := Int32Of(x);
    assert 256 * ToInt32(x) + b == 256 * x + b + 0x1_0000_0000 * (256 * q);
    SameResidue(256 * x + b, 256 * q);
  }

  lemma Distribute(x: int, y: int, p: int, r: int, q: int, v: int)
    requires q == 256 * p && v == y * p + r
    ensures x * q + v == (256 * x + y) * p + r
  {
    assert x * q == 256 * x * p;
    assert (256 * x + y) * p == 256 * x * p + y * p;
  }

  lemma FirstDigitCounts(d: bytes, x: int)
    requires d != []
    ensures x * Pow(256, |d|) + BeValue(d) == (256 * x + d[0]) * Pow(256, |d| - 1) + BeValue(d[1..])
  {
    var first, rest := d[0], d[1..];
    var p, q := Pow(256, |d| - 1), Pow(256, |d|);
    hide FromDigits, Pow;
    assert d == [first] + rest;
    FromDigitsSplit(256, [first], rest);
    OneDigit(256, first);
    Distribute(x, first, p, BeValue(rest), q, BeValue(d));
  }

  /** `n` octets from `off` on, with zeros behind the end of the input. */
  function OctetsFrom(der: bytes, off: nat, n: nat): (d: bytes)
    ensures |d| == n
    ensures off + n <= |der| ==> d == der[off..off + n]
  {
    seq(n, i requires 0 <= i < n => if off + i < |der| then der[off + i] else 0)
  }

  /** A length in octets is their value, as far as 32 bits with a sign can hold it. */
  lemma {:induction false} LongLengthIs(der: bytes, off: nat, n: nat, x: int)
    ensures LongLength(der, off, n, ToInt32(x)) == ToInt32(x * Pow(256, n) + BeValue(OctetsFrom(der, off, n)))
    decreases n
  {
    if n == 0 {
      assert x * Pow(256, 0) + BeValue(OctetsFrom(der, off, 0)) == x;
    } else {
      var d := OctetsFrom(der, off, n);
      assert d[1..] == OctetsFrom(der, off + 1, n - 1);
      FirstDigitCounts(d, x);
      ShiftsAddUp(x, d[0]);
      LongLengthIs(der, off + 1, n - 1, 256 * x + d[0]);
      hide ToInt32, FromDigits, Pow;
    }
  }

  /** Both forms of a length: what X.690 section 8.1.3 says, in 32 bits, with zeros for octets that are not there. */
  lemma ReadLengthIs(der: bytes, off: nat)
    requires off < |der|
    ensures ReadLength(der, off)
            == if der[off] < 0x80 then (Some(der[off] as int), off + 1)
               else var n := der[off] - 0x80; (Some(ToInt32(BeValue(OctetsFrom(der, off + 1, n)))), off + 1 + n)
  {
    if der[off] >= 0x80 {
      var n := der[off] - 0x80;
      assert ToInt32(0) == 0;
      hide LongLength, ToInt32, FromDigits, Pow;
      LongLengthIs(der, off + 1, n, 0);
      assert 0 * Pow(256, n) == 0;
    }
  }

  /** A length of `len` is written at `off`, and `next` is behind it. */
  ghost predicate LengthAt(der: bytes, off: nat, len: int, next: nat) {
    && off < |der|
    && if der[off] < 0x80 then len == der[off] && next == off + 1
       else len == ToInt32(BeValue(OctetsFrom(der, off + 1, der[off] - 0x80))) && next == off + 1 + (der[off] - 0x80)
  }

  /**
   * A SEQUENCE that ends with the input; in it an INTEGER whose content starts at `r` and after whose length the
   * cursor is at `mid`; there another, whose content starts at `s` and after which the cursor is at the end.
   */
  ghost predicate Located(der: bytes, inner: nat, r: nat, mid: nat, s: nat) {
    && der != [] && der[0] == 0x30 && LengthAt(der, 1, |der| - inner, inner)
    && inner < |der| && der[inner] == 2 && LengthAt(der, inner + 1, mid - r, r)
    && mid < |der| && der[mid] == 2 && LengthAt(der, mid + 1, |der| - s, s)
  }

  /** What lies between two cursors; nothing if the second is not behind the first. */
  function Between(der: bytes, from: nat, to: nat): bytes
    requires to <= |der|
  {
    if to <= from then [] else der[from..to]
  }

  lemma LengthRead(der: bytes, off: nat, len: int, next: nat)
    ensures ReadLength(der, off) == (Some(len), next) <==> LengthAt(der, off, len, next)
  {
    hide LongLength, OctetsFrom;
    if off < |der| {
      ReadLengthIs(der, off);
    }
  }

  lemma LengthReadFrom(der: bytes, off: nat) returns (next: nat)
    requires ReadLength(der, off).0.Some?
    ensures next == ReadLength(der, off).1 && LengthAt(der, off, ReadLength(der, off).0.value, next)
  {
    next := ReadLength(der, off).1;
    LengthRead(der, off, ReadLength(der, off).0.value, next);
  }

  lemma IntRead(der: bytes, off: nat, start: nat, end: nat)
    requires end <= |der| && off < |der| && der[off] == 2 && LengthAt(der, off + 1, end - start, start)
    ensures ReadInt(der, off) == Some((Between(der, start, end), end as int))
  {
    hide LengthAt, ReadLength;
    LengthRead(der, off + 1, end - start, start);
  }

  lemma IntReadFrom(der: bytes, off: int) returns (start: nat)
    requires ReadInt(der, off).Some? && 0 <= ReadInt(der, off).value.1 <= |der|
    ensures 0 <= off < |der| && der[off] == 2
    ensures var (content, end) := ReadInt(der, off).value;
            LengthAt(der, off + 1, end - start, start) && content == Between(der, start, end)
  {
    start := LengthReadFrom(der, off + 1);
  }

  /** The converter accepts exactly what is located so, and gives back the two contents as unsigned numbers. */
  lemma ConverterIff(der: bytes, raw: bytes)
    ensures RawSignature(der) == Some(raw) <==>
            exists inner: nat, r: nat, mid: nat, s: nat ::
              && Located(der, inner, r, mid, s)
              && BeValue(Between(der, r, mid)) < Pow(256, 32) && BeValue(Between(der, s, |der|)) < Pow(256, 32)
              && raw == BeBytes(BeValue(Between(der, r, mid)), 32) + BeBytes(BeValue(Between(der, s, |der|)), 32)
  {
    hide ReadLength, ReadInt, LengthAt, Fit32, Between, FromDigits, ToDigits, Pow;
    if RawSignature(der) == Some(raw) {
      var inner := LengthReadFrom(der, 1);
      var (rc, mid) := ReadInt(der, inner).value;
      var (sc, end) := ReadInt(der, mid).value;
      var s := IntReadFrom(der, mid);
      var r := IntReadFrom(der, inner);
      FitIsUnsigned(rc);
      FitIsUnsigned(sc);
      assert Located(der, inner, r, mid, s);
    }
    forall inner: nat, r: nat, mid: nat, s: nat |
      && Located(der, inner, r, mid, s)
      && BeValue(Between(der, r, mid)) < Pow(256, 32) && BeValue(Between(der, s, |der|)) < Pow(256, 32)
      ensures RawSignature(der)
              == Some(BeBytes(BeValue(Between(der, r, mid)), 32) + BeBytes(BeValue(Between(der, s, |der|)), 32))
    {
      LengthRead(der, 1, |der| - inner, inner);
      IntRead(der, inner, r, mid);
      IntRead(der, mid, s, |der|);
      FitIsUnsigned(Between(der, r, mid));
      FitIsUnsigned(Between(der, s, |der|));
    }
  }

  // ---- the two agree wherever the strict parser accepts ----

  lemma ReadLengthOfElement(der: bytes, off: nat, tag: byte, content: bytes, rest: bytes)
    requires |content| < 256 && off <= |der| && der[off..] == Element(tag, content) + rest
    ensures var head := |Element(tag, content)| - |content|;
            && ReadLength(der, off + 1) == (Some(|content|), off + head)
            && Read(der, off) == Some(tag as int)
            && off + head + |content| <= |der|
            && der[off + head..off + head + |content|] == content
            && der[off + head + |content|..] == rest
  {
    var e, tail := Element(tag, content), der[off..];
    var head := |e| - |content|;
    assert forall i :: 0 <= i < |tail| ==> tail[i] == der[off + i];
    assert tail[head..head + |content|] == content && tail[|e|..] == rest;
    if |content| >= 0x80 {
      assert LongLength(der, off + 2, 1, 0) == ShiftIn(0, Read(der, off + 2));
    }
  }

  lemma ReadIntOfElement(der: bytes, off: nat, content: bytes, rest: bytes)
    requires |content| < 256 && off <= |der| && der[off..] == Element(INTEGER, content) + rest
    ensures var next := off + |Element(INTEGER, content)|;
            ReadInt(der, off) == Some((content, next)) && next <= |der| && der[next..] == rest
  {
    ReadLengthOfElement(der, off, INTEGER, content, rest);
    if content == [] {
      assert Subarray(der, off + 2, off + 2) == [];
    }
  }

  lemma {:induction false} FitOfPadded(v: bytes)
    requires CheckDerInteger(v)
    ensures Fit32(v) == Pad32(v)
  {
    if |v| > 32 && v[0] == 0 {
      assert StripZeros(v[1..]) == v[1..];
    } else if |v| <= 32 && v[0] == 0 {
      assert Zeros(32 - |v|) + v == Zeros(32 - |v[1..]|) + v[1..];
    }
  }

  lemma {:induction false} StripKeepsValue(b: bytes)
    ensures BeValue(StripZeros(b)) == BeValue(b)
    ensures |StripZeros(b)| > 32 ==> StripZeros(b)[0] > 0
  {
    if |b| > 32 && b[0] == 0 {
      assert b == [0] + b[1..];
      LeadingZero(b[1..]);
      StripKeepsValue(b[1..]);
    }
  }

  /** Any octets are read as an unsigned number, of any length: 32 octets of it, or nothing when it needs more. */
  lemma FitIsUnsigned(b: bytes)
    ensures Fit32(b).Some? <==> BeValue(b) < Pow(256, 32)
    ensures Fit32(b).Some? ==> Fit32(b).value == BeBytes(BeValue(b), 32)
  {
    var x := StripZeros(b);
    StripKeepsValue(b);
    if |x| > 32 {
      LeadingDigitBound(x);
      PowMono(256, 32, |x| - 1);
    } else {
      var out := Zeros(32 - |x|) + x;
      ZerosValue(32 - |x|, x);
      FromDigitsBound(256, out);
      DigitsUnique(256, out);
    }
  }

  /** On two elements with any contents at all, the browser converts what the strict parser would check. */
  lemma ConverterChecksOnlyWidth(der: bytes, r: bytes, s: bytes)
    requires IsSignature(der, r, s)
    ensures RawSignature(der)
            == if Fit32(r).Some? && Fit32(s).Some? then Some(Fit32(r).value + Fit32(s).value) else None
    ensures RawSignature(der).Some? <==> BeValue(r) < Pow(256, 32) && BeValue(s) < Pow(256, 32)
  {
    hide Fit32, ReadLength, ReadInt;
    var er, es := Element(INTEGER, r), Element(INTEGER, s);
    var head := |Element(SEQUENCE, er + es)| - |er + es|;
    assert der[0..] == Element(SEQUENCE, er + es) + [];
    ReadLengthOfElement(der, 0, SEQUENCE, er + es, []);
    assert head + |er + es| == |der|;
    assert der[head..] == er + es;
    ReadIntOfElement(der, head, r, es);
    assert es == es + [];
    ReadIntOfElement(der, head + |er|, s, []);
    FitIsUnsigned(r);
    FitIsUnsigned(s);
  }

  /**
   * On every input the strict parser accepts the browser computes `pad32(r) || pad32(s)`, and it fails exactly
   * when one of the two is wider than the curve.
   */
  lemma ConvertersAgree(der: bytes)
    requires EcdsaDerParts(der).Some?
    ensures var (r, s) := EcdsaDerParts(der).value;
            RawSignature(der)
            == if Pad32(r).Some? && Pad32(s).Some? then Some(Pad32(r).value + Pad32(s).value) else None
  {
    hide DerTake, EcdsaDerParts, Fit32, Pad32, RawSignature;
    var (r, s) := EcdsaDerParts(der).value;
    AcceptsExactlyCanonical(der, r, s);
    ConverterChecksOnlyWidth(der, r, s);
    FitOfPadded(r);
    FitOfPadded(s);
  }

  /** The browser alone takes a negative scalar, for one. */
  lemma ConverterIsLaxer()
    ensures var der: bytes := [0x30, 6, 2, 1, 0x80, 2, 1, 1];
            EcdsaDerParts(der).None? && RawSignature(der) == Some((Zeros(31) + [0x80]) + (Zeros(31) + [1]))
  {
    var der: bytes := [0x30, 6, 2, 1, 0x80, 2, 1, 1];
    assert der[4..5] == [0x80] && der[7..8] == [1];
    assert ReadInt(der, 2) == Some(([0x80], 5));
    assert ReadInt(der, 5) == Some(([1], 8));
  }

  // ---- the converter's cursor ----

  method ReadLengthAt(der: bytes, start: int) returns (len: Num, off: int)
    ensures (len, off) == ReadLength(der, start)
  {
    off := start;
    len := Read(der, off);
    off := off + 1;
    if len.Some? && len.value >= 0x80 {
      var nBytes, acc, i := len.value - 0x80, 0, 0;
      while i < nBytes
        invariant 0 <= i <= nBytes && off == start + 1 + i
        invariant LongLength(der, off, nBytes - i, acc) == LongLength(der, start + 1, nBytes, 0)
      {
        acc := ShiftIn(acc, Read(der, off));
        off := off + 1;
        i := i + 1;
      }
      len := Some(acc);
    }
  }

  method Fit(b: bytes) returns (out: Option<bytes>)
    ensures out == Fit32(b)
  {
    var x := b;
    while |x| > 32 && x[0] == 0
      invariant StripZeros(x) == StripZeros(b)
      decreases |x|
    {
      x := x[1..];
    }
    return if |x| > 32 then None else Some(Zeros(32 - |x|) + x);
  }

  method DerToRaw(der: bytes) returns (raw: Option<bytes>)
    ensures raw == RawSignature(der)
    ensures EcdsaDerParts(der).Some? ==>
              var (r, s) := EcdsaDerParts(der).value;
              raw == if Pad32(r).Some? && Pad32(s).Some? then Some(Pad32(r).value + Pad32(s).value) else None
  {
    if EcdsaDerParts(der).Some? {
      ConvertersAgree(der);
    }
    hide EcdsaDerParts, Pad32, Fit32, ReadLength;
    if Read(der, 0) != Some(SEQUENCE as int) {
      return None;
    }
    var seqLen, off := ReadLengthAt(der, 1);
    if seqLen.None? || off + seqLen.value != |der| {
      return None;
    }
    var r := ReadInt(der, off);
    if r.None? {
      return None;
    }
    off := r.value.1;
    var s := ReadInt(der, off);
    if s.None? || s.value.1 != |der| {
      return None;
    }
    var r32 := Fit(r.value.0);
    var s32 := Fit(s.value.0);
    if r32.None? || s32.None? {
      return None;
    }
    return Some(r32.value + s32.value);
  }

  // ---- the signature blob ----

  /** The blob of an accepted signature reads back as its two scalars, each a canonical mpint. */
  lemma BlobRoundTrip(der: bytes)
    requires EcdsaDerParts(der).Some?
    ensures var (r, s) := EcdsaDerParts(der).value;
            Str(PutStr(r) + PutStr(s)) == Some((r, PutStr(s))) && Str(PutStr(s)) == Some((s, []))
  {
    hide EcdsaDerParts, Str, PutStr;
    var (r, s) := EcdsaDerParts(der).value;
    AcceptsExactlyCanonical(der, r, s);
    StrIff(PutStr(r) + PutStr(s), r, PutStr(s));
    assert PutStr(s) + [] == PutStr(s);
    StrIff(PutStr(s), s, []);
  }
}
