/**
 * The hand-rolled decoder of SSH_FXP_NAME (sftp/src/lib.rs; draft-ietf-secsh-filexfer-02 sections 5 and 7).
 * File names stay octets and a mode word is never judged.
 */
module SftpNames {
  import opened Bytes
  import opened Postcard
  import opened SshWire

  const SSH_FXP_NAME: byte := 104

  /** The bits of an ATTRS flags word. */
  const ATTR_SIZE: nat := 1
  const ATTR_UIDGID: nat := 2
  const ATTR_PERMISSIONS: nat := 4
  const ATTR_ACMODTIME: nat := 8
  const ATTR_EXTENDED: nat := 0x8000_0000

  predicate Has(flags: nat, bit: nat)
    requires bit > 0
  {
    flags / bit % 2 == 1
  }

  // ---- what the decoder returns ----

  /** The typed attributes, as the raw words the library's setters are given. */
  datatype Attrs = Attrs(size: Option<nat>, owner: Option<(nat, nat)>, mode: Option<nat>, times: Option<(nat, nat)>)

  datatype NameEntry = NameEntry(filename: bytes, longname: bytes, attrs: Attrs, rawPermissions: Option<nat>)

  datatype Listing = Listing(id: nat, entries: seq<NameEntry>)

  // ---- reading, by what is left ----

  function SkipPairs(b: bytes, count: nat): (r: Option<bytes>)
    ensures r.Some? ==> |r.value| <= |b|
  {
    if count == 0 then Some(b)
    else
      var (_, b1) :- Str(b);
      var (_, b2) :- Str(b1);
      SkipPairs(b2, count - 1)
  }

  function TwoWords(b: bytes): Read<(nat, nat)> {
    var (x, b1) :- U32(b);
    var (y, b2) :- U32(b1);
    Some(((x, y), b2))
  }

  /** A field that is there only if its bit is set. */
  function Optional<T>(present: bool, reader: bytes -> Read<T>, b: bytes): Read<Option<T>> {
    if !present then Some((None, b))
    else
      var (x, rest) :- reader(b);
      Some((Some(x), rest))
  }

  function ReadAttrs(b: bytes): Read<Attrs> {
    var (flags, b0) :- U32(b);
    var (size, b1) :- Optional(Has(flags, ATTR_SIZE), U64, b0);
    var (owner, b2) :- Optional(Has(flags, ATTR_UIDGID), TwoWords, b1);
    var (mode, b3) :- Optional(Has(flags, ATTR_PERMISSIONS), U32, b2);
    var (times, b4) :- Optional(Has(flags, ATTR_ACMODTIME), TwoWords, b3);
    if !Has(flags, ATTR_EXTENDED) then Some((Attrs(size, owner, mode, times), b4))
    else
      var (count, b5) :- U32(b4);
      var b6 :- SkipPairs(b5, count);
      Some((Attrs(size, owner, mode, times), b6))
  }

  function ReadEntry(b: bytes): Read<NameEntry> {
    var (filename, b1) :- Str(b);
    var (longname, b2) :- Str(b1);
    var (attrs, b3) :- ReadAttrs(b2);
    Some((NameEntry(filename, longname, attrs, attrs.mode), b3))
  }

  function ReadEntries(b: bytes, count: nat): (r: Read<seq<NameEntry>>)
    decreases count
  {
    if count == 0 then Some(([], b))
    else
      var (e, b1) :- ReadEntry(b);
      var (es, b2) :- ReadEntries(b1, count - 1);
      Some(([e] + es, b2))
  }

  /** `decode_response` looks at the type octet first, so the body is never empty here. */
  function DecodeName(body: bytes): Option<Listing>
    requires body != []
  {
    var (id, b1) :- U32(body[1..]);
    var (count, b2) :- U32(b1);
    var (entries, _) :- ReadEntries(b2, count);
    Some(Listing(id, entries))
  }

  // ---- the wire ----

  /** A field counts only if its bit is set in `flags`; other bits of `flags` mean nothing. */
  datatype WireAttrs = WireAttrs(flags: nat, size: nat, owner: (nat, nat), mode: nat, times: (nat, nat),
                                 pairs: seq<(bytes, bytes)>)

  datatype WireEntry = WireEntry(filename: bytes, longname: bytes, attrs: WireAttrs)

  function PutPairs(pairs: seq<(bytes, bytes)>): bytes {
    if pairs == [] then [] else PutStr(pairs[0].0) + (PutStr(pairs[0].1) + PutPairs(pairs[1..]))
  }

  function PutWords(w: (nat, nat)): bytes {
    BeBytes(w.0, 4) + BeBytes(w.1, 4)
  }

  function If(present: bool, b: bytes): bytes {
    if present then b else []
  }

  function EncodeAttrs(a: WireAttrs): bytes {
    BeBytes(a.flags, 4)
    + (If(Has(a.flags, ATTR_SIZE), BeBytes(a.size, 8))
       + (If(Has(a.flags, ATTR_UIDGID), PutWords(a.owner))
          + (If(Has(a.flags, ATTR_PERMISSIONS), BeBytes(a.mode, 4))
             + (If(Has(a.flags, ATTR_ACMODTIME), PutWords(a.times))
                + If(Has(a.flags, ATTR_EXTENDED), BeBytes(|a.pairs|, 4) + PutPairs(a.pairs))))))
  }

  function EncodeEntry(e: WireEntry): bytes {
    PutStr(e.filename) + (PutStr(e.longname) + EncodeAttrs(e.attrs))
  }

  function EncodeEntries(es: seq<WireEntry>): bytes {
    if es == [] then [] else EncodeEntry(es[0]) + EncodeEntries(es[1..])
  }

  function EncodeName(id: nat, es: seq<WireEntry>): bytes {
    [SSH_FXP_NAME] + (BeBytes(id, 4) + (BeBytes(|es|, 4) + EncodeEntries(es)))
  }

  predicate GoodPairs(pairs: seq<(bytes, bytes)>) {
    forall i :: 0 <= i < |pairs| ==> Word(|pairs[i].0|) && Word(|pairs[i].1|)
  }

  predicate GoodAttrs(a: WireAttrs) {
    && Word(a.flags) && a.size < TWO_64 && Word(a.owner.0) && Word(a.owner.1) && Word(a.mode)
    && Word(a.times.0) && Word(a.times.1) && Word(|a.pairs|) && GoodPairs(a.pairs)
  }

  predicate GoodEntry(e: WireEntry) {
    Word(|e.filename|) && Word(|e.longname|) && GoodAttrs(e.attrs)
  }

  // ---- what decoding keeps of it ----

  function When<T>(present: bool, x: T): Option<T> {
    if present then Some(x) else None
  }

  function Kept(a: WireAttrs): Attrs {
    Attrs(When(Has(a.flags, ATTR_SIZE), a.size), When(Has(a.flags, ATTR_UIDGID), a.owner),
          When(Has(a.flags, ATTR_PERMISSIONS), a.mode), When(Has(a.flags, ATTR_ACMODTIME), a.times))
  }

  function KeptEntry(e: WireEntry): NameEntry {
    NameEntry(e.filename, e.longname, Kept(e.attrs), When(Has(e.attrs.flags, ATTR_PERMISSIONS), e.attrs.mode))
  }

  function KeptEntries(es: seq<WireEntry>): seq<NameEntry> {
    if es == [] then [] else [KeptEntry(es[0])] + KeptEntries(es[1..])
  }

  // ---- each reader inverts its writer, and nothing else ----

  lemma WordsIff(b: bytes, w: (nat, nat), rest: bytes)
    ensures TwoWords(b) == Some((w, rest)) <==> Word(w.0) && Word(w.1) && b == PutWords(w) + rest
  {
    hide U32, Word;
    var more := BeBytes(w.1, 4) + rest;
    assert PutWords(w) + rest == BeBytes(w.0, 4) + more;
    U32Iff(b, w.0, more);
    U32Iff(more, w.1, rest);
    if TwoWords(b) == Some((w, rest)) {
      var (x, b1) := U32(b).value;
      var (y, b2) := U32(b1).value;
      U32Iff(b, x, b1);
      U32Iff(b1, y, b2);
      assert w == (x, y);
    }
  }

  lemma {:induction false} PairsRoundTrip(pairs: seq<(bytes, bytes)>, rest: bytes)
    requires GoodPairs(pairs)
    ensures SkipPairs(PutPairs(pairs) + rest, |pairs|) == Some(rest)
  {
    hide Str, Word;
    if pairs == [] {
      assert PutPairs(pairs) + rest == rest;
    } else {
      var more := PutPairs(pairs[1..]) + rest;
      assert PutPairs(pairs) + rest == PutStr(pairs[0].0) + (PutStr(pairs[0].1) + more);
      StrIff(PutStr(pairs[0].0) + (PutStr(pairs[0].1) + more), pairs[0].0, PutStr(pairs[0].1) + more);
      StrIff(PutStr(pairs[0].1) + more, pairs[0].1, more);
      PairsRoundTrip(pairs[1..], rest);
    }
  }

  lemma {:induction false} PairsRead(b: bytes, count: nat) returns (pairs: seq<(bytes, bytes)>)
    requires SkipPairs(b, count).Some?
    ensures |pairs| == count && GoodPairs(pairs) && b == PutPairs(pairs) + SkipPairs(b, count).value
    decreases count
  {
    hide Str, Word;
    if count == 0 {
      pairs := [];
    } else {
      var (x, b1) := Str(b).value;
      var (y, b2) := Str(b1).value;
      StrIff(b, x, b1);
      StrIff(b1, y, b2);
      var more := PairsRead(b2, count - 1);
      pairs := [(x, y)] + more;
      assert pairs[1..] == more;
      var rest := SkipPairs(b, count).value;
      assert PutPairs(pairs) + rest == PutStr(x) + (PutStr(y) + (PutPairs(more) + rest));
    }
  }

  lemma OptionalU32Iff(present: bool, b: bytes, n: nat, rest: bytes)
    requires Word(n)
    ensures Optional(present, U32, b) == Some((When(present, n), rest)) <==> b == If(present, BeBytes(n, 4)) + rest
  {
    U32Iff(b, n, rest);
    assert [] + rest == rest;
  }

  lemma OptionalU64Iff(present: bool, b: bytes, n: nat, rest: bytes)
    requires n < TWO_64
    ensures Optional(present, U64, b) == Some((When(present, n), rest)) <==> b == If(present, BeBytes(n, 8)) + rest
  {
    U64Iff(b, n, rest);
    assert [] + rest == rest;
  }

  lemma OptionalWordsIff(present: bool, b: bytes, w: (nat, nat), rest: bytes)
    requires Word(w.0) && Word(w.1)
    ensures Optional(present, TwoWords, b) == Some((When(present, w), rest)) <==> b == If(present, PutWords(w)) + rest
  {
    WordsIff(b, w, rest);
    assert [] + rest == rest;
  }

  /** The fields of an ATTRS block from the `k`-th on, and what follows the block. */
  function Tail4(a: WireAttrs, rest: bytes): bytes {
    If(Has(a.flags, ATTR_EXTENDED), BeBytes(|a.pairs|, 4) + PutPairs(a.pairs)) + rest
  }

  function Tail3(a: WireAttrs, rest: bytes): bytes {
    If(Has(a.flags, ATTR_ACMODTIME), PutWords(a.times)) + Tail4(a, rest)
  }

  function Tail2(a: WireAttrs, rest: bytes): bytes {
    If(Has(a.flags, ATTR_PERMISSIONS), BeBytes(a.mode, 4)) + Tail3(a, rest)
  }

  function Tail1(a: WireAttrs, rest: bytes): bytes {
    If(Has(a.flags, ATTR_UIDGID), PutWords(a.owner)) + Tail2(a, rest)
  }

  function Tail0(a: WireAttrs, rest: bytes): bytes {
    If(Has(a.flags, ATTR_SIZE), BeBytes(a.size, 8)) + Tail1(a, rest)
  }

  lemma AttrsTails(a: WireAttrs, rest: bytes)
    ensures EncodeAttrs(a) + rest == BeBytes(a.flags, 4) + Tail0(a, rest)
  {
    hide If, PutPairs, PutWords, Has;
  }

  lemma Tail4Is(a: WireAttrs, rest: bytes)
    ensures Tail4(a, rest)
            == if Has(a.flags, ATTR_EXTENDED) then BeBytes(|a.pairs|, 4) + (PutPairs(a.pairs) + rest) else rest
  {
  }

  lemma AttrsRoundTrip(a: WireAttrs, rest: bytes)
    requires GoodAttrs(a)
    ensures ReadAttrs(EncodeAttrs(a) + rest) == Some((Kept(a), rest))
  {
    hide U32, U64, TwoWords, Optional, SkipPairs, EncodeAttrs, When, If, Has;
    AttrsTails(a, rest);
    U32Iff(EncodeAttrs(a) + rest, a.flags, Tail0(a, rest));
    OptionalU64Iff(Has(a.flags, ATTR_SIZE), Tail0(a, rest), a.size, Tail1(a, rest));
    OptionalWordsIff(Has(a.flags, ATTR_UIDGID), Tail1(a, rest), a.owner, Tail2(a, rest));
    OptionalU32Iff(Has(a.flags, ATTR_PERMISSIONS), Tail2(a, rest), a.mode, Tail3(a, rest));
    OptionalWordsIff(Has(a.flags, ATTR_ACMODTIME), Tail3(a, rest), a.times, Tail4(a, rest));
    Tail4Is(a, rest);
    if Has(a.flags, ATTR_EXTENDED) {
      U32Iff(Tail4(a, rest), |a.pairs|, PutPairs(a.pairs) + rest);
      PairsRoundTrip(a.pairs, rest);
    }
  }

  lemma ModeKept(a: WireAttrs)
    ensures Kept(a).mode == When(Has(a.flags, ATTR_PERMISSIONS), a.mode)
  {
  }

  lemma EntryRoundTrip(e: WireEntry, rest: bytes)
    requires GoodEntry(e)
    ensures ReadEntry(EncodeEntry(e) + rest) == Some((KeptEntry(e), rest))
  {
    hide Str, ReadAttrs, EncodeAttrs, PutStr, Kept;
    var t1 := EncodeAttrs(e.attrs) + rest;
    var t0 := PutStr(e.longname) + t1;
    assert EncodeEntry(e) + rest == PutStr(e.filename) + t0;
    StrIff(PutStr(e.filename) + t0, e.filename, t0);
    StrIff(t0, e.longname, t1);
    AttrsRoundTrip(e.attrs, rest);
    ModeKept(e.attrs);
  }

  lemma {:induction false} EntriesRoundTrip(es: seq<WireEntry>, rest: bytes)
    requires forall i :: 0 <= i < |es| ==> GoodEntry(es[i])
    ensures ReadEntries(EncodeEntries(es) + rest, |es|) == Some((KeptEntries(es), rest))
  {
    if es == [] {
      assert EncodeEntries(es) + rest == rest;
    } else {
      hide ReadEntry, EncodeEntry, GoodEntry, KeptEntry;
      var more := EncodeEntries(es[1..]) + rest;
      assert EncodeEntries(es) + rest == EncodeEntry(es[0]) + more;
      EntryRoundTrip(es[0], more);
      EntriesRoundTrip(es[1..], rest);
    }
  }

  /**
   * Every listing comes back: file names and long names octet for octet, the raw mode word whatever it says,
   * any EXTENDED pairs walked past.
   */
  lemma NameRoundTrip(id: nat, es: seq<WireEntry>)
    requires Word(id) && Word(|es|) && forall i :: 0 <= i < |es| ==> GoodEntry(es[i])
    ensures DecodeName(EncodeName(id, es)) == Some(Listing(id, KeptEntries(es)))
  {
    hide U32, ReadEntries, EncodeEntries, GoodEntry;
    var body := EncodeName(id, es);
    var t1 := EncodeEntries(es) + [];
    var t0 := BeBytes(|es|, 4) + t1;
    assert body[1..] == BeBytes(id, 4) + t0;
    U32Iff(body[1..], id, t0);
    U32Iff(t0, |es|, t1);
    EntriesRoundTrip(es, []);
  }

  // ---- the flags word and the fields on the wire ----

  /** Which field each bit announces (draft-ietf-secsh-filexfer-02 section 5). */
  lemma FlagBits(b0: byte, b1: byte, b2: byte, b3: byte)
    ensures var flags := BeValue([b0, b1, b2, b3]);
            && (Has(flags, ATTR_SIZE) <==> b3 % 2 == 1)
            && (Has(flags, ATTR_UIDGID) <==> b3 / 2 % 2 == 1)
            && (Has(flags, ATTR_PERMISSIONS) <==> b3 / 4 % 2 == 1)
            && (Has(flags, ATTR_ACMODTIME) <==> b3 / 8 % 2 == 1)
            && (Has(flags, ATTR_EXTENDED) <==> b0 >= 128)
  {
    DigitValues(256, b0, b1, b2, b3);
    var high := 65536 * b0 + 256 * b1 + b2;
    hide BeValue;
    assert BeValue([b0, b1, b2, b3]) == 256 * high + b3;
    LowBits(high, b3);
  }

  lemma LowBit(even: nat, low: nat, bit: nat, n: nat)
    requires bit > 0 && n == bit * (2 * even) + low
    ensures n / bit % 2 == low / bit % 2
  {
    DivModOf(bit, 2 * even + low / bit, low % bit);
    Recompose(bit, low);
    assert bit * (2 * even + low / bit) == bit * (2 * even) + bit * (low / bit);
  }

  lemma LowBits(high: nat, low: byte)
    ensures var n := 256 * high + low;
            && n % 2 == low % 2 && n / 2 % 2 == low / 2 % 2 && n / 4 % 2 == low / 4 % 2 && n / 8 % 2 == low / 8 % 2
  {
    var n := 256 * high + low;
    LowBit(64 * high, low, 2, n);
    LowBit(32 * high, low, 4, n);
    LowBit(16 * high, low, 8, n);
  }

  /** The fields in their order: size, owner, mode, access and modification time, then the extended pairs. */
  lemma AttrsLayout(a: WireAttrs)
    requires a.flags == BeValue([0x80, 0, 0, 0x0F])
    ensures EncodeAttrs(a)
            == [0x80, 0, 0, 0x0F] + BeBytes(a.size, 8) + BeBytes(a.owner.0, 4) + BeBytes(a.owner.1, 4)
               + BeBytes(a.mode, 4) + BeBytes(a.times.0, 4) + BeBytes(a.times.1, 4)
               + BeBytes(|a.pairs|, 4) + PutPairs(a.pairs)
    ensures Kept(a) == Attrs(Some(a.size), Some(a.owner), Some(a.mode), Some(a.times))
  {
    FlagBits(0x80, 0, 0, 0x0F);
    DigitsUnique(256, [0x80, 0, 0, 0x0F]);
    hide Has, BeBytes, BeValue;
  }

  // ---- and everything accepted is a listing ----

  lemma AttrsRead(b: bytes) returns (a: WireAttrs)
    requires ReadAttrs(b).Some?
    ensures GoodAttrs(a) && Kept(a) == ReadAttrs(b).value.0 && b == EncodeAttrs(a) + ReadAttrs(b).value.1
  {
    hide U32, U64, TwoWords, SkipPairs, EncodeAttrs, If, Has, PutPairs, PutWords, Optional, OrZero, OrZeros, When;
    var (flags, b0) := U32(b).value;
    U32Iff(b, flags, b0);
    var (size, b1) := Optional(Has(flags, ATTR_SIZE), U64, b0).value;
    var (owner, b2) := Optional(Has(flags, ATTR_UIDGID), TwoWords, b1).value;
    var (mode, b3) := Optional(Has(flags, ATTR_PERMISSIONS), U32, b2).value;
    var (times, b4) := Optional(Has(flags, ATTR_ACMODTIME), TwoWords, b3).value;
    var pairs := [];
    var rest := ReadAttrs(b).value.1;
    if Has(flags, ATTR_EXTENDED) {
      var (count, b5) := U32(b4).value;
      U32Iff(b4, count, b5);
      pairs := PairsRead(b5, count);
    }
    a := WireAttrs(flags, OrZero(size), OrZeros(owner), OrZero(mode), OrZeros(times), pairs);
    OptionalU64Read(Has(flags, ATTR_SIZE), b0);
    OptionalWordsRead(Has(flags, ATTR_UIDGID), b1);
    OptionalU32Read(Has(flags, ATTR_PERMISSIONS), b2);
    OptionalWordsRead(Has(flags, ATTR_ACMODTIME), b3);
    Tail4Is(a, rest);
    AttrsTails(a, rest);
  }

  function OrZero(o: Option<nat>): nat {
    if o.Some? then o.value else 0
  }

  function OrZeros(o: Option<(nat, nat)>): (nat, nat) {
    if o.Some? then o.value else (0, 0)
  }

  lemma OptionalU32Read(present: bool, b: bytes)
    requires Optional(present, U32, b).Some?
    ensures var (o, rest) := Optional(present, U32, b).value;
            o == When(present, OrZero(o)) && Word(OrZero(o)) && b == If(present, BeBytes(OrZero(o), 4)) + rest
  {
    var (o, rest) := Optional(present, U32, b).value;
    U32Iff(b, OrZero(o), rest);
    assert [] + rest == rest;
  }

  lemma OptionalU64Read(present: bool, b: bytes)
    requires Optional(present, U64, b).Some?
    ensures var (o, rest) := Optional(present, U64, b).value;
            o == When(present, OrZero(o)) && OrZero(o) < TWO_64 && b == If(present, BeBytes(OrZero(o), 8)) + rest
  {
    var (o, rest) := Optional(present, U64, b).value;
    U64Iff(b, OrZero(o), rest);
    assert [] + rest == rest;
  }

  lemma OptionalWordsRead(present: bool, b: bytes)
    requires Optional(present, TwoWords, b).Some?
    ensures var (o, rest) := Optional(present, TwoWords, b).value;
            && o == When(present, OrZeros(o)) && Word(OrZeros(o).0) && Word(OrZeros(o).1)
            && b == If(present, PutWords(OrZeros(o))) + rest
  {
    hide TwoWords, PutWords;
    var (o, rest) := Optional(present, TwoWords, b).value;
    if present {
      var (w, more) := TwoWords(b).value;
      WordsIff(b, w, more);
    }
    assert [] + rest == rest;
  }

  lemma EntryRead(b: bytes) returns (e: WireEntry)
    requires ReadEntry(b).Some?
    ensures GoodEntry(e) && KeptEntry(e) == ReadEntry(b).value.0 && b == EncodeEntry(e) + ReadEntry(b).value.1
  {
    hide Str, ReadAttrs, EncodeAttrs, PutStr, Kept, GoodAttrs;
    var (filename, b1) := Str(b).value;
    var (longname, b2) := Str(b1).value;
    StrIff(b, filename, b1);
    StrIff(b1, longname, b2);
    var a := AttrsRead(b2);
    ModeKept(a);
    e := WireEntry(filename, longname, a);
    var rest := ReadEntry(b).value.1;
    assert EncodeEntry(e) + rest == PutStr(filename) + (PutStr(longname) + (EncodeAttrs(a) + rest));
  }

  lemma EntriesCons(e: WireEntry, es: seq<WireEntry>)
    ensures EncodeEntries([e] + es) == EncodeEntry(e) + EncodeEntries(es)
    ensures KeptEntries([e] + es) == [KeptEntry(e)] + KeptEntries(es)
  {
  }

  lemma NoEntries(b: bytes)
    ensures ReadEntries(b, 0) == Some(([], b)) && EncodeEntries([]) + b == b && KeptEntries([]) == []
  {
  }

  lemma ReadEntriesStep(b: bytes, count: nat)
    requires count > 0 && ReadEntries(b, count).Some?
    ensures ReadEntry(b).Some?
    ensures var (e, b1) := ReadEntry(b).value;
            && ReadEntries(b1, count - 1).Some?
            && ReadEntries(b, count).value.0 == [e] + ReadEntries(b1, count - 1).value.0
            && ReadEntries(b, count).value.1 == ReadEntries(b1, count - 1).value.1
  {
  }

  lemma {:induction false} EntriesRead(b: bytes, count: nat) returns (es: seq<WireEntry>)
    requires ReadEntries(b, count).Some?
    ensures |es| == count && (forall i :: 0 <= i < |es| ==> GoodEntry(es[i]))
    ensures KeptEntries(es) == ReadEntries(b, count).value.0
    ensures b == EncodeEntries(es) + ReadEntries(b, count).value.1
    decreases count
  {
    hide ReadEntry, ReadEntries, EncodeEntry, EncodeEntries, GoodEntry, KeptEntry, KeptEntries;
    if count == 0 {
      es := [];
      NoEntries(b);
    } else {
      ReadEntriesStep(b, count);
      var (entry, b1) := ReadEntry(b).value;
      var e := EntryRead(b);
      var more := EntriesRead(b1, count - 1);
      es := [e] + more;
      EntriesCons(e, more);
      var rest := ReadEntries(b, count).value.1;
      assert EncodeEntries(es) + rest == EncodeEntry(e) + (EncodeEntries(more) + rest);
    }
  }

  /** An accepted body is the encoding of some listing, and then octets the decoder does not look at. */
  lemma AcceptedIsListing(body: bytes) returns (es: seq<WireEntry>, trailing: bytes)
    requires body != [] && DecodeName(body).Some?
    ensures var l := DecodeName(body).value;
            && Word(l.id) && Word(|es|) && (forall i :: 0 <= i < |es| ==> GoodEntry(es[i]))
            && l.entries == KeptEntries(es)
            && body[1..] == EncodeName(l.id, es)[1..] + trailing
  {
    hide U32, ReadEntries, EncodeEntries, GoodEntry;
    var (id, b1) := U32(body[1..]).value;
    var (count, b2) := U32(b1).value;
    U32Iff(body[1..], id, b1);
    U32Iff(b1, count, b2);
    es := EntriesRead(b2, count);
    trailing := ReadEntries(b2, count).value.1;
    assert EncodeName(id, es)[1..] == BeBytes(id, 4) + (BeBytes(|es|, 4) + EncodeEntries(es));
    assert body[1..] == BeBytes(id, 4) + (BeBytes(count, 4) + (EncodeEntries(es) + trailing));
  }

  lemma {:induction false} EntriesCost(es: seq<WireEntry>)
    ensures |EncodeEntries(es)| >= 12 * |es| && |KeptEntries(es)| == |es|
  {
    if es == [] {
    } else {
      EntriesCost(es[1..]);
    }
  }

  /** No body, however its counts lie, yields more entries than a twelfth of its octets. */
  lemma EntriesAreBounded(body: bytes)
    requires body != [] && DecodeName(body).Some?
    ensures 12 * |DecodeName(body).value.entries| <= |body|
  {
    hide DecodeName, EncodeEntries, KeptEntries;
    var es, trailing := AcceptedIsListing(body);
    EntriesCost(es);
  }

  // ---- the cursor and the loops; every failure is `Truncated` ----

  class Reader {
    const b: bytes
    var p: nat

    ghost predicate Valid()
      reads this
    {
      p <= |b|
    }

    ghost function Rest(): bytes
      requires Valid()
      reads this
    {
      b[p..]
    }

    constructor (input: bytes)
      ensures Valid() && b == input && Rest() == input && p == 0
    {
      b, p := input, 0;
    }

    /** `checked_add` cannot fail where the sum is compared with the length anyway. */
    method TakeN(n: nat) returns (r: Option<bytes>)
      requires Valid()
      modifies this
      ensures Valid()
      ensures match Take(old(Rest()), n)
              case Some((s, rest)) => r == Some(s) && Rest() == rest
              case None => r.None? && p == old(p)
    {
      var end := p + n;
      if end > |b| {
        return None;
      }
      assert b[p..][..n] == b[p..end] && b[p..][n..] == b[end..];
      r := Some(b[p..end]);
      p := end;
    }

    method Word32() returns (r: Option<nat>)
      requires Valid()
      modifies this
      ensures Valid()
      ensures match U32(old(Rest()))
              case Some((n, rest)) => r == Some(n) && Rest() == rest
              case None => r.None?
    {
      var s := TakeN(4);
      return if s.Some? then Some(BeValue(s.value)) else None;
    }

    method Word64() returns (r: Option<nat>)
      requires Valid()
      modifies this
      ensures Valid()
      ensures match U64(old(Rest()))
              case Some((n, rest)) => r == Some(n) && Rest() == rest
              case None => r.None?
    {
      var s := TakeN(8);
      return if s.Some? then Some(BeValue(s.value)) else None;
    }

    method Text() returns (r: Option<bytes>)
      requires Valid()
      modifies this
      ensures Valid()
      ensures match Str(old(Rest()))
              case Some((s, rest)) => r == Some(s) && Rest() == rest
              case None => r.None?
    {
      var n := Word32();
      if n.None? {
        return None;
      }
      r := TakeN(n.value);
    }

    method Pair() returns (r: Option<(nat, nat)>)
      requires Valid()
      modifies this
      ensures Valid()
      ensures match TwoWords(old(Rest()))
              case Some((w, rest)) => r == Some(w) && Rest() == rest
              case None => r.None?
    {
      var x := Word32();
      if x.None? {
        return None;
      }
      var y := Word32();
      return if y.Some? then Some((x.value, y.value)) else None;
    }

    method SkipExtended(count: nat) returns (ok: bool)
      requires Valid()
      modifies this
      ensures Valid()
      ensures ok == SkipPairs(old(Rest()), count).Some?
      ensures ok ==> Rest() == SkipPairs(old(Rest()), count).value
    {
      hide Str, Take, U32;
      var i := 0;
      while i < count
        invariant i <= count && Valid()
        invariant SkipPairs(Rest(), count - i) == SkipPairs(old(Rest()), count)
      {
        var name := Text();
        if name.None? {
          return false;
        }
        var value := Text();
        if value.None? {
          return false;
        }
        i := i + 1;
      }
      return true;
    }
  }

  /** The attributes, the raw mode word and how many octets they took. */
  method ParseAttrs(tail: bytes) returns (r: Option<(Attrs, Option<nat>, nat)>)
    ensures match ReadAttrs(tail)
            case None => r.None?
            case Some((a, rest)) => r.Some? && r.value.0 == a && r.value.1 == a.mode
                                    && r.value.2 <= |tail| && rest == tail[r.value.2..]
  {
    hide U32, U64, TwoWords, SkipPairs, Has;
    var reader := new Reader(tail);
    var flags := reader.Word32();
    if flags.None? {
      return None;
    }
    var size: Option<nat>, owner: Option<(nat, nat)> := None, None;
    var mode: Option<nat>, times: Option<(nat, nat)> := None, None;
    if Has(flags.value, ATTR_SIZE) {
      size := reader.Word64();
      if size.None? {
        return None;
      }
    }
    if Has(flags.value, ATTR_UIDGID) {
      owner := reader.Pair();
      if owner.None? {
        return None;
      }
    }
    if Has(flags.value, ATTR_PERMISSIONS) {
      mode := reader.Word32();
      if mode.None? {
        return None;
      }
    }
    if Has(flags.value, ATTR_ACMODTIME) {
      times := reader.Pair();
      if times.None? {
        return None;
      }
    }
    if Has(flags.value, ATTR_EXTENDED) {
      var count := reader.Word32();
      if count.None? {
        return None;
      }
      var ok := reader.SkipExtended(count.value);
      if !ok {
        return None;
      }
    }
    return Some((Attrs(size, owner, mode, times), mode, reader.p));
  }

  function Prepended(es: seq<NameEntry>, more: Read<seq<NameEntry>>): Read<seq<NameEntry>> {
    if more.None? then None else Some((es + more.value.0, more.value.1))
  }

  method NextEntry(reader: Reader) returns (entry: Option<NameEntry>)
    requires reader.Valid()
    modifies reader
    ensures reader.Valid()
    ensures match ReadEntry(old(reader.Rest()))
            case Some((e, rest)) => entry == Some(e) && reader.Rest() == rest
            case None => entry.None?
  {
    hide Str, ReadAttrs, Take;
    var filename := reader.Text();
    if filename.None? {
      return None;
    }
    var longname := reader.Text();
    if longname.None? {
      return None;
    }
    var tail := reader.b[reader.p..];
    var attrs := ParseAttrs(tail);
    if attrs.None? {
      return None;
    }
    TakeDrops(tail, attrs.value.2);
    var _ := reader.TakeN(attrs.value.2);
    return Some(NameEntry(filename.value, longname.value, attrs.value.0, attrs.value.1));
  }

  method NextEntries(reader: Reader, count: nat) returns (r: Option<seq<NameEntry>>)
    requires reader.Valid()
    modifies reader
    ensures match ReadEntries(old(reader.Rest()), count)
            case Some((es, _)) => r == Some(es)
            case None => r.None?
  {
    hide ReadEntry, ReadEntries, Prepended;
    ghost var start := reader.Rest();
    var entries, i := [], 0;
    PrependedEnds([], start, count);
    while i < count
      invariant i <= count && reader.Valid()
      invariant Prepended(entries, ReadEntries(reader.Rest(), count - i)) == ReadEntries(start, count)
    {
      PrependedStep(entries, reader.Rest(), count - i);
      var entry := NextEntry(reader);
      if entry.None? {
        return None;
      }
      entries := entries + [entry.value];
      i := i + 1;
    }
    PrependedEnds(entries, reader.Rest(), 0);
    return Some(entries);
  }

  method Decode(body: bytes) returns (listing: Option<Listing>)
    requires body != []
    ensures listing == DecodeName(body)
    ensures listing.Some? ==> 12 * |listing.value.entries| <= |body|
  {
    if DecodeName(body).Some? {
      EntriesAreBounded(body);
    }
    hide U32, ReadEntries;
    var reader := new Reader(body[1..]);
    var id := reader.Word32();
    if id.None? {
      return None;
    }
    var count := reader.Word32();
    if count.None? {
      return None;
    }
    var entries := NextEntries(reader, count.value);
    return if entries.Some? then Some(Listing(id.value, entries.value)) else None;
  }

  lemma TakeDrops(b: bytes, n: nat)
    requires n <= |b|
    ensures Take(b, n) == Some((b[..n], b[n..]))
  {
  }

  lemma PrependedStep(es: seq<NameEntry>, b: bytes, count: nat)
    requires count > 0
    ensures match ReadEntry(b)
            case None => Prepended(es, ReadEntries(b, count)).None?
            case Some((e, rest)) =>
              Prepended(es, ReadEntries(b, count)) == Prepended(es + [e], ReadEntries(rest, count - 1))
  {
    hide ReadEntry;
    if ReadEntry(b).Some? {
      var (e, b1) := ReadEntry(b).value;
      var more := ReadEntries(b1, count - 1);
      if more.Some? {
        assert es + ([e] + more.value.0) == es + [e] + more.value.0;
      }
    }
  }

  lemma PrependedEnds(es: seq<NameEntry>, b: bytes, count: nat)
    ensures Prepended([], ReadEntries(b, count)) == ReadEntries(b, count)
    ensures Prepended(es, ReadEntries(b, 0)) == Some((es, b))
  {
    hide ReadEntry;
    var more := ReadEntries(b, count);
    if more.Some? {
      assert [] + more.value.0 == more.value.0;
    }
    assert es + [] == es;
  }
}
