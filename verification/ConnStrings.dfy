/** Connection strings and pairing tokens (connstring/src/lib.rs). */
module ConnStrings {
  import opened Bytes
  import opened Postcard
  import opened RadixText

  // ---- the pairing token as text ----

  const TOKEN_LEN: nat := 16

  /** "ABCDEFGH9JKLMNOPQRSTUVWXYZ234567": base32 with `9` in the place of `I`. */
  function TokenSymbol(i: nat): char
    requires i < 32
  {
    if i == 8 then '9' else if i < 26 then 'A' + i as char else '2' + (i - 26) as char
  }

  function TokenSymbols(): string {
    seq(32, i requires 0 <= i < 32 => TokenSymbol(i))
  }

  /** Unicode White_Space. */
  predicate IsWhitespace(c: char) {
    || '\U{9}' <= c <= '\U{D}' || c == ' ' || c == '\U{85}' || c == '\U{A0}' || c == '\U{1680}'
    || '\U{2000}' <= c <= '\U{200A}' || c == '\U{2028}' || c == '\U{2029}' || c == '\U{202F}'
    || c == '\U{205F}' || c == '\U{3000}'
  }

  predicate Separator(c: char) {
    IsWhitespace(c) || c == '-' || c == ':' || c == '_'
  }

  function Upper(c: char): char {
    if 'a' <= c <= 'z' then 'A' + (c - 'a') else c
  }

  function Shape(c: char): char {
    if c == 'O' || c == '0' then 'O'
    else if c == 'I' || c == '1' || c == 'L' then 'L'
    else if c == '8' then 'B'
    else c
  }

  function Fold(s: string): string {
    if s == [] then []
    else if Separator(s[0]) then Fold(s[1..])
    else [Shape(Upper(s[0]))] + Fold(s[1..])
  }

  lemma TokenAlphabet()
    ensures Distinct(TokenSymbols()) && |TokenSymbols()| == Bits(5) == 32
    ensures forall c :: c in TokenSymbols() ==> !Separator(c) && Shape(Upper(c)) == c
  {
  }

  function TokenEncode(token: id16): string {
    TokenAlphabet();
    Spell(TokenSymbols(), EncodeBits(5, token))
  }

  function TokenDecode(s: string): Option<id16> {
    var d :- Unspell(TokenSymbols(), Fold(s));
    var b :- DecodeBits(5, d);
    if |b| != TOKEN_LEN then None else Some(b)
  }

  /** Text already written in the alphabet folds to itself. */
  lemma {:induction false} FoldFixes(s: string)
    requires forall i :: 0 <= i < |s| ==> s[i] in TokenSymbols()
    ensures Fold(s) == s
  {
    TokenAlphabet();
    if s == [] {
    } else {
      FoldFixes(s[1..]);
    }
  }

  /** A token is read exactly from the texts that fold onto what the listener prints for it. */
  lemma DecodesIffFoldsToEncoding(s: string, token: id16)
    ensures TokenDecode(s) == Some(token) <==> Fold(s) == TokenEncode(token)
  {
    TokenAlphabet();
    var d := EncodeBits(5, token);
    UnspellIff(TokenSymbols(), Fold(s), d);
    BitsRoundTrip(5, token);
    if TokenDecode(s) == Some(token) {
      var e := Unspell(TokenSymbols(), Fold(s)).value;
      OnlyEncodingsDecode(5, e, token);
    }
  }

  /** What the listener prints is 26 characters and reads back as the token. */
  lemma TokenRoundTrip(token: id16)
    ensures TokenDecode(TokenEncode(token)) == Some(token) && |TokenEncode(token)| == 26
  {
    hide Fold, TokenDecode, Distinct, Bits;
    TokenAlphabet();
    FoldFixes(TokenEncode(token));
    DecodesIffFoldsToEncoding(TokenEncode(token), token);
  }

  /** Two accepted texts give the same token exactly when they fold alike. */
  lemma SameTokenIffSameFold(a: string, b: string)
    requires TokenDecode(a).Some? && TokenDecode(b).Some?
    ensures TokenDecode(a) == TokenDecode(b) <==> Fold(a) == Fold(b)
  {
    hide Fold, TokenDecode, TokenEncode;
    DecodesIffFoldsToEncoding(a, TokenDecode(a).value);
    DecodesIffFoldsToEncoding(b, TokenDecode(b).value);
    DecodesIffFoldsToEncoding(b, TokenDecode(a).value);
  }

  lemma {:induction false} FoldAppend(a: string, b: string)
    ensures Fold(a + b) == Fold(a) + Fold(b)
  {
    if a == [] {
      assert a + b == b;
    } else {
      assert (a + b)[1..] == a[1..] + b;
      FoldAppend(a[1..], b);
    }
  }

  lemma FoldOne(c: char)
    ensures Fold([c]) == if Separator(c) then [] else [Shape(Upper(c))]
  {
  }

  lemma FoldDecides(a: string, b: string)
    requires Fold(a) == Fold(b)
    ensures TokenDecode(a) == TokenDecode(b)
  {
  }

  /** What a reader takes for the same character. */
  predicate LooksAlike(c: char, d: char) {
    || c == d || SameLetter(c, d)
    || (c in "iIlL1" && d in "iIlL1")
    || (c in "oO0" && d in "oO0")
    || (c in "bB8" && d in "bB8")
  }

  lemma AlikeIffSameFold(c: char, d: char)
    ensures LooksAlike(c, d) <==> Shape(Upper(c)) == Shape(Upper(d))
    ensures LooksAlike(c, d) ==> (Separator(c) <==> Separator(d))
  {
    ClusterIs(c);
    ClusterIs(d);
  }

  lemma ClusterIs(c: char)
    ensures c in "iIlL1" <==> Shape(Upper(c)) == 'L'
    ensures c in "oO0" <==> Shape(Upper(c)) == 'O'
    ensures c in "bB8" <==> Shape(Upper(c)) == 'B'
  {
  }

  lemma FoldSplice(a: string, c: char, b: string)
    ensures Fold(a + [c] + b) == Fold(a) + (if Separator(c) then [] else [Shape(Upper(c))]) + Fold(b)
    ensures Separator(c) ==> Fold(a + [c] + b) == Fold(a + b)
  {
    hide Fold, Separator, Shape, Upper;
    FoldOne(c);
    FoldAppend(a, [c]);
    FoldAppend(a + [c], b);
    FoldAppend(a, b);
    assert Fold(a) + [] == Fold(a);
  }

  /**
   * However it was typed: the case of a letter, any of i I l L 1, any of o O 0 and any of b B 8 may stand for one
   * another, and blanks, line breaks, hyphens, colons and underscores may be put anywhere.
   */
  lemma TypingDoesNotMatter(a: string, c: char, d: char, b: string)
    ensures LooksAlike(c, d) ==> TokenDecode(a + [c] + b) == TokenDecode(a + [d] + b)
    ensures c in " \t\n\r-:_" ==> TokenDecode(a + [c] + b) == TokenDecode(a + b)
  {
    hide Fold, TokenDecode, Separator, Shape, Upper, LooksAlike;
    FoldSplice(a, c, b);
    FoldSplice(a, d, b);
    AlikeIffSameFold(c, d);
    if LooksAlike(c, d) {
      FoldDecides(a + [c] + b, a + [d] + b);
    }
    if c in " \t\n\r-:_" {
      SeparatorsSkipped(c);
      FoldDecides(a + [c] + b, a + b);
    }
  }

  lemma SeparatorsSkipped(c: char)
    requires c in " \t\n\r-:_"
    ensures Separator(c)
  {
  }

  /** Nothing else is forgiven: where both readings are tokens, characters that do not look alike tell them apart. */
  lemma OnlyLookalikesAgree(a: string, c: char, d: char, b: string)
    requires !Separator(c) && !Separator(d)
    requires TokenDecode(a + [c] + b).Some? && TokenDecode(a + [d] + b).Some?
    ensures TokenDecode(a + [c] + b) == TokenDecode(a + [d] + b) <==> LooksAlike(c, d)
  {
    hide Fold, TokenDecode, Separator, Shape, Upper, LooksAlike;
    SameTokenIffSameFold(a + [c] + b, a + [d] + b);
    FoldSplice(a, c, b);
    FoldSplice(a, d, b);
    AlikeIffSameFold(c, d);
    var k := |Fold(a)|;
    assert (Fold(a) + [Shape(Upper(c))] + Fold(b))[k] == Shape(Upper(c));
    assert (Fold(a) + [Shape(Upper(d))] + Fold(b))[k] == Shape(Upper(d));
  }

  lemma SymbolsSpelledOut()
    ensures TokenSymbols() == "ABCDEFGH9JKLMNOPQRSTUVWXYZ234567"
  {
  }

  lemma SpellAppend(symbols: string, d: seq<nat>, e: seq<nat>)
    requires forall i :: 0 <= i < |d + e| ==> (d + e)[i] < |symbols|
    requires forall i :: 0 <= i < |d| ==> d[i] < |symbols|
    requires forall i :: 0 <= i < |e| ==> e[i] < |symbols|
    ensures Spell(symbols, d + e) == Spell(symbols, d) + Spell(symbols, e)
  {
  }

  lemma EncodedDigits(k: nat, b: bytes)
    requires 0 < k <= 8
    ensures forall i :: 0 <= i < |EncodeBits(k, b)| ==> EncodeBits(k, b)[i] < Bits(k)
  {
  }

  /** What is printed is the RFC's: three groups of five octets in eight characters each, and two for the last. */
  lemma TokenIsPrinted(token: id16)
    ensures forall i :: 0 <= i < |EncodeBits(5, token)| ==> EncodeBits(5, token)[i] < 32
    ensures TokenEncode(token) == Spell("ABCDEFGH9JKLMNOPQRSTUVWXYZ234567", EncodeBits(5, token))
    ensures EncodeBits(5, token)
            == EncodeBits(5, token[..5]) + EncodeBits(5, token[5..10]) + EncodeBits(5, token[10..15])
               + EncodeBits(5, token[15..])
  {
    hide EncodeBits, TokenSymbols, Distinct;
    SymbolsSpelledOut();
    TokenAlphabet();
    EncodedDigits(5, token);
    var a, b, c, d := token[..5], token[5..10], token[10..15], token[15..];
    GroupsAreIndependent(5, 8, a, b + (c + d));
    GroupsAreIndependent(5, 8, b, c + d);
    GroupsAreIndependent(5, 8, c, d);
    assert token == a + (b + (c + d));
  }

  lemma WhitespaceIs(c: char)
    ensures IsWhitespace(c) <==>
            c in "\U{9}\U{A}\U{B}\U{C}\U{D} \U{85}\U{A0}\U{1680}\U{2000}\U{2001}\U{2002}\U{2003}\U{2004}\U{2005}"
                 + "\U{2006}\U{2007}\U{2008}\U{2009}\U{200A}\U{2028}\U{2029}\U{202F}\U{205F}\U{3000}"
  {
  }

  // ---- the connection string ----

  const VERSION: byte := 3
  const VERSION_2: byte := 2
  const VERSION_1: byte := 1
  const PUBKEY_LEN: nat := 32

  type id32 = b: bytes | |b| == PUBKEY_LEN witness Repeat(32)

  function Repeat(n: nat): (b: bytes)
    ensures |b| == n
  {
    if n == 0 then [] else [0] + Repeat(n - 1)
  }

  function Ascii(s: string): (b: bytes)
    requires forall i :: 0 <= i < |s| ==> s[i] < '\U{80}'
    ensures |b| == |s| && forall i :: 0 <= i < |b| ==> b[i] < 0x80
  {
    seq(|s|, i requires 0 <= i < |s| => s[i] as byte)
  }

  /** A relay URL is kept as its UTF-8 octets. */
  datatype ConnString = ConnString(pubkey: id32, relayUrl: bytes, token: Option<id16>)

  datatype Relay = Url(url: bytes) | WellKnown(index: nat)

  datatype DecodeError =
    | NotBase64
    | Truncated
    | UnsupportedVersion(version: byte)
    | Malformed
    | RelayUrlNotUtf8
    | EmptyRelayUrl
    | UnknownWellKnownRelay(index: nat)

  datatype Decoded = Ok(value: ConnString) | Err(error: DecodeError)

  /** The production relays are spelled alike but for their region. */
  function RelayIn(region: string): (url: bytes)
    requires |region| == 4 && forall i :: 0 <= i < 4 ==> region[i] < '\U{80}'
    ensures url != [] && |url| < 64 && forall i :: 0 <= i < |url| ==> url[i] < 0x80
  {
    Ascii("https://" + region + "-1.relay.n0.iroh.link")
  }

  /** In table order. */
  function WellKnownRelays(): (table: seq<bytes>)
    ensures |table| == 4
    ensures forall i :: 0 <= i < 4 ==>
              && table[i] != [] && |table[i]| < 64
              && forall k :: 0 <= k < |table[i]| ==> table[i][k] < 0x80
  {
    [RelayIn("use1"), RelayIn("usw1"), RelayIn("euc1"), RelayIn("aps1")]
  }

  function Position(table: seq<bytes>, url: bytes, i: nat): (r: Option<nat>)
    requires i <= |table|
    ensures r.Some? ==> i <= r.value < |table| && table[r.value] == url && url !in table[i..r.value]
    ensures r.None? ==> url !in table[i..]
    decreases |table| - i
  {
    if i == |table| then None
    else if table[i] == url then Some(i)
    else
      assert table[i..] == [table[i]] + table[i + 1..];
      var r := Position(table, url, i + 1);
      assert r.Some? ==> table[i..r.value] == [table[i]] + table[i + 1..r.value];
      r
  }

  // ---- versions 2 and 3: postcard ----

  function RelayOf(table: seq<bytes>, url: bytes): Relay {
    match Position(table, url, 0)
    case Some(i) => WellKnown(i)
    case None => Url(url)
  }

  function PutRelay(r: Relay): bytes {
    match r
    case Url(url) => PutVarint(0) + PutBytes(url)
    case WellKnown(i) => PutVarint(1) + PutVarint(i)
  }

  function PutToken(t: Option<id16>): bytes {
    match t
    case None => [0]
    case Some(token) => [1] + token
  }

  /** The payload of a relay as it stands, in the table or not. */
  function PayloadOf(pubkey: id32, relay: Relay, token: Option<id16>): bytes {
    pubkey + (PutRelay(relay) + PutToken(token))
  }

  function EncodePayload(table: seq<bytes>, c: ConnString): bytes {
    PayloadOf(c.pubkey, RelayOf(table, c.relayUrl), c.token)
  }

  function ReadRelay(b: bytes): Read<Relay> {
    var (tag, b1) :- ReadU32(b);
    if tag == 0 then
      var (url, b2) :- ReadText(b1);
      Some((Url(url), b2))
    else if tag == 1 then
      var (i, b2) :- ReadU32(b1);
      Some((WellKnown(i), b2))
    else None
  }

  function ReadToken(b: bytes): Read<Option<id16>> {
    var (present, b1) :- ReadTag(b);
    if !present then Some((None, b1))
    else
      var (token, b2) :- Take(b1, TOKEN_LEN);
      Some((Some(token), b2))
  }

  function ReadWire(b: bytes): Option<(id32, Relay, Option<id16>)> {
    var (pubkey, b1) :- Take(b, PUBKEY_LEN);
    var (relay, b2) :- ReadRelay(b1);
    var (token, b3) :- ReadToken(b2);
    if b3 != [] then None else Some((pubkey, relay, token))
  }

  function DecodeV2(table: seq<bytes>, payload: bytes): Decoded {
    match ReadWire(payload)
    case None => Err(Malformed)
    case Some((pubkey, relay, token)) =>
      match relay
      case WellKnown(i) =>
        if i >= |table| then Err(UnknownWellKnownRelay(i))
        else if table[i] == [] then Err(EmptyRelayUrl)
        else Ok(ConnString(pubkey, table[i], token))
      case Url(url) =>
        if url == [] then Err(EmptyRelayUrl) else Ok(ConnString(pubkey, url, token))
  }

  // ---- version 1: fixed offsets ----

  function DecodeV1(payload: bytes): Decoded {
    if |payload| < PUBKEY_LEN + 1 then Err(Truncated)
    else
      var pubkey, flags := payload[..PUBKEY_LEN], payload[PUBKEY_LEN];
      var offset := PUBKEY_LEN + 1;
      if flags % 2 == 1 then
        if |payload| < offset + TOKEN_LEN then Err(Truncated)
        else V1(pubkey, payload[offset + TOKEN_LEN..], Some(payload[offset..offset + TOKEN_LEN]))
      else V1(pubkey, payload[offset..], None)
  }

  function V1(pubkey: id32, url: bytes, token: Option<id16>): Decoded {
    if !ValidUtf8(url) then Err(RelayUrlNotUtf8)
    else if url == [] then Err(EmptyRelayUrl)
    else Ok(ConnString(pubkey, url, token))
  }

  // ---- base64url around it ----

  /** "A-Za-z0-9-_" in that order. */
  function UrlSymbol(i: nat): char
    requires i < 64
  {
    if i < 26 then 'A' + i as char
    else if i < 52 then 'a' + (i - 26) as char
    else if i < 62 then '0' + (i - 52) as char
    else if i == 62 then '-' else '_'
  }

  function UrlSymbols(): string {
    seq(64, i requires 0 <= i < 64 => UrlSymbol(i))
  }

  lemma UrlAlphabet()
    ensures Distinct(UrlSymbols()) && |UrlSymbols()| == Bits(6) == 64
    ensures forall c :: c in UrlSymbols() ==> !IsWhitespace(c)
  {
  }

  function ToBase64(b: bytes): string {
    UrlAlphabet();
    Spell(UrlSymbols(), EncodeBits(6, b))
  }

  function FromBase64(s: string): Option<bytes> {
    var d :- Unspell(UrlSymbols(), s);
    DecodeBits(6, d)
  }

  lemma Base64Iff(s: string, b: bytes)
    ensures FromBase64(s) == Some(b) <==> s == ToBase64(b)
  {
    UrlAlphabet();
    UnspellIff(UrlSymbols(), s, EncodeBits(6, b));
    BitsRoundTrip(6, b);
    if FromBase64(s) == Some(b) {
      OnlyEncodingsDecode(6, Unspell(UrlSymbols(), s).value, b);
    }
  }

  lemma UrlSymbolsSpelledOut()
    ensures UrlSymbols() == "ABCDEFGHIJKLMNOPQRSTUVWXYZ" + "abcdefghijklmnopqrstuvwxyz" + "0123456789" + "-_"
  {
  }

  /** The text is the RFC's: four characters for each group of three octets, then what is left over. */
  lemma Base64ByGroups(a: byte, b: byte, c: byte, rest: bytes)
    ensures UrlSymbols() == "ABCDEFGHIJKLMNOPQRSTUVWXYZ" + "abcdefghijklmnopqrstuvwxyz" + "0123456789" + "-_"
    ensures |UrlSymbols()| == 64
    ensures ToBase64([a, b, c] + rest)
            == Spell(UrlSymbols(), [a / 4, a % 4 * 16 + b / 16, b % 16 * 4 + c / 64, c % 64]) + ToBase64(rest)
    ensures ToBase64([a, b]) == Spell(UrlSymbols(), [a / 4, a % 4 * 16 + b / 16, b % 16 * 4])
    ensures ToBase64([a]) == Spell(UrlSymbols(), [a / 4, a % 4 * 16])
    ensures ToBase64([]) == ""
  {
    hide EncodeBits, UrlSymbols, Distinct, Bits;
    UrlSymbolsSpelledOut();
    UrlAlphabet();
    GroupsAreIndependent(6, 4, [a, b, c], rest);
    SixBitGroups(a, b, c);
    EncodedDigits(6, [a, b, c] + rest);
    EncodedDigits(6, rest);
    SpellAppend(UrlSymbols(), EncodeBits(6, [a, b, c]), EncodeBits(6, rest));
  }

  function TrimStart(s: string): (t: string)
    ensures |t| <= |s|
  {
    if s != [] && IsWhitespace(s[0]) then TrimStart(s[1..]) else s
  }

  function TrimEnd(s: string): string {
    if s != [] && IsWhitespace(s[|s| - 1]) then TrimEnd(s[..|s| - 1]) else s
  }

  function Trim(s: string): string {
    TrimEnd(TrimStart(s))
  }

  function Encode(table: seq<bytes>, c: ConnString): string {
    ToBase64([VERSION] + EncodePayload(table, c))
  }

  function DecodeBlob(table: seq<bytes>, blob: bytes): Decoded {
    if blob == [] then Err(Truncated)
    else if blob[0] == VERSION || blob[0] == VERSION_2 then DecodeV2(table, blob[1..])
    else if blob[0] == VERSION_1 then DecodeV1(blob[1..])
    else Err(UnsupportedVersion(blob[0]))
  }

  function Decode(table: seq<bytes>, s: string): Decoded {
    match FromBase64(Trim(s))
    case None => Err(NotBase64)
    case Some(blob) => DecodeBlob(table, blob)
  }

  // ---- inverses ----

  predicate Encodable(c: ConnString) {
    c.relayUrl != [] && ValidUtf8(c.relayUrl) && |c.relayUrl| < TWO_32
  }

  lemma TagRoundTrip(tag: nat, rest: bytes)
    requires tag < 2
    ensures ReadU32(PutVarint(tag) + rest) == Some((tag, rest))
  {
  }

  lemma RelayRoundTrip(r: Relay, rest: bytes)
    requires r.Url? ==> |r.url| < TWO_32 && ValidUtf8(r.url)
    requires r.WellKnown? ==> r.index < TWO_32
    ensures ReadRelay(PutRelay(r) + rest) == Some((r, rest))
  {
    hide ReadU32, PutVarint, ReadBytes, PutBytes, ValidUtf8;
    match r {
      case Url(url) =>
        assert PutRelay(r) + rest == PutVarint(0) + (PutBytes(url) + rest);
        TagRoundTrip(0, PutBytes(url) + rest);
        BytesRoundTrip(url, rest);
      case WellKnown(i) =>
        assert PutRelay(r) + rest == PutVarint(1) + (PutVarint(i) + rest);
        TagRoundTrip(1, PutVarint(i) + rest);
        U32RoundTrip(i, rest);
    }
  }

  lemma TokenFieldEnds(t: Option<id16>, junk: bytes)
    ensures ReadToken(PutToken(t) + junk) == Some((t, junk))
  {
    match t {
      case None =>
        assert (PutToken(t) + junk)[1..] == junk;
      case Some(token) =>
        assert (PutToken(t) + junk)[1..] == token + junk;
        TakeRoundTrip(token, junk);
    }
  }

  lemma WireRoundTrip(pubkey: id32, relay: Relay, token: Option<id16>, junk: bytes)
    requires relay.Url? ==> |relay.url| < TWO_32 && ValidUtf8(relay.url)
    requires relay.WellKnown? ==> relay.index < TWO_32
    ensures ReadWire(PayloadOf(pubkey, relay, token) + junk)
            == if junk == [] then Some((pubkey, relay, token)) else None
  {
    hide ReadRelay, PutRelay, ReadToken, PutToken, ValidUtf8;
    var t1 := PutToken(token) + junk;
    var t0 := PutRelay(relay) + t1;
    assert PayloadOf(pubkey, relay, token) + junk == pubkey + t0;
    TakeRoundTrip(pubkey, t0);
    RelayRoundTrip(relay, t1);
    TokenFieldEnds(token, junk);
  }

  lemma PayloadRoundTrip(table: seq<bytes>, more: seq<bytes>, c: ConnString)
    requires Encodable(c) && |table| < TWO_32
    ensures DecodeV2(table + more, EncodePayload(table, c)) == Ok(c)
  {
    hide PayloadOf, ReadWire, ValidUtf8;
    var payload := EncodePayload(table, c);
    WireRoundTrip(c.pubkey, RelayOf(table, c.relayUrl), c.token, []);
    assert payload + [] == payload;
  }

  lemma {:induction false} TrimPadding(before: string, s: string, after: string)
    requires forall i :: 0 <= i < |before| ==> IsWhitespace(before[i])
    requires forall i :: 0 <= i < |after| ==> IsWhitespace(after[i])
    requires s != [] && !IsWhitespace(s[0]) && !IsWhitespace(s[|s| - 1])
    ensures Trim(before + s + after) == s
    decreases |before| + |after|
  {
    if before != [] {
      assert (before + s + after)[1..] == before[1..] + s + after;
      TrimPadding(before[1..], s, after);
    } else {
      assert before + s + after == s + after;
      assert TrimStart(s + after) == s + after;
      TrimTail(s, after);
    }
  }

  lemma {:induction false} TrimTail(s: string, after: string)
    requires forall i :: 0 <= i < |after| ==> IsWhitespace(after[i])
    requires s != [] && !IsWhitespace(s[|s| - 1])
    ensures TrimEnd(s + after) == s
    decreases |after|
  {
    if after == [] {
      assert s + after == s;
    } else {
      assert (s + after)[..|s + after| - 1] == s + after[..|after| - 1];
      TrimTail(s, after[..|after| - 1]);
    }
  }

  /**
   * Every connection string with a relay comes back, whether the relay rides as a table index or in full, with
   * any white space pasted around it, and also where relays have since been appended to the table.
   */
  lemma ConnStringRoundTrip(table: seq<bytes>, more: seq<bytes>, c: ConnString, before: string, after: string)
    requires Encodable(c) && |table| < TWO_32
    requires forall i :: 0 <= i < |before| ==> IsWhitespace(before[i])
    requires forall i :: 0 <= i < |after| ==> IsWhitespace(after[i])
    ensures Decode(table + more, before + Encode(table, c) + after) == Ok(c)
  {
    hide DecodeV2, EncodePayload, FromBase64, IsWhitespace, UrlSymbols, Bits, Trim;
    var blob := [VERSION] + EncodePayload(table, c);
    var text := Encode(table, c);
    UrlAlphabet();
    assert |text| == SymbolCount(6, |blob|) && text != [];
    assert text[0] in UrlSymbols() && text[|text| - 1] in UrlSymbols();
    TrimPadding(before, text, after);
    Base64Iff(text, blob);
    assert blob[1..] == EncodePayload(table, c);
    PayloadRoundTrip(table, more, c);
  }

  lemma {:induction false} AsciiIsUtf8(b: bytes)
    requires forall i :: 0 <= i < |b| ==> b[i] < 0x80
    ensures ValidUtf8(b)
  {
    if b == [] {
    } else {
      AsciiIsUtf8(b[1..]);
    }
  }

  /** In particular each of today's relays does. */
  lemma WellKnownRoundTrip(i: nat, pubkey: id32, token: Option<id16>)
    requires i < 4
    ensures var c := ConnString(pubkey, WellKnownRelays()[i], token);
            Decode(WellKnownRelays(), Encode(WellKnownRelays(), c)) == Ok(c)
  {
    hide WellKnownRelays, Decode, Encode, ValidUtf8;
    var table := WellKnownRelays();
    var c := ConnString(pubkey, table[i], token);
    AsciiIsUtf8(table[i]);
    ConnStringRoundTrip(table, [], c, "", "");
    assert table + [] == table && "" + Encode(table, c) + "" == Encode(table, c);
  }

  /** A relay of the table is never spelled out, and a link that carries an index means the table's relay. */
  lemma WellKnownRelaysAreIndexed(table: seq<bytes>, i: nat)
    requires i < |table|
    ensures RelayOf(table, table[i]).WellKnown?
    ensures var r := RelayOf(table, table[i]); r.index <= i && table[r.index] == table[i]
  {
  }

  // ---- versions and layouts ----

  /** Version 3 is written; 2 reads the same payload, 1 the old layout, and any other first octet is refused by name. */
  lemma VersionDecides(table: seq<bytes>, blob: bytes)
    ensures blob == [] ==> DecodeBlob(table, blob) == Err(Truncated)
    ensures blob != [] && (blob[0] == 2 || blob[0] == 3) ==> DecodeBlob(table, blob) == DecodeV2(table, blob[1..])
    ensures blob != [] && blob[0] == 1 ==> DecodeBlob(table, blob) == DecodeV1(blob[1..])
    ensures forall v: byte ::
              DecodeBlob(table, blob) == Err(UnsupportedVersion(v)) <==>
              blob != [] && blob[0] == v && v != 1 && v != 2 && v != 3
  {
    if blob != [] && (blob[0] == 2 || blob[0] == 3) {
      V2Errors(table, blob[1..]);
    }
  }

  lemma V2Errors(table: seq<bytes>, payload: bytes)
    ensures !(DecodeV2(table, payload).Err? && DecodeV2(table, payload).error.UnsupportedVersion?)
  {
    hide ReadWire;
  }

  /** Every link printed as version 2 still reads as the same connection. */
  lemma OlderVersionReads(table: seq<bytes>, more: seq<bytes>, c: ConnString)
    requires Encodable(c) && |table| < TWO_32
    ensures FromBase64(Encode(table, c)) == Some([3] + EncodePayload(table, c))
    ensures DecodeBlob(table + more, [2] + EncodePayload(table, c)) == Ok(c)
    ensures DecodeBlob(table + more, [3] + EncodePayload(table, c)) == Ok(c)
  {
    hide DecodeV2, EncodePayload, FromBase64, ToBase64;
    var payload := EncodePayload(table, c);
    Base64Iff(Encode(table, c), [3] + payload);
    assert ([2] + payload)[1..] == payload && ([3] + payload)[1..] == payload;
    PayloadRoundTrip(table, more, c);
  }

  /** A build whose table is shorter knows the relay or names the index it lacks. */
  lemma ShorterTableReads(table: seq<bytes>, n: nat, c: ConnString)
    requires Encodable(c) && n <= |table| < TWO_32
    ensures DecodeV2(table[..n], EncodePayload(table, c))
            == match RelayOf(table, c.relayUrl)
               case Url(_) => Ok(c)
               case WellKnown(i) => if i < n then Ok(c) else Err(UnknownWellKnownRelay(i))
  {
    hide PayloadOf, ReadWire, ValidUtf8;
    var payload := EncodePayload(table, c);
    WireRoundTrip(c.pubkey, RelayOf(table, c.relayUrl), c.token, []);
    assert payload + [] == payload;
  }

  /** Octets behind the token, a relay of no known kind, and a relay that is empty either way are each refused. */
  lemma PayloadRefused(table: seq<bytes>, pubkey: id32, relay: Relay, token: Option<id16>, junk: bytes, tag: byte)
    requires relay.Url? ==> |relay.url| < TWO_32 && ValidUtf8(relay.url)
    requires relay.WellKnown? ==> relay.index < TWO_32
    ensures junk != [] ==> DecodeV2(table, PayloadOf(pubkey, relay, token) + junk) == Err(Malformed)
    ensures relay == Url([]) || (relay.WellKnown? && relay.index < |table| && table[relay.index] == []) ==>
              DecodeV2(table, PayloadOf(pubkey, relay, token)) == Err(EmptyRelayUrl)
    ensures 2 <= tag < 128 ==> DecodeV2(table, pubkey + ([tag] + junk)) == Err(Malformed)
  {
    WireRoundTrip(pubkey, relay, token, junk);
    WireRoundTrip(pubkey, relay, token, []);
    assert PayloadOf(pubkey, relay, token) + [] == PayloadOf(pubkey, relay, token);
    if 2 <= tag < 128 {
      TakeRoundTrip(pubkey, [tag] + junk);
      assert ReadU32([tag] + junk) == Some((tag as nat, junk));
    }
    hide PayloadOf, ReadU32, Take;
  }

  /** The payload spelled out: key, relay as `1` and its index or `0`, length and URL, then the optional token. */
  lemma PayloadLayout(table: seq<bytes>, c: ConnString)
    requires |c.relayUrl| < 128 && |table| < 128
    ensures EncodePayload(table, c)
            == c.pubkey
               + (match RelayOf(table, c.relayUrl)
                  case WellKnown(i) => [1, i]
                  case Url(url) => [0, |url|] + url)
               + (match c.token
                  case Some(token) => [1] + token
                  case None => [0])
  {
    match RelayOf(table, c.relayUrl)
    case WellKnown(i) =>
      assert PutVarint(1) + PutVarint(i) == [1, i];
    case Url(url) =>
      assert PutVarint(0) + PutBytes(url) == [0, |url|] + url;
  }

  /** An index means the same relay forever: North America east and west, Europe, Asia. */
  lemma RelaysInOrder(i: nat)
    requires i < 4
    ensures var url := WellKnownRelays()[i];
            |url| == 33 && url[..8] == Ascii("https://") && url[12..] == Ascii("-1.relay.n0.iroh.link")
    ensures var region := WellKnownRelays()[i][8..12];
            && (i == 0 ==> region == [0x75, 0x73, 0x65, 0x31])
            && (i == 1 ==> region == [0x75, 0x73, 0x77, 0x31])
            && (i == 2 ==> region == [0x65, 0x75, 0x63, 0x31])
            && (i == 3 ==> region == [0x61, 0x70, 0x73, 0x31])
  {
    match i {
      case 0 => RelayParts("use1");
      case 1 => RelayParts("usw1");
      case 2 => RelayParts("euc1");
      case _ => RelayParts("aps1");
    }
  }

  lemma RelayParts(region: string)
    requires |region| == 4 && forall i :: 0 <= i < 4 ==> region[i] < '\U{80}'
    ensures var url := RelayIn(region);
            && |url| == 33 && url[..8] == Ascii("https://") && url[12..] == Ascii("-1.relay.n0.iroh.link")
            && url[8..12] == Ascii(region)
  {
    var head, tail := "https://", "-1.relay.n0.iroh.link";
    var text := head + region + tail;
    assert text[..8] == head && text[8..12] == region && text[12..] == tail;
  }

  /** The old layout: key, flags, token if bit 0 of the flags is set, URL. Other flag bits mean nothing. */
  function LayoutV1(c: ConnString, flags: byte): bytes {
    c.pubkey + [flags] + (if c.token.Some? then c.token.value else []) + c.relayUrl
  }

  lemma V1RoundTrip(table: seq<bytes>, c: ConnString, flags: byte)
    requires c.relayUrl != [] && ValidUtf8(c.relayUrl) && (flags % 2 == 1 <==> c.token.Some?)
    ensures DecodeBlob(table, [1] + LayoutV1(c, flags)) == Ok(c)
  {
  }

  /** The old layout is read exactly: from nothing else does a connection come, and what is too short is called so. */
  lemma V1Iff(payload: bytes, c: ConnString)
    ensures DecodeV1(payload) == Ok(c) <==>
            exists flags: byte ::
              && payload == LayoutV1(c, flags) && (flags % 2 == 1 <==> c.token.Some?)
              && c.relayUrl != [] && ValidUtf8(c.relayUrl)
    ensures DecodeV1(payload) == Err(Truncated) <==>
            |payload| < 33 || (payload[32] % 2 == 1 && |payload| < 49)
  {
    if DecodeV1(payload) == Ok(c) {
      assert payload == LayoutV1(c, payload[32]);
    }
    forall flags: byte | payload == LayoutV1(c, flags) && (flags % 2 == 1 <==> c.token.Some?)
                         && c.relayUrl != [] && ValidUtf8(c.relayUrl)
      ensures DecodeV1(payload) == Ok(c)
    {
      V1RoundTrip([], c, flags);
      assert ([1] + payload)[1..] == payload;
    }
  }
}
