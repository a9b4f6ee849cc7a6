/** Host patterns of a known_hosts file, and what the file says about a key (hostkey/src/known.rs). */
module KnownHosts {
  import opened Bytes

  // ---- what a pattern means ----

  /** `p[i..]` matches `v[j..]`: `*` any run, `?` exactly one character, anything else itself. */
  predicate Matches(p: string, i: nat, v: string, j: nat)
    requires i <= |p| && j <= |v|
    decreases |p| - i + |v| - j
  {
    if i == |p| then j == |v|
    else if p[i] == '*' then Matches(p, i + 1, v, j) || (j < |v| && Matches(p, i, v, j + 1))
    else j < |v| && (p[i] == '?' || p[i] == v[j]) && Matches(p, i + 1, v, j + 1)
  }

  function LowerChar(c: char): char {
    if 'A' <= c <= 'Z' then c + 32 as char else c
  }

  /** `to_ascii_lowercase`. */
  function Lower(s: string): (r: string)
    ensures |r| == |s|
    ensures '*' in r <==> '*' in s
  {
    var r := seq(|s|, i requires 0 <= i < |s| => LowerChar(s[i]));
    assert forall i :: 0 <= i < |s| ==> (r[i] == '*' <==> s[i] == '*');
    r
  }

  // ---- the iterative matcher ----

  function SkipStars(p: string, i: nat): (k: nat)
    requires i <= |p|
    ensures i <= k <= |p|
    ensures forall n :: i <= n < k ==> p[n] == '*'
    ensures k < |p| ==> p[k] != '*'
    decreases |p| - i
  {
    if i < |p| && p[i] == '*' then SkipStars(p, i + 1) else i
  }

  /** Single-star backtracking, from any state of the loop. */
  predicate Backtrack(p: string, v: string, pi: nat, vi: nat, star: Option<nat>, starVi: nat)
    requires pi <= |p| && starVi <= vi <= |v|
    requires star.Some? ==> star.value < pi
    decreases |v| - starVi, |p| - pi
  {
    if vi < |v| then
      if pi < |p| && (p[pi] == '?' || p[pi] == v[vi]) then Backtrack(p, v, pi + 1, vi + 1, star, starVi)
      else if pi < |p| && p[pi] == '*' then Backtrack(p, v, pi + 1, vi, Some(pi), vi)
      else if star.Some? then Backtrack(p, v, star.value + 1, starVi + 1, star, starVi + 1)
      else false
    else SkipStars(p, pi) == |p|
  }

  predicate GlobMatch(pattern: string, value: string) {
    Backtrack(Lower(pattern), Lower(value), 0, 0, None, 0)
  }

  method Glob(pattern: string, value: string) returns (matched: bool)
    ensures matched == GlobMatch(pattern, value)
  {
    var p, v := Lower(pattern), Lower(value);
    var pi: nat, vi: nat := 0, 0;
    var star: Option<nat>, starVi: nat := None, 0;
    while vi < |v|
      invariant pi <= |p| && starVi <= vi <= |v|
      invariant star.Some? ==> star.value < pi
      invariant Backtrack(p, v, pi, vi, star, starVi) == GlobMatch(pattern, value)
      decreases |v| - starVi, |p| - pi
    {
      if pi < |p| && (p[pi] == '?' || p[pi] == v[vi]) {
        pi := pi + 1;
        vi := vi + 1;
      } else if pi < |p| && p[pi] == '*' {
        star := Some(pi);
        starVi := vi;
        pi := pi + 1;
      } else if star.Some? {
        pi := star.value + 1;
        starVi := starVi + 1;
        vi := starVi;
      } else {
        return false;
      }
    }
    ghost var tail := pi;
    while pi < |p| && p[pi] == '*'
      invariant tail <= pi <= |p| && SkipStars(p, pi) == SkipStars(p, tail)
    {
      pi := pi + 1;
    }
    return pi == |p|;
  }

  // ---- backtracking to the last star is enough ----

  /** A stretch of pattern without stars consumes exactly its own length. */
  lemma {:induction false} Stretch(p: string, i: nat, k: nat, v: string, j: nat)
    requires i <= k <= |p| && j <= |v| && (forall n :: i <= n < k ==> p[n] != '*')
    requires Matches(p, i, v, j)
    ensures j + (k - i) <= |v| && Matches(p, k, v, j + (k - i))
    decreases k - i
  {
    if i == k {
    } else {
      Stretch(p, i + 1, k, v, j + 1);
    }
  }

  /** A star may swallow less. */
  lemma {:induction false} StarSlides(p: string, s: nat, v: string, i: nat, j: nat)
    requires s < |p| && p[s] == '*' && i <= j <= |v| && Matches(p, s, v, j)
    ensures Matches(p, s, v, i)
    decreases j - i
  {
    if i == j {
    } else {
      StarSlides(p, s, v, i + 1, j);
    }
  }

  /** Where the star of a match stops. */
  lemma {:induction false} StarStops(p: string, s: nat, v: string, j: nat) returns (k: nat)
    requires s < |p| && p[s] == '*' && j <= |v| && Matches(p, s, v, j)
    ensures j <= k <= |v| && Matches(p, s + 1, v, k)
    decreases |v| - j
  {
    if Matches(p, s + 1, v, j) {
      k := j;
    } else {
      k := StarStops(p, s, v, j + 1);
    }
  }

  lemma {:induction false} OnlyStarsLeft(p: string, i: nat, v: string)
    requires i <= |p|
    ensures Matches(p, i, v, |v|) <==> SkipStars(p, i) == |p|
    decreases |p| - i
  {
    if i < |p| && p[i] == '*' {
      OnlyStarsLeft(p, i + 1, v);
    }
  }

  /** Letting the last star swallow more only ever reaches what the current position reaches too. */
  lemma LaterIsHere(p: string, v: string, pi: nat, vi: nat, s: nat, starVi: nat)
    requires s < pi <= |p| && starVi < |v| && vi <= |v| && p[s] == '*' && vi - starVi == pi - s - 1
    requires forall n :: s < n < pi ==> p[n] != '*'
    requires pi < |p| ==> p[pi] == '*'
    requires pi == |p| ==> vi == |v|
    requires Matches(p, s, v, starVi + 1)
    ensures pi < |p| && Matches(p, pi, v, vi)
  {
    var k := StarStops(p, s, v, starVi + 1);
    Stretch(p, s + 1, pi, v, k);
    if pi < |p| {
      StarSlides(p, pi, v, vi, k + (pi - s - 1));
    }
  }

  /** In any state of the loop on a value without stars: here, or with the last star swallowing more. */
  lemma {:induction false} BacktrackIsMatch(p: string, v: string, pi: nat, vi: nat, star: Option<nat>, starVi: nat)
    requires pi <= |p| && starVi <= vi <= |v| && '*' !in v
    requires match star
             case None => true
             case Some(s) =>
               && s < pi && p[s] == '*' && vi - starVi == pi - s - 1
               && forall n :: s < n < pi ==> p[n] != '*'
    ensures Backtrack(p, v, pi, vi, star, starVi) <==>
            Matches(p, pi, v, vi) || (star.Some? && starVi < |v| && Matches(p, star.value, v, starVi + 1))
    decreases |v| - starVi, |p| - pi
  {
    if vi < |v| {
      if pi < |p| && (p[pi] == '?' || p[pi] == v[vi]) {
        BacktrackIsMatch(p, v, pi + 1, vi + 1, star, starVi);
      } else if pi < |p| && p[pi] == '*' {
        BacktrackIsMatch(p, v, pi + 1, vi, Some(pi), vi);
        if star.Some? && Matches(p, star.value, v, starVi + 1) {
          LaterIsHere(p, v, pi, vi, star.value, starVi);
        }
      } else if star.Some? {
        BacktrackIsMatch(p, v, star.value + 1, starVi + 1, star, starVi + 1);
      }
    } else {
      OnlyStarsLeft(p, pi, v);
      if star.Some? && starVi < |v| && Matches(p, star.value, v, starVi + 1) {
        var k := StarStops(p, star.value, v, starVi + 1);
        Stretch(p, star.value + 1, pi, v, k);
      }
    }
  }

  ghost predicate GlobIsRight(pattern: string, value: string) {
    GlobMatch(pattern, value) <==> Matches(Lower(pattern), 0, Lower(value), 0)
  }

  /** A pattern the matcher gets wrong on a value with a star at `i`: it takes the pattern's star for that one. */
  function Undoing(i: nat, n: nat): (p: string)
    requires i <= n
    ensures |p| == n + 1
    ensures forall k :: 0 <= k <= n ==> p[k] == if k == i then '*' else '?'
  {
    seq(n + 1, k => if k == i then '*' else '?')
  }

  lemma {:induction false} UndoingMatches(i: nat, v: string, k: nat)
    requires i <= |v| && k <= |v|
    ensures k <= i ==> Matches(Undoing(i, |v|), k, v, k)
    ensures k >= i ==> Matches(Undoing(i, |v|), k + 1, v, k)
    decreases |v| - k
  {
    if k < |v| {
      UndoingMatches(i, v, k + 1);
    }
    if k == i && i < |v| {
      assert Matches(Undoing(i, |v|), k + 1, v, k);
    }
  }

  lemma {:induction false} UndoingFails(i: nat, v: string, k: nat)
    requires i < |v| && v[i] == '*' && k <= |v|
    ensures !Backtrack(Undoing(i, |v|), v, k, k, None, 0)
    decreases |v| - k
  {
    if k == |v| {
    } else {
      UndoingFails(i, v, k + 1);
    }
  }

  lemma LowerFixes(p: string)
    requires forall k :: 0 <= k < |p| ==> !('A' <= p[k] <= 'Z')
    ensures Lower(p) == p
  {
  }

  /**
   * The matcher agrees with the recursive meaning on every pattern exactly for the values that contain no `*`
   * themselves: the literal test comes before the star test.
   */
  lemma GlobIsRightIff(value: string)
    ensures (forall pattern :: GlobIsRight(pattern, value)) <==> '*' !in value
  {
    var v := Lower(value);
    if '*' !in value {
      forall pattern
        ensures GlobIsRight(pattern, value)
      {
        BacktrackIsMatch(Lower(pattern), v, 0, 0, None, 0);
      }
    } else {
      var i :| 0 <= i < |v| && v[i] == '*';
      var p := Undoing(i, |v|);
      LowerFixes(p);
      UndoingMatches(i, v, 0);
      UndoingFails(i, v, 0);
      assert !GlobIsRight(p, value);
    }
  }

  // ---- what the meaning is ----

  /** A star stands for any run of characters, a question mark for exactly one, and the empty pattern for nothing. */
  lemma WildcardsMean(p: string, i: nat, next: nat, v: string, j: nat)
    requires i < |p| && next == i + 1 && j <= |v|
    ensures p[i] == '*' ==> (Matches(p, i, v, j) <==> exists k :: j <= k <= |v| && Matches(p, next, v, k))
    ensures p[i] == '?' ==> (Matches(p, i, v, j) <==> j < |v| && Matches(p, next, v, j + 1))
    ensures Matches(p, |p|, v, j) <==> j == |v|
  {
    if p[i] == '*' {
      if Matches(p, i, v, j) {
        var k := StarStops(p, i, v, j);
        assert Matches(p, next, v, k);
      }
      if k :| j <= k <= |v| && Matches(p, next, v, k) {
        assert Matches(p, i, v, k);
        StarSlides(p, i, v, j, k);
        assert exists k :: j <= k <= |v| && Matches(p, next, v, k);
      }
    }
  }

  lemma LowerIffSameLetter(c: char, d: char)
    ensures LowerChar(c) == LowerChar(d) <==> c == d || SameLetter(c, d)
  {
  }

  lemma LowerSplice(a: string, c: char, d: char, b: string)
    requires SameLetter(c, d)
    ensures Lower(a + [c] + b) == Lower(a + [d] + b)
  {
    LowerIffSameLetter(c, d);
  }

  /** The case of no letter matters, in the pattern or in the value. */
  lemma CaseDoesNotMatter(a: string, c: char, d: char, b: string, other: string)
    requires SameLetter(c, d)
    ensures GlobMatch(a + [c] + b, other) == GlobMatch(a + [d] + b, other)
    ensures GlobMatch(other, a + [c] + b) == GlobMatch(other, a + [d] + b)
  {
    LowerSplice(a, c, d, b);
  }

  lemma {:induction false} PlainMatches(p: string, v: string, i: nat)
    requires '*' !in p && '?' !in p && i <= |p| && i <= |v|
    ensures Matches(p, i, v, i) <==> |p| == |v| && forall k :: i <= k < |p| ==> p[k] == v[k]
    decreases |p| - i
  {
    if i < |p| && i < |v| {
      PlainMatches(p, v, i + 1);
    }
  }

  /** A pattern without wildcards matches exactly itself, but for the case of its letters. */
  lemma PlainPattern(p: string, v: string)
    requires '*' !in p && '?' !in p && '*' !in v
    ensures GlobMatch(p, v) <==>
            |p| == |v| && forall k :: 0 <= k < |p| ==> p[k] == v[k] || SameLetter(p[k], v[k])
  {
    hide GlobMatch, Matches;
    GlobIsRightIff(v);
    assert GlobIsRight(p, v);
    assert '?' !in Lower(p);
    PlainMatches(Lower(p), Lower(v), 0);
    if |p| == |v| {
      forall k | 0 <= k < |p|
        ensures Lower(p)[k] == Lower(v)[k] <==> p[k] == v[k] || SameLetter(p[k], v[k])
      {
        LowerIffSameLetter(p[k], v[k]);
      }
    }
  }

  // ---- the key looked up ----

  function Decimal(n: nat): (s: string)
    ensures s != [] && forall i :: 0 <= i < |s| ==> '0' <= s[i] <= '9'
  {
    var digit := '0' + (n % 10) as char;
    if n < 10 then [digit] else Decimal(n / 10) + [digit]
  }

  /** Characters `IpAddr`'s text is made of. */
  predicate AddressChar(c: char) {
    '0' <= c <= '9' || 'a' <= c <= 'f' || c == ':' || c == '.'
  }

  lemma AddressChars(c: char)
    ensures AddressChar(c) <==> c in "0123456789abcdef:."
  {
  }

  type host = s: string | forall i :: 0 <= i < |s| ==> AddressChar(s[i]) witness []

  const SSH_PORT: nat := 22

  function HostLookupKey(h: host, port: nat): string {
    if port == SSH_PORT then h else "[" + h + "]:" + Decimal(port)
  }

  lemma {:induction false} DecimalInjective(a: nat, b: nat)
    requires Decimal(a) == Decimal(b)
    ensures a == b
  {
    var s, t := Decimal(a), Decimal(b);
    assert s[|s| - 1] == t[|t| - 1];
    if a >= 10 && b >= 10 {
      assert s[..|s| - 1] == Decimal(a / 10) && t[..|t| - 1] == Decimal(b / 10);
      DecimalInjective(a / 10, b / 10);
    } else {
      assert |s| == 1 <==> a < 10;
      assert |t| == 1 <==> b < 10;
    }
  }

  lemma BracketAt(h: host, port: nat)
    requires port != SSH_PORT
    ensures var k := HostLookupKey(h, port);
            && k[0] == '[' && |k| > |h| + 3 && k[1..|h| + 1] == h && k[|h| + 1] == ']' && k[|h| + 3..] == Decimal(port)
            && forall i :: 0 <= i < |h| + 1 ==> k[i] != ']'
  {
  }

  function Numerals(s: string): (d: seq<nat>)
    requires forall i :: 0 <= i < |s| ==> '0' <= s[i] <= '9'
    ensures |d| == |s|
  {
    seq(|s|, i requires 0 <= i < |s| => (s[i] - '0') as nat)
  }

  /** The port's digits are the port, without leading zeros. */
  lemma {:induction false} DecimalReadsBack(n: nat)
    ensures FromDigits(10, Numerals(Decimal(n))) == n
    ensures Decimal(n)[0] == '0' ==> n == 0
  {
    var s := Decimal(n);
    if n < 10 {
      assert Numerals(s) == [] + [n];
      FromSnoc(10, [], n);
    } else {
      DecimalReadsBack(n / 10);
      assert Numerals(s) == Numerals(Decimal(n / 10)) + [n % 10];
      FromSnoc(10, Numerals(Decimal(n / 10)), n % 10);
    }
  }

  /** The default port is left out, any other is written behind the bracketed host. */
  lemma KeyIs(h: host, port: nat)
    ensures HostLookupKey(h, 22) == h
    ensures port != 22 ==> HostLookupKey(h, port) == "[" + h + "]:" + Decimal(port)
    ensures HostLookupKey(h, 2222) == "[" + h + "]:2222"
  {
    assert Decimal(2) == "2";
    assert Decimal(22) == "22";
    assert Decimal(222) == "222";
    assert Decimal(2222) == "2222";
  }

  /** No two addresses share a key, and the matcher is right on every key. */
  lemma LookupKeysAreDistinct(h: host, port: nat, g: host, other: nat)
    ensures HostLookupKey(h, port) == HostLookupKey(g, other) ==> h == g && port == other
    ensures forall pattern :: GlobIsRight(pattern, HostLookupKey(h, port))
  {
    var k, l := HostLookupKey(h, port), HostLookupKey(g, other);
    assert '*' !in k;
    GlobIsRightIff(k);
    if k == l {
      if port != SSH_PORT {
        BracketAt(h, port);
      }
      if other != SSH_PORT {
        BracketAt(g, other);
      }
      if port != SSH_PORT && other != SSH_PORT {
        assert |h| == |g| by {
          assert k[|h| + 1] == ']' && k[|g| + 1] == ']';
        }
        DecimalInjective(port, other);
      }
    }
  }

  // ---- one entry's host field ----

  /** A hashed name either reproduces under its salt or does not; which is not decided here. */
  datatype HostPatterns = Patterns(list: seq<string>) | HashedName(salt: bytes, hash: bytes)

  type Mac = (bytes, bytes, string) -> bool

  predicate Negates(pattern: string) {
    pattern != [] && pattern[0] == '!'
  }

  /** Covered: some plain pattern matches and no negated one does. */
  predicate Covers(patterns: HostPatterns, key: string, mac: Mac) {
    match patterns
    case Patterns(list) =>
      && (exists i :: 0 <= i < |list| && !Negates(list[i]) && GlobMatch(list[i], key))
      && (forall i :: 0 <= i < |list| && Negates(list[i]) ==> !GlobMatch(list[i][1..], key))
    case HashedName(salt, hash) => mac(salt, hash, key)
  }

  method PatternsMatch(patterns: HostPatterns, key: string, mac: Mac) returns (covered: bool)
    ensures covered == Covers(patterns, key, mac)
  {
    match patterns {
      case HashedName(salt, hash) =>
        return mac(salt, hash, key);
      case Patterns(list) =>
        var positive, i := false, 0;
        while i < |list|
          invariant i <= |list|
          invariant positive <==> exists n :: 0 <= n < i && !Negates(list[n]) && GlobMatch(list[n], key)
          invariant forall n :: 0 <= n < i && Negates(list[n]) ==> !GlobMatch(list[n][1..], key)
        {
          if Negates(list[i]) {
            var hit := Glob(list[i][1..], key);
            if hit {
              return false;
            }
          } else {
            var hit := Glob(list[i], key);
            if hit {
              positive := true;
            }
          }
          i := i + 1;
        }
        return positive;
    }
  }

  /** On the keys the program looks up, an entry covers a host by the meaning of its patterns. */
  lemma CoversByMeaning(list: seq<string>, h: host, port: nat, mac: Mac)
    ensures var key := HostLookupKey(h, port);
            Covers(Patterns(list), key, mac) <==>
            && (exists i :: 0 <= i < |list| && !("!" <= list[i]) && Matches(Lower(list[i]), 0, Lower(key), 0))
            && (forall i :: 0 <= i < |list| && "!" <= list[i] ==> !Matches(Lower(list[i][1..]), 0, Lower(key), 0))
  {
    hide GlobMatch, Matches, HostLookupKey, Lower;
    LookupKeysAreDistinct(h, port, h, port);
    var key := HostLookupKey(h, port);
    assert forall i :: 0 <= i < |list| ==> GlobIsRight(list[i], key);
    assert forall i :: 0 <= i < |list| && Negates(list[i]) ==> GlobIsRight(list[i][1..], key);
  }

  // ---- the whole file ----

  datatype Marker = CertAuthority | RevokedKey

  datatype Entry = Entry(patterns: HostPatterns, marker: Option<Marker>, fingerprint: string)

  datatype Verdict = Match | Revoked | Mismatch(known: seq<string>) | Unknown

  /** An entry for this host that counts as a key it may present. */
  ghost predicate Lists(e: Entry, key: string, mac: Mac) {
    Covers(e.patterns, key, mac) && e.marker.None?
  }

  /** An entry that settles the lookup of `want`. */
  ghost predicate Settles(e: Entry, key: string, mac: Mac, want: string) {
    Covers(e.patterns, key, mac) && e.marker != Some(CertAuthority) && e.fingerprint == want
  }

  ghost function KnownKeys(entries: seq<Entry>, key: string, mac: Mac): seq<string> {
    if entries == [] then []
    else
      var last := entries[|entries| - 1];
      var before := KnownKeys(entries[..|entries| - 1], key, mac);
      if Lists(last, key, mac) then before + [last.fingerprint] else before
  }

  lemma NoneKnown(key: string, mac: Mac)
    ensures KnownKeys([], key, mac) == []
  {
  }

  lemma KnownNext(entries: seq<Entry>, i: nat, key: string, mac: Mac)
    requires i < |entries|
    ensures var before := KnownKeys(entries[..i], key, mac);
            KnownKeys(entries[..i + 1], key, mac)
            == if Lists(entries[i], key, mac) then before + [entries[i].fingerprint] else before
  {
    assert entries[..i + 1][..i] == entries[..i];
  }

  /** What the file says about the key `want` presented under `key`, given the host's keys listed so far. */
  function VerdictFrom(entries: seq<Entry>, key: string, want: string, mac: Mac, known: seq<string>): Verdict {
    if entries == [] then if known == [] then Unknown else Mismatch(known)
    else
      var e, rest := entries[0], entries[1..];
      if !Covers(e.patterns, key, mac) || e.marker == Some(CertAuthority) then VerdictFrom(rest, key, want, mac, known)
      else if e.marker == Some(RevokedKey) then
        if e.fingerprint == want then Revoked else VerdictFrom(rest, key, want, mac, known)
      else if e.fingerprint == want then Match
      else VerdictFrom(rest, key, want, mac, known + [e.fingerprint])
  }

  /** A line about another host, a certificate authority's or the revocation of another key. */
  ghost predicate Idle(e: Entry, key: string, want: string, mac: Mac) {
    || !Covers(e.patterns, key, mac)
    || e.marker == Some(CertAuthority)
    || (e.marker == Some(RevokedKey) && e.fingerprint != want)
  }

  /** Such a line changes nothing, wherever it stands. */
  lemma {:induction false} IdleLinesDoNotMatter(a: seq<Entry>, e: Entry, b: seq<Entry>, key: string, want: string,
                                                mac: Mac, known: seq<string>)
    requires Idle(e, key, want, mac)
    ensures VerdictFrom(a + [e] + b, key, want, mac, known) == VerdictFrom(a + b, key, want, mac, known)
    decreases |a|
  {
    if a == [] {
      assert a + [e] + b == [e] + b && a + b == b;
      assert ([e] + b)[1..] == b;
    } else {
      assert (a + [e] + b)[1..] == a[1..] + [e] + b && (a + b)[1..] == a[1..] + b;
      IdleLinesDoNotMatter(a[1..], e, b, key, want, mac, known);
      IdleLinesDoNotMatter(a[1..], e, b, key, want, mac, known + [a[0].fingerprint]);
    }
  }

  /** The first line of this host that lists or revokes the key presented decides; what follows it does not matter. */
  lemma {:induction false} FirstLineDecides(a: seq<Entry>, e: Entry, b: seq<Entry>, key: string, want: string, mac: Mac,
                                            known: seq<string>)
    requires Covers(e.patterns, key, mac) && e.marker != Some(CertAuthority) && e.fingerprint == want
    requires VerdictFrom(a, key, want, mac, known).Mismatch? || VerdictFrom(a, key, want, mac, known).Unknown?
    ensures VerdictFrom(a + [e] + b, key, want, mac, known) == if e.marker.None? then Match else Revoked
    decreases |a|
  {
    if a == [] {
      assert (a + [e] + b)[0] == e;
      assert e.marker.None? || e.marker.value == RevokedKey;
    } else {
      assert (a + [e] + b)[1..] == a[1..] + [e] + b;
      var more := if Idle(a[0], key, want, mac) then known else known + [a[0].fingerprint];
      FirstLineDecides(a[1..], e, b, key, want, mac, more);
    }
  }

  lemma {:induction false} KnownFirst(entries: seq<Entry>, key: string, mac: Mac)
    requires entries != []
    ensures KnownKeys(entries, key, mac)
            == (if Lists(entries[0], key, mac) then [entries[0].fingerprint] else [])
               + KnownKeys(entries[1..], key, mac)
  {
    hide Lists;
    var n := |entries| - 1;
    if n > 0 {
      assert entries[..n][1..] == entries[1..][..n - 1];
      KnownFirst(entries[..n], key, mac);
    }
  }

  lemma UnsettledLine(entries: seq<Entry>, key: string, want: string, mac: Mac, known: seq<string>)
    requires entries != [] && !Settles(entries[0], key, mac, want)
    ensures VerdictFrom(entries, key, want, mac, known)
            == VerdictFrom(entries[1..], key, want, mac,
                           if Lists(entries[0], key, mac) then known + [entries[0].fingerprint] else known)
  {
    var e := entries[0];
    assert e.marker.None? || e.marker.value == CertAuthority || e.marker.value == RevokedKey;
  }

  /** Where no line decides, the host is unknown exactly if no key of it is listed, and else its keys are reported. */
  lemma {:induction false} OtherwiseListed(entries: seq<Entry>, key: string, want: string, mac: Mac, known: seq<string>)
    requires forall i :: 0 <= i < |entries| ==> !Settles(entries[i], key, mac, want)
    ensures var all := known + KnownKeys(entries, key, mac);
            VerdictFrom(entries, key, want, mac, known) == if all == [] then Unknown else Mismatch(all)
    decreases |entries|
  {
    if entries == [] {
      assert known + [] == known;
    } else {
      hide VerdictFrom, KnownKeys, Settles, Lists;
      var e, rest := entries[0], KnownKeys(entries[1..], key, mac);
      var listed := if Lists(e, key, mac) then [e.fingerprint] else [];
      KnownFirst(entries, key, mac);
      UnsettledLine(entries, key, want, mac, known);
      OtherwiseListed(entries[1..], key, want, mac, known + listed);
      assert known + (listed + rest) == known + listed + rest && known + [] == known;
    }
  }

  lemma LinesFrom(entries: seq<Entry>, i: nat)
    requires i < |entries|
    ensures entries[i..][0] == entries[i] && entries[i..][1..] == entries[i + 1..]
  {
  }

  /** The first settling entry decides, revoked or not; without one the host's other keys are reported. */
  method Lookup(entries: seq<Entry>, key: string, want: string, mac: Mac) returns (verdict: Verdict)
    ensures verdict.Match? || verdict.Revoked? <==>
            exists i :: 0 <= i < |entries| && Settles(entries[i], key, mac, want)
    ensures forall i :: 0 <= i < |entries| && Settles(entries[i], key, mac, want)
                        && (forall n :: 0 <= n < i ==> !Settles(entries[n], key, mac, want))
              ==> verdict == if entries[i].marker.None? then Match else Revoked
    ensures verdict.Mismatch? ==> verdict.known == KnownKeys(entries, key, mac) != []
    ensures verdict.Unknown? ==> KnownKeys(entries, key, mac) == []
    ensures verdict == VerdictFrom(entries, key, want, mac, [])
  {
    hide Covers, KnownKeys;
    var known, hostSeen, i := [], false, 0;
    assert KnownKeys(entries[..0], key, mac) == [] by {
      NoneKnown(key, mac);
    }
    while i < |entries|
      invariant i <= |entries|
      invariant forall n :: 0 <= n < i ==> !Settles(entries[n], key, mac, want)
      invariant known == KnownKeys(entries[..i], key, mac)
      invariant hostSeen <==> known != []
      invariant VerdictFrom(entries[i..], key, want, mac, known) == VerdictFrom(entries, key, want, mac, [])
    {
      var e := entries[i];
      LinesFrom(entries, i);
      KnownNext(entries, i, key, mac);
      i := i + 1;
      var covered := PatternsMatch(e.patterns, key, mac);
      if !covered {
        continue;
      }
      match e.marker {
        case Some(CertAuthority) =>
          continue;
        case Some(RevokedKey) =>
          if e.fingerprint == want {
            return Revoked;
          }
          continue;
        case None =>
      }
      hostSeen := true;
      if e.fingerprint == want {
        return Match;
      }
      known := known + [e.fingerprint];
    }
    assert entries[..i] == entries && entries[i..] == [];
    return if hostSeen then Mismatch(known) else Unknown;
  }
}
