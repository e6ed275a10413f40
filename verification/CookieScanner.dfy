/**
 The one-pass cookie scanner (scripts/golden_task_assertions.py, _contains_credential_cookie) against
 the backtracking pattern it replaces:

   \bcookie\s*:\s*.*\b(sessionid|access_token|refresh_token)\s*=      (ignoring case)

 Unicode's tables stay parameters: which characters are whitespace, which are word characters, and
 which match a pattern letter when case is ignored.
 */
module CookieScanner {

  datatype Tables = Tables(isSpace: char -> bool, isWord: char -> bool, same: (char, char) -> bool)

  const COOKIE := "cookie"
  const SESSION_ID := "sessionid"
  const ACCESS_TOKEN := "access_token"
  const REFRESH_TOKEN := "refresh_token"

  /** What the argument needs of Unicode: letters are word characters, whitespace and ':' are not. */
  ghost predicate Sane(t: Tables) {
    && t.isSpace('\n') && !t.isSpace('=') && !t.isSpace(':') && !t.isWord(':')
    && (forall c :: t.isSpace(c) ==> !t.isWord(c))
    && (forall p, c :: p in COOKIE + SESSION_ID + ACCESS_TOKEN + REFRESH_TOKEN && t.same(p, c) ==> t.isWord(c))
    && (forall c :: !(t.same('s', c) && t.same('a', c)) && !(t.same('s', c) && t.same('r', c))
                    && !(t.same('a', c) && t.same('r', c)))
  }

  predicate IsAsciiWord(c: char) {
    'a' <= c <= 'z' || 'A' <= c <= 'Z' || '0' <= c <= '9' || c == '_'
  }

  const ASCII := Tables(
    c => c in " \t\n\r",
    IsAsciiWord,
    (p, c) => (c == p || (c < p && p as int - c as int == 32)) && IsAsciiWord(p) && IsAsciiWord(c))

  /** The ASCII tables qualify. */
  lemma AsciiIsSane()
    ensures Sane(ASCII)
  {
  }

  // ---------------------------------------------------------------- pattern pieces

  predicate WordAt(t: Tables, v: string, i: int) {
    0 <= i < |v| && t.isWord(v[i])
  }

  /** `\b` */
  predicate Boundary(t: Tables, v: string, i: nat) {
    WordAt(t, v, i - 1) != WordAt(t, v, i)
  }

  predicate Literal(t: Tables, v: string, i: nat, lit: string) {
    i + |lit| <= |v| && forall k :: 0 <= k < |lit| ==> t.same(lit[k], v[i + k])
  }

  predicate AllSpace(t: Tables, v: string, lo: nat, hi: nat) {
    lo <= hi <= |v| && forall k :: lo <= k < hi ==> t.isSpace(v[k])
  }

  predicate NoNewline(v: string, lo: nat, hi: nat) {
    lo <= hi <= |v| && forall k :: lo <= k < hi ==> v[k] != '\n'
  }

  /** `\b(sessionid|access_token|refresh_token)` matches v[q..m]. */
  predicate NameMatch(t: Tables, v: string, q: nat, m: nat) {
    && Boundary(t, v, q)
    && (|| (m == q + |SESSION_ID| && Literal(t, v, q, SESSION_ID))
        || (m == q + |ACCESS_TOKEN| && Literal(t, v, q, ACCESS_TOKEN))
        || (m == q + |REFRESH_TOKEN| && Literal(t, v, q, REFRESH_TOKEN)))
  }

  /** `\bcookie\s*:` matches v[p..e]. */
  predicate HeaderMatch(t: Tables, v: string, p: nat, e: nat) {
    && Boundary(t, v, p) && Literal(t, v, p, COOKIE)
    && p + |COOKIE| < e <= |v| && AllSpace(t, v, p + |COOKIE|, e - 1) && v[e - 1] == ':'
  }

  /** A credential name starts at `q` and is followed by optional whitespace and '='. */
  ghost predicate CredentialAt(t: Tables, v: string, q: nat) {
    exists m: nat, r: nat :: NameMatch(t, v, q, m) && m <= r < |v| && AllSpace(t, v, m, r) && v[r] == '='
  }

  ghost predicate HeaderEndsAt(t: Tables, v: string, e: nat) {
    exists p :: HeaderMatch(t, v, p, e)
  }

  /** The legacy pattern: header end `e`, whitespace to `c`, a newline-free stretch to the credential `q`. */
  ghost predicate LegacyMatch(t: Tables, v: string, e: nat, c: nat, q: nat) {
    HeaderEndsAt(t, v, e) && AllSpace(t, v, e, c) && NoNewline(v, c, q) && CredentialAt(t, v, q)
  }

  ghost predicate Legacy(t: Tables, v: string) {
    exists e, c, q :: LegacyMatch(t, v, e, c, q)
  }

  // ---------------------------------------------------------------- greedy pieces

  function Skip(t: Tables, v: string, i: nat): (r: nat)
    requires i <= |v|
    ensures i <= r <= |v| && AllSpace(t, v, i, r)
    ensures r < |v| ==> !t.isSpace(v[r])
    decreases |v| - i
  {
    if i < |v| && t.isSpace(v[i]) then Skip(t, v, i + 1) else i
  }

  method SkipSpace(t: Tables, v: string, i: nat) returns (r: nat)
    requires i <= |v|
    ensures r == Skip(t, v, i)
  {
    r := i;
    while r < |v| && t.isSpace(v[r])
      invariant i <= r <= |v| && Skip(t, v, r) == Skip(t, v, i)
    {
      r := r + 1;
    }
  }

  function LineEnd(v: string, i: nat): (r: nat)
    requires i <= |v|
    ensures i <= r <= |v| && NoNewline(v, i, r) && (r < |v| ==> v[r] == '\n')
    decreases |v| - i
  {
    if i < |v| && v[i] != '\n' then LineEnd(v, i + 1) else i
  }

  /** Skipping greedily from a header never jumps over a credential start. */
  lemma SkipStops(t: Tables, v: string, e: nat, q: nat)
    requires e <= q < |v| && !t.isSpace(v[q])
    ensures Skip(t, v, e) <= q
  {
  }

  lemma SkipMonotone(t: Tables, v: string, i: nat, j: nat)
    requires i <= j <= |v|
    ensures Skip(t, v, i) <= Skip(t, v, j)
  {
    if Skip(t, v, j) < |v| { SkipStops(t, v, i, Skip(t, v, j)); }
  }

  lemma SameLine(v: string, i: nat, j: nat)
    requires i <= j < |v| && j <= LineEnd(v, i) && v[j] != '\n'
    ensures LineEnd(v, j) == LineEnd(v, i)
  {
  }

  // ---------------------------------------------------------------- matches never overlap

  lemma LiteralIsWord(t: Tables, v: string, i: nat, lit: string, k: nat)
    requires Sane(t) && Literal(t, v, i, lit) && k < |lit|
    requires lit in {COOKIE, SESSION_ID, ACCESS_TOKEN, REFRESH_TOKEN}
    ensures t.isWord(v[i + k])
  {
    assert lit[k] in COOKIE + SESSION_ID + ACCESS_TOKEN + REFRESH_TOKEN by {
      assert lit[k] in lit;
    }
    assert t.same(lit[k], v[i + k]);
  }

  lemma NameIsWord(t: Tables, v: string, q: nat, m: nat, k: nat)
    requires Sane(t) && NameMatch(t, v, q, m) && q <= k < m
    ensures m <= |v| && t.isWord(v[k])
  {
    if m == q + |SESSION_ID| && Literal(t, v, q, SESSION_ID) {
      LiteralIsWord(t, v, q, SESSION_ID, k - q);
    } else if m == q + |ACCESS_TOKEN| && Literal(t, v, q, ACCESS_TOKEN) {
      LiteralIsWord(t, v, q, ACCESS_TOKEN, k - q);
    } else {
      LiteralIsWord(t, v, q, REFRESH_TOKEN, k - q);
    }
  }

  /** Resuming after a name loses no other name. */
  lemma NamesApart(t: Tables, v: string, q: nat, m: nat, q': nat, m': nat)
    requires Sane(t) && NameMatch(t, v, q, m) && NameMatch(t, v, q', m') && q < q'
    ensures m <= q'
  {
    if q' < m {
      NameIsWord(t, v, q, m, q' - 1);
      NameIsWord(t, v, q, m, q');
    }
  }

  lemma NameEndUnique(t: Tables, v: string, q: nat, m: nat, m': nat)
    requires Sane(t) && NameMatch(t, v, q, m) && NameMatch(t, v, q, m')
    ensures m == m'
  {
    assert forall lit :: lit != "" && Literal(t, v, q, lit) ==> t.same(lit[0], v[q]);
    assert SESSION_ID[0] == 's' && ACCESS_TOKEN[0] == 'a' && REFRESH_TOKEN[0] == 'r';
  }

  lemma HeaderIsWord(t: Tables, v: string, p: nat, e: nat)
    requires Sane(t) && HeaderMatch(t, v, p, e)
    ensures forall k :: p <= k < p + |COOKIE| ==> t.isWord(v[k])
  {
    forall k | p <= k < p + |COOKIE| ensures t.isWord(v[k]) {
      LiteralIsWord(t, v, p, COOKIE, k - p);
    }
  }

  lemma HeadersApart(t: Tables, v: string, p: nat, e: nat, p': nat, e': nat)
    requires Sane(t) && HeaderMatch(t, v, p, e) && HeaderMatch(t, v, p', e') && p < p'
    ensures e <= p'
  {
    HeaderIsWord(t, v, p, e);
    HeaderIsWord(t, v, p', e');
    assert WordAt(t, v, p') && !WordAt(t, v, p' - 1);
    if p' < p + |COOKIE| {
      assert false;
    }
  }

  lemma HeaderEnd(t: Tables, v: string, p: nat, e: nat)
    requires Sane(t) && HeaderMatch(t, v, p, e)
    ensures Skip(t, v, p + |COOKIE|) == e - 1
  {
  }

  // ---------------------------------------------------------------- the two finditer loops

  ghost predicate Increasing(s: seq<nat>) {
    forall i, j :: 0 <= i < j < |s| ==> s[i] < s[j]
  }

  method NameEnd(t: Tables, v: string, q: nat) returns (m: nat)
    requires Sane(t) && q <= |v|
    ensures m == 0 ==> forall k: nat :: !NameMatch(t, v, q, k)
    ensures m != 0 ==> q < m <= |v| && NameMatch(t, v, q, m)
  {
    if !Boundary(t, v, q) { return 0; }
    if Literal(t, v, q, SESSION_ID) { return q + |SESSION_ID|; }
    if Literal(t, v, q, ACCESS_TOKEN) { return q + |ACCESS_TOKEN|; }
    if Literal(t, v, q, REFRESH_TOKEN) { return q + |REFRESH_TOKEN|; }
    return 0;
  }

  method FindCredentials(t: Tables, v: string) returns (positions: seq<nat>)
    requires Sane(t)
    ensures Increasing(positions)
    ensures forall i :: 0 <= i < |positions| ==> positions[i] < |v|
    ensures forall q :: q in positions <==> CredentialAt(t, v, q)
  {
    positions := [];
    var i := 0;
    while i <= |v|
      invariant 0 <= i <= |v| + 1
      invariant Increasing(positions)
      invariant forall k :: 0 <= k < |positions| ==> positions[k] < i && positions[k] < |v|
      invariant forall q: nat :: q < i ==> (q in positions <==> CredentialAt(t, v, q))
      decreases |v| + 1 - i
    {
      var m := NameEnd(t, v, i);
      if m == 0 {
        i := i + 1;
        continue;
      }
      var equals := SkipSpace(t, v, m);
      CredentialDecided(t, v, i, m);
      forall q | i < q < m ensures !CredentialAt(t, v, q) {
        if CredentialAt(t, v, q) {
          var m': nat :| NameMatch(t, v, q, m');
          NamesApart(t, v, i, m, q, m');
        }
      }
      if equals < |v| && v[equals] == '=' {
        positions := positions + [i];
      }
      i := m;
    }
    forall q | q > |v| ensures !CredentialAt(t, v, q) {
    }
  }

  lemma CredentialDecided(t: Tables, v: string, q: nat, m: nat)
    requires Sane(t) && NameMatch(t, v, q, m) && m <= |v|
    ensures CredentialAt(t, v, q) <==> Skip(t, v, m) < |v| && v[Skip(t, v, m)] == '='
  {
    if CredentialAt(t, v, q) {
      var m': nat, r: nat :| NameMatch(t, v, q, m') && m' <= r < |v| && AllSpace(t, v, m', r) && v[r] == '=';
      NameEndUnique(t, v, q, m, m');
    }
  }

  /** The end of the header that starts at `i`, or 0. */
  method HeaderAt(t: Tables, v: string, i: nat) returns (e: nat)
    requires Sane(t) && i <= |v|
    ensures if e == 0 then forall e': nat :: !HeaderMatch(t, v, i, e') else i < e <= |v| && HeaderMatch(t, v, i, e)
  {
    e := 0;
    if Boundary(t, v, i) && Literal(t, v, i, COOKIE) {
      var colon := SkipSpace(t, v, i + |COOKIE|);
      if colon < |v| && v[colon] == ':' { return colon + 1; }
    }
    forall e': nat | HeaderMatch(t, v, i, e') ensures Skip(t, v, i + |COOKIE|) == e' - 1 { HeaderEnd(t, v, i, e'); }
  }

  /** A header is the only one that starts before its end. */
  lemma OneHeader(t: Tables, v: string, i: nat, e: nat)
    requires Sane(t) && HeaderMatch(t, v, i, e)
    ensures forall p: nat, e': nat :: i <= p < e && HeaderMatch(t, v, p, e') ==> e' == e
  {
    HeaderEnd(t, v, i, e);
    forall p: nat, e': nat | i <= p < e && HeaderMatch(t, v, p, e') ensures e' == e {
      if p == i { HeaderEnd(t, v, i, e'); } else { HeadersApart(t, v, i, e, p, e'); }
    }
  }

  method FindHeaderEnds(t: Tables, v: string) returns (ends: seq<nat>)
    requires Sane(t)
    ensures Increasing(ends)
    ensures forall k :: 0 <= k < |ends| ==> ends[k] <= |v|
    ensures forall e :: e in ends <==> HeaderEndsAt(t, v, e)
  {
    ends := [];
    var i := 0;
    while i <= |v|
      invariant 0 <= i <= |v| + 1
      invariant Increasing(ends) && forall k :: 0 <= k < |ends| ==> ends[k] <= i && ends[k] <= |v|
      invariant forall e :: e in ends ==> HeaderEndsAt(t, v, e)
      invariant forall p: nat, e: nat :: p < i && HeaderMatch(t, v, p, e) ==> e in ends
      decreases |v| + 1 - i
    {
      var e := HeaderAt(t, v, i);
      if e == 0 {
        i := i + 1;
        continue;
      }
      OneHeader(t, v, i, e);
      ends := ends + [e];
      i := e;
    }
    forall p, e | HeaderMatch(t, v, p, e) ensures e in ends {
    }
  }

  // ---------------------------------------------------------------- the scan

  /** No credential sits on the content line that header `e` opens. */
  ghost predicate Misses(t: Tables, v: string, positions: seq<nat>, e: nat) {
    e <= |v| &&
    var start := Skip(t, v, e);
    forall q :: q in positions ==> q < start || q >= LineEnd(v, start)
  }

  /** A header and a credential match the legacy pattern exactly when the credential is on that line. */
  lemma LegacyIsSameLine(t: Tables, v: string, e: nat, q: nat)
    requires Sane(t) && HeaderEndsAt(t, v, e) && CredentialAt(t, v, q)
    ensures e <= |v| && q < |v|
    ensures (exists c: nat :: LegacyMatch(t, v, e, c, q)) <==> Skip(t, v, e) <= q < LineEnd(v, Skip(t, v, e))
  {
    var m :| NameMatch(t, v, q, m);
    NameIsWord(t, v, q, m, q);
    var start := Skip(t, v, e);
    if c: nat :| LegacyMatch(t, v, e, c, q) {
      SkipStops(t, v, e, q);
      assert c <= start && v[q] != '\n';
    }
    if start <= q < LineEnd(v, start) {
      assert LegacyMatch(t, v, e, start, q);
    }
  }

  lemma MissesAll(t: Tables, v: string, positions: seq<nat>, ends: seq<nat>)
    requires Sane(t)
    requires forall q :: q in positions <==> CredentialAt(t, v, q)
    requires forall e :: e in ends <==> HeaderEndsAt(t, v, e)
    requires forall k :: 0 <= k < |ends| ==> Misses(t, v, positions, ends[k])
    ensures !Legacy(t, v)
  {
    if e: nat, c: nat, q: nat :| LegacyMatch(t, v, e, c, q) {
      assert e in ends && q in positions;
      LegacyIsSameLine(t, v, e, q);
    }
  }

  /** With every credential behind the next content start, no later header can match. */
  lemma LaterMiss(t: Tables, v: string, positions: seq<nat>, ends: seq<nat>, h: nat)
    requires Increasing(ends) && h < |ends| && forall k :: 0 <= k < |ends| ==> ends[k] <= |v|
    requires forall i :: 0 <= i < |positions| ==> positions[i] < Skip(t, v, ends[h])
    ensures forall k :: h <= k < |ends| ==> Misses(t, v, positions, ends[k])
  {
    forall k | h <= k < |ends| ensures Misses(t, v, positions, ends[k]) {
      assert ends[h] <= ends[k];
      SkipMonotone(t, v, ends[h], ends[k]);
    }
  }

  method Advance(positions: seq<nat>, from: nat, start: nat) returns (next: nat)
    requires from <= |positions| && forall i :: 0 <= i < from ==> positions[i] < start
    ensures from <= next <= |positions| && forall i :: 0 <= i < next ==> positions[i] < start
    ensures next < |positions| ==> start <= positions[next]
  {
    next := from;
    while next < |positions| && positions[next] < start
      invariant from <= next <= |positions| && forall i :: 0 <= i < next ==> positions[i] < start
    {
      next := next + 1;
    }
  }

  lemma MissesHere(t: Tables, v: string, positions: seq<nat>, e: nat, next: nat)
    requires e <= |v| && Increasing(positions) && next < |positions|
    requires forall i :: 0 <= i < next ==> positions[i] < Skip(t, v, e)
    requires LineEnd(v, Skip(t, v, e)) <= positions[next]
    ensures Misses(t, v, positions, e)
  {
    forall q | q in positions ensures q < Skip(t, v, e) || q >= LineEnd(v, Skip(t, v, e)) {
      var i :| 0 <= i < |positions| && positions[i] == q;
    }
  }

  lemma MissesAtEnd(t: Tables, v: string, positions: seq<nat>, e: nat)
    requires e <= |v| && Skip(t, v, e) == |v|
    requires forall i :: 0 <= i < |positions| ==> positions[i] < |v|
    ensures Misses(t, v, positions, e)
  {
  }

  lemma Hits(t: Tables, v: string, positions: seq<nat>, e: nat, i: nat)
    requires e <= |v| && i < |positions| && Skip(t, v, e) <= positions[i] < LineEnd(v, Skip(t, v, e))
    ensures !Misses(t, v, positions, e)
  {
    assert positions[i] in positions;
  }

  /**
   The shared cursor: every credential before it lies before the last content start, and the cached
   line end is that of the line entered at `cachedStart`.
   */
  ghost predicate CursorOk(v: string, positions: seq<nat>, credential: nat, cachedLineEnd: int, cachedStart: nat, reached: nat) {
    && credential <= |positions| && (forall i :: 0 <= i < credential ==> positions[i] < reached)
    && cachedStart <= reached <= |v|
    && (cachedLineEnd == -1 || cachedLineEnd == LineEnd(v, cachedStart))
  }

  datatype HeaderVerdict = Hit | Miss | Exhausted

  /** One header: the credential pointer and the cached line end move on, and never back. */
  method ScanHeader(
    t: Tables, v: string, positions: seq<nat>, e: nat, credential: nat, cachedLineEnd: int, ghost cachedStart: nat,
    ghost reached: nat)
    returns (verdict: HeaderVerdict, credential': nat, cachedLineEnd': int, ghost cachedStart': nat)
    requires Increasing(positions) && e <= |v| && t.isSpace('\n')
    requires forall i :: 0 <= i < |positions| ==> positions[i] < |v|
    requires CursorOk(v, positions, credential, cachedLineEnd, cachedStart, reached) && reached <= Skip(t, v, e)
    ensures verdict.Hit? ==> !Misses(t, v, positions, e)
    ensures verdict.Miss? ==>
              Misses(t, v, positions, e) && CursorOk(v, positions, credential', cachedLineEnd', cachedStart', Skip(t, v, e))
    ensures verdict.Exhausted? ==> forall i :: 0 <= i < |positions| ==> positions[i] < Skip(t, v, e)
  {
    credential', cachedLineEnd', cachedStart' := credential, cachedLineEnd, cachedStart;
    var contentStart := SkipSpace(t, v, e);
    if contentStart >= |v| {
      MissesAtEnd(t, v, positions, e);
      verdict := Miss;
      return;
    }
    credential' := Advance(positions, credential, contentStart);
    if credential' >= |positions| {
      verdict := Exhausted;
      return;
    }
    if contentStart > cachedLineEnd {
      cachedLineEnd', cachedStart' := LineEnd(v, contentStart), contentStart;
    } else {
      SameLine(v, cachedStart, contentStart);
    }
    if positions[credential'] < cachedLineEnd' {
      Hits(t, v, positions, e, credential');
      verdict := Hit;
      return;
    }
    MissesHere(t, v, positions, e, credential');
    verdict := Miss;
  }

  /** One pass over sorted headers with a shared credential pointer, a cached line end and an early exit. */
  method ScanHeaders(t: Tables, v: string, positions: seq<nat>, ends: seq<nat>) returns (found: bool)
    requires Increasing(positions) && Increasing(ends) && t.isSpace('\n')
    requires forall k :: 0 <= k < |ends| ==> ends[k] <= |v|
    requires forall i :: 0 <= i < |positions| ==> positions[i] < |v|
    ensures found <==> exists k :: 0 <= k < |ends| && !Misses(t, v, positions, ends[k])
  {
    var credential: nat := 0;
    var cachedLineEnd: int := -1;
    ghost var cachedStart: nat, reached: nat := 0, 0;
    var h := 0;
    while h < |ends|
      invariant 0 <= h <= |ends|
      invariant forall k :: 0 <= k < h ==> Misses(t, v, positions, ends[k])
      invariant reached == if h == 0 then 0 else Skip(t, v, ends[h - 1])
      invariant CursorOk(v, positions, credential, cachedLineEnd, cachedStart, reached)
    {
      if h > 0 { SkipMonotone(t, v, ends[h - 1], ends[h]); }
      var verdict;
      verdict, credential, cachedLineEnd, cachedStart :=
        ScanHeader(t, v, positions, ends[h], credential, cachedLineEnd, cachedStart, reached);
      if verdict.Hit? { return true; }
      if verdict.Exhausted? {
        LaterMiss(t, v, positions, ends, h);
        return false;
      }
      reached := Skip(t, v, ends[h]);
      h := h + 1;
    }
    return false;
  }

  lemma FoundIsLegacy(t: Tables, v: string, positions: seq<nat>, e: nat)
    requires Sane(t) && forall q :: q in positions ==> CredentialAt(t, v, q)
    requires HeaderEndsAt(t, v, e) && e <= |v| && !Misses(t, v, positions, e)
    ensures Legacy(t, v)
  {
    var q :| q in positions && Skip(t, v, e) <= q < LineEnd(v, Skip(t, v, e));
    LegacyIsSameLine(t, v, e, q);
  }

  /** The scanner answers the legacy pattern, with nothing missed and nothing added. */
  method ContainsCredentialCookie(t: Tables, v: string) returns (found: bool)
    requires Sane(t)
    ensures found <==> Legacy(t, v)
    ensures found <==> exists x :: IsCookie(t, v, x)
  {
    LegacyIff(t, v);
    var positions := FindCredentials(t, v);
    if positions == [] {
      forall e: nat, c: nat, q: nat ensures !LegacyMatch(t, v, e, c, q) {
        assert q !in positions;
      }
      return false;
    }
    var ends := FindHeaderEnds(t, v);
    found := ScanHeaders(t, v, positions, ends);
    if found {
      ghost var k :| 0 <= k < |ends| && !Misses(t, v, positions, ends[k]);
      assert ends[k] in ends;
      FoundIsLegacy(t, v, positions, ends[k]);
    } else {
      MissesAll(t, v, positions, ends);
    }
  }

  // ---------------------------------------------------------------- texts that match

  /** The parts of a text with a credential cookie, but for the colon and the equals sign. */
  datatype Parts = Parts(
    before: string, word: string, gap: string, space: string, stretch: string, name: string, gap': string, rest: string)

  predicate Spells(t: Tables, lit: string, s: string) {
    |s| == |lit| && forall k :: 0 <= k < |lit| ==> t.same(lit[k], s[k])
  }

  predicate Blank(t: Tables, s: string) {
    forall k :: 0 <= k < |s| ==> t.isSpace(s[k])
  }

  predicate EndsInWord(t: Tables, s: string) {
    s != "" && t.isWord(s[|s| - 1])
  }

  ghost predicate IsCookie(t: Tables, v: string, p: Parts) {
    && v == p.before + p.word + p.gap + ":" + p.space + p.stretch + p.name + p.gap' + "=" + p.rest
    && !EndsInWord(t, p.before) && Spells(t, "cookie", p.word) && Blank(t, p.gap) && Blank(t, p.space)
    && '\n' !in p.stretch && !EndsInWord(t, p.stretch)
    && (Spells(t, "sessionid", p.name) || Spells(t, "access_token", p.name) || Spells(t, "refresh_token", p.name))
    && Blank(t, p.gap')
  }

  ghost function PartsAt(v: string, p: nat, e: nat, c: nat, q: nat, m: nat, r: nat): Parts
    requires p + 6 < e <= c <= q <= m <= r < |v|
  {
    Parts(v[..p], v[p..p + 6], v[p + 6..e - 1], v[e..c], v[c..q], v[q..m], v[m..r], v[r + 1..])
  }

  lemma PartsJoin(v: string, p: nat, e: nat, c: nat, q: nat, m: nat, r: nat)
    requires p + 6 < e <= c <= q <= m <= r < |v| && v[e - 1] == ':' && v[r] == '='
    ensures var x := PartsAt(v, p, e, c, q, m, r);
            v == x.before + x.word + x.gap + ":" + x.space + x.stretch + x.name + x.gap' + "=" + x.rest
  {
    var x := PartsAt(v, p, e, c, q, m, r);
    assert x.before + x.word == v[..p + 6];
    assert v[..p + 6] + x.gap == v[..e - 1];
    assert v[..e - 1] + ":" == v[..e];
    assert v[..e] + x.space == v[..c];
    assert v[..c] + x.stretch == v[..q];
    assert v[..q] + x.name == v[..m];
    assert v[..m] + x.gap' == v[..r];
    assert v[..r] + "=" == v[..r + 1];
    assert v[..r + 1] + x.rest == v;
  }

  lemma SpellsIff(t: Tables, v: string, i: nat, lit: string)
    requires i + |lit| <= |v|
    ensures Literal(t, v, i, lit) <==> Spells(t, lit, v[i..i + |lit|])
  {
  }

  /** A word that begins with a word character begins at a boundary exactly if no word ends before it. */
  lemma BoundaryIff(t: Tables, v: string, i: nat)
    requires i < |v| && t.isWord(v[i])
    ensures Boundary(t, v, i) <==> !EndsInWord(t, v[..i])
  {
  }

  lemma NameIff(t: Tables, v: string, q: nat, m: nat)
    requires Sane(t) && q <= m <= |v|
    ensures NameMatch(t, v, q, m) <==>
              && !EndsInWord(t, v[..q])
              && (Spells(t, "sessionid", v[q..m]) || Spells(t, "access_token", v[q..m]) || Spells(t, "refresh_token", v[q..m]))
  {
    var name := v[q..m];
    if m == q + |SESSION_ID| { SpellsIff(t, v, q, SESSION_ID); }
    if m == q + |ACCESS_TOKEN| { SpellsIff(t, v, q, ACCESS_TOKEN); }
    if m == q + |REFRESH_TOKEN| { SpellsIff(t, v, q, REFRESH_TOKEN); }
    if Spells(t, SESSION_ID, name) || Spells(t, ACCESS_TOKEN, name) || Spells(t, REFRESH_TOKEN, name) {
      LetterIsWord(t, name);
      assert v[q] == name[0];
      BoundaryIff(t, v, q);
    }
  }

  lemma LetterIsWord(t: Tables, name: string)
    requires Sane(t)
    requires || Spells(t, COOKIE, name) || Spells(t, SESSION_ID, name)
             || Spells(t, ACCESS_TOKEN, name) || Spells(t, REFRESH_TOKEN, name)
    ensures name != "" && t.isWord(name[0])
  {
    assert COOKIE[0] in COOKIE && SESSION_ID[0] in SESSION_ID;
    assert ACCESS_TOKEN[0] in ACCESS_TOKEN && REFRESH_TOKEN[0] in REFRESH_TOKEN;
  }

  lemma HeaderIff(t: Tables, v: string, p: nat, e: nat)
    requires Sane(t) && p + 6 < e <= |v|
    ensures HeaderMatch(t, v, p, e) <==>
              && !EndsInWord(t, v[..p]) && Spells(t, "cookie", v[p..p + 6])
              && Blank(t, v[p + 6..e - 1]) && v[e - 1] == ':'
  {
    var word, gap := v[p..p + 6], v[p + 6..e - 1];
    SpellsIff(t, v, p, COOKIE);
    if Spells(t, COOKIE, word) {
      LetterIsWord(t, word);
      assert v[p] == word[0];
      BoundaryIff(t, v, p);
    }
    BlankIff(t, v, p + 6, e - 1);
  }

  lemma BlankIff(t: Tables, v: string, lo: nat, hi: nat)
    requires lo <= hi <= |v|
    ensures AllSpace(t, v, lo, hi) <==> Blank(t, v[lo..hi])
  {
    assert forall k :: lo <= k < hi ==> v[k] == v[lo..hi][k - lo];
  }

  lemma StretchIff(t: Tables, v: string, c: nat, q: nat)
    requires c <= q <= |v|
    ensures NoNewline(v, c, q) <==> '\n' !in v[c..q]
    ensures !EndsInWord(t, v[..q]) ==> !EndsInWord(t, v[c..q])
  {
    assert forall k :: c <= k < q ==> v[k] == v[c..q][k - c];
    if c < q { assert v[c..q][q - c - 1] == v[..q][q - 1]; }
  }

  lemma {:induction false} NamePart(t: Tables, v: string, q: nat) returns (m: nat, r: nat)
    requires Sane(t) && CredentialAt(t, v, q)
    ensures q <= m <= r < |v| && v[r] == '=' && Blank(t, v[m..r]) && !EndsInWord(t, v[..q])
    ensures Spells(t, "sessionid", v[q..m]) || Spells(t, "access_token", v[q..m]) || Spells(t, "refresh_token", v[q..m])
  {
    m, r :| NameMatch(t, v, q, m) && m <= r < |v| && AllSpace(t, v, m, r) && v[r] == '=';
    NameIff(t, v, q, m);
    BlankIff(t, v, m, r);
  }

  lemma {:induction false} MatchHasParts(t: Tables, v: string, e: nat, c: nat, q: nat) returns (x: Parts)
    requires Sane(t) && LegacyMatch(t, v, e, c, q)
    ensures IsCookie(t, v, x)
  {
    var p :| HeaderMatch(t, v, p, e);
    var m, r := NamePart(t, v, q);
    HeaderIff(t, v, p, e);
    BlankIff(t, v, e, c);
    StretchIff(t, v, c, q);
    PartsJoin(v, p, e, c, q, m, r);
    x := PartsAt(v, p, e, c, q, m, r);
  }

  /** The last part of a beginning of the text, and what is before it. */
  lemma LastPart(v: string, u: string, w: string)
    requires |u + w| <= |v| && v[..|u + w|] == u + w
    ensures v[..|u|] == u && v[|u|..|u + w|] == w
  {
    assert v[..|u|] == v[..|u + w|][..|u|];
    assert v[|u|..|u + w|] == v[..|u + w|][|u|..];
  }

  lemma {:induction false} PartsArePlaced(v: string, x: Parts) returns (p: nat, e: nat, c: nat, q: nat, m: nat, r: nat)
    requires v == x.before + x.word + x.gap + ":" + x.space + x.stretch + x.name + x.gap' + "=" + x.rest && |x.word| == 6
    ensures p + 6 < e <= c <= q <= m <= r < |v| && PartsAt(v, p, e, c, q, m, r) == x && v[e - 1] == ':' && v[r] == '='
  {
    var a := x.before + x.word;
    var b := a + x.gap;
    var d := b + ":";
    var f := d + x.space;
    var g := f + x.stretch;
    var h := g + x.name;
    var k := h + x.gap';
    p, e, c, q, m, r := |x.before|, |d|, |f|, |g|, |h|, |k|;
    assert v == k + "=" + x.rest;
    assert v[..|k + "="|] == k + "=" && v[r + 1..] == x.rest;
    LastPart(v, k, "=");
    assert v[r] == v[|k|..|k + "="|][0];
    LastPart(v, h, x.gap');
    LastPart(v, g, x.name);
    LastPart(v, f, x.stretch);
    LastPart(v, d, x.space);
    LastPart(v, b, ":");
    assert v[e - 1] == v[|b|..|b + ":"|][0];
    LastPart(v, a, x.gap);
    LastPart(v, x.before, x.word);
  }

  /** Before the name there is the end of the stretch, of the whitespace, or the colon. */
  lemma BeforeName(t: Tables, v: string, e: nat, c: nat, q: nat)
    requires Sane(t) && 0 < e <= c <= q <= |v| && v[e - 1] == ':'
    requires Blank(t, v[e..c]) && !EndsInWord(t, v[c..q])
    ensures !EndsInWord(t, v[..q])
  {
    if c < q {
      assert v[..q][q - 1] == v[c..q][q - c - 1];
    } else if e < c {
      assert v[..q][q - 1] == v[e..c][c - e - 1];
    }
  }

  lemma {:induction false} PartsMatch(t: Tables, v: string, x: Parts)
    requires Sane(t) && IsCookie(t, v, x)
    ensures Legacy(t, v)
  {
    var p, e, c, q, m, r := PartsArePlaced(v, x);
    HeaderIff(t, v, p, e);
    BeforeName(t, v, e, c, q);
    NameIff(t, v, q, m);
    BlankIff(t, v, e, c);
    BlankIff(t, v, m, r);
    StretchIff(t, v, c, q);
    assert HeaderEndsAt(t, v, e) && CredentialAt(t, v, q);
    assert LegacyMatch(t, v, e, c, q);
  }

  /**
   * A text has a credential cookie exactly if it reads: the word cookie, a colon, a stretch without newline
   * and one of the three names with an equals sign, with whitespace where the pattern allows it.
   */
  lemma {:induction false} LegacyIff(t: Tables, v: string)
    requires Sane(t)
    ensures Legacy(t, v) <==> exists x :: IsCookie(t, v, x)
  {
    if Legacy(t, v) {
      var e, c, q :| LegacyMatch(t, v, e, c, q);
      var x := MatchHasParts(t, v, e, c, q);
    }
    if x :| IsCookie(t, v, x) { PartsMatch(t, v, x); }
  }
}
