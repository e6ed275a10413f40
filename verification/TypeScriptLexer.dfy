/**
 The hand-written lexer of the weak-test checker (scripts/check_weak_tests.py, _tokenize_typescript).

 Unicode's character classes stay parameters.
 */
module TypeScriptLexer {

  import opened TypeScriptDelimiters

  datatype Classes = Classes(isSpace: char -> bool, isAlpha: char -> bool, isDigit: char -> bool, isAlnum: char -> bool)

  datatype LexResult = Tokens(tokens: seq<Token>) | LexError(line: nat)

  /** A newline is whitespace, a slash is not, and neither a newline nor a colon belongs to a word. */
  predicate Sane(cls: Classes) {
    && cls.isSpace('\n') && !cls.isAlpha('\n') && !cls.isDigit('\n') && !cls.isAlnum('\n')
    && !cls.isSpace('/') && !cls.isAlpha(':') && !cls.isDigit(':') && !cls.isAlnum(':')
  }

  const REGEX_PREFIX_TOKENS: set<string> :=
    {"(", "[", "{", ",", ";", ":", "=", "==", "===", "!=", "!==", "!", "?", "??", "&&", "||", "=>", "+", "-", "*", "%",
     "&", "|", "^", "~"}

  const REGEX_PREFIX_KEYWORDS: set<string> :=
    {"case", "delete", "in", "instanceof", "new", "return", "throw", "typeof", "void", "yield"}

  predicate IsIdentifierStart(cls: Classes, c: char) {
    c == '$' || c == '_' || cls.isAlpha(c) || c as int >= 128
  }

  predicate IsIdentifierPart(cls: Classes, c: char) {
    IsIdentifierStart(cls, c) || cls.isDigit(c)
  }

  predicate IsNumberPart(cls: Classes, c: char) {
    cls.isAlnum(c) || c == '.' || c == '_'
  }

  predicate SlashStartsRegex(tokens: seq<Token>) {
    tokens == [] ||
    var previous := tokens[|tokens| - 1].value;
    previous in REGEX_PREFIX_TOKENS || previous in REGEX_PREFIX_KEYWORDS
  }

  /** Length of the longest operator of several characters at `i`, or 0. */
  function OperatorLength(s: string, i: nat): (n: nat)
    requires i < |s|
    ensures i + n <= |s| && forall k :: i <= k < i + n ==> s[k] != '\n'
  {
    var a := s[i];
    var b := if i + 1 < |s| then s[i + 1] else '\n';
    var c := if i + 2 < |s| then s[i + 2] else '\n';
    if (a == '=' && b == '=' && c == '=') || (a == '!' && b == '=' && c == '=') || (a == '>' && b == '>' && c == '>')
       || (a == '*' && b == '*' && c == '=') || (a == '&' && b == '&' && c == '=') || (a == '|' && b == '|' && c == '=')
       || (a == '?' && b == '?' && c == '=') || (a == '.' && b == '.' && c == '.') then 3
    else if (b == '=' && a in "=!<>+-*/%&|^") || (a == '=' && b == '>') || (a == '?' && b == '.')
            || (a == b && a in "+-&|?*<>") then 2
    else 0
  }

  const OPERATORS: set<string> :=
    {"===", "!==", ">>>", "**=", "&&=", "||=", "??=", "...", "=>", "==", "!=", "<=", ">=", "++", "--", "&&", "||", "??",
     "?.", "**", "<<", ">>", "+=", "-=", "*=", "/=", "%=", "&=", "|=", "^="}

  predicate StartsWith(s: string, i: nat, op: string) {
    i + |op| <= |s| && s[i..i + |op|] == op
  }

  lemma {:induction false} OperatorIsListed(s: string, i: nat, v: string)
    requires i < |s| && OperatorLength(s, i) > 0 && v == s[i..i + OperatorLength(s, i)]
    ensures v in OPERATORS
  {
    if |v| == 3 {
      assert v == [s[i], s[i + 1], s[i + 2]];
    } else {
      assert v == [s[i], s[i + 1]];
    }
  }

  lemma {:induction false} ListedIsNoLonger(s: string, i: nat, op: string)
    requires i < |s| && op in OPERATORS && StartsWith(s, i, op)
    ensures 0 < |op| <= OperatorLength(s, i)
  {
    assert s[i] == op[0] && s[i + 1] == op[1];
    if |op| == 3 { assert s[i + 2] == op[2]; }
  }

  // ---------------------------------------------------------------- newlines

  function Newlines(s: string, lo: nat, hi: nat): nat
    requires hi <= |s|
    decreases hi
  {
    if lo >= hi then 0 else Newlines(s, lo, hi - 1) + if s[hi - 1] == '\n' then 1 else 0
  }

  lemma {:induction false} NewlinesSplit(s: string, lo: nat, mid: nat, hi: nat)
    requires lo <= mid <= hi <= |s|
    ensures Newlines(s, lo, hi) == Newlines(s, lo, mid) + Newlines(s, mid, hi)
    decreases hi
  {
    if mid < hi { NewlinesSplit(s, lo, mid, hi - 1); }
  }

  lemma {:induction false} NoNewlines(s: string, lo: nat, hi: nat)
    requires lo <= hi <= |s| && forall k :: lo <= k < hi ==> s[k] != '\n'
    ensures Newlines(s, lo, hi) == 0
    decreases hi
  {
    if lo < hi { NoNewlines(s, lo, hi - 1); }
  }

  /** Newlines inside regular expression literals, which the lexer does not count. */
  function Uncounted(s: string, ts: seq<Token>): nat {
    if ts == [] then 0 else Uncounted(s, ts[..|ts| - 1]) + UncountedIn(s, ts[|ts| - 1])
  }

  function UncountedIn(s: string, t: Token): nat {
    if t.kind.Regex? && t.end <= |s| then Newlines(s, t.start, t.end) else 0
  }

  // ---------------------------------------------------------------- trivia

  predicate CommentEndAt(s: string, k: int) {
    0 <= k && k + 1 < |s| && s[k] == '*' && s[k + 1] == '/'
  }

  /** s[lo..hi] is one whitespace character, one line comment or one block comment. */
  predicate Piece(cls: Classes, s: string, lo: nat, hi: nat) {
    lo < hi <= |s| &&
    (|| (hi == lo + 1 && cls.isSpace(s[lo]))
     || (&& lo + 2 <= hi && s[lo] == '/' && s[lo + 1] == '/'
         && (forall k :: lo + 2 <= k < hi ==> s[k] != '\n') && (hi == |s| || s[hi] == '\n'))
     || (&& lo + 4 <= hi && s[lo] == '/' && s[lo + 1] == '*' && CommentEndAt(s, hi - 2)
         && (forall k :: lo + 2 <= k < hi - 2 ==> !CommentEndAt(s, k))))
  }

  /** A whitespace character or a comment opener. */
  predicate StartsTrivia(cls: Classes, s: string, i: nat) {
    i < |s| && (cls.isSpace(s[i]) || (s[i] == '/' && i + 1 < |s| && (s[i + 1] == '/' || s[i + 1] == '*')))
  }

  /** s[lo..hi] is whitespace and comments only. */
  ghost predicate Trivia(cls: Classes, s: string, lo: nat, hi: nat)
    decreases hi - lo
  {
    lo == hi || (lo < hi && exists mid :: lo <= mid < hi && Trivia(cls, s, lo, mid) && Piece(cls, s, mid, hi))
  }

  // ---------------------------------------------------------------- literals

  /** The backslashes directly before `k`, none of them before `lo`. */
  function Backslashes(s: string, lo: nat, k: nat): nat
    requires k <= |s|
  {
    if k <= lo || s[k - 1] != '\\' then 0 else 1 + Backslashes(s, lo, k - 1)
  }

  /** The character at `k` is not escaped: an even number of backslashes precedes it. */
  predicate Live(s: string, lo: nat, k: nat) {
    k <= |s| && Backslashes(s, lo, k) % 2 == 0
  }

  lemma LiveNext(s: string, lo: nat, k: nat)
    requires lo <= k < |s| && Live(s, lo, k)
    ensures Live(s, lo, k + 1) <==> s[k] != '\\'
    ensures s[k] == '\\' && k + 2 <= |s| ==> Live(s, lo, k + 2)
  {
  }

  /** A quoted literal ends at its first live quote, with no live newline before it unless it may span lines. */
  ghost predicate QuoteEnds(s: string, start: nat, end: nat, multiline: bool) {
    && start + 2 <= end <= |s| && s[end - 1] == s[start] && Live(s, start + 1, end - 1)
    && forall k :: start < k < end - 1 && Live(s, start + 1, k) ==> s[k] != s[start] && (multiline || s[k] != '\n')
  }

  /** The last live bracket before `k` opens a character class. */
  predicate InClass(s: string, lo: nat, k: nat)
    requires k <= |s|
  {
    k > lo &&
    if Live(s, lo, k - 1) && s[k - 1] == '[' then true
    else if Live(s, lo, k - 1) && s[k - 1] == ']' then false
    else InClass(s, lo, k - 1)
  }

  predicate ClosingSlash(s: string, lo: nat, k: nat) {
    k < |s| && s[k] == '/' && Live(s, lo, k) && !InClass(s, lo, k)
  }

  predicate Inside(s: string, lo: nat, k: nat) {
    k < |s| && s[k] != '\n' && !ClosingSlash(s, lo, k)
  }

  /** The slash that closes a regular expression: the first live one outside a class, before any live newline. */
  ghost predicate RegexCloses(s: string, lo: nat, c: nat) {
    && lo <= c && ClosingSlash(s, lo, c)
    && forall k: nat :: lo <= k < c && Live(s, lo, k) ==> Inside(s, lo, k)
  }

  /** A closing slash and every letter after it. */
  ghost predicate RegexEnds(cls: Classes, s: string, lo: nat, end: nat) {
    end <= |s| && exists c: nat ::
      && c < end && RegexCloses(s, lo, c)
      && (forall k :: c < k < end ==> cls.isAlpha(s[k])) && (end < |s| ==> !cls.isAlpha(s[end]))
  }

  // ---------------------------------------------------------------- what a token list must be

  /** The kind of token that starts at `i`, by its first characters. */
  function KindAt(cls: Classes, s: string, i: nat, regexAllowed: bool): Kind
    requires i < |s|
  {
    var c := s[i];
    if c == '\'' || c == '"' then String
    else if c == '`' then Template
    else if c == '/' && regexAllowed then Regex
    else if IsIdentifierStart(cls, c) then Identifier
    else if cls.isDigit(c) then Number
    else if OperatorLength(s, i) > 0 then Operator
    else Punctuation
  }

  /** Where a token of this kind ends. */
  ghost predicate Extent(cls: Classes, s: string, kind: Kind, start: nat, end: nat) {
    start < end <= |s| &&
    match kind
    case String => QuoteEnds(s, start, end, false)
    case Template => QuoteEnds(s, start, end, true)
    case Regex => RegexEnds(cls, s, start + 1, end)
    case Identifier =>
      (forall k :: start < k < end ==> IsIdentifierPart(cls, s[k])) && (end < |s| ==> !IsIdentifierPart(cls, s[end]))
    case Number =>
      (forall k :: start < k < end ==> IsNumberPart(cls, s[k])) && (end < |s| ==> !IsNumberPart(cls, s[end]))
    case Operator => end == start + OperatorLength(s, start)
    case Punctuation => end == start + 1
  }

  /** The token is its slice of the source, of the kind its first characters say, and ends where that kind does. */
  ghost predicate Lexeme(cls: Classes, s: string, regexAllowed: bool, t: Token) {
    && t.start < t.end <= |s| && t.value == s[t.start..t.end]
    && !StartsTrivia(cls, s, t.start)
    && t.kind == KindAt(cls, s, t.start, regexAllowed) && Extent(cls, s, t.kind, t.start, t.end)
  }

  function EndOf(ts: seq<Token>): nat {
    if ts == [] then 0 else ts[|ts| - 1].end
  }

  /** After `front`: only trivia, then `t`, whose line counts every newline outside regex literals. */
  ghost predicate Placed(cls: Classes, s: string, front: seq<Token>, t: Token) {
    && Lexeme(cls, s, SlashStartsRegex(front), t)
    && EndOf(front) <= t.start && Trivia(cls, s, EndOf(front), t.start)
    && t.line + Uncounted(s, front) == 1 + Newlines(s, 0, t.start)
  }

  ghost predicate Tokenized(cls: Classes, s: string, ts: seq<Token>) {
    forall k :: 0 <= k < |ts| ==> Placed(cls, s, ts[..k], ts[k])
  }

  lemma TokenizedSnoc(cls: Classes, s: string, ts: seq<Token>, t: Token)
    requires Tokenized(cls, s, ts) && Placed(cls, s, ts, t)
    ensures Tokenized(cls, s, ts + [t])
  {
    var ts' := ts + [t];
    forall k | 0 <= k < |ts'| ensures Placed(cls, s, ts'[..k], ts'[k]) {
      assert ts'[..k] == if k < |ts| then ts[..k] else ts;
    }
  }

  /** Spans are strictly increasing and disjoint. */
  lemma {:induction false} SpansDisjoint(cls: Classes, s: string, ts: seq<Token>, i: nat, j: nat)
    requires Tokenized(cls, s, ts) && i < j < |ts|
    ensures ts[i].end <= ts[j].start < ts[j].end <= |s|
    decreases j - i
  {
    assert Placed(cls, s, ts[..j], ts[j]);
    assert ts[..j][|ts[..j]| - 1] == ts[j - 1];
    if i < j - 1 { SpansDisjoint(cls, s, ts, i, j - 1); }
  }

  lemma {:induction false} UncountedZero(s: string, ts: seq<Token>)
    ensures Uncounted(s, ts) == 0 <==> forall k :: 0 <= k < |ts| ==> UncountedIn(s, ts[k]) == 0
    decreases |ts|
  {
    if ts != [] {
      var front := ts[..|ts| - 1];
      UncountedZero(s, front);
      assert forall k :: 0 <= k < |front| ==> front[k] == ts[k];
      assert ts == front + [ts[|ts| - 1]];
    }
  }

  /** A token's line is right exactly when no earlier regular expression literal holds a newline. */
  lemma LineIsRightIff(cls: Classes, s: string, ts: seq<Token>, k: nat)
    requires Tokenized(cls, s, ts) && k < |ts|
    ensures ts[k].line == 1 + Newlines(s, 0, ts[k].start) <==>
              forall i :: 0 <= i < k && ts[i].kind.Regex? ==> '\n' !in ts[i].value
  {
    var front := ts[..k];
    assert Placed(cls, s, ts[..k], ts[k]);
    assert forall i :: 0 <= i < k ==> front[i] == ts[i];
    UncountedZero(s, front);
    forall i | 0 <= i < k ensures UncountedIn(s, ts[i]) == 0 <==> !(ts[i].kind.Regex? && '\n' in ts[i].value) {
      assert Placed(cls, s, ts[..i], ts[i]);
      UncountedMeans(s, ts[i]);
    }
  }

  lemma UncountedMeans(s: string, t: Token)
    requires t.start < t.end <= |s| && t.value == s[t.start..t.end]
    ensures Newlines(s, t.start, t.end) == 0 <==> '\n' !in t.value
  {
    if '\n' !in t.value {
      forall k | t.start <= k < t.end ensures s[k] != '\n' { assert s[k] == t.value[k - t.start]; }
      NoNewlines(s, t.start, t.end);
    } else {
      var i :| 0 <= i < |t.value| && t.value[i] == '\n';
      var at := t.start + i;
      assert s[at] == '\n';
      NewlinesSplit(s, t.start, at, t.end);
      NewlinesSplit(s, at, at + 1, t.end);
    }
  }

  // ---------------------------------------------------------------- scanning one token

  datatype Scan = Found(end: nat, line: nat) | Unterminated

  /** A quoted string from the character after its quote: escapes skip one character, a bare newline is an error. */
  method ScanString(s: string, start: nat, line: nat) returns (r: Scan)
    requires start < |s| && s[start] != '\n' && s[start] != '\\'
    ensures r.Found? ==> QuoteEnds(s, start, r.end, false) && r.line == line + Newlines(s, start, r.end)
    ensures r.Unterminated? ==> forall e: nat :: !QuoteEnds(s, start, e, false)
  {
    var index, l := start + 1, line;
    while index < |s|
      invariant start < index <= |s| && l == line + Newlines(s, start, index)
      invariant Live(s, start + 1, index)
      invariant forall k :: start < k < index && Live(s, start + 1, k) ==> s[k] != s[start] && s[k] != '\n'
    {
      var current := s[index];
      LiveNext(s, start + 1, index);
      if current == '\\' {
        if index + 1 >= |s| { return Unterminated; }
        if s[index + 1] == '\n' { l := l + 1; }
        index := index + 2;
        continue;
      }
      if current == s[start] { return Found(index + 1, l); }
      if current == '\n' { return Unterminated; }
      index := index + 1;
    }
    return Unterminated;
  }

  method ScanTemplate(s: string, start: nat, line: nat) returns (r: Scan)
    requires start < |s| && s[start] == '`'
    ensures r.Found? ==> QuoteEnds(s, start, r.end, true) && r.line == line + Newlines(s, start, r.end)
    ensures r.Unterminated? ==> forall e: nat :: !QuoteEnds(s, start, e, true)
  {
    var index, l := start + 1, line;
    while index < |s|
      invariant start < index <= |s| && l == line + Newlines(s, start, index)
      invariant Live(s, start + 1, index)
      invariant forall k :: start < k < index && Live(s, start + 1, k) ==> s[k] != '`'
    {
      var current := s[index];
      LiveNext(s, start + 1, index);
      if current == '\\' {
        if index + 1 >= |s| { return Unterminated; }
        if s[index + 1] == '\n' { l := l + 1; }
        index := index + 2;
        continue;
      }
      if current == '`' { return Found(index + 1, l); }
      if current == '\n' { l := l + 1; }
      index := index + 1;
    }
    return Unterminated;
  }

  /** The class state after one more character. */
  lemma ClassNext(s: string, lo: nat, k: nat)
    requires lo <= k < |s| && Live(s, lo, k)
    ensures InClass(s, lo, k + 1) == if s[k] == '[' then true else if s[k] == ']' then false else InClass(s, lo, k)
    ensures s[k] == '\\' && k + 2 <= |s| ==> InClass(s, lo, k + 2) == InClass(s, lo, k)
  {
    LiveNext(s, lo, k);
  }

  /** Finds the slash that closes a regular expression whose text starts at `lo`. */
  method FindClosingSlash(s: string, lo: nat) returns (c: nat)
    requires lo <= |s|
    ensures c <= |s| && (c < |s| ==> RegexCloses(s, lo, c))
    ensures c == |s| ==> forall d: nat :: !RegexCloses(s, lo, d)
  {
    var index, inCharacterClass := lo, false;
    while index < |s|
      invariant lo <= index && (index <= |s| ==> Live(s, lo, index))
      invariant index <= |s| ==> inCharacterClass == InClass(s, lo, index)
      invariant forall k: nat :: lo <= k < index && k < |s| && Live(s, lo, k) ==> Inside(s, lo, k)
    {
      var current := s[index];
      LiveNext(s, lo, index);
      ClassNext(s, lo, index);
      if current == '\\' {
        index := index + 2;
        continue;
      }
      if current == '\n' { return |s|; }
      if current == '[' {
        inCharacterClass := true;
      } else if current == ']' {
        inCharacterClass := false;
      } else if current == '/' && !inCharacterClass {
        return index;
      }
      index := index + 1;
    }
    return |s|;
  }

  /** A regular expression literal with its flags; the line stays as it was, whatever an escape skips. */
  method ScanRegex(cls: Classes, s: string, start: nat, line: nat) returns (r: Scan)
    requires start < |s|
    ensures r.Found? ==> start < r.end && RegexEnds(cls, s, start + 1, r.end) && r.line == line
    ensures r.Unterminated? ==> var lo := start + 1; forall e: nat :: !RegexEnds(cls, s, lo, e)
  {
    var c := FindClosingSlash(s, start + 1);
    if c == |s| { return Unterminated; }
    var index := c + 1;
    while index < |s| && cls.isAlpha(s[index])
      invariant c < index <= |s| && forall k :: c < k < index ==> cls.isAlpha(s[k])
    {
      index := index + 1;
    }
    return Found(index, line);
  }

  method ScanIdentifier(cls: Classes, s: string, start: nat) returns (end: nat)
    requires start < |s|
    ensures start < end <= |s| && (forall k :: start < k < end ==> IsIdentifierPart(cls, s[k]))
    ensures end < |s| ==> !IsIdentifierPart(cls, s[end])
  {
    end := start + 1;
    while end < |s| && IsIdentifierPart(cls, s[end])
      invariant start < end <= |s| && forall k :: start < k < end ==> IsIdentifierPart(cls, s[k])
    {
      end := end + 1;
    }
  }

  method ScanNumber(cls: Classes, s: string, start: nat) returns (end: nat)
    requires start < |s|
    ensures start < end <= |s| && (forall k :: start < k < end ==> IsNumberPart(cls, s[k]))
    ensures end < |s| ==> !IsNumberPart(cls, s[end])
  {
    end := start + 1;
    while end < |s| && IsNumberPart(cls, s[end])
      invariant start < end <= |s| && forall k :: start < k < end ==> IsNumberPart(cls, s[k])
    {
      end := end + 1;
    }
  }

  datatype Next = Next(token: Token, line: nat) | Failed

  /** `r` is the token at `index`, and `r.line` counts its newlines unless it is a regex; no token means none fits. */
  ghost predicate ScansTo(cls: Classes, s: string, index: nat, line: nat, regexAllowed: bool, r: Next) {
    index < |s| &&
    if r.Next? then
      && r.token.start == index && r.token.line == line && Lexeme(cls, s, regexAllowed, r.token)
      && r.line + UncountedIn(s, r.token) == line + Newlines(s, index, r.token.end)
    else forall e: nat :: !Extent(cls, s, KindAt(cls, s, index, regexAllowed), index, e)
  }

  /** The token at a position that is neither whitespace nor the start of a comment. */
  method ScanToken(cls: Classes, s: string, index: nat, line: nat, regexAllowed: bool) returns (r: Next)
    requires Sane(cls) && index < |s| && !StartsTrivia(cls, s, index)
    ensures ScansTo(cls, s, index, line, regexAllowed, r)
  {
    var c := s[index];
    if c == '\'' || c == '"' {
      var scan := ScanString(s, index, line);
      r := Delimited(cls, s, index, line, regexAllowed, String, scan);
    } else if c == '`' {
      var scan := ScanTemplate(s, index, line);
      r := Delimited(cls, s, index, line, regexAllowed, Template, scan);
    } else if c == '/' && regexAllowed {
      var scan := ScanRegex(cls, s, index, line);
      r := Delimited(cls, s, index, line, regexAllowed, Regex, scan);
    } else {
      r := ScanPlain(cls, s, index, line, regexAllowed);
    }
  }

  method Delimited(cls: Classes, s: string, index: nat, line: nat, regexAllowed: bool, kind: Kind, scan: Scan)
    returns (r: Next)
    requires index < |s| && !StartsTrivia(cls, s, index) && kind == KindAt(cls, s, index, regexAllowed)
    requires scan.Found? ==>
               && Extent(cls, s, kind, index, scan.end)
               && scan.line == line + if kind.Regex? then 0 else Newlines(s, index, scan.end)
    requires scan.Unterminated? ==> forall e: nat :: !Extent(cls, s, kind, index, e)
    ensures ScansTo(cls, s, index, line, regexAllowed, r)
  {
    if scan.Unterminated? { return Failed; }
    return Next(Token(s[index..scan.end], index, scan.end, line, kind), scan.line);
  }

  method ScanPlain(cls: Classes, s: string, index: nat, line: nat, regexAllowed: bool) returns (r: Next)
    requires Sane(cls) && index < |s| && !StartsTrivia(cls, s, index)
    requires var kind := KindAt(cls, s, index, regexAllowed); !kind.String? && !kind.Template? && !kind.Regex?
    ensures ScansTo(cls, s, index, line, regexAllowed, r)
  {
    var c := s[index];
    if IsIdentifierStart(cls, c) {
      var end := ScanIdentifier(cls, s, index);
      NoNewlines(s, index, end);
      return Next(Token(s[index..end], index, end, line, Identifier), line);
    }
    if cls.isDigit(c) {
      var end := ScanNumber(cls, s, index);
      NoNewlines(s, index, end);
      return Next(Token(s[index..end], index, end, line, Number), line);
    }
    var n := OperatorLength(s, index);
    if n > 0 {
      NoNewlines(s, index, index + n);
      return Next(Token(s[index..index + n], index, index + n, line, Operator), line);
    }
    NoNewlines(s, index, index + 1);
    assert [c] == s[index..index + 1];
    return Next(Token([c], index, index + 1, line, Punctuation), line);
  }

  // ---------------------------------------------------------------- comments

  method FindNewline(s: string, from: nat) returns (at: nat)
    requires from <= |s|
    ensures from <= at <= |s| && (forall k :: from <= k < at ==> s[k] != '\n') && (at < |s| ==> s[at] == '\n')
  {
    at := from;
    while at < |s| && s[at] != '\n'
      invariant from <= at <= |s| && forall k :: from <= k < at ==> s[k] != '\n'
    {
      at := at + 1;
    }
  }

  /** Position of the first "*" + "/" from `from` on, or |s|. */
  method FindCommentEnd(s: string, from: nat) returns (at: nat)
    requires from <= |s|
    ensures at == |s| || (from <= at && CommentEndAt(s, at))
    ensures forall k :: from <= k < at ==> !CommentEndAt(s, k)
  {
    at := from;
    while at + 1 < |s|
      invariant from <= at <= |s|
      invariant forall k :: from <= k < at ==> !CommentEndAt(s, k)
    {
      if s[at] == '*' && s[at + 1] == '/' { return; }
      at := at + 1;
    }
    at := |s|;
  }

  method CountNewlines(s: string, lo: nat, hi: nat) returns (n: nat)
    requires lo <= hi <= |s|
    ensures n == Newlines(s, lo, hi)
  {
    n := 0;
    var i := lo;
    while i < hi
      invariant lo <= i <= hi && n == Newlines(s, lo, i)
    {
      if s[i] == '\n' { n := n + 1; }
      i := i + 1;
    }
  }

  datatype Skip = Skipped(next: nat, line: nat) | NotTrivia | OpenComment

  /** One whitespace character or one comment, if the position starts one. */
  method SkipTrivia(cls: Classes, s: string, index: nat, line: nat) returns (r: Skip)
    requires Sane(cls) && index < |s|
    ensures r.Skipped? ==> Piece(cls, s, index, r.next) && r.line == line + Newlines(s, index, r.next)
    ensures r.NotTrivia? ==> !StartsTrivia(cls, s, index)
    ensures r.OpenComment? ==> StartsTrivia(cls, s, index) && forall e: nat :: !Piece(cls, s, index, e)
  {
    var c := s[index];
    if cls.isSpace(c) { return Skipped(index + 1, if c == '\n' then line + 1 else line); }
    if c == '/' && index + 1 < |s| && s[index + 1] == '/' {
      var newline := FindNewline(s, index + 2);
      NoNewlines(s, index, newline);
      return Skipped(newline, line);
    }
    if c == '/' && index + 1 < |s| && s[index + 1] == '*' {
      var end := FindCommentEnd(s, index + 2);
      if end == |s| { return OpenComment; }
      var newlines := CountNewlines(s, index, end + 2);
      return Skipped(end + 2, line + newlines);
    }
    return NotTrivia;
  }

  lemma NoPieceHere(cls: Classes, s: string, index: nat)
    requires !StartsTrivia(cls, s, index)
    ensures forall e: nat :: !Piece(cls, s, index, e)
  {
  }

  lemma TriviaSnoc(cls: Classes, s: string, lo: nat, mid: nat, hi: nat)
    requires lo <= mid && Trivia(cls, s, lo, mid) && Piece(cls, s, mid, hi)
    ensures Trivia(cls, s, lo, hi)
  {
  }

  // ---------------------------------------------------------------- the lexer

  /** The position and line reached: everything before `index` is tokens and trivia. */
  ghost predicate Reached(cls: Classes, s: string, ts: seq<Token>, index: nat, line: nat) {
    && EndOf(ts) <= index <= |s| && Tokenized(cls, s, ts) && Trivia(cls, s, EndOf(ts), index)
    && line + Uncounted(s, ts) == 1 + Newlines(s, 0, index)
  }

  lemma PassTrivia(cls: Classes, s: string, ts: seq<Token>, index: nat, line: nat, next: nat, line': nat)
    requires Reached(cls, s, ts, index, line) && Piece(cls, s, index, next) && line' == line + Newlines(s, index, next)
    ensures Reached(cls, s, ts, next, line')
  {
    TriviaSnoc(cls, s, EndOf(ts), index, next);
    NewlinesSplit(s, 0, index, next);
  }

  lemma PassToken(cls: Classes, s: string, ts: seq<Token>, index: nat, line: nat, t: Token, line': nat)
    requires Reached(cls, s, ts, index, line) && Lexeme(cls, s, SlashStartsRegex(ts), t)
    requires t.start == index && t.line == line
    requires line' + UncountedIn(s, t) == line + Newlines(s, index, t.end)
    ensures Reached(cls, s, ts + [t], t.end, line')
  {
    TokenizedSnoc(cls, s, ts, t);
    assert (ts + [t])[..|ts|] == ts;
    NewlinesSplit(s, 0, index, t.end);
  }

  /** The tokens tile the whole source up to trivia. */
  ghost predicate Complete(cls: Classes, s: string, ts: seq<Token>) {
    Tokenized(cls, s, ts) && EndOf(ts) <= |s| && Trivia(cls, s, EndOf(ts), |s|)
  }

  /** The tokens of a source that can be lexed; the error means that it cannot be. */
  method TokenizeTypescript(cls: Classes, s: string) returns (r: LexResult)
    requires Sane(cls)
    ensures r.Tokens? ==> Complete(cls, s, r.tokens) && AllRead(cls, s, r.tokens)
    ensures r.LexError? ==> forall ts :: !Complete(cls, s, ts)
  {
    var tokens: seq<Token> := [];
    var index, line := 0, 1;
    while index < |s|
      invariant 0 <= index <= |s| && Reached(cls, s, tokens, index, line)
      decreases |s| - index
    {
      var skip := SkipTrivia(cls, s, index, line);
      if skip.OpenComment? {
        forall us ensures !Complete(cls, s, us) { StuckMeansNone(cls, s, tokens, index, us); }
        return LexError(line);
      }
      if skip.Skipped? {
        PassTrivia(cls, s, tokens, index, line, skip.next, skip.line);
        index, line := skip.next, skip.line;
        continue;
      }
      var next := ScanToken(cls, s, index, line, SlashStartsRegex(tokens));
      if next.Failed? {
        NoPieceHere(cls, s, index);
        forall us ensures !Complete(cls, s, us) { StuckMeansNone(cls, s, tokens, index, us); }
        return LexError(line);
      }
      PassToken(cls, s, tokens, index, line, next.token, next.line);
      tokens, index, line := tokens + [next.token], next.token.end, next.line;
    }
    AllTokensRead(cls, s, tokens);
    return Tokens(tokens);
  }

  // ---------------------------------------------------------------- the token list is unique

  lemma PieceIsUnique(cls: Classes, s: string, lo: nat, a: nat, b: nat)
    requires Sane(cls) && Piece(cls, s, lo, a) && Piece(cls, s, lo, b)
    ensures a == b
  {
  }

  /** Trivia can be read from the front as well. */
  lemma {:induction false} TriviaFront(cls: Classes, s: string, lo: nat, hi: nat)
    requires lo < hi && Trivia(cls, s, lo, hi)
    ensures exists mid: nat :: Piece(cls, s, lo, mid) && mid <= hi && Trivia(cls, s, mid, hi)
    decreases hi
  {
    var last :| lo <= last < hi && Trivia(cls, s, lo, last) && Piece(cls, s, last, hi);
    if lo == last {
      assert Trivia(cls, s, hi, hi);
    } else {
      TriviaFront(cls, s, lo, last);
      var mid: nat :| Piece(cls, s, lo, mid) && mid <= last && Trivia(cls, s, mid, last);
      TriviaSnoc(cls, s, mid, last, hi);
    }
  }

  /** Trivia that goes on past `a` has a piece at `a`. */
  lemma {:induction false} TriviaGoesOn(cls: Classes, s: string, lo: nat, a: nat, b: nat)
    requires Sane(cls) && lo <= a < b && Trivia(cls, s, lo, a) && Trivia(cls, s, lo, b)
    ensures exists e: nat :: Piece(cls, s, a, e)
    decreases a - lo
  {
    TriviaFront(cls, s, lo, b);
    var mid: nat :| Piece(cls, s, lo, mid) && mid <= b && Trivia(cls, s, mid, b);
    if lo < a {
      TriviaFront(cls, s, lo, a);
      var mid': nat :| Piece(cls, s, lo, mid') && mid' <= a && Trivia(cls, s, mid', a);
      PieceIsUnique(cls, s, lo, mid, mid');
      TriviaGoesOn(cls, s, mid, a, b);
    }
  }

  lemma ExtentIsUnique(cls: Classes, s: string, kind: Kind, start: nat, a: nat, b: nat)
    requires Extent(cls, s, kind, start, a) && Extent(cls, s, kind, start, b)
    ensures a == b
  {
    if kind.Regex? {
      var c: nat :| c < a && RegexCloses(s, start + 1, c) && (forall k :: c < k < a ==> cls.isAlpha(s[k]))
                    && (a < |s| ==> !cls.isAlpha(s[a]));
      var d: nat :| d < b && RegexCloses(s, start + 1, d) && (forall k :: d < k < b ==> cls.isAlpha(s[k]))
                    && (b < |s| ==> !cls.isAlpha(s[b]));
      assert c == d;
    }
  }

  /** Each element may follow the ones before it. */
  ghost predicate Built<T>(next: (seq<T>, T) -> bool, ts: seq<T>) {
    forall k :: 0 <= k < |ts| ==> next(ts[..k], ts[k])
  }

  /** At most one element may follow, and none after a finished list. */
  ghost predicate Deterministic<T(!new)>(next: (seq<T>, T) -> bool, done: seq<T> -> bool) {
    && (forall front, t, u :: next(front, t) && next(front, u) ==> t == u)
    && (forall front, t :: next(front, t) ==> !done(front))
  }

  lemma {:induction false} BuiltAgree<T(!new)>(
    next: (seq<T>, T) -> bool, done: seq<T> -> bool, ts: seq<T>, us: seq<T>, n: nat)
    requires Deterministic(next, done) && Built(next, ts) && Built(next, us) && n <= |ts| && n <= |us|
    ensures ts[..n] == us[..n]
  {
    if n > 0 {
      var k := n - 1;
      BuiltAgree(next, done, ts, us, k);
      assert next(ts[..k], ts[k]) && next(us[..k], us[k]);
      assert ts[..n] == ts[..k] + [ts[k]] && us[..n] == us[..k] + [us[k]];
    }
  }

  /** A finished list is no proper prefix of another list, so there is at most one. */
  lemma FinishedIsWhole<T(!new)>(next: (seq<T>, T) -> bool, done: seq<T> -> bool, ts: seq<T>, us: seq<T>)
    requires Deterministic(next, done) && Built(next, ts) && Built(next, us)
    ensures done(ts) ==> us <= ts
  {
    var n := if |ts| < |us| then |ts| else |us|;
    BuiltAgree(next, done, ts, us, n);
    assert ts[..|ts|] == ts;
    if |ts| < |us| { assert next(us[..n], us[n]); }
    assert us[..|us|] == us;
  }

  /** Every list is finished or goes on as the finished one does. */
  lemma FinishedGoesOn<T(!new)>(next: (seq<T>, T) -> bool, done: seq<T> -> bool, ts: seq<T>, us: seq<T>)
    requires Deterministic(next, done) && Built(next, ts) && Built(next, us) && done(us)
    ensures ts == us || (|ts| < |us| && next(ts, us[|ts|]))
  {
    FinishedIsWhole(next, done, us, ts);
    assert us[..|ts|] == ts && us[..|us|] == us;
    assert |ts| < |us| ==> next(us[..|ts|], us[|ts|]);
  }

  ghost function Follows(cls: Classes, s: string): (seq<Token>, Token) -> bool {
    (front, t) => Placed(cls, s, front, t)
  }

  ghost function Finished(cls: Classes, s: string): seq<Token> -> bool {
    ts => EndOf(ts) <= |s| && Trivia(cls, s, EndOf(ts), |s|)
  }

  lemma NextTokenIsUnique(cls: Classes, s: string, front: seq<Token>, t: Token, u: Token)
    requires Sane(cls) && Placed(cls, s, front, t) && Placed(cls, s, front, u)
    ensures t == u
  {
    SameStart(cls, s, EndOf(front), t.start, u.start);
    ExtentIsUnique(cls, s, t.kind, t.start, t.end, u.end);
  }

  lemma SameStart(cls: Classes, s: string, lo: nat, a: nat, b: nat)
    requires Sane(cls) && lo <= a && lo <= b && Trivia(cls, s, lo, a) && Trivia(cls, s, lo, b)
    requires !StartsTrivia(cls, s, a) && !StartsTrivia(cls, s, b)
    ensures a == b
  {
    if a < b { TriviaGoesOn(cls, s, lo, a, b); }
    if b < a { TriviaGoesOn(cls, s, lo, b, a); }
  }

  lemma {:induction false} NoTokenAfterTheEnd(cls: Classes, s: string, front: seq<Token>, t: Token)
    requires Sane(cls) && Placed(cls, s, front, t)
    ensures !Trivia(cls, s, EndOf(front), |s|)
  {
    if Trivia(cls, s, EndOf(front), |s|) { TriviaGoesOn(cls, s, EndOf(front), t.start, |s|); }
  }

  lemma LexingIsDeterministic(cls: Classes, s: string)
    requires Sane(cls)
    ensures Deterministic(Follows(cls, s), Finished(cls, s))
  {
    forall front, t, u | Placed(cls, s, front, t) && Placed(cls, s, front, u) ensures t == u {
      NextTokenIsUnique(cls, s, front, t, u);
    }
    forall front, t | Placed(cls, s, front, t) ensures !Trivia(cls, s, EndOf(front), |s|) {
      NoTokenAfterTheEnd(cls, s, front, t);
    }
  }

  lemma TokenizedIsBuilt(cls: Classes, s: string, ts: seq<Token>)
    requires Tokenized(cls, s, ts)
    ensures Built(Follows(cls, s), ts)
  {
    forall k | 0 <= k < |ts| ensures Follows(cls, s)(ts[..k], ts[k]) {
      assert Placed(cls, s, ts[..k], ts[k]);
    }
  }

  /** The source has at most one complete token list. */
  lemma TokenizationIsUnique(cls: Classes, s: string, ts: seq<Token>, us: seq<Token>)
    requires Sane(cls) && Complete(cls, s, ts) && Complete(cls, s, us)
    ensures ts == us
  {
    LexingIsDeterministic(cls, s);
    TokenizedIsBuilt(cls, s, ts);
    TokenizedIsBuilt(cls, s, us);
    FinishedIsWhole(Follows(cls, s), Finished(cls, s), ts, us);
    FinishedIsWhole(Follows(cls, s), Finished(cls, s), us, ts);
  }

  /** At `index` there is neither a piece of trivia nor a token. */
  ghost predicate NothingFits(cls: Classes, s: string, regexAllowed: bool, index: nat) {
    && index < |s| && (forall e: nat :: !Piece(cls, s, index, e))
    && (StartsTrivia(cls, s, index)
        || forall e: nat :: !Extent(cls, s, KindAt(cls, s, index, regexAllowed), index, e))
  }

  lemma NoTokenFits(cls: Classes, s: string, ts: seq<Token>, index: nat, t: Token)
    requires Sane(cls) && EndOf(ts) <= index && Trivia(cls, s, EndOf(ts), index)
    requires NothingFits(cls, s, SlashStartsRegex(ts), index)
    ensures !Placed(cls, s, ts, t)
  {
    if Placed(cls, s, ts, t) {
      if t.start < index {
        TriviaGoesOn(cls, s, EndOf(ts), t.start, index);
      } else if index < t.start {
        TriviaGoesOn(cls, s, EndOf(ts), index, t.start);
      }
    }
  }

  /** Where no piece of trivia and no token fits, no token list is complete. */
  lemma {:induction false} StuckMeansNone(cls: Classes, s: string, ts: seq<Token>, index: nat, us: seq<Token>)
    requires Sane(cls) && EndOf(ts) <= index && Trivia(cls, s, EndOf(ts), index) && Tokenized(cls, s, ts)
    requires NothingFits(cls, s, SlashStartsRegex(ts), index)
    ensures !Complete(cls, s, us)
  {
    if Complete(cls, s, us) {
      LexingIsDeterministic(cls, s);
      TokenizedIsBuilt(cls, s, ts);
      TokenizedIsBuilt(cls, s, us);
      forall t ensures !Follows(cls, s)(ts, t) { NoTokenFits(cls, s, ts, index, t); }
      if Trivia(cls, s, EndOf(ts), |s|) { TriviaGoesOn(cls, s, EndOf(ts), index, |s|); }
      FinishedGoesOn(Follows(cls, s), Finished(cls, s), ts, us);
    }
  }

  // ---------------------------------------------------------------- what tokens look like

  predicate WordStart(cls: Classes, c: char) {
    c in {'$', '_'} || cls.isAlpha(c) || c >= 128 as char
  }

  /** No listed operator longer than `n` starts at `i`. */
  ghost predicate NoneLonger(s: string, i: nat, n: nat) {
    forall op :: op in OPERATORS && StartsWith(s, i, op) ==> |op| <= n
  }

  /** The text of a token of each kind. */
  ghost predicate Reads(cls: Classes, s: string, t: Token) {
    var v := t.value;
    match t.kind
    case String => |v| >= 2 && v[0] in {'\'', '"'} && v[|v| - 1] == v[0]
    case Template => |v| >= 2 && v[0] == '`' && v[|v| - 1] == '`'
    case Regex => |v| >= 2 && v[0] == '/'
    case Identifier => |v| >= 1 && WordStart(cls, v[0]) && forall k :: 0 < k < |v| ==> WordStart(cls, v[k]) || cls.isDigit(v[k])
    case Number =>
      |v| >= 1 && cls.isDigit(v[0]) && forall k :: 0 < k < |v| ==> cls.isAlnum(v[k]) || v[k] in {'.', '_'}
    case Operator => v in OPERATORS && NoneLonger(s, t.start, |v|)
    case Punctuation =>
      |v| == 1 && v[0] !in {'\'', '"', '`'} && !WordStart(cls, v[0]) && !cls.isDigit(v[0]) && NoneLonger(s, t.start, 0)
  }

  /** A word or number goes on as far as it can. */
  ghost predicate Maximal(cls: Classes, s: string, t: Token) {
    t.end < |s| ==>
      && (t.kind.Identifier? ==> !WordStart(cls, s[t.end]) && !cls.isDigit(s[t.end]))
      && (t.kind.Number? ==> !cls.isAlnum(s[t.end]) && s[t.end] !in {'.', '_'})
  }

  lemma {:induction false} LongestIsTaken(s: string, i: nat, n: nat)
    requires i < |s| && n == OperatorLength(s, i)
    ensures NoneLonger(s, i, n)
  {
    forall op | op in OPERATORS && StartsWith(s, i, op) ensures |op| <= n { ListedIsNoLonger(s, i, op); }
  }

  lemma OperatorReads(cls: Classes, s: string, t: Token)
    requires t.kind.Operator? && t.value in OPERATORS && NoneLonger(s, t.start, |t.value|)
    ensures Reads(cls, s, t)
  {
  }

  lemma PunctuationReads(cls: Classes, s: string, t: Token)
    requires t.kind.Punctuation? && |t.value| == 1 && t.value[0] !in {'\'', '"', '`'}
    requires !WordStart(cls, t.value[0]) && !cls.isDigit(t.value[0]) && NoneLonger(s, t.start, 0)
    ensures Reads(cls, s, t)
  {
  }

  lemma LexemeIsPlain(cls: Classes, s: string, regexAllowed: bool, t: Token)
    requires Lexeme(cls, s, regexAllowed, t) && (t.kind.Operator? || t.kind.Punctuation?)
    ensures |t.value| > 0 && (t.kind.Operator? ==> |t.value| == OperatorLength(s, t.start))
    ensures t.kind.Punctuation? ==>
              && |t.value| == 1 && OperatorLength(s, t.start) == 0 && t.value[0] !in {'\'', '"', '`'}
              && !WordStart(cls, t.value[0]) && !cls.isDigit(t.value[0])
  {
  }

  lemma {:induction false} PlainLexemeReads(cls: Classes, s: string, regexAllowed: bool, t: Token)
    requires Lexeme(cls, s, regexAllowed, t) && (t.kind.Operator? || t.kind.Punctuation?)
    ensures Reads(cls, s, t)
  {
    LexemeIsPlain(cls, s, regexAllowed, t);
    if t.kind.Operator? {
      OperatorIsListed(s, t.start, t.value);
      LongestIsTaken(s, t.start, |t.value|);
      OperatorReads(cls, s, t);
    } else {
      LongestIsTaken(s, t.start, 0);
      PunctuationReads(cls, s, t);
    }
  }

  lemma {:induction false} LongLexemeReads(cls: Classes, s: string, regexAllowed: bool, t: Token)
    requires Lexeme(cls, s, regexAllowed, t) && !t.kind.Operator? && !t.kind.Punctuation?
    ensures Reads(cls, s, t)
  {
    if t.kind.Regex? {
      assert RegexEnds(cls, s, t.start + 1, t.end);
    }
  }

  lemma LexemeIsMaximal(cls: Classes, s: string, regexAllowed: bool, t: Token)
    requires Lexeme(cls, s, regexAllowed, t)
    ensures Maximal(cls, s, t)
  {
  }

  lemma {:induction false} LexemeReads(cls: Classes, s: string, regexAllowed: bool, t: Token)
    requires Lexeme(cls, s, regexAllowed, t)
    ensures Reads(cls, s, t) && Maximal(cls, s, t)
  {
    LexemeIsMaximal(cls, s, regexAllowed, t);
    if t.kind.Operator? || t.kind.Punctuation? {
      PlainLexemeReads(cls, s, regexAllowed, t);
    } else {
      LongLexemeReads(cls, s, regexAllowed, t);
    }
  }

  lemma RegexAfterSlash(cls: Classes, s: string, front: seq<Token>, t: Token)
    requires Lexeme(cls, s, SlashStartsRegex(front), t)
    ensures |t.value| > 0 && (t.kind.Regex? <==> t.value[0] == '/' && SlashStartsRegex(front))
  {
  }

  /** A slash begins a regular expression only where one may stand. */
  lemma {:induction false} RegexIff(cls: Classes, s: string, ts: seq<Token>, k: nat)
    requires Tokenized(cls, s, ts) && k < |ts|
    ensures |ts[k].value| > 0
    ensures ts[k].kind.Regex? <==>
              && ts[k].value[0] == '/'
              && (k == 0 || ts[k - 1].value in REGEX_PREFIX_TOKENS || ts[k - 1].value in REGEX_PREFIX_KEYWORDS)
  {
    var front := ts[..k];
    assert Placed(cls, s, front, ts[k]);
    RegexAfterSlash(cls, s, front, ts[k]);
    assert k > 0 ==> front[|front| - 1] == ts[k - 1];
  }

  /** Every token is its part of the text and reads as its kind says. */
  lemma {:induction false} TokensRead(cls: Classes, s: string, ts: seq<Token>, k: nat)
    requires Tokenized(cls, s, ts) && k < |ts|
    ensures ts[k].start < ts[k].end <= |s| && ts[k].value == s[ts[k].start..ts[k].end]
    ensures Reads(cls, s, ts[k]) && Maximal(cls, s, ts[k])
  {
    var front := ts[..k];
    assert Placed(cls, s, front, ts[k]);
    LexemeReads(cls, s, SlashStartsRegex(front), ts[k]);
  }

  ghost predicate AllRead(cls: Classes, s: string, ts: seq<Token>) {
    forall k :: 0 <= k < |ts| ==> Reads(cls, s, ts[k]) && Maximal(cls, s, ts[k])
  }

  lemma {:induction false} AllTokensRead(cls: Classes, s: string, ts: seq<Token>)
    requires Tokenized(cls, s, ts)
    ensures AllRead(cls, s, ts)
  {
    forall k | 0 <= k < |ts| ensures Reads(cls, s, ts[k]) && Maximal(cls, s, ts[k]) { TokensRead(cls, s, ts, k); }
  }

  // ---------------------------------------------------------------- lines that are wrong

  /** A backslash directly before a newline. */
  predicate EscapesNewline(s: string, i: nat) {
    i + 1 < |s| && s[i] == '\\' && s[i + 1] == '\n'
  }

  lemma RegexNewlineIsEscaped(cls: Classes, s: string, regexAllowed: bool, t: Token)
    requires Sane(cls) && Lexeme(cls, s, regexAllowed, t) && t.kind.Regex? && '\n' in t.value
    ensures exists i: nat :: EscapesNewline(s, i)
  {
    var n :| 0 <= n < |t.value| && t.value[n] == '\n';
    var k, lo := t.start + n, t.start + 1;
    assert s[k] == '\n';
    var c: nat :| c < t.end && RegexCloses(s, lo, c) && (forall j :: c < j < t.end ==> cls.isAlpha(s[j]))
                  && (t.end < |s| ==> !cls.isAlpha(s[t.end]));
    assert k < c;
    assert !Live(s, lo, k);
    assert EscapesNewline(s, k - 1);
  }

  /** In a text with no backslash directly before a newline, every token's line is right. */
  lemma LinesRightWithoutEscapes(cls: Classes, s: string, ts: seq<Token>, k: nat)
    requires Sane(cls) && Tokenized(cls, s, ts) && k < |ts| && forall i: nat :: !EscapesNewline(s, i)
    ensures ts[k].line == 1 + Newlines(s, 0, ts[k].start)
  {
    forall i | 0 <= i < k && ts[i].kind.Regex? ensures '\n' !in ts[i].value {
      assert Placed(cls, s, ts[..i], ts[i]);
      if '\n' in ts[i].value { RegexNewlineIsEscaped(cls, s, SlashStartsRegex(ts[..i]), ts[i]); }
    }
    LineIsRightIff(cls, s, ts, k);
  }

  const ASCII := Classes(
    c => c == ' ' || '\t' <= c <= '\r', c => 'a' <= c <= 'z' || 'A' <= c <= 'Z', c => '0' <= c <= '9',
    c => 'a' <= c <= 'z' || 'A' <= c <= 'Z' || '0' <= c <= '9')

  /** A regular expression literal with an escaped newline, and a word after it. */
  const FOLDED := "/\\\n/ x"
  const FOLDED_REGEX := Token("/\\\n/", 0, 4, 1, Regex)
  const FOLDED_WORD := Token("x", 5, 6, 1, Identifier)

  lemma FoldedRegexCloses()
    ensures RegexCloses(FOLDED, 1, 3)
  {
    var s := FOLDED;
    assert Backslashes(s, 1, 1) == 0 && Backslashes(s, 1, 2) == 1 && Backslashes(s, 1, 3) == 0;
    assert Live(s, 1, 1) && !Live(s, 1, 2) && Live(s, 1, 3);
    assert !InClass(s, 1, 1) && !InClass(s, 1, 2) && !InClass(s, 1, 3);
    assert Inside(s, 1, 1);
  }

  lemma FoldedRegexPlaced()
    ensures Placed(ASCII, FOLDED, [], FOLDED_REGEX)
  {
    FoldedRegexCloses();
    assert FOLDED[0..4] == FOLDED_REGEX.value;
    assert RegexEnds(ASCII, FOLDED, 1, 4);
  }

  lemma FoldedNewlines()
    ensures Newlines(FOLDED, 0, 4) == 1 == Newlines(FOLDED, 0, 5)
  {
    var s := FOLDED;
    NoNewlines(s, 0, 2);
    NoNewlines(s, 3, 5);
    NoNewlines(s, 3, 4);
    NewlinesSplit(s, 0, 2, 3);
    NewlinesSplit(s, 0, 3, 4);
    NewlinesSplit(s, 0, 3, 5);
    assert Newlines(s, 2, 3) == Newlines(s, 2, 2) + 1;
  }

  lemma FoldedWordPlaced()
    ensures Placed(ASCII, FOLDED, [FOLDED_REGEX], FOLDED_WORD)
  {
    var s, front := FOLDED, [FOLDED_REGEX];
    FoldedNewlines();
    assert s[5..6] == "x";
    assert front[..0] == [] && Uncounted(s, front) == Uncounted(s, front[..0]) + UncountedIn(s, FOLDED_REGEX);
    assert Trivia(ASCII, s, 4, 4) && Piece(ASCII, s, 4, 5);
  }

  /** The word is on the second line of this text, and its token says the first. */
  lemma {:induction false} FoldedLineIsWrong()
    ensures Sane(ASCII) && Complete(ASCII, FOLDED, [FOLDED_REGEX, FOLDED_WORD])
    ensures FOLDED_WORD.line == 1 && 1 + Newlines(FOLDED, 0, FOLDED_WORD.start) == 2
  {
    var ts := [FOLDED_REGEX, FOLDED_WORD];
    FoldedRegexPlaced();
    FoldedWordPlaced();
    FoldedNewlines();
    assert ts[..0] == [] && ts[..1] == [FOLDED_REGEX];
    assert Trivia(ASCII, FOLDED, 6, 6);
  }
}
