/**
 * What the weak-test checker takes for an assertion and for one that cannot fail, said of the texts of
 * the tokens (scripts/check_weak_tests.py).
 */
module AssertionMeaning {
  import opened Values
  import opened TypeScriptDelimiters
  import opened TypeScriptCalls
  import opened TypeScriptLexer
  import opened TypeScriptAssertions

  // ---------------------------------------------------------------- expectations

  /** The k-th word after a call closed at `c` is a modifier. */
  predicate ReadsModifier(ts: seq<Token>, c: int, k: nat) {
    var p := c + 1 + 2 * k;
    0 <= p && p + 1 < |ts| && ts[p].value in {".", "?."} && ts[p + 1].value in {"not", "rejects", "resolves"}
  }

  predicate ReadsMatcher(ts: seq<Token>, p: int) {
    && 0 <= p && p + 2 < |ts| && ts[p].value in {".", "?."} && ts[p + 2].value == "("
    && |ts[p + 1].value| >= 2 && ts[p + 1].value[0] == 't' && ts[p + 1].value[1] == 'o'
  }

  /** `expect` at `i`, a call, then `n` modifiers and the call of a matcher, all before `e`. */
  ghost predicate ReadsExpect(ts: seq<Token>, m: Pairs, e: nat, i: nat, n: nat) {
    var c := Mate(m, i + 1);
    && i + 1 < |ts| && ts[i + 1].value == "(" && 0 <= c && c + 2 * n + 3 < e
    && (forall k: nat :: k < n ==> ReadsModifier(ts, c, k))
    && ReadsMatcher(ts, c + 1 + 2 * n)
  }

  lemma ModifierIff(ts: seq<Token>, e: nat, c: int, k: nat)
    requires e <= |ts| && c >= 0
    ensures Modifies(ts, e, c, k) <==> c + 2 + 2 * k < e && ReadsModifier(ts, c, k)
  {
  }

  lemma MatcherIff(ts: seq<Token>, e: nat, p: int)
    requires e <= |ts|
    ensures MatcherAt(ts, e, p) <==> p + 2 < e && ReadsMatcher(ts, p)
  {
  }

  lemma {:induction false} ExpectationIff(ts: seq<Token>, m: Pairs, e: nat, i: nat, n: nat)
    requires e <= |ts| && (0 <= Mate(m, i + 1) ==> i + 1 < Mate(m, i + 1))
    ensures Expectation(ts, m, e, i, n) <==> ReadsExpect(ts, m, e, i, n)
  {
    var c := Mate(m, i + 1);
    if 0 <= c {
      MatcherIff(ts, e, DotOf(c, n));
      forall k: nat | k < n
        ensures c + 2 * n + 3 < e ==> (Modifies(ts, e, c, k) <==> ReadsModifier(ts, c, k))
      {
        ModifierIff(ts, e, c, k);
      }
    }
  }

  predicate NotAt(ts: seq<Token>, c: int, k: nat) {
    0 <= c + 2 + 2 * k < |ts| && ts[c + 2 + 2 * k].value == "not"
  }

  /** Which of the first `n` modifiers are `not`. */
  function NotsAt(ts: seq<Token>, c: int, n: nat): set<nat> {
    set k: nat | k < n && NotAt(ts, c, k)
  }

  lemma NotsAtMore(ts: seq<Token>, c: int, n: nat)
    ensures |NotsAt(ts, c, n + 1)| == |NotsAt(ts, c, n)| + if NotAt(ts, c, n) then 1 else 0
  {
    assert NotsAt(ts, c, n + 1) == NotsAt(ts, c, n) + if NotAt(ts, c, n) then {n} else {};
  }

  lemma {:induction false} NotsAreCounted(ts: seq<Token>, c: int, n: nat)
    ensures Nots(ts, c, n) == |NotsAt(ts, c, n)|
  {
    if n > 0 {
      NotsAreCounted(ts, c, n - 1);
      NotsAtMore(ts, c, n - 1);
    }
  }

  // ---------------------------------------------------------------- literals

  /** What a token stands for, if it is a literal. */
  datatype Meaning = AText(text: string) | ANumber(number: Numeral) | AWord(word: string) | NoLiteral

  function MeaningOf(t: Token, rd: Reading): Meaning {
    if t.kind.String? && rd.text(t.value).Some? then AText(rd.text(t.value).value)
    else if t.kind.Number? && rd.number(t.value).Some? then ANumber(rd.number(t.value).value)
    else if t.value == "false" || t.value == "null" || t.value == "true" || t.value == "undefined" then AWord(t.value)
    else NoLiteral
  }

  lemma MarksDiffer()
    ensures (LITERAL + "string")[8] == 's' && (LITERAL + "bigint")[8] == 'b' && (LITERAL + "number")[8] == 'n'
  {
  }

  lemma WordMarkIff(a: string, b: string)
    ensures LITERAL + a == LITERAL + b <==> a == b
  {
    assert (LITERAL + a)[8..] == a && (LITERAL + b)[8..] == b;
  }

  lemma {:induction false} SameLiteralIff(t: Token, u: Token, rd: Reading)
    ensures LiteralOf(t, rd).Some? <==> !MeaningOf(t, rd).NoLiteral?
    ensures LiteralOf(t, rd).Some? ==> (LiteralOf(t, rd) == LiteralOf(u, rd) <==> MeaningOf(t, rd) == MeaningOf(u, rd))
  {
    MarksDiffer();
    WordMarkIff(t.value, u.value);
  }

  lemma {:induction false} WordKeyIff(t: Token, rd: Reading, word: string)
    ensures LiteralOf(t, rd) == Some([LITERAL + word]) <==> MeaningOf(t, rd) == AWord(word)
  {
    WordMarkIff(t.value, word);
  }

  // ---------------------------------------------------------------- names joined by dots

  predicate Name(cls: Classes, w: string) {
    w != "" && WordStart(cls, w[0]) && forall k :: 0 < k < |w| ==> WordStart(cls, w[k]) || cls.isDigit(w[k])
  }

  /** Names at the even places, dots at the odd ones. */
  ghost predicate Path(cls: Classes, key: seq<string>) {
    |key| % 2 == 1 && forall k :: 0 <= k < |key| ==> if k % 2 == 0 then Name(cls, key[k]) else key[k] in {".", "?."}
  }

  lemma WordIff(cls: Classes, w: string)
    ensures IsWord(cls, w) <==> Name(cls, w)
  {
  }

  lemma PathMore(cls: Classes, key: seq<string>)
    requires |key| >= 3
    ensures Path(cls, key) <==> Name(cls, key[0]) && key[1] in {".", "?."} && Path(cls, key[2..])
  {
    var rest := key[2..];
    assert forall k :: 2 <= k < |key| ==> key[k] == rest[k - 2];
    if Name(cls, key[0]) && key[1] in {".", "?."} && Path(cls, rest) {
      forall k | 0 <= k < |key| ensures if k % 2 == 0 then Name(cls, key[k]) else key[k] in {".", "?."} {
        assert k >= 2 ==> key[k] == rest[k - 2] && (k - 2) % 2 == k % 2;
      }
    }
    if Path(cls, key) {
      forall k | 0 <= k < |rest| ensures if k % 2 == 0 then Name(cls, rest[k]) else rest[k] in {".", "?."} {
        assert rest[k] == key[k + 2] && (k + 2) % 2 == k % 2;
      }
    }
  }

  lemma {:induction false} DottedIff(cls: Classes, key: seq<string>)
    ensures Dotted(cls, key) <==> Path(cls, key)
    decreases |key|
  {
    if |key| > 0 { WordIff(cls, key[0]); }
    if |key| >= 3 {
      DottedIff(cls, key[2..]);
      PathMore(cls, key);
      assert key[1..][1..] == key[2..];
    } else if |key| == 2 {
      assert key[1..][1..] == [] && !Dotted(cls, []) && !DottedOn(cls, key[1..]);
    }
  }

  // ---------------------------------------------------------------- operands

  /** The range is one token that stands for something. */
  predicate IsLiteral(ts: seq<Token>, r: Range, rd: Reading) {
    r.1 == r.0 + 1 <= |ts| && !MeaningOf(ts[r.0], rd).NoLiteral?
  }

  lemma LiteralIff(ts: seq<Token>, r: Range, rd: Reading)
    ensures Literal(ts, r.0, r.1, rd) <==> IsLiteral(ts, r, rd)
  {
    if r.0 < |ts| { SameLiteralIff(ts[r.0], ts[r.0], rd); }
  }

  /** The texts of the tokens of a range. */
  ghost predicate Spelled(ts: seq<Token>, r: Range, key: seq<string>) {
    r.0 <= r.1 <= |ts| && |key| == r.1 - r.0 && forall k :: 0 <= k < |key| ==> key[k] == ts[r.0 + k].value
  }

  /** One literal twice, or one path of names twice, whatever parentheses are around them. */
  ghost predicate SameTwice(ts: seq<Token>, m: Pairs, rd: Reading, x: Range, y: Range) {
    var a, b := Strip(ts, x.0, x.1, m), Strip(ts, y.0, y.1, m);
    || (IsLiteral(ts, a, rd) && IsLiteral(ts, b, rd) && MeaningOf(ts[a.0], rd) == MeaningOf(ts[b.0], rd))
    || (&& !IsLiteral(ts, a, rd) && !IsLiteral(ts, b, rd)
        && exists key :: Path(rd.cls, key) && Spelled(ts, a, key) && Spelled(ts, b, key))
  }

  lemma SpelledIff(ts: seq<Token>, r: Range, key: seq<string>)
    requires r.0 <= r.1 <= |ts|
    ensures Spelled(ts, r, key) <==> key == Texts(ts, r.0, r.1)
  {
  }

  /** A key that is not a literal's is comparable exactly if it is a path. */
  lemma {:induction false} ComparableIff(ts: seq<Token>, r: Range, rd: Reading)
    requires NoMarks(ts) && r.0 <= r.1 <= |ts|
    ensures SelfComparable(rd.cls, KeyOf(ts, r.0, r.1, rd)) <==> IsLiteral(ts, r, rd) || Path(rd.cls, Texts(ts, r.0, r.1))
  {
    LiteralIff(ts, r, rd);
    DottedIff(rd.cls, Texts(ts, r.0, r.1));
    if IsLiteral(ts, r, rd) { LiteralKeyIsMarked(ts[r.0], rd); }
    if r.0 < r.1 { assert Texts(ts, r.0, r.1)[0] == ts[r.0].value; }
  }

  lemma {:induction false} SameExpressionIff(ts: seq<Token>, a: Range, b: Range, rd: Reading)
    requires NoMarks(ts) && a.0 <= a.1 <= |ts| && b.0 <= b.1 <= |ts|
    ensures SameExpression(ts, a, b, rd) && SelfComparable(rd.cls, KeyOf(ts, a.0, a.1, rd)) <==>
              || (IsLiteral(ts, a, rd) && IsLiteral(ts, b, rd) && MeaningOf(ts[a.0], rd) == MeaningOf(ts[b.0], rd))
              || (&& !IsLiteral(ts, a, rd) && !IsLiteral(ts, b, rd)
                  && Texts(ts, a.0, a.1) == Texts(ts, b.0, b.1) && Path(rd.cls, Texts(ts, a.0, a.1)))
  {
    LiteralIff(ts, a, rd);
    LiteralIff(ts, b, rd);
    ComparableIff(ts, a, rd);
    if IsLiteral(ts, a, rd) && IsLiteral(ts, b, rd) { SameLiteralIff(ts[a.0], ts[b.0], rd); }
  }

  lemma {:induction false} AlikeMeans(ts: seq<Token>, m: Pairs, rd: Reading, x: Range, y: Range)
    requires NoMarks(ts)
    ensures Alike(ts, m, rd, x, y) <==> SameTwice(ts, m, rd, x, y)
  {
    var a, b := Strip(ts, x.0, x.1, m), Strip(ts, y.0, y.1, m);
    if a.0 <= a.1 <= |ts| && b.0 <= b.1 <= |ts| {
      SameExpressionIff(ts, a, b, rd);
      forall key ensures Spelled(ts, a, key) <==> key == Texts(ts, a.0, a.1) { SpelledIff(ts, a, key); }
      forall key ensures Spelled(ts, b, key) <==> key == Texts(ts, b.0, b.1) { SpelledIff(ts, b, key); }
      assert Spelled(ts, a, Texts(ts, a.0, a.1));
    }
  }

  /** The only argument of the call is this word, whatever parentheses are around it. */
  ghost predicate SoleWord(ts: seq<Token>, m: Pairs, rd: Reading, open: nat, word: string) {
    exists x: Range :: ArgumentsOf(ts, m, open, [x]) && WordIn(ts, m, rd, x, word)
  }

  predicate WordIn(ts: seq<Token>, m: Pairs, rd: Reading, x: Range, word: string) {
    var a := Strip(ts, x.0, x.1, m);
    a.1 == a.0 + 1 <= |ts| && MeaningOf(ts[a.0], rd) == AWord(word)
  }

  lemma {:induction false} WordReads(ts: seq<Token>, m: Pairs, rd: Reading, x: Range, word: string)
    requires NoMarks(ts) && word in {"true", "false", "null", "undefined"}
    ensures ReadsAs(ts, m, rd, x, [LITERAL + word]) <==> WordIn(ts, m, rd, x, word)
  {
    var a := Strip(ts, x.0, x.1, m);
    assert Stripped(ts, m, x, a);
    LiteralIff(ts, a, rd);
    if a.0 < |ts| { WordKeyIff(ts[a.0], rd, word); }
    if a.0 < a.1 <= |ts| { assert Texts(ts, a.0, a.1)[0] == ts[a.0].value; }
  }

  lemma {:induction false} SoleWordIff(ts: seq<Token>, m: Pairs, rd: Reading, open: nat, word: string)
    requires NoMarks(ts) && word in {"true", "false", "null", "undefined"}
    ensures SoleKey(ts, m, rd, open, [LITERAL + word]) <==> SoleWord(ts, m, rd, open, word)
  {
    forall x ensures ReadsAs(ts, m, rd, x, [LITERAL + word]) <==> WordIn(ts, m, rd, x, word) {
      WordReads(ts, m, rd, x, word);
    }
    if SoleKey(ts, m, rd, open, [LITERAL + word]) {
      var ranges :| ArgumentsOf(ts, m, open, ranges) && SoleReadsAs(ts, m, rd, ranges, [LITERAL + word]);
      assert ranges == [ranges[0]];
    }
    if SoleWord(ts, m, rd, open, word) {
      var x: Range :| ArgumentsOf(ts, m, open, [x]) && WordIn(ts, m, rd, x, word);
      assert SoleReadsAs(ts, m, rd, [x], [LITERAL + word]);
    }
  }

  // ---------------------------------------------------------------- every call has operands

  lemma {:induction false} SplitUpTo(ts: seq<Token>, m: Pairs, open: nat, close: nat, p: nat)
    returns (kept: seq<Range>, start: nat)
    requires open < p <= close
    ensures open < start <= p && Progress(ts, m, open, close, kept, start)
    ensures forall q :: start <= q < p ==> !TopComma(ts, m, open, close, q)
    decreases p
  {
    if p == open + 1 {
      return [], p;
    }
    kept, start := SplitUpTo(ts, m, open, close, p - 1);
    if TopComma(ts, m, open, close, p - 1) {
      EndArgument(ts, m, open, close, kept, start, p - 1);
      kept, start := WithRange(kept, start, p - 1), p;
    }
  }

  lemma {:induction false} ArgumentsExist(ts: seq<Token>, m: Pairs, open: nat) returns (ranges: seq<Range>)
    requires Matching(Delims(ts), 0, |ts|, m) && CallAt(ts, open)
    ensures ArgumentsOf(ts, m, open, ranges)
  {
    assert OpenAt(Delims(ts), open);
    CloseInRange(Delims(ts), m, open);
    var close := Mate(m, open);
    var kept, start := SplitUpTo(ts, m, open, close, close);
    CoverMore(ts, m, open, close, kept, start, close);
    ranges := WithRange(kept, start, close);
  }

  lemma {:induction false} SoleKeyExists(ts: seq<Token>, m: Pairs, rd: Reading, open: nat) returns (key: seq<string>)
    requires Matching(Delims(ts), 0, |ts|, m) && CallAt(ts, open)
    ensures SoleKey(ts, m, rd, open, key)
  {
    var ranges := ArgumentsExist(ts, m, open);
    key := [];
    if |ranges| == 1 {
      var x := ranges[0];
      assert OpenAt(Delims(ts), open);
      CloseInRange(Delims(ts), m, open);
      ArgumentIsClosed(ts, m, open, Mate(m, open), ranges, 0);
      MatchedWrapsClose(ts, m);
      StripIsClosed(ts, x.0, x.1, m);
      var r := Strip(ts, x.0, x.1, m);
      key := KeyOf(ts, r.0, r.1, rd);
    }
    assert SoleReadsAs(ts, m, rd, ranges, key);
  }

  lemma {:induction false} OperandsExist(ts: seq<Token>, m: Pairs, rd: Reading, e: nat, i: nat, n: nat)
    returns (actual: seq<string>, expected: seq<string>)
    requires Matching(Delims(ts), 0, |ts|, m) && Expectation(ts, m, e, i, n)
    ensures Operands(ts, m, rd, i, n, actual, expected)
  {
    var open := DotOf(Mate(m, i + 1), n) + 2;
    actual := SoleKeyExists(ts, m, rd, i + 1);
    expected := SoleKeyExists(ts, m, rd, open);
    TheseAreOperands(ts, m, rd, i, n, open, actual, expected);
  }

  // ---------------------------------------------------------------- expectations that cannot fail

  /** The matcher accepts the operands of these two calls whatever the code under test does. */
  ghost predicate Vacuous(ts: seq<Token>, m: Pairs, rd: Reading, open: nat, open': nat, matcher: string) {
    || (matcher in {"toBe", "toEqual", "toStrictEqual"} && SameSole(ts, m, rd, open, open'))
    || (matcher == "toBeTruthy" && SoleWord(ts, m, rd, open, "true"))
    || (matcher == "toBeFalsy" && SoleWord(ts, m, rd, open, "false"))
    || (matcher == "toBeNull" && SoleWord(ts, m, rd, open, "null"))
    || (matcher == "toBeUndefined" && SoleWord(ts, m, rd, open, "undefined"))
  }

  ghost predicate SameSole(ts: seq<Token>, m: Pairs, rd: Reading, open: nat, open': nat) {
    exists x: Range, y: Range ::
      ArgumentsOf(ts, m, open, [x]) && ArgumentsOf(ts, m, open', [y]) && SameTwice(ts, m, rd, x, y)
  }

  lemma {:induction false} SameSoleIff(ts: seq<Token>, m: Pairs, rd: Reading, open: nat, open': nat)
    requires NoMarks(ts)
    ensures ComparesItself(ts, m, rd, open, open') <==> SameSole(ts, m, rd, open, open')
  {
    forall x: Range, y: Range ensures Alike(ts, m, rd, x, y) <==> SameTwice(ts, m, rd, x, y) {
      AlikeMeans(ts, m, rd, x, y);
    }
  }

  lemma {:induction false} HasWordIff(ts: seq<Token>, m: Pairs, rd: Reading, open: nat, key: seq<string>, word: string)
    requires NoMarks(ts) && SoleKey(ts, m, rd, open, key) && word in {"true", "false", "null", "undefined"}
    ensures key == [LITERAL + word] <==> SoleWord(ts, m, rd, open, word)
  {
    SoleWordIff(ts, m, rd, open, word);
    if SoleKey(ts, m, rd, open, [LITERAL + word]) { SoleKeyIsUnique(ts, m, rd, open, key, [LITERAL + word]); }
  }

  lemma {:induction false} VacuousIff(
    ts: seq<Token>, m: Pairs, rd: Reading, open: nat, open': nat, matcher: string, actual: seq<string>, expected: seq<string>)
    requires NoMarks(ts) && SoleKey(ts, m, rd, open, actual) && SoleKey(ts, m, rd, open', expected)
    ensures AlwaysHolds(rd.cls, matcher, actual, expected) <==> Vacuous(ts, m, rd, open, open', matcher)
  {
    SoleKeysCompareIff(ts, m, rd, open, open', actual, expected);
    SameSoleIff(ts, m, rd, open, open');
    HasWordIff(ts, m, rd, open, actual, "true");
    HasWordIff(ts, m, rd, open, actual, "false");
    HasWordIff(ts, m, rd, open, actual, "null");
    HasWordIff(ts, m, rd, open, actual, "undefined");
  }

  /** With `n` modifiers, an even number of them `not`, and a vacuous matcher. */
  ghost predicate VacuousAfter(ts: seq<Token>, m: Pairs, rd: Reading, i: nat, c: int, n: nat) {
    && 0 <= c && c + 2 * n + 2 < |ts| && |NotsAt(ts, c, n)| % 2 == 0
    && Vacuous(ts, m, rd, i + 1, c + 2 * n + 3, ts[c + 2 * n + 2].value)
  }

  ghost predicate ReadsVacuous(ts: seq<Token>, m: Pairs, rd: Reading, e: nat, i: nat, n: nat) {
    ReadsExpect(ts, m, e, i, n) && VacuousAfter(ts, m, rd, i, Mate(m, i + 1), n)
  }

  lemma ExpectPlaces(ts: seq<Token>, m: Pairs, e: nat, i: nat, n: nat)
    requires e <= |ts| && ReadsExpect(ts, m, e, i, n)
    ensures var c := Mate(m, i + 1);
            && 0 <= c && c + 2 * n + 3 < |ts| && DotOf(c, n) + 2 == c + 2 * n + 3
            && MatcherOf(ts, m, i, n) == ts[c + 2 * n + 2].value
  {
  }

  lemma {:induction false} NegatedIff(ts: seq<Token>, m: Pairs, i: nat, n: nat)
    ensures Negated(ts, m, i, n) <==> |NotsAt(ts, Mate(m, i + 1), n)| % 2 == 1
  {
    NegatingIffOdd(ts, Mate(m, i + 1), n);
    NotsAreCounted(ts, Mate(m, i + 1), n);
  }

  lemma {:induction false} OperandsDecide(
    ts: seq<Token>, m: Pairs, rd: Reading, e: nat, i: nat, n: nat, open: nat, matcher: string)
    requires Matching(Delims(ts), 0, |ts|, m) && NoMarks(ts) && Expectation(ts, m, e, i, n)
    requires open == DotOf(Mate(m, i + 1), n) + 2 && matcher == MatcherOf(ts, m, i, n)
    ensures ExpectsNothing(ts, m, rd, e, i) <==> !Negated(ts, m, i, n) && Vacuous(ts, m, rd, i + 1, open, matcher)
  {
    var actual, expected := OperandsExist(ts, m, rd, e, i, n);
    EmptyIff(ts, m, rd, e, i, n, actual, expected);
    VacuousIff(ts, m, rd, i + 1, open, matcher, actual, expected);
  }

  lemma {:induction false} ReadingIff(ts: seq<Token>, m: Pairs, e: nat, i: nat, n: nat)
    requires Matching(Delims(ts), 0, |ts|, m) && e <= |ts|
    ensures Expectation(ts, m, e, i, n) <==> ReadsExpect(ts, m, e, i, n)
  {
    if CallAt(ts, i + 1) {
      assert OpenAt(Delims(ts), i + 1);
      CloseInRange(Delims(ts), m, i + 1);
      ExpectationIff(ts, m, e, i, n);
    }
  }

  lemma AfterIff(ts: seq<Token>, m: Pairs, rd: Reading, i: nat, c: int, n: nat, negated: bool, vacuous: bool)
    requires 0 <= c && c + 2 * n + 2 < |ts| && (negated <==> |NotsAt(ts, c, n)| % 2 == 1)
    requires vacuous == Vacuous(ts, m, rd, i + 1, c + 2 * n + 3, ts[c + 2 * n + 2].value)
    ensures VacuousAfter(ts, m, rd, i, c, n) <==> !negated && vacuous
  {
  }

  lemma {:induction false} ModifiersDecide(ts: seq<Token>, m: Pairs, rd: Reading, e: nat, i: nat, n: nat)
    requires Matching(Delims(ts), 0, |ts|, m) && NoMarks(ts) && e <= |ts|
    requires Expectation(ts, m, e, i, n) && ReadsExpect(ts, m, e, i, n)
    ensures ExpectsNothing(ts, m, rd, e, i) <==> VacuousAfter(ts, m, rd, i, Mate(m, i + 1), n)
  {
    var c := Mate(m, i + 1);
    ExpectPlaces(ts, m, e, i, n);
    NegatedIff(ts, m, i, n);
    var open, matcher := c + 2 * n + 3, ts[c + 2 * n + 2].value;
    OperandsDecide(ts, m, rd, e, i, n, open, matcher);
    AfterIff(ts, m, rd, i, c, n, Negated(ts, m, i, n), Vacuous(ts, m, rd, i + 1, open, matcher));
  }

  lemma {:induction false} VacuousExpectation(ts: seq<Token>, m: Pairs, rd: Reading, e: nat, i: nat, n: nat)
    requires Matching(Delims(ts), 0, |ts|, m) && NoMarks(ts) && e <= |ts| && Expectation(ts, m, e, i, n)
    ensures ExpectsNothing(ts, m, rd, e, i) <==> ReadsVacuous(ts, m, rd, e, i, n)
  {
    ReadingIff(ts, m, e, i, n);
    ModifiersDecide(ts, m, rd, e, i, n);
  }

  /** A word begins an expectation exactly if it reads so. */
  lemma {:induction false} ExpectsIff(ts: seq<Token>, m: Pairs, e: nat, i: nat)
    requires Matching(Delims(ts), 0, |ts|, m) && e <= |ts|
    ensures Expects(ts, m, e, i) <==> exists n: nat :: ReadsExpect(ts, m, e, i, n)
  {
    forall n: nat ensures Expectation(ts, m, e, i, n) <==> ReadsExpect(ts, m, e, i, n) { ReadingIff(ts, m, e, i, n); }
  }

  lemma {:induction false} EmptyReads(ts: seq<Token>, m: Pairs, rd: Reading, e: nat, i: nat) returns (n: nat)
    requires Matching(Delims(ts), 0, |ts|, m) && NoMarks(ts) && e <= |ts| && ExpectsNothing(ts, m, rd, e, i)
    ensures ReadsVacuous(ts, m, rd, e, i, n)
  {
    var k: nat, actual, expected :| EmptyExpectation(ts, m, rd, e, i, k, actual, expected);
    VacuousExpectation(ts, m, rd, e, i, k);
    n := k;
  }

  /** An expectation is taken for one that cannot fail exactly if it reads so. */
  lemma {:induction false} ExpectsNothingIff(ts: seq<Token>, m: Pairs, rd: Reading, e: nat, i: nat)
    requires Matching(Delims(ts), 0, |ts|, m) && NoMarks(ts) && e <= |ts|
    ensures ExpectsNothing(ts, m, rd, e, i) <==> exists n: nat :: ReadsVacuous(ts, m, rd, e, i, n)
  {
    if ExpectsNothing(ts, m, rd, e, i) {
      var n := EmptyReads(ts, m, rd, e, i);
    }
    if n: nat :| ReadsVacuous(ts, m, rd, e, i, n) {
      ReadingIff(ts, m, e, i, n);
      VacuousExpectation(ts, m, rd, e, i, n);
    }
  }

  // ---------------------------------------------------------------- asserts

  /** `assert(` or `assert.name(`, before `e`. */
  predicate ReadsAssert(ts: seq<Token>, e: nat, i: nat, open: nat, name: Option<string>) {
    && open < e <= |ts| && ts[open].value == "("
    && if name.None? then open == i + 1
       else open == i + 3 && ts[i + 1].value in {".", "?."} && ts[i + 2].value == name.value
  }

  /** `true` is asserted, or the first two arguments are one literal or path twice. */
  ghost predicate VacuousAssert(ts: seq<Token>, m: Pairs, rd: Reading, open: nat, name: Option<string>) {
    || (name in {None, Some("ok"), Some("isTrue")} && SoleWord(ts, m, rd, open, "true"))
    || (name in {Some("deepEqual"), Some("equal"), Some("strictEqual")} && SameFirstTwo(ts, m, rd, open))
  }

  ghost predicate SameFirstTwo(ts: seq<Token>, m: Pairs, rd: Reading, open: nat) {
    exists ranges :: ArgumentsOf(ts, m, open, ranges) && |ranges| >= 2 && SameTwice(ts, m, rd, ranges[0], ranges[1])
  }

  lemma AssertCallIff(ts: seq<Token>, e: nat, i: nat, open: nat, name: Option<string>)
    requires e <= |ts|
    ensures AssertCall(ts, e, i, open, name) <==> ReadsAssert(ts, e, i, open, name)
  {
  }

  lemma {:induction false} ComparesAlikeIff(ts: seq<Token>, m: Pairs, rd: Reading, ranges: seq<Range>)
    requires NoMarks(ts)
    ensures ComparesAlike(ts, m, rd, ranges) <==> |ranges| >= 2 && SameTwice(ts, m, rd, ranges[0], ranges[1])
  {
    if |ranges| >= 2 {
      var x, y := ranges[0], ranges[1];
      AlikeMeans(ts, m, rd, x, y);
      if key :| KeyOfBoth(ts, m, rd, x, y, key) && SelfComparable(rd.cls, key) {
        AlikeKeys(ts, m, rd, x, y, key, key);
      }
      if Alike(ts, m, rd, x, y) {
        var left, right := AlikeReads(ts, m, rd, x, y);
        AlikeKeys(ts, m, rd, x, y, left, right);
        assert KeyOfBoth(ts, m, rd, x, y, left);
      }
    }
  }

  lemma {:induction false} VacuousAssertIff(ts: seq<Token>, m: Pairs, rd: Reading, open: nat, name: Option<string>)
    requires NoMarks(ts)
    ensures EmptyAssertion(ts, m, rd, open, name) <==> VacuousAssert(ts, m, rd, open, name)
  {
    SoleWordIff(ts, m, rd, open, "true");
    forall ranges
      ensures ComparesAlike(ts, m, rd, ranges) <==> |ranges| >= 2 && SameTwice(ts, m, rd, ranges[0], ranges[1])
    {
      ComparesAlikeIff(ts, m, rd, ranges);
    }
  }

  /** An `assert` counts as an assertion exactly if it reads so. */
  lemma {:induction false} AssertsIff(ts: seq<Token>, e: nat, i: nat)
    requires e <= |ts|
    ensures AssertsByCall(ts, e, i) <==> exists open: nat, name :: ReadsAssert(ts, e, i, open, name)
  {
    forall open: nat, name ensures AssertCall(ts, e, i, open, name) <==> ReadsAssert(ts, e, i, open, name) {
      AssertCallIff(ts, e, i, open, name);
    }
  }

  ghost predicate AssertsVacuously(ts: seq<Token>, m: Pairs, rd: Reading, e: nat, i: nat) {
    exists open: nat, name :: ReadsAssert(ts, e, i, open, name) && VacuousAssert(ts, m, rd, open, name)
  }

  /** It is taken for one that cannot fail exactly if it reads so. */
  lemma {:induction false} AssertsNothingIff(ts: seq<Token>, m: Pairs, rd: Reading, e: nat, i: nat)
    requires NoMarks(ts) && e <= |ts|
    ensures AssertsNothing(ts, m, rd, e, i) <==> AssertsVacuously(ts, m, rd, e, i)
  {
    forall open: nat, name
      ensures AssertCall(ts, e, i, open, name) && EmptyAssertion(ts, m, rd, open, name) <==>
                ReadsAssert(ts, e, i, open, name) && VacuousAssert(ts, m, rd, open, name)
    {
      AssertCallIff(ts, e, i, open, name);
      VacuousAssertIff(ts, m, rd, open, name);
    }
  }

  // ---------------------------------------------------------------- bodies

  /** The word at `k` of the body [s, e) begins an assertion. */
  ghost predicate ReadsAssertion(ts: seq<Token>, m: Pairs, s: nat, e: nat, k: nat) {
    && s <= k < e <= |ts| && (k == s || ts[k - 1].value !in {".", "?."})
    && (|| (ts[k].value == "expect" && exists n: nat :: ReadsExpect(ts, m, e, k, n))
        || (ts[k].value == "assert" && exists open: nat, name :: ReadsAssert(ts, e, k, open, name)))
  }

  /** What the summary of a body counts, said of the texts of its tokens. */
  lemma {:induction false} AssertionIff(ts: seq<Token>, m: Pairs, s: nat, e: nat, k: nat)
    requires Matching(Delims(ts), 0, |ts|, m) && e <= |ts|
    ensures AssertionAt(ts, m, s, e, k) <==> ReadsAssertion(ts, m, s, e, k)
  {
    ExpectsIff(ts, m, e, k);
    AssertsIff(ts, e, k);
  }

  /** And what it reports as a tautology. */
  lemma {:induction false} TautologyIff(ts: seq<Token>, m: Pairs, rd: Reading, s: nat, e: nat, k: nat)
    requires Matching(Delims(ts), 0, |ts|, m) && NoMarks(ts) && e <= |ts|
    ensures TautologyAt(ts, m, rd, s, e, k) <==>
              && ReadsAssertion(ts, m, s, e, k)
              && if ts[k].value == "expect" then exists n: nat :: ReadsVacuous(ts, m, rd, e, k, n)
                 else AssertsVacuously(ts, m, rd, e, k)
  {
    AssertionIff(ts, m, s, e, k);
    ExpectsNothingIff(ts, m, rd, e, k);
    AssertsNothingIff(ts, m, rd, e, k);
  }
}
