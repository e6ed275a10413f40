/**
 What counts as an assertion in a test body, and as one that cannot fail (scripts/check_weak_tests.py,
 _expression_key, _supports_self_comparison, _expect_assertion, _assert_assertion, _typescript_assertion_summary).

 How the text of a string or number literal is normalised stays a parameter.
 */
module TypeScriptAssertions {

  import opened Values
  import opened TypeScriptDelimiters
  import opened TypeScriptCalls
  import opened TypeScriptLexer

  predicate DotAt(ts: seq<Token>, p: int) {
    0 <= p < |ts| && (ts[p].value == "." || ts[p].value == "?.")
  }

  predicate CallAt(ts: seq<Token>, p: int) {
    0 <= p < |ts| && ts[p].value == "("
  }

  // ---------------------------------------------------------------- _expression_key

  datatype Numeral = BigInt(digits: string) | Decimal(digits: string)

  /** The character classes, and what a literal's text normalises to, if it can be read. */
  datatype Reading = Reading(cls: Classes, text: string -> Option<string>, number: string -> Option<Numeral>)

  const LITERAL := "literal:"

  /** The key of a token that is a literal. */
  function LiteralOf(t: Token, rd: Reading): Option<seq<string>> {
    if t.kind.String? && rd.text(t.value).Some? then Some([LITERAL + "string", rd.text(t.value).value])
    else if t.kind.Number? && rd.number(t.value).Some? then
      match rd.number(t.value).value
      case BigInt(digits) => Some([LITERAL + "bigint", digits])
      case Decimal(digits) => Some([LITERAL + "number", digits])
    else if t.value in {"false", "null", "true", "undefined"} then Some([LITERAL + t.value])
    else None
  }

  function Texts(ts: seq<Token>, s: nat, e: nat): seq<string>
    requires s <= e <= |ts|
  {
    seq(e - s, k requires 0 <= k < e - s => ts[s + k].value)
  }

  predicate Literal(ts: seq<Token>, s: nat, e: nat, rd: Reading) {
    s + 1 == e <= |ts| && LiteralOf(ts[s], rd).Some?
  }

  function KeyOf(ts: seq<Token>, s: nat, e: nat, rd: Reading): seq<string>
    requires s <= e <= |ts|
  {
    if Literal(ts, s, e, rd) then LiteralOf(ts[s], rd).value else Texts(ts, s, e)
  }

  /** The key of an expression: its literal, or its tokens, without the parentheses around it. */
  ghost predicate ReadsAs(ts: seq<Token>, m: Pairs, rd: Reading, x: Range, key: seq<string>) {
    forall r: Range {:trigger Stripped(ts, m, x, r)} ::
      Stripped(ts, m, x, r) ==> r.0 <= r.1 <= |ts| && key == KeyOf(ts, r.0, r.1, rd)
  }

  lemma ReadingIsUnique(ts: seq<Token>, m: Pairs, rd: Reading, x: Range, a: seq<string>, b: seq<string>)
    requires ReadsAs(ts, m, rd, x, a) && ReadsAs(ts, m, rd, x, b)
    ensures a == b
  {
    assert Stripped(ts, m, x, Strip(ts, x.0, x.1, m));
  }

  method ExpressionKey(ts: seq<Token>, s: nat, e: nat, m: Pairs, rd: Reading) returns (key: seq<string>)
    requires Matching(Delims(ts), 0, |ts|, m) && s <= e <= |ts| && PairClosed(m, s, e)
    ensures ReadsAs(ts, m, rd, (s, e), key)
  {
    var a, b := StripWrappingParentheses(ts, s, e, m);
    key := KeyOf(ts, a, b, rd);
  }

  /** Both are the same literal, or neither is a literal and they are the same tokens. */
  predicate SameExpression(ts: seq<Token>, x: Range, y: Range, rd: Reading)
    requires x.0 <= x.1 <= |ts| && y.0 <= y.1 <= |ts|
  {
    if Literal(ts, x.0, x.1, rd) then Literal(ts, y.0, y.1, rd) && LiteralOf(ts[x.0], rd) == LiteralOf(ts[y.0], rd)
    else !Literal(ts, y.0, y.1, rd) && Texts(ts, x.0, x.1) == Texts(ts, y.0, y.1)
  }

  /** No token reads like the key of a literal. */
  ghost predicate NoMarks(ts: seq<Token>) {
    forall k :: 0 <= k < |ts| ==> !(LITERAL <= ts[k].value)
  }

  lemma NoTokenIsAKey(cls: Classes, s: string, ts: seq<Token>, k: nat)
    requires Sane(cls) && Tokenized(cls, s, ts) && k < |ts|
    ensures !(LITERAL <= ts[k].value)
  {
    var t := ts[k];
    assert Placed(cls, s, ts[..k], t);
    assert |t.value| > 7 && s[t.start + 7] == ':' ==> s[t.start] != 'l';
    assert LITERAL[0] == 'l' && LITERAL[7] == ':';
  }

  lemma LiteralKeyIsMarked(t: Token, rd: Reading)
    requires LiteralOf(t, rd).Some?
    ensures |LiteralOf(t, rd).value| > 0 && LITERAL <= LiteralOf(t, rd).value[0]
  {
  }

  lemma LexedHasNoMarks(cls: Classes, s: string, ts: seq<Token>)
    requires Sane(cls) && Tokenized(cls, s, ts)
    ensures NoMarks(ts)
  {
    forall k | 0 <= k < |ts| ensures !(LITERAL <= ts[k].value) { NoTokenIsAKey(cls, s, ts, k); }
  }

  /** Of the expressions in one file, those with equal keys are the same. */
  lemma KeysAgreeIff(ts: seq<Token>, x: Range, y: Range, rd: Reading)
    requires NoMarks(ts) && x.0 <= x.1 <= |ts| && y.0 <= y.1 <= |ts|
    ensures KeyOf(ts, x.0, x.1, rd) == KeyOf(ts, y.0, y.1, rd) <==> SameExpression(ts, x, y, rd)
  {
    if Literal(ts, x.0, x.1, rd) && !Literal(ts, y.0, y.1, rd) { LiteralDiffers(ts, x, y, rd); }
    if Literal(ts, y.0, y.1, rd) && !Literal(ts, x.0, x.1, rd) { LiteralDiffers(ts, y, x, rd); }
  }

  lemma LiteralDiffers(ts: seq<Token>, x: Range, y: Range, rd: Reading)
    requires NoMarks(ts) && x.0 <= x.1 <= |ts| && y.0 <= y.1 <= |ts|
    requires Literal(ts, x.0, x.1, rd) && !Literal(ts, y.0, y.1, rd)
    ensures KeyOf(ts, x.0, x.1, rd) != KeyOf(ts, y.0, y.1, rd)
  {
    LiteralKeyIsMarked(ts[x.0], rd);
    if y.0 < y.1 {
      assert Texts(ts, y.0, y.1)[0] == ts[y.0].value;
    }
  }

  // ---------------------------------------------------------------- _supports_self_comparison

  predicate IsWord(cls: Classes, value: string) {
    value != "" && IsIdentifierStart(cls, value[0]) && forall k :: 0 < k < |value| ==> IsIdentifierPart(cls, value[k])
  }

  predicate IsDot(value: string) {
    value == "." || value == "?."
  }

  /** Names joined by dots. */
  predicate Dotted(cls: Classes, key: seq<string>) {
    key != [] && IsWord(cls, key[0]) && (|key| == 1 || DottedOn(cls, key[1..]))
  }

  predicate DottedOn(cls: Classes, key: seq<string>) {
    key != [] && IsDot(key[0]) && Dotted(cls, key[1..])
  }

  /** A literal, or names joined by dots. */
  predicate SelfComparable(cls: Classes, key: seq<string>) {
    key != [] && (LITERAL <= key[0] || Dotted(cls, key))
  }

  /** What is left of a key from `index` on, where names have even indices and dots odd ones. */
  predicate DottedFrom(cls: Classes, key: seq<string>, index: nat)
    requires index <= |key|
  {
    if index % 2 == 0 then Dotted(cls, key[index..]) else index == |key| || DottedOn(cls, key[index..])
  }

  lemma DottedStep(cls: Classes, key: seq<string>, index: nat)
    requires index < |key|
    ensures index % 2 == 1 ==> (DottedFrom(cls, key, index) <==> IsDot(key[index]) && DottedFrom(cls, key, index + 1))
    ensures index % 2 == 0 ==> (DottedFrom(cls, key, index) <==> IsWord(cls, key[index]) && DottedFrom(cls, key, index + 1))
  {
    assert key[index..][1..] == key[index + 1..];
  }

  method SupportsSelfComparison(cls: Classes, key: seq<string>) returns (yes: bool)
    ensures yes <==> SelfComparable(cls, key)
  {
    if key == [] { return false; }
    if LITERAL <= key[0] { return true; }
    assert key[0..] == key;
    for index := 0 to |key|
      invariant Dotted(cls, key) <==> DottedFrom(cls, key, index)
    {
      DottedStep(cls, key, index);
      if index % 2 == 1 {
        if !IsDot(key[index]) { return false; }
      } else if !IsWord(cls, key[index]) {
        return false;
      }
    }
    return |key| % 2 == 1;
  }

  // ---------------------------------------------------------------- the arguments of a call

  ghost predicate ArgumentsOf(ts: seq<Token>, m: Pairs, open: nat, ranges: seq<Range>) {
    Mate(m, open) >= 0 && Splits(ts, m, open, Mate(m, open), ranges)
  }

  /** The key of a call's only argument, or the empty key. */
  ghost predicate SoleKey(ts: seq<Token>, m: Pairs, rd: Reading, open: nat, key: seq<string>) {
    exists ranges :: ArgumentsOf(ts, m, open, ranges) && SoleReadsAs(ts, m, rd, ranges, key)
  }

  ghost predicate SoleReadsAs(ts: seq<Token>, m: Pairs, rd: Reading, ranges: seq<Range>, key: seq<string>) {
    if |ranges| == 1 then ReadsAs(ts, m, rd, ranges[0], key) else key == []
  }

  lemma SoleKeyIsUnique(ts: seq<Token>, m: Pairs, rd: Reading, open: nat, a: seq<string>, b: seq<string>)
    requires SoleKey(ts, m, rd, open, a) && SoleKey(ts, m, rd, open, b)
    ensures a == b
  {
    var x :| ArgumentsOf(ts, m, open, x) && SoleReadsAs(ts, m, rd, x, a);
    var y :| ArgumentsOf(ts, m, open, y) && SoleReadsAs(ts, m, rd, y, b);
    SplitIsUnique(ts, m, open, Mate(m, open), x, y);
    if |x| == 1 { ReadingIsUnique(ts, m, rd, x[0], a, b); }
  }

  method CallArguments(ts: seq<Token>, m: Pairs, open: nat) returns (ranges: seq<Range>)
    requires Matching(Delims(ts), 0, |ts|, m) && CallAt(ts, open)
    ensures ArgumentsOf(ts, m, open, ranges)
  {
    assert OpenAt(Delims(ts), open);
    CloseInRange(Delims(ts), m, open);
    var arguments := TopLevelArguments(ts, open, Mate(m, open), m);
    ranges := arguments.ranges;
  }

  method ArgumentKey(ts: seq<Token>, m: Pairs, rd: Reading, open: nat, ranges: seq<Range>, k: nat) returns (key: seq<string>)
    requires Matching(Delims(ts), 0, |ts|, m) && CallAt(ts, open) && ArgumentsOf(ts, m, open, ranges) && k < |ranges|
    ensures ReadsAs(ts, m, rd, ranges[k], key)
  {
    assert OpenAt(Delims(ts), open);
    CloseInRange(Delims(ts), m, open);
    ArgumentIsClosed(ts, m, open, Mate(m, open), ranges, k);
    key := ExpressionKey(ts, ranges[k].0, ranges[k].1, m, rd);
  }

  method SoleArgumentKey(ts: seq<Token>, m: Pairs, rd: Reading, open: nat) returns (key: seq<string>)
    requires Matching(Delims(ts), 0, |ts|, m) && CallAt(ts, open)
    ensures SoleKey(ts, m, rd, open, key)
  {
    var ranges := CallArguments(ts, m, open);
    key := [];
    if |ranges| == 1 { key := ArgumentKey(ts, m, rd, open, ranges, 0); }
    assert SoleReadsAs(ts, m, rd, ranges, key);
  }

  // ---------------------------------------------------------------- _expect_assertion

  predicate ExpectModifier(word: string) {
    word == "not" || word == "rejects" || word == "resolves"
  }

  predicate EqualityMatcher(word: string) {
    word == "toBe" || word == "toEqual" || word == "toStrictEqual"
  }

  /** The word after the dot at `p`. */
  function WordAt(ts: seq<Token>, p: int): string {
    if 0 <= p + 1 < |ts| then ts[p + 1].value else ""
  }

  predicate Linked(ts: seq<Token>, e: nat, p: int) {
    DotAt(ts, p) && p + 1 < e
  }

  /** Where the dot before the k-th word after a call stands. */
  function DotOf(close: int, k: nat): int {
    close + 1 + 2 * k
  }

  predicate Modifies(ts: seq<Token>, e: nat, close: int, k: nat) {
    Linked(ts, e, DotOf(close, k)) && ExpectModifier(WordAt(ts, DotOf(close, k)))
  }

  ghost predicate AllModify(ts: seq<Token>, e: nat, close: int, n: nat) {
    forall k: nat :: k < n ==> Modifies(ts, e, close, k)
  }

  predicate MatcherAt(ts: seq<Token>, e: nat, p: int) {
    Linked(ts, e, p) && "to" <= WordAt(ts, p) && p + 2 < e && CallAt(ts, p + 2)
  }

  /** After `n` modifiers a matcher is called. */
  ghost predicate Reaches(ts: seq<Token>, e: nat, close: int, n: nat) {
    AllModify(ts, e, close, n) && MatcherAt(ts, e, DotOf(close, n))
  }

  /** How often the first `n` modifiers negate. */
  function Nots(ts: seq<Token>, close: int, n: nat): nat {
    if n == 0 then 0 else Nots(ts, close, n - 1) + if WordAt(ts, DotOf(close, n - 1)) == "not" then 1 else 0
  }

  /** The first `n` modifiers negate the matcher. */
  predicate Negating(ts: seq<Token>, close: int, n: nat) {
    n > 0 && Negating(ts, close, n - 1) != (WordAt(ts, DotOf(close, n - 1)) == "not")
  }

  lemma {:induction false} NegatingIffOdd(ts: seq<Token>, close: int, n: nat)
    ensures Negating(ts, close, n) <==> Nots(ts, close, n) % 2 == 1
  {
    if n > 0 { NegatingIffOdd(ts, close, n - 1); }
  }

  predicate ExpectCall(ts: seq<Token>, m: Pairs, e: nat, i: nat) {
    i + 1 < e && CallAt(ts, i + 1) && 0 <= Mate(m, i + 1) < e
  }

  /** `expect(…)`, then `n` modifiers, then a call of a matcher, all before `e`. */
  ghost predicate Expectation(ts: seq<Token>, m: Pairs, e: nat, i: nat, n: nat) {
    ExpectCall(ts, m, e, i) && Reaches(ts, e, Mate(m, i + 1), n)
  }

  ghost predicate Expects(ts: seq<Token>, m: Pairs, e: nat, i: nat) {
    exists n: nat :: Expectation(ts, m, e, i, n)
  }

  /** This matcher accepts these operands whatever the code under test does. */
  predicate AlwaysHolds(cls: Classes, matcher: string, actual: seq<string>, expected: seq<string>) {
    || (EqualityMatcher(matcher) && actual == expected && SelfComparable(cls, actual))
    || (matcher == "toBeTruthy" && actual == [LITERAL + "true"])
    || (matcher == "toBeFalsy" && actual == [LITERAL + "false"])
    || (matcher == "toBeNull" && actual == [LITERAL + "null"])
    || (matcher == "toBeUndefined" && actual == [LITERAL + "undefined"])
  }

  predicate Negated(ts: seq<Token>, m: Pairs, i: nat, n: nat) {
    Negating(ts, Mate(m, i + 1), n)
  }

  function MatcherOf(ts: seq<Token>, m: Pairs, i: nat, n: nat): string {
    WordAt(ts, DotOf(Mate(m, i + 1), n))
  }

  /** The keys of what is expected of what. */
  ghost predicate Operands(
    ts: seq<Token>, m: Pairs, rd: Reading, i: nat, n: nat, actual: seq<string>, expected: seq<string>)
  {
    var open := DotOf(Mate(m, i + 1), n) + 2;
    open >= 0 && SoleKey(ts, m, rd, i + 1, actual) && SoleKey(ts, m, rd, open, expected)
  }

  ghost predicate EmptyExpectation(
    ts: seq<Token>, m: Pairs, rd: Reading, e: nat, i: nat, n: nat, actual: seq<string>, expected: seq<string>)
  {
    && Expectation(ts, m, e, i, n) && !Negated(ts, m, i, n)
    && Operands(ts, m, rd, i, n, actual, expected) && AlwaysHolds(rd.cls, MatcherOf(ts, m, i, n), actual, expected)
  }

  /** An expectation that is not negated and always holds. */
  ghost predicate ExpectsNothing(ts: seq<Token>, m: Pairs, rd: Reading, e: nat, i: nat) {
    exists n: nat, actual, expected :: EmptyExpectation(ts, m, rd, e, i, n, actual, expected)
  }

  lemma MatcherIsUnique(ts: seq<Token>, e: nat, close: int, n: nat, n': nat)
    requires AllModify(ts, e, close, n) && !Modifies(ts, e, close, n) && Reaches(ts, e, close, n')
    ensures n == n'
  {
    var word := WordAt(ts, DotOf(close, n'));
    assert word[0] == 't';
    assert !ExpectModifier(word);
    assert n' < n ==> Modifies(ts, e, close, n');
    assert n < n' ==> Modifies(ts, e, close, n);
  }

  /** Walks the modifiers up to the matcher, or shows that no run of modifiers leads to one. */
  method FindMatcher(ts: seq<Token>, e: nat, close: nat)
    returns (found: bool, negated: bool, position: nat, ghost n: nat)
    requires e <= |ts|
    ensures position == DotOf(close, n)
    ensures found <==> Reaches(ts, e, close, n)
    ensures forall k: nat :: Reaches(ts, e, close, k) ==> k == n
    ensures negated <==> Negating(ts, close, n)
    ensures found ==> position + 2 < e && CallAt(ts, position + 2)
  {
    negated, position, n := false, close + 1, 0;
    while position + 1 < e && DotAt(ts, position) && ExpectModifier(ts[position + 1].value)
      invariant position == DotOf(close, n) && AllModify(ts, e, close, n)
      invariant negated <==> Negating(ts, close, n)
      decreases e - position
    {
      if ts[position + 1].value == "not" { negated := !negated; }
      position, n := position + 2, n + 1;
    }
    forall k: nat | Reaches(ts, e, close, k) ensures k == n { MatcherIsUnique(ts, e, close, n, k); }
    found := MatcherAt(ts, e, position);
  }

  method JudgeMatcher(rd: Reading, matcher: string, negated: bool, actual: seq<string>, expected: seq<string>)
    returns (tautological: bool)
    ensures tautological <==> !negated && AlwaysHolds(rd.cls, matcher, actual, expected)
  {
    tautological := false;
    if !negated && EqualityMatcher(matcher) {
      var comparable := SupportsSelfComparison(rd.cls, actual);
      tautological := actual == expected && comparable;
    }
    if !negated && actual == [LITERAL + "true"] && matcher == "toBeTruthy" { tautological := true; }
    if !negated && actual == [LITERAL + "false"] && matcher == "toBeFalsy" { tautological := true; }
    if !negated && actual == [LITERAL + "null"] && matcher == "toBeNull" { tautological := true; }
    if !negated && actual == [LITERAL + "undefined"] && matcher == "toBeUndefined" { tautological := true; }
  }

  lemma ExpectationIsUnique(ts: seq<Token>, m: Pairs, e: nat, i: nat, n: nat, n': nat)
    requires Expectation(ts, m, e, i, n) && Expectation(ts, m, e, i, n')
    ensures n == n'
  {
    var close := Mate(m, i + 1);
    assert WordAt(ts, DotOf(close, n))[0] == 't';
    MatcherIsUnique(ts, e, close, n, n');
  }

  lemma OperandsAreUnique(
    ts: seq<Token>, m: Pairs, rd: Reading, i: nat, n: nat, a: seq<string>, b: seq<string>, x: seq<string>, y: seq<string>)
    requires Operands(ts, m, rd, i, n, a, b) && Operands(ts, m, rd, i, n, x, y)
    ensures a == x && b == y
  {
    SoleKeyIsUnique(ts, m, rd, i + 1, a, x);
    SoleKeyIsUnique(ts, m, rd, DotOf(Mate(m, i + 1), n) + 2, b, y);
  }

  /** Whether an expectation is empty is decided by any reading of its parts. */
  lemma EmptyIff(
    ts: seq<Token>, m: Pairs, rd: Reading, e: nat, i: nat, n: nat, actual: seq<string>, expected: seq<string>)
    requires Expectation(ts, m, e, i, n) && Operands(ts, m, rd, i, n, actual, expected)
    ensures ExpectsNothing(ts, m, rd, e, i) <==>
              !Negated(ts, m, i, n) && AlwaysHolds(rd.cls, MatcherOf(ts, m, i, n), actual, expected)
  {
    if ExpectsNothing(ts, m, rd, e, i) {
      var n': nat, x, y :| EmptyExpectation(ts, m, rd, e, i, n', x, y);
      ExpectationIsUnique(ts, m, e, i, n, n');
      OperandsAreUnique(ts, m, rd, i, n, actual, expected, x, y);
    }
    if !Negated(ts, m, i, n) && AlwaysHolds(rd.cls, MatcherOf(ts, m, i, n), actual, expected) {
      assert EmptyExpectation(ts, m, rd, e, i, n, actual, expected);
    }
  }

  lemma NoExpectation(ts: seq<Token>, m: Pairs, rd: Reading, e: nat, i: nat)
    requires forall n: nat :: !Expectation(ts, m, e, i, n)
    ensures !Expects(ts, m, e, i) && !ExpectsNothing(ts, m, rd, e, i)
  {
  }

  lemma TheseAreOperands(
    ts: seq<Token>, m: Pairs, rd: Reading, i: nat, n: nat, open: nat, actual: seq<string>, expected: seq<string>)
    requires open == DotOf(Mate(m, i + 1), n) + 2
    requires SoleKey(ts, m, rd, i + 1, actual) && SoleKey(ts, m, rd, open, expected)
    ensures Operands(ts, m, rd, i, n, actual, expected)
  {
  }

  method OperandKeys(ts: seq<Token>, m: Pairs, rd: Reading, i: nat, position: nat, ghost n: nat)
    returns (actual: seq<string>, expected: seq<string>)
    requires Matching(Delims(ts), 0, |ts|, m) && CallAt(ts, i + 1) && CallAt(ts, position + 2)
    requires position == DotOf(Mate(m, i + 1), n)
    ensures Operands(ts, m, rd, i, n, actual, expected)
  {
    actual := SoleArgumentKey(ts, m, rd, i + 1);
    expected := SoleArgumentKey(ts, m, rd, position + 2);
    TheseAreOperands(ts, m, rd, i, n, position + 2, actual, expected);
  }

  method ExpectAssertion(ts: seq<Token>, m: Pairs, rd: Reading, i: nat, e: nat)
    returns (isAssertion: bool, tautological: bool)
    requires Matching(Delims(ts), 0, |ts|, m) && i < e <= |ts|
    ensures isAssertion <==> Expects(ts, m, e, i)
    ensures tautological <==> ExpectsNothing(ts, m, rd, e, i)
  {
    if !ExpectCall(ts, m, e, i) {
      NoExpectation(ts, m, rd, e, i);
      return false, false;
    }
    var found, negated, position, n := FindMatcher(ts, e, Mate(m, i + 1));
    if !found {
      NoExpectation(ts, m, rd, e, i);
      return false, false;
    }
    assert Expectation(ts, m, e, i, n);
    var actual, expected := OperandKeys(ts, m, rd, i, position, n);
    EmptyIff(ts, m, rd, e, i, n, actual, expected);
    tautological := JudgeMatcher(rd, WordAt(ts, position), negated, actual, expected);
    return true, tautological;
  }

  // ---------------------------------------------------------------- _assert_assertion

  /** `assert(…)` or `assert.method(…)`, opened before `e`. */
  predicate AssertCall(ts: seq<Token>, e: nat, i: nat, open: nat, name: Option<string>) {
    && open < e && CallAt(ts, open)
    && match name
       case None => open == i + 1
       case Some(called) => open == i + 3 && DotAt(ts, i + 1) && called == WordAt(ts, i + 1)
  }

  ghost predicate AssertsByCall(ts: seq<Token>, e: nat, i: nat) {
    exists open: nat, name :: AssertCall(ts, e, i, open, name)
  }

  predicate TruthCheck(name: Option<string>) {
    name == None || name == Some("ok") || name == Some("isTrue")
  }

  predicate EqualityCheck(name: Option<string>) {
    name == Some("deepEqual") || name == Some("equal") || name == Some("strictEqual")
  }

  ghost predicate KeyOfBoth(ts: seq<Token>, m: Pairs, rd: Reading, x: Range, y: Range, key: seq<string>) {
    ReadsAs(ts, m, rd, x, key) && ReadsAs(ts, m, rd, y, key)
  }

  lemma KeyOfBothIff(
    ts: seq<Token>, m: Pairs, rd: Reading, x: Range, y: Range, left: seq<string>, right: seq<string>, key: seq<string>)
    requires ReadsAs(ts, m, rd, x, left) && ReadsAs(ts, m, rd, y, right)
    ensures KeyOfBoth(ts, m, rd, x, y, key) <==> key == left == right
  {
    if KeyOfBoth(ts, m, rd, x, y, key) {
      ReadingIsUnique(ts, m, rd, x, key, left);
      ReadingIsUnique(ts, m, rd, y, key, right);
    }
  }

  ghost predicate ComparesAlike(ts: seq<Token>, m: Pairs, rd: Reading, ranges: seq<Range>) {
    |ranges| >= 2 && exists key :: KeyOfBoth(ts, m, rd, ranges[0], ranges[1], key) && SelfComparable(rd.cls, key)
  }

  /** `true` is asserted, or an expression is compared with itself. */
  ghost predicate EmptyAssertion(ts: seq<Token>, m: Pairs, rd: Reading, open: nat, name: Option<string>) {
    || (TruthCheck(name) && SoleKey(ts, m, rd, open, [LITERAL + "true"]))
    || (EqualityCheck(name) && exists ranges :: ArgumentsOf(ts, m, open, ranges) && ComparesAlike(ts, m, rd, ranges))
  }

  ghost predicate AssertsNothing(ts: seq<Token>, m: Pairs, rd: Reading, e: nat, i: nat) {
    exists open: nat, name :: AssertCall(ts, e, i, open, name) && EmptyAssertion(ts, m, rd, open, name)
  }

  lemma AssertCallIsUnique(
    ts: seq<Token>, e: nat, i: nat, open: nat, name: Option<string>, open': nat, name': Option<string>)
    requires AssertCall(ts, e, i, open, name) && AssertCall(ts, e, i, open', name')
    ensures open == open' && name == name'
  {
  }

  lemma AlikeIff(ts: seq<Token>, m: Pairs, rd: Reading, open: nat, ranges: seq<Range>)
    requires ArgumentsOf(ts, m, open, ranges)
    ensures (exists other :: ArgumentsOf(ts, m, open, other) && ComparesAlike(ts, m, rd, other)) <==>
              ComparesAlike(ts, m, rd, ranges)
  {
    forall other | ArgumentsOf(ts, m, open, other) ensures other == ranges {
      SplitIsUnique(ts, m, open, Mate(m, open), other, ranges);
    }
  }

  /** The verdict on an assertion whose call opens at `open`. */
  method JudgeAssert(ts: seq<Token>, m: Pairs, rd: Reading, open: nat, name: Option<string>) returns (tautological: bool)
    requires Matching(Delims(ts), 0, |ts|, m) && CallAt(ts, open)
    ensures tautological <==> EmptyAssertion(ts, m, rd, open, name)
  {
    if TruthCheck(name) {
      var key := SoleArgumentKey(ts, m, rd, open);
      if SoleKey(ts, m, rd, open, [LITERAL + "true"]) {
        SoleKeyIsUnique(ts, m, rd, open, key, [LITERAL + "true"]);
      }
      return key == [LITERAL + "true"];
    }
    var ranges := CallArguments(ts, m, open);
    AlikeIff(ts, m, rd, open, ranges);
    if EqualityCheck(name) && |ranges| >= 2 {
      var left := ArgumentKey(ts, m, rd, open, ranges, 0);
      var right := ArgumentKey(ts, m, rd, open, ranges, 1);
      var comparable := SupportsSelfComparison(rd.cls, left);
      forall key { KeyOfBothIff(ts, m, rd, ranges[0], ranges[1], left, right, key); }
      return left == right && comparable;
    }
    return false;
  }

  method AssertAssertion(ts: seq<Token>, m: Pairs, rd: Reading, i: nat, e: nat)
    returns (isAssertion: bool, tautological: bool)
    requires Matching(Delims(ts), 0, |ts|, m) && i < e <= |ts|
    ensures isAssertion <==> AssertsByCall(ts, e, i)
    ensures tautological <==> AssertsNothing(ts, m, rd, e, i)
  {
    var position := i + 1;
    var name: Option<string> := None;
    if position < e && DotAt(ts, position) {
      if position + 1 >= e { return false, false; }
      name := Some(ts[position + 1].value);
      position := position + 2;
    }
    if position >= e || !CallAt(ts, position) { return false, false; }
    assert AssertCall(ts, e, i, position, name);
    tautological := JudgeAssert(ts, m, rd, position, name);
    forall open: nat, other | AssertCall(ts, e, i, open, other) ensures open == position && other == name {
      AssertCallIsUnique(ts, e, i, open, other, position, name);
    }
    return true, tautological;
  }

  // ---------------------------------------------------------------- the assertions of a body

  /** The word at `k` begins an assertion of the body [s, e): it continues no chain inside the body. */
  ghost predicate AssertionAt(ts: seq<Token>, m: Pairs, s: nat, e: nat, k: nat) {
    && s <= k < e <= |ts| && !(k > s && DotAt(ts, k - 1))
    && (|| (ts[k].value == "expect" && Expects(ts, m, e, k))
        || (ts[k].value == "assert" && AssertsByCall(ts, e, k)))
  }

  ghost predicate TautologyAt(ts: seq<Token>, m: Pairs, rd: Reading, s: nat, e: nat, k: nat) {
    AssertionAt(ts, m, s, e, k) &&
    if ts[k].value == "expect" then ExpectsNothing(ts, m, rd, e, k) else AssertsNothing(ts, m, rd, e, k)
  }

  ghost function Assertions(ts: seq<Token>, m: Pairs, s: nat, e: nat): set<nat> {
    set k: nat | k < e && AssertionAt(ts, m, s, e, k)
  }

  ghost predicate Asserts(ts: seq<Token>, m: Pairs, s: nat, e: nat) {
    exists k: nat :: AssertionAt(ts, m, s, e, k)
  }

  ghost predicate Tautologies(ts: seq<Token>, m: Pairs, rd: Reading, s: nat, e: nat) {
    exists k: nat :: TautologyAt(ts, m, rd, s, e, k)
  }

  method JudgeWord(ts: seq<Token>, m: Pairs, rd: Reading, s: nat, e: nat, k: nat)
    returns (isAssertion: bool, tautological: bool)
    requires Matching(Delims(ts), 0, |ts|, m) && s <= k < e <= |ts|
    ensures isAssertion <==> AssertionAt(ts, m, s, e, k)
    ensures isAssertion && tautological <==> TautologyAt(ts, m, rd, s, e, k)
  {
    if k > s && DotAt(ts, k - 1) { return false, false; }
    if ts[k].value == "expect" {
      isAssertion, tautological := ExpectAssertion(ts, m, rd, k, e);
    } else if ts[k].value == "assert" {
      isAssertion, tautological := AssertAssertion(ts, m, rd, k, e);
    } else {
      return false, false;
    }
  }

  function Below(all: set<nat>, n: nat): set<nat> {
    set k | k in all && k < n
  }

  lemma OneMore(all: set<nat>, n: nat)
    ensures |Below(all, n + 1)| == |Below(all, n)| + if n in all then 1 else 0
    ensures Below(all, n + 1) != {} <==> Below(all, n) != {} || n in all
  {
    assert Below(all, n + 1) == if n in all then Below(all, n) + {n} else Below(all, n);
  }

  /** The positions of the assertions, and of those that cannot fail. */
  ghost predicate Judged(ts: seq<Token>, m: Pairs, rd: Reading, s: nat, e: nat, all: set<nat>, empty: set<nat>) {
    && (forall k: nat {:trigger AssertionAt(ts, m, s, e, k)} :: k in all <==> AssertionAt(ts, m, s, e, k))
    && (forall k: nat {:trigger TautologyAt(ts, m, rd, s, e, k)} :: k in empty <==> TautologyAt(ts, m, rd, s, e, k))
  }

  lemma {:induction false} AllJudged(ts: seq<Token>, m: Pairs, rd: Reading, s: nat, e: nat) returns (all: set<nat>, empty: set<nat>)
    ensures all == Assertions(ts, m, s, e) && Judged(ts, m, rd, s, e, all, empty)
    ensures Below(all, s) == {} == Below(empty, s) && Below(all, e) == all && Below(empty, e) == empty
  {
    all := Assertions(ts, m, s, e);
    empty := set k: nat | k < e && TautologyAt(ts, m, rd, s, e, k);
  }

  lemma JudgedMeans(ts: seq<Token>, m: Pairs, rd: Reading, s: nat, e: nat, all: set<nat>, empty: set<nat>)
    requires Judged(ts, m, rd, s, e, all, empty)
    ensures all != {} <==> Asserts(ts, m, s, e)
    ensures empty != {} <==> Tautologies(ts, m, rd, s, e)
  {
    if k: nat :| k in all { assert AssertionAt(ts, m, s, e, k); }
    if k: nat :| k in empty { assert TautologyAt(ts, m, rd, s, e, k); }
  }

  method JudgeListed(
    ts: seq<Token>, m: Pairs, rd: Reading, s: nat, e: nat, k: nat, ghost all: set<nat>, ghost empty: set<nat>)
    returns (isAssertion: bool, tautological: bool)
    requires Matching(Delims(ts), 0, |ts|, m) && s <= k < e <= |ts| && Judged(ts, m, rd, s, e, all, empty)
    ensures isAssertion <==> k in all
    ensures isAssertion && tautological <==> k in empty
  {
    isAssertion, tautological := JudgeWord(ts, m, rd, s, e, k);
  }

  method CountListed(
    ts: seq<Token>, m: Pairs, rd: Reading, s: nat, e: nat, ghost all: set<nat>, ghost empty: set<nat>)
    returns (count: nat, tautology: bool)
    requires Matching(Delims(ts), 0, |ts|, m) && s <= e <= |ts| && Judged(ts, m, rd, s, e, all, empty)
    requires Below(all, s) == {} == Below(empty, s)
    ensures count == |Below(all, e)|
    ensures tautology <==> Below(empty, e) != {}
  {
    count, tautology := 0, false;
    for index := s to e
      invariant count == |Below(all, index)|
      invariant tautology <==> Below(empty, index) != {}
    {
      var isAssertion, tautological := JudgeListed(ts, m, rd, s, e, index, all, empty);
      OneMore(all, index);
      OneMore(empty, index);
      if isAssertion {
        count := count + 1;
        tautology := tautology || tautological;
      }
    }
  }

  /** Counts the assertions of a body, and says whether one of them cannot fail. */
  method AssertionSummary(ts: seq<Token>, m: Pairs, rd: Reading, s: nat, e: nat) returns (count: nat, tautology: bool)
    requires Matching(Delims(ts), 0, |ts|, m) && s <= e <= |ts|
    ensures count == |Assertions(ts, m, s, e)|
    ensures count > 0 <==> Asserts(ts, m, s, e)
    ensures tautology <==> Tautologies(ts, m, rd, s, e)
  {
    ghost var all, empty := AllJudged(ts, m, rd, s, e);
    count, tautology := CountListed(ts, m, rd, s, e, all, empty);
    JudgedMeans(ts, m, rd, s, e, all, empty);
  }

  // ---------------------------------------------------------------- what a reported equality compares

  /** The only arguments of the two calls are one and the same comparable expression. */
  ghost predicate ComparesItself(ts: seq<Token>, m: Pairs, rd: Reading, open: nat, open': nat) {
    exists x: Range, y: Range :: ArgumentsOf(ts, m, open, [x]) && ArgumentsOf(ts, m, open', [y]) && Alike(ts, m, rd, x, y)
  }

  ghost predicate Alike(ts: seq<Token>, m: Pairs, rd: Reading, x: Range, y: Range) {
    var a, b := Strip(ts, x.0, x.1, m), Strip(ts, y.0, y.1, m);
    && a.0 <= a.1 <= |ts| && b.0 <= b.1 <= |ts| && SameExpression(ts, a, b, rd)
    && SelfComparable(rd.cls, KeyOf(ts, a.0, a.1, rd))
  }

  /** Two expressions of one file have equal comparable keys exactly when they are alike. */
  lemma AlikeKeys(
    ts: seq<Token>, m: Pairs, rd: Reading, x: Range, y: Range, left: seq<string>, right: seq<string>)
    requires NoMarks(ts) && ReadsAs(ts, m, rd, x, left) && ReadsAs(ts, m, rd, y, right)
    ensures left == right && SelfComparable(rd.cls, left) <==> Alike(ts, m, rd, x, y)
  {
    var a, b := Strip(ts, x.0, x.1, m), Strip(ts, y.0, y.1, m);
    assert Stripped(ts, m, x, a) && Stripped(ts, m, y, b);
    KeysAgreeIff(ts, a, b, rd);
  }

  lemma ComparesIff(
    ts: seq<Token>, m: Pairs, rd: Reading, open: nat, open': nat, xs: seq<Range>, ys: seq<Range>)
    requires ArgumentsOf(ts, m, open, xs) && ArgumentsOf(ts, m, open', ys)
    ensures ComparesItself(ts, m, rd, open, open') <==> |xs| == 1 && |ys| == 1 && Alike(ts, m, rd, xs[0], ys[0])
  {
    if ComparesItself(ts, m, rd, open, open') {
      var x: Range, y: Range :|
        ArgumentsOf(ts, m, open, [x]) && ArgumentsOf(ts, m, open', [y]) && Alike(ts, m, rd, x, y);
      SplitIsUnique(ts, m, open, Mate(m, open), xs, [x]);
      SplitIsUnique(ts, m, open', Mate(m, open'), ys, [y]);
    }
    if |xs| == 1 && |ys| == 1 { assert xs == [xs[0]] && ys == [ys[0]]; }
  }

  /** Sole keys that are equal and comparable come from sole arguments that are alike, and only from those. */
  lemma {:induction false} SoleKeysCompareIff(
    ts: seq<Token>, m: Pairs, rd: Reading, open: nat, open': nat, actual: seq<string>, expected: seq<string>)
    requires NoMarks(ts) && SoleKey(ts, m, rd, open, actual) && SoleKey(ts, m, rd, open', expected)
    ensures actual == expected && SelfComparable(rd.cls, actual) <==> ComparesItself(ts, m, rd, open, open')
  {
    var xs :| ArgumentsOf(ts, m, open, xs) && SoleReadsAs(ts, m, rd, xs, actual);
    var ys :| ArgumentsOf(ts, m, open', ys) && SoleReadsAs(ts, m, rd, ys, expected);
    ComparesIff(ts, m, rd, open, open', xs, ys);
    if |xs| == 1 && |ys| == 1 { AlikeKeys(ts, m, rd, xs[0], ys[0], actual, expected); }
  }

  lemma EqualityHolds(cls: Classes, matcher: string, actual: seq<string>, expected: seq<string>)
    requires EqualityMatcher(matcher)
    ensures AlwaysHolds(cls, matcher, actual, expected) <==> actual == expected && SelfComparable(cls, actual)
  {
    assert matcher != "toBeTruthy" && matcher != "toBeFalsy" && matcher != "toBeNull" && matcher != "toBeUndefined";
  }

  lemma EqualityEmptyIff(
    ts: seq<Token>, m: Pairs, rd: Reading, e: nat, i: nat, n: nat, actual: seq<string>, expected: seq<string>)
    requires NoMarks(ts) && Expectation(ts, m, e, i, n) && EqualityMatcher(MatcherOf(ts, m, i, n))
    requires Operands(ts, m, rd, i, n, actual, expected)
    ensures ExpectsNothing(ts, m, rd, e, i) <==>
              !Negated(ts, m, i, n) && ComparesItself(ts, m, rd, i + 1, DotOf(Mate(m, i + 1), n) + 2)
  {
    EmptyIff(ts, m, rd, e, i, n, actual, expected);
    EqualityHolds(rd.cls, MatcherOf(ts, m, i, n), actual, expected);
    SoleKeysCompareIff(ts, m, rd, i + 1, DotOf(Mate(m, i + 1), n) + 2, actual, expected);
  }

  lemma {:induction false} EmptyHasOperands(ts: seq<Token>, m: Pairs, rd: Reading, e: nat, i: nat, n: nat)
    returns (actual: seq<string>, expected: seq<string>)
    requires Expectation(ts, m, e, i, n) && ExpectsNothing(ts, m, rd, e, i)
    ensures Operands(ts, m, rd, i, n, actual, expected)
  {
    var n': nat, x, y :| EmptyExpectation(ts, m, rd, e, i, n', x, y);
    ExpectationIsUnique(ts, m, e, i, n, n');
    return x, y;
  }

  lemma AlikeReads(ts: seq<Token>, m: Pairs, rd: Reading, x: Range, y: Range) returns (left: seq<string>, right: seq<string>)
    requires Alike(ts, m, rd, x, y)
    ensures ReadsAs(ts, m, rd, x, left) && ReadsAs(ts, m, rd, y, right)
  {
    var a, b := Strip(ts, x.0, x.1, m), Strip(ts, y.0, y.1, m);
    return KeyOf(ts, a.0, a.1, rd), KeyOf(ts, b.0, b.1, rd);
  }

  lemma {:induction false} ComparedHasOperands(ts: seq<Token>, m: Pairs, rd: Reading, i: nat, n: nat, open: nat)
    returns (actual: seq<string>, expected: seq<string>)
    requires open == DotOf(Mate(m, i + 1), n) + 2 && ComparesItself(ts, m, rd, i + 1, open)
    ensures Operands(ts, m, rd, i, n, actual, expected)
  {
    var x: Range, y: Range :|
      ArgumentsOf(ts, m, i + 1, [x]) && ArgumentsOf(ts, m, open, [y]) && Alike(ts, m, rd, x, y);
    actual, expected := AlikeReads(ts, m, rd, x, y);
    assert SoleReadsAs(ts, m, rd, [x], actual) && SoleReadsAs(ts, m, rd, [y], expected);
    TheseAreOperands(ts, m, rd, i, n, open, actual, expected);
  }

  lemma EqualityComparesIff(ts: seq<Token>, m: Pairs, rd: Reading, e: nat, i: nat, n: nat)
    requires NoMarks(ts) && Expectation(ts, m, e, i, n) && EqualityMatcher(MatcherOf(ts, m, i, n))
    ensures ExpectsNothing(ts, m, rd, e, i) <==>
              !Negated(ts, m, i, n) && ComparesItself(ts, m, rd, i + 1, DotOf(Mate(m, i + 1), n) + 2)
  {
    var open := DotOf(Mate(m, i + 1), n) + 2;
    if ExpectsNothing(ts, m, rd, e, i) {
      var actual, expected := EmptyHasOperands(ts, m, rd, e, i, n);
      EqualityEmptyIff(ts, m, rd, e, i, n, actual, expected);
    } else if ComparesItself(ts, m, rd, i + 1, open) {
      var actual, expected := ComparedHasOperands(ts, m, rd, i, n, open);
      EqualityEmptyIff(ts, m, rd, e, i, n, actual, expected);
    }
  }

  /** An equality expectation is reported exactly when it compares an expression with itself and is not negated. */
  lemma {:induction false} EqualityReportedIff(
    cls: Classes, source: string, ts: seq<Token>, m: Pairs, rd: Reading, e: nat, i: nat, n: nat)
    requires Sane(cls) && Tokenized(cls, source, ts)
    requires Expectation(ts, m, e, i, n) && EqualityMatcher(MatcherOf(ts, m, i, n))
    ensures ExpectsNothing(ts, m, rd, e, i) <==>
              !Negated(ts, m, i, n) && ComparesItself(ts, m, rd, i + 1, DotOf(Mate(m, i + 1), n) + 2)
  {
    LexedHasNoMarks(cls, source, ts);
    EqualityComparesIff(ts, m, rd, e, i, n);
  }
}
