/**
 Delimiter matching of the weak-test checker (scripts/check_weak_tests.py, _delimiter_pairs).

 `Matching` says what a correct pairing is, without a stack; `Balanced` is the bracket grammar.
 */
module TypeScriptDelimiters {

  datatype Kind = Identifier | Number | String | Template | Regex | Operator | Punctuation

  datatype Token = Token(value: string, start: nat, end: nat, line: nat, kind: Kind)

  type Pairs = map<nat, nat>

  datatype Result = Paired(pairs: Pairs) | ParseError(line: nat)

  datatype Shape = Round | Square | Curly

  datatype Delim = Open(shape: Shape) | Close(shape: Shape) | Plain

  function DelimOf(value: string): Delim {
    if value == "(" then Open(Round)
    else if value == "[" then Open(Square)
    else if value == "{" then Open(Curly)
    else if value == ")" then Close(Round)
    else if value == "]" then Close(Square)
    else if value == "}" then Close(Curly)
    else Plain
  }

  /** The word of delimiters the tokens spell. */
  function Delims(ts: seq<Token>): (ds: seq<Delim>)
    ensures |ds| == |ts| && forall i :: 0 <= i < |ts| ==> ds[i] == DelimOf(ts[i].value)
  {
    seq(|ts|, i requires 0 <= i < |ts| => DelimOf(ts[i].value))
  }

  predicate OpenAt(ds: seq<Delim>, i: int) {
    0 <= i < |ds| && ds[i].Open?
  }

  predicate CloseAt(ds: seq<Delim>, i: int) {
    0 <= i < |ds| && ds[i].Close?
  }

  predicate DelimiterAt(ds: seq<Delim>, i: int) {
    0 <= i < |ds| && !ds[i].Plain?
  }

  /** The partner of position `i`, or -1. */
  function Mate(m: Pairs, i: int): int {
    if i >= 0 && i in m then m[i] else -1
  }

  /** Every key is tied to a partner of its own shape on the right side of it. */
  ghost predicate Tied(ds: seq<Delim>, m: Pairs) {
    forall i {:trigger Mate(m, i)} :: Mate(m, i) >= 0 ==>
      && DelimiterAt(ds, i) && Mate(m, Mate(m, i)) == i
      && (OpenAt(ds, i) ==> i < Mate(m, i) && CloseAt(ds, Mate(m, i)) && ds[Mate(m, i)].shape == ds[i].shape)
      && (CloseAt(ds, i) ==> Mate(m, i) < i && OpenAt(ds, Mate(m, i)))
  }

  /** `j` lies inside the pair that opens at `i`. */
  predicate Encloses(m: Pairs, i: int, j: int) {
    i < j < Mate(m, i)
  }

  /** Any two pairs are nested or disjoint. */
  ghost predicate Nested(ds: seq<Delim>, m: Pairs) {
    forall i, j {:trigger Encloses(m, i, j)} ::
      OpenAt(ds, i) && OpenAt(ds, j) && Encloses(m, i, j) ==> Mate(m, j) < Mate(m, i)
  }

  /** A correct pairing of exactly the delimiters in ds[lo..hi]. */
  ghost predicate Matching(ds: seq<Delim>, lo: nat, hi: nat, m: Pairs) {
    && lo <= hi <= |ds|
    && (forall i {:trigger Mate(m, i)} :: Mate(m, i) >= 0 <==> lo <= i < hi && DelimiterAt(ds, i))
    && Tied(ds, m)
    && Nested(ds, m)
  }

  /** The delimiters of ds[lo..hi] have their partners there too. */
  ghost predicate PairClosed(m: Pairs, lo: int, hi: int) {
    forall i {:trigger Mate(m, i)} :: lo <= i < hi && Mate(m, i) >= 0 ==> lo <= Mate(m, i) < hi
  }

  // ---------------------------------------------------------------- the stack algorithm

  /** The stack is strictly increasing and holds unpaired openers below `n`. */
  ghost predicate StackOk(ds: seq<Delim>, n: nat, stack: seq<nat>, m: Pairs) {
    && (forall k :: 0 <= k < |stack| ==> stack[k] < n && OpenAt(ds, stack[k]) && Mate(m, stack[k]) == -1)
    && (forall k, l :: 0 <= k < l < |stack| ==> stack[k] < stack[l])
  }

  /** Every delimiter below `n` is paired or on the stack. */
  ghost predicate AllSeen(ds: seq<Delim>, n: nat, stack: seq<nat>, m: Pairs) {
    forall i {:trigger Mate(m, i)} :: 0 <= i < n && DelimiterAt(ds, i) ==> Mate(m, i) >= 0 || i in stack
  }

  ghost predicate PairsBelow(n: nat, m: Pairs) {
    forall i {:trigger Mate(m, i)} :: Mate(m, i) >= 0 ==> 0 <= i < n
  }

  /** No pair goes across an open position. */
  ghost predicate NoneAcross(ds: seq<Delim>, stack: seq<nat>, m: Pairs) {
    forall i, k {:trigger Mate(m, i), stack[k]} ::
      OpenAt(ds, i) && 0 <= k < |stack| ==> !(i < stack[k] < Mate(m, i))
  }

  /** The stack holds the opened, still unpaired positions below `n`, innermost last. */
  ghost predicate Pending(ds: seq<Delim>, n: nat, stack: seq<nat>, m: Pairs) {
    && n <= |ds|
    && StackOk(ds, n, stack, m) && AllSeen(ds, n, stack, m) && PairsBelow(n, m)
    && Tied(ds, m) && Nested(ds, m) && NoneAcross(ds, stack, m)
  }

  /** A complete matching can only be what the algorithm has built, with the stack closed later on. */
  ghost predicate Foreseen(n: nat, stack: seq<nat>, m: Pairs, whole: Pairs) {
    && (forall i {:trigger Mate(m, i)} :: Mate(m, i) >= 0 ==> Mate(whole, i) == Mate(m, i))
    && (forall k :: 0 <= k < |stack| ==> Mate(whole, stack[k]) >= n)
  }

  ghost predicate ForeseenByAll(ds: seq<Delim>, n: nat, stack: seq<nat>, m: Pairs) {
    forall whole :: Matching(ds, 0, |ds|, whole) ==> Foreseen(n, stack, m, whole)
  }

  lemma PartnerOnTop(ds: seq<Delim>, n: nat, stack: seq<nat>, m: Pairs, whole: Pairs)
    requires Pending(ds, n, stack, m) && CloseAt(ds, n) && Matching(ds, 0, |ds|, whole)
    requires Foreseen(n, stack, m, whole)
    ensures stack != [] && Mate(whole, n) == stack[|stack| - 1]
    ensures ds[stack[|stack| - 1]].shape == ds[n].shape
  {
    var o := Mate(whole, n);
    PartnerIsOpen(ds, n, stack, m, whole);
    var k :| 0 <= k < |stack| && stack[k] == o;
    InnerClosesFirst(ds, n, o, stack[|stack| - 1], whole);
  }

  /** The partner of the closer at `n` is an opener that is still open. */
  lemma PartnerIsOpen(ds: seq<Delim>, n: nat, stack: seq<nat>, m: Pairs, whole: Pairs)
    requires AllSeen(ds, n, stack, m) && PairsBelow(n, m) && Tied(ds, m)
    requires CloseAt(ds, n) && Matching(ds, 0, |ds|, whole) && Foreseen(n, stack, m, whole)
    ensures var o := Mate(whole, n); 0 <= o < n && o in stack && OpenAt(ds, o) && Mate(whole, o) == n && ds[o].shape == ds[n].shape
  {
    var o := Mate(whole, n);
    assert Mate(whole, o) == n;
    var late := Mate(m, Mate(m, o));
  }

  /** An opener between a pair closes inside it. */
  lemma InnerClosesFirst(ds: seq<Delim>, n: nat, o: nat, inner: nat, whole: Pairs)
    requires Nested(ds, whole) && OpenAt(ds, o) && OpenAt(ds, inner) && Mate(whole, o) == n
    ensures o < inner < n ==> Mate(whole, inner) < n
  {
    var nested := Encloses(whole, o, inner);
  }

  lemma Unmatched(ds: seq<Delim>, n: nat, stack: seq<nat>, m: Pairs)
    requires Pending(ds, n, stack, m) && ForeseenByAll(ds, n, stack, m) && CloseAt(ds, n)
    requires stack == [] || ds[stack[|stack| - 1]].shape != ds[n].shape
    ensures forall whole :: !Matching(ds, 0, |ds|, whole)
  {
    forall whole ensures !Matching(ds, 0, |ds|, whole) {
      if Matching(ds, 0, |ds|, whole) { PartnerOnTop(ds, n, stack, m, whole); }
    }
  }

  lemma Unclosed(ds: seq<Delim>, stack: seq<nat>, m: Pairs)
    requires Pending(ds, |ds|, stack, m) && ForeseenByAll(ds, |ds|, stack, m) && stack != []
    ensures forall whole :: !Matching(ds, 0, |ds|, whole)
  {
    forall whole ensures !Matching(ds, 0, |ds|, whole) {
      var late := Mate(whole, stack[0]);
    }
  }

  lemma Later(ds: seq<Delim>, n: nat, i: nat, whole: Pairs)
    requires Matching(ds, 0, |ds|, whole) && OpenAt(ds, i) && Mate(whole, i) >= n
    requires n < |ds| && (!CloseAt(ds, n) || Mate(whole, n) != i)
    ensures Mate(whole, i) >= n + 1
  {
    var back := Mate(whole, Mate(whole, i));
  }

  lemma PushForeseen(ds: seq<Delim>, n: nat, stack: seq<nat>, m: Pairs, whole: Pairs)
    requires (forall k :: 0 <= k < |stack| ==> OpenAt(ds, stack[k])) && Foreseen(n, stack, m, whole) && n < |ds| && !CloseAt(ds, n)
    requires Matching(ds, 0, |ds|, whole)
    ensures Foreseen(n + 1, if OpenAt(ds, n) then stack + [n] else stack, m, whole)
  {
    var stack' := if OpenAt(ds, n) then stack + [n] else stack;
    forall k | 0 <= k < |stack'| ensures Mate(whole, stack'[k]) >= n + 1 {
      if k < |stack| { Later(ds, n, stack[k], whole); }
    }
  }

  lemma {:induction false} Pushed(ds: seq<Delim>, n: nat, stack: seq<nat>, m: Pairs)
    requires Pending(ds, n, stack, m) && ForeseenByAll(ds, n, stack, m) && OpenAt(ds, n)
    ensures Pending(ds, n + 1, stack + [n], m) && ForeseenByAll(ds, n + 1, stack + [n], m)
  {
    PushPending(ds, n, stack, m, stack + [n]);
    forall whole | Matching(ds, 0, |ds|, whole) ensures Foreseen(n + 1, stack + [n], m, whole) {
      PushForeseen(ds, n, stack, m, whole);
    }
  }

  lemma PushPending(ds: seq<Delim>, n: nat, stack: seq<nat>, m: Pairs, stack': seq<nat>)
    requires Pending(ds, n, stack, m) && OpenAt(ds, n) && stack' == stack + [n]
    ensures Pending(ds, n + 1, stack', m)
  {
    PushStack(ds, n, stack, m, stack');
    PushSeen(ds, n, stack, m, stack');
    PushAcross(ds, n, stack, m, stack');
  }

  lemma PushStack(ds: seq<Delim>, n: nat, stack: seq<nat>, m: Pairs, stack': seq<nat>)
    requires StackOk(ds, n, stack, m) && PairsBelow(n, m) && OpenAt(ds, n) && stack' == stack + [n]
    ensures StackOk(ds, n + 1, stack', m)
  {
    assert forall k :: 0 <= k < |stack| ==> stack'[k] == stack[k];
    assert stack'[|stack|] == n && Mate(m, n) == -1;
  }

  lemma PushSeen(ds: seq<Delim>, n: nat, stack: seq<nat>, m: Pairs, stack': seq<nat>)
    requires AllSeen(ds, n, stack, m) && stack' == stack + [n]
    ensures AllSeen(ds, n + 1, stack', m)
  {
    assert stack'[|stack|] == n && forall i :: i in stack ==> i in stack';
  }

  lemma PushAcross(ds: seq<Delim>, n: nat, stack: seq<nat>, m: Pairs, stack': seq<nat>)
    requires NoneAcross(ds, stack, m) && Tied(ds, m) && PairsBelow(n, m) && stack' == stack + [n]
    ensures NoneAcross(ds, stack', m)
  {
    MatesBelow(ds, n, m);
    forall i, k {:trigger Mate(m, i), stack'[k]} | OpenAt(ds, i) && 0 <= k < |stack'|
      ensures !(i < stack'[k] < Mate(m, i))
    {
      if k < |stack| { assert stack'[k] == stack[k]; }
    }
  }

  lemma MatesBelow(ds: seq<Delim>, n: nat, m: Pairs)
    requires Tied(ds, m) && PairsBelow(n, m)
    ensures forall i {:trigger Mate(m, i)} :: Mate(m, i) < n
  {
    forall i {:trigger Mate(m, i)} ensures Mate(m, i) < n {
      var back := Mate(m, Mate(m, i));
    }
  }

  lemma Skipped(ds: seq<Delim>, n: nat, stack: seq<nat>, m: Pairs)
    requires Pending(ds, n, stack, m) && ForeseenByAll(ds, n, stack, m) && n < |ds| && ds[n].Plain?
    ensures Pending(ds, n + 1, stack, m) && ForeseenByAll(ds, n + 1, stack, m)
  {
    forall whole | Matching(ds, 0, |ds|, whole) ensures Foreseen(n + 1, stack, m, whole) {
      PushForeseen(ds, n, stack, m, whole);
    }
  }

  lemma Popped(ds: seq<Delim>, n: nat, stack: seq<nat>, m: Pairs, top: nat, rest: seq<nat>, m': Pairs)
    requires Pending(ds, n, stack, m) && ForeseenByAll(ds, n, stack, m) && CloseAt(ds, n)
    requires stack == rest + [top] && OpenAt(ds, top) && ds[top].shape == ds[n].shape && m' == m[top := n][n := top]
    ensures Pending(ds, n + 1, rest, m') && ForeseenByAll(ds, n + 1, rest, m')
  {
    PopKeepsPending(ds, n, stack, m, top, rest, m');
    forall whole | Matching(ds, 0, |ds|, whole) ensures Foreseen(n + 1, rest, m', whole) {
      PopForeseen(ds, n, stack, m, top, rest, m', whole);
    }
  }

  lemma MateAfter(n: nat, m: Pairs, top: nat, m': Pairs)
    requires m' == m[top := n][n := top]
    ensures PairsAfter(n, m, top, m')
  {
  }

  lemma PopForeseen(
    ds: seq<Delim>, n: nat, stack: seq<nat>, m: Pairs, top: nat, rest: seq<nat>, m': Pairs, whole: Pairs)
    requires Pending(ds, n, stack, m) && Foreseen(n, stack, m, whole) && CloseAt(ds, n)
    requires stack == rest + [top] && m' == m[top := n][n := top] && Matching(ds, 0, |ds|, whole)
    ensures Foreseen(n + 1, rest, m', whole)
  {
    PartnerOnTop(ds, n, stack, m, whole);
    assert stack[|stack| - 1] == top && Mate(whole, n) == top && Mate(whole, top) == n;
    MateAfter(n, m, top, m');
    forall k | 0 <= k < |rest| ensures Mate(whole, rest[k]) >= n + 1 {
      assert rest[k] == stack[k];
      Later(ds, n, rest[k], whole);
    }
  }

  lemma {:induction false} PopKeepsPending(ds: seq<Delim>, n: nat, stack: seq<nat>, m: Pairs, top: nat, rest: seq<nat>, m': Pairs)
    requires Pending(ds, n, stack, m) && CloseAt(ds, n)
    requires stack == rest + [top] && OpenAt(ds, top) && ds[top].shape == ds[n].shape && m' == m[top := n][n := top]
    ensures Pending(ds, n + 1, rest, m')
  {
    assert stack[|rest|] == top && forall k :: 0 <= k < |rest| ==> rest[k] == stack[k] < top;
    MateAfter(n, m, top, m');
    PopKeepsPairs(ds, n, m, top, m');
    PopStack(ds, n, stack, m, top, rest, m');
    PopSeen(ds, n, stack, m, top, rest, m');
    PopAcross(ds, n, stack, m, top, rest, m');
  }

  /** The pairs after a pop: the old ones, and the opener with its closer. */
  ghost predicate PairsAfter(n: nat, m: Pairs, top: nat, m': Pairs) {
    forall i {:trigger Mate(m', i)} :: Mate(m', i) == if i == n then top else if i == top then n else Mate(m, i)
  }

  lemma PopStack(ds: seq<Delim>, n: nat, stack: seq<nat>, m: Pairs, top: nat, rest: seq<nat>, m': Pairs)
    requires StackOk(ds, n, stack, m) && stack == rest + [top] && PairsAfter(n, m, top, m')
    ensures StackOk(ds, n + 1, rest, m')
  {
    assert stack[|rest|] == top;
    forall k | 0 <= k < |rest| ensures rest[k] < n + 1 && OpenAt(ds, rest[k]) && Mate(m', rest[k]) == -1 {
      assert rest[k] == stack[k] < top;
    }
    forall k, l | 0 <= k < l < |rest| ensures rest[k] < rest[l] { assert rest[k] == stack[k] && rest[l] == stack[l]; }
  }

  lemma PopSeen(ds: seq<Delim>, n: nat, stack: seq<nat>, m: Pairs, top: nat, rest: seq<nat>, m': Pairs)
    requires AllSeen(ds, n, stack, m) && stack == rest + [top] && PairsAfter(n, m, top, m')
    ensures AllSeen(ds, n + 1, rest, m')
  {
    forall i {:trigger Mate(m', i)} | 0 <= i < n + 1 && DelimiterAt(ds, i) ensures Mate(m', i) >= 0 || i in rest {
      if i != n && i != top { assert Mate(m, i) >= 0 || i in stack; }
    }
  }

  lemma PopAcross(ds: seq<Delim>, n: nat, stack: seq<nat>, m: Pairs, top: nat, rest: seq<nat>, m': Pairs)
    requires NoneAcross(ds, stack, m) && stack == rest + [top] && PairsAfter(n, m, top, m') && CloseAt(ds, n)
    requires forall k :: 0 <= k < |rest| ==> rest[k] < top
    ensures NoneAcross(ds, rest, m')
  {
    forall i, k {:trigger Mate(m', i), rest[k]} | OpenAt(ds, i) && 0 <= k < |rest| ensures !(i < rest[k] < Mate(m', i)) {
      assert rest[k] == stack[k];
      assert !(i < stack[k] < Mate(m, i));
    }
  }

  /** Closing the innermost open position keeps the pairs tied and nested. */
  lemma {:induction false} PopKeepsPairs(ds: seq<Delim>, n: nat, m: Pairs, top: nat, m': Pairs)
    requires Tied(ds, m) && Nested(ds, m)
    requires PairsBelow(n, m)
    requires forall i {:trigger Mate(m, i)} :: OpenAt(ds, i) ==> !(i < top < Mate(m, i))
    requires OpenAt(ds, top) && CloseAt(ds, n) && top < n && Mate(m, top) == -1 && ds[top].shape == ds[n].shape
    requires PairsAfter(n, m, top, m')
    ensures Tied(ds, m') && Nested(ds, m')
  {
    forall i {:trigger Mate(m', i)} | Mate(m', i) >= 0
      ensures && DelimiterAt(ds, i) && Mate(m', Mate(m', i)) == i
              && (OpenAt(ds, i) ==> i < Mate(m', i) && CloseAt(ds, Mate(m', i)) && ds[Mate(m', i)].shape == ds[i].shape)
              && (CloseAt(ds, i) ==> Mate(m', i) < i && OpenAt(ds, Mate(m', i)))
    {
      if i != top && i != n { assert Mate(m, Mate(m, i)) == i; }
    }
    forall i, j {:trigger Encloses(m', i, j)} | OpenAt(ds, i) && OpenAt(ds, j) && Encloses(m', i, j)
      ensures Mate(m', j) < Mate(m', i)
    {
      var nested := Encloses(m, i, j);
      if i == top {
        assert Mate(m, j) >= 0 ==> Mate(m, Mate(m, j)) == j;
      }
    }
  }

  lemma Begun(ds: seq<Delim>)
    ensures Pending(ds, 0, [], map[]) && ForeseenByAll(ds, 0, [], map[])
  {
  }

  lemma Finished(ds: seq<Delim>, m: Pairs)
    requires Pending(ds, |ds|, [], m)
    ensures Matching(ds, 0, |ds|, m)
  {
  }

  /** What holds of the stack and the pairs before each token. */
  ghost predicate Running(ds: seq<Delim>, n: nat, stack: seq<nat>, m: Pairs) {
    Pending(ds, n, stack, m) && ForeseenByAll(ds, n, stack, m)
  }

  /** After the last token an empty stack is success, and a position left open is failure. */
  lemma Concluded(ds: seq<Delim>, stack: seq<nat>, m: Pairs)
    requires Running(ds, |ds|, stack, m)
    ensures stack == [] ==> Matching(ds, 0, |ds|, m)
    ensures stack != [] ==> stack[|stack| - 1] < |ds| && forall whole :: !Matching(ds, 0, |ds|, whole)
  {
    if stack == [] { Finished(ds, m); } else { Unclosed(ds, stack, m); }
  }

  datatype Match = Matched(pairs: Pairs) | Stuck(at: nat)

  /** One token: the new stack and pairs, or `ok` false for a closer with no partner. */
  method Take(ds: seq<Delim>, index: nat, stack: seq<nat>, pairs: Pairs) returns (ok: bool, stack': seq<nat>, pairs': Pairs)
    requires index < |ds| && Running(ds, index, stack, pairs)
    ensures ok ==> Running(ds, index + 1, stack', pairs')
    ensures !ok ==> forall m :: !Matching(ds, 0, |ds|, m)
  {
    ok, stack', pairs' := true, stack, pairs;
    match ds[index] {
      case Open(_) =>
        stack' := stack + [index];
        Pushed(ds, index, stack, pairs);
      case Close(shape) =>
        if stack == [] || ds[stack[|stack| - 1]].shape != shape {
          Unmatched(ds, index, stack, pairs);
          ok := false;
        } else {
          var opening := stack[|stack| - 1];
          stack', pairs' := stack[..|stack| - 1], pairs[opening := index][index := opening];
          Popped(ds, index, stack, pairs, opening, stack', pairs');
        }
      case Plain =>
        Skipped(ds, index, stack, pairs);
    }
  }

  /** The stack over a word of delimiters; `at` is the offending position. */
  method MatchDelims(ds: seq<Delim>) returns (r: Match)
    ensures r.Matched? ==> Matching(ds, 0, |ds|, r.pairs)
    ensures r.Stuck? ==> r.at < |ds| && forall m :: !Matching(ds, 0, |ds|, m)
  {
    var stack: seq<nat> := [];
    var pairs: Pairs := map[];
    var index: nat := 0;
    Begun(ds);
    while index < |ds|
      invariant index <= |ds| && Running(ds, index, stack, pairs)
    {
      var ok;
      ok, stack, pairs := Take(ds, index, stack, pairs);
      if !ok { return Stuck(index); }
      index := index + 1;
    }
    Concluded(ds, stack, pairs);
    if stack != [] { return Stuck(stack[|stack| - 1]); }
    return Matched(pairs);
  }

  /** The stack succeeds exactly on the token lists that have a correct pairing, and returns it. */
  method DelimiterPairs(ts: seq<Token>) returns (r: Result)
    ensures r.Paired? ==> Matching(Delims(ts), 0, |ts|, r.pairs)
    ensures r.ParseError? ==> forall m :: !Matching(Delims(ts), 0, |ts|, m)
  {
    var result := MatchDelims(Delims(ts));
    match result {
      case Matched(pairs) => return Paired(pairs);
      case Stuck(at) => return ParseError(ts[at].line);
    }
  }

  // ---------------------------------------------------------------- the pairing is unique and is the grammar's

  const BRACKETS: set<(string, string)> := {("(", ")"), ("[", "]"), ("{", "}")}

  /** Said of the tokens' texts: exactly the brackets are paired, each opener with a later closer of its kind. */
  lemma {:induction false} PairsAreBrackets(ts: seq<Token>, m: Pairs, i: nat)
    requires Matching(Delims(ts), 0, |ts|, m)
    ensures Mate(m, i) >= 0 <==> i < |ts| && ts[i].value in {"(", ")", "[", "]", "{", "}"}
    ensures Mate(m, i) > i ==> Mate(m, i) < |ts| && (ts[i].value, ts[Mate(m, i)].value) in BRACKETS
    ensures 0 <= Mate(m, i) < i ==> i < |ts| && (ts[Mate(m, i)].value, ts[i].value) in BRACKETS
    ensures Mate(m, i) != i && (Mate(m, i) >= 0 ==> Mate(m, Mate(m, i)) == i)
  {
    var back := Mate(m, Mate(m, i));
  }


  /** Two correct pairings of the same stretch are the same map. */
  lemma MatchingIsUnique(ds: seq<Delim>, lo: nat, hi: nat, m: Pairs, m': Pairs)
    requires Matching(ds, lo, hi, m) && Matching(ds, lo, hi, m')
    ensures m == m'
  {
    forall i: nat ensures i in m <==> i in m' {
      assert Mate(m, i) >= 0 <==> Mate(m', i) >= 0;
    }
    forall i | i in m ensures m[i] == m'[i] {
      if OpenAt(ds, i) {
        SamePartner(ds, lo, hi, m, m', i);
      } else {
        assert Mate(m, Mate(m, i)) == i;
        SamePartner(ds, lo, hi, m, m', Mate(m, i));
        assert Mate(m', Mate(m', Mate(m, i))) == Mate(m, i);
      }
    }
  }

  lemma {:induction false} SamePartner(ds: seq<Delim>, lo: nat, hi: nat, m: Pairs, m': Pairs, i: nat)
    requires Matching(ds, lo, hi, m) && Matching(ds, lo, hi, m') && Mate(m, i) >= 0 && OpenAt(ds, i)
    ensures Mate(m, i) == Mate(m', i)
    decreases hi - i
  {
    if Mate(m, i) < Mate(m', i) {
      ShorterPair(ds, lo, hi, m, m', i);
    } else if Mate(m', i) < Mate(m, i) {
      ShorterPair(ds, lo, hi, m', m, i);
    }
  }

  /** Were one pairing to close `i` earlier, the other would tie that closer to an opener strictly inside. */
  lemma {:induction false} ShorterPair(ds: seq<Delim>, lo: nat, hi: nat, m: Pairs, m': Pairs, i: nat)
    requires Matching(ds, lo, hi, m) && Matching(ds, lo, hi, m') && Mate(m, i) >= 0 && OpenAt(ds, i)
    ensures Mate(m', i) <= Mate(m, i)
    decreases hi - i, 0
  {
    var c := Mate(m, i);
    var j := Mate(m', c);
    assert Mate(m, c) == i && Mate(m', j) == c && Mate(m', i) >= 0;
    if c < Mate(m', i) {
      var nested := Encloses(m', j, i);
      assert j != i;
      if i < j {
        SamePartner(ds, lo, hi, m, m', j);
      }
    }
  }

  /** The bracket grammar: a plain token or an opened, balanced and closed group, then the rest. */
  ghost predicate Balanced(ds: seq<Delim>, lo: nat, hi: nat)
    requires lo <= hi <= |ds|
    decreases hi - lo
  {
    || lo == hi
    || (!DelimiterAt(ds, lo) && Balanced(ds, lo + 1, hi))
    || (OpenAt(ds, lo) && exists c :: lo < c < hi && GroupEndsAt(ds, lo, c) && Balanced(ds, lo + 1, c) && Balanced(ds, c + 1, hi))
  }

  predicate GroupEndsAt(ds: seq<Delim>, o: nat, c: nat) {
    OpenAt(ds, o) && CloseAt(ds, c) && ds[c].shape == ds[o].shape
  }

  lemma {:induction false} MatchingIsBalanced(ds: seq<Delim>, m: Pairs, lo: nat, hi: nat)
    requires Matching(ds, 0, |ds|, m) && lo <= hi <= |ds| && PairClosed(m, lo, hi)
    ensures Balanced(ds, lo, hi)
    decreases hi - lo
  {
    if lo < hi {
      if !DelimiterAt(ds, lo) {
        SkipPlain(ds, m, lo, hi);
        MatchingIsBalanced(ds, m, lo + 1, hi);
      } else {
        var c := Mate(m, lo);
        FirstGroup(ds, m, lo, hi);
        MatchingIsBalanced(ds, m, lo + 1, c);
        MatchingIsBalanced(ds, m, c + 1, hi);
        assert GroupEndsAt(ds, lo, c);
      }
    }
  }

  lemma SkipPlain(ds: seq<Delim>, m: Pairs, lo: nat, hi: nat)
    requires Tied(ds, m) && PairClosed(m, lo, hi) && !DelimiterAt(ds, lo)
    ensures PairClosed(m, lo + 1, hi)
  {
    forall i {:trigger Mate(m, i)} | lo + 1 <= i < hi && Mate(m, i) >= 0 ensures lo + 1 <= Mate(m, i) < hi {
      assert Mate(m, Mate(m, i)) == i;
    }
  }

  /** A closed stretch that starts with a delimiter starts with a group, and both parts of the rest are closed. */
  lemma FirstGroup(ds: seq<Delim>, m: Pairs, lo: nat, hi: nat)
    requires Matching(ds, 0, |ds|, m) && lo < hi <= |ds| && PairClosed(m, lo, hi) && DelimiterAt(ds, lo)
    ensures var c := Mate(m, lo);
            lo < c < hi && GroupEndsAt(ds, lo, c) && PairClosed(m, lo + 1, c) && PairClosed(m, c + 1, hi)
  {
    var c := Mate(m, lo);
    assert OpenAt(ds, lo) && lo < c < hi;
    InsideIsClosed(ds, m, lo);
    AfterIsClosed(ds, m, lo, hi);
  }

  /** The inside of a pair holds whole pairs. */
  lemma InsideIsClosed(ds: seq<Delim>, m: Pairs, o: nat)
    requires Tied(ds, m) && Nested(ds, m) && OpenAt(ds, o) && Mate(m, o) >= 0
    ensures PairClosed(m, o + 1, Mate(m, o))
  {
    forall i {:trigger Mate(m, i)} | o + 1 <= i < Mate(m, o) && Mate(m, i) >= 0
      ensures o + 1 <= Mate(m, i) < Mate(m, o)
    {
      var below, above := Encloses(m, o, i), Encloses(m, Mate(m, i), o);
      assert Mate(m, Mate(m, i)) == i && Mate(m, Mate(m, o)) == o;
    }
  }

  /** What follows a pair inside a closed stretch is closed. */
  lemma AfterIsClosed(ds: seq<Delim>, m: Pairs, o: nat, hi: nat)
    requires Tied(ds, m) && Nested(ds, m) && OpenAt(ds, o) && Mate(m, o) >= 0 && PairClosed(m, o, hi)
    ensures PairClosed(m, Mate(m, o) + 1, hi)
  {
    forall i {:trigger Mate(m, i)} | Mate(m, o) + 1 <= i < hi && Mate(m, i) >= 0
      ensures Mate(m, o) + 1 <= Mate(m, i) < hi
    {
      var below := Encloses(m, o, Mate(m, i));
      assert Mate(m, Mate(m, i)) == i && Mate(m, Mate(m, o)) == o;
    }
  }

  lemma {:induction false} BalancedHasMatching(ds: seq<Delim>, lo: nat, hi: nat) returns (m: Pairs)
    requires lo <= hi <= |ds| && Balanced(ds, lo, hi)
    ensures Matching(ds, lo, hi, m)
    decreases hi - lo
  {
    if lo == hi {
      m := map[];
    } else if !DelimiterAt(ds, lo) {
      m := BalancedHasMatching(ds, lo + 1, hi);
    } else {
      var c :| lo < c < hi && GroupEndsAt(ds, lo, c) && Balanced(ds, lo + 1, c) && Balanced(ds, c + 1, hi);
      var inside := BalancedHasMatching(ds, lo + 1, c);
      var after := BalancedHasMatching(ds, c + 1, hi);
      m := JoinMatchings(ds, lo, c, hi, inside, after);
    }
  }

  /** The pairing of a group and of what follows it, put together. */
  ghost predicate Joins(lo: nat, c: nat, inside: Pairs, after: Pairs, m: Pairs) {
    forall i {:trigger Mate(m, i)} ::
      Mate(m, i) == if i == lo then c else if i == c then lo else if i < c then Mate(inside, i) else Mate(after, i)
  }

  lemma JoinIsTied(ds: seq<Delim>, lo: nat, c: nat, hi: nat, inside: Pairs, after: Pairs, m: Pairs)
    requires lo < c < hi && GroupEndsAt(ds, lo, c) && Joins(lo, c, inside, after, m)
    requires Matching(ds, lo + 1, c, inside) && Matching(ds, c + 1, hi, after)
    ensures Tied(ds, m)
  {
    forall i {:trigger Mate(m, i)} | Mate(m, i) >= 0
      ensures && DelimiterAt(ds, i) && Mate(m, Mate(m, i)) == i
              && (OpenAt(ds, i) ==> i < Mate(m, i) && CloseAt(ds, Mate(m, i)) && ds[Mate(m, i)].shape == ds[i].shape)
              && (CloseAt(ds, i) ==> Mate(m, i) < i && OpenAt(ds, Mate(m, i)))
    {
      if i < c && i != lo {
        assert Mate(inside, Mate(inside, i)) == i;
      } else if c < i {
        assert Mate(after, Mate(after, i)) == i;
      }
    }
  }

  lemma JoinIsNested(ds: seq<Delim>, lo: nat, c: nat, hi: nat, inside: Pairs, after: Pairs, m: Pairs)
    requires lo < c < hi && GroupEndsAt(ds, lo, c) && Joins(lo, c, inside, after, m)
    requires Matching(ds, lo + 1, c, inside) && Matching(ds, c + 1, hi, after)
    ensures Nested(ds, m)
  {
    forall i, j {:trigger Encloses(m, i, j)} | OpenAt(ds, i) && OpenAt(ds, j) && Encloses(m, i, j)
      ensures Mate(m, j) < Mate(m, i)
    {
      var nestedInside, nestedAfter := Encloses(inside, i, j), Encloses(after, i, j);
      if i < c && i != lo {
        var back := Mate(inside, Mate(inside, i));
      } else if i == lo {
        var back := Mate(inside, Mate(inside, j));
      }
    }
  }

  lemma JoinMatchings(ds: seq<Delim>, lo: nat, c: nat, hi: nat, inside: Pairs, after: Pairs) returns (m: Pairs)
    requires lo < c < hi && GroupEndsAt(ds, lo, c)
    requires Matching(ds, lo + 1, c, inside) && Matching(ds, c + 1, hi, after)
    ensures Matching(ds, lo, hi, m)
  {
    MatchingKeys(ds, lo + 1, c, inside);
    MatchingKeys(ds, c + 1, hi, after);
    m := JoinMates(lo, c, hi, inside, after);
    JoinedMatch(ds, lo, c, hi, inside, after, m);
  }

  lemma {:induction false} JoinedMatch(ds: seq<Delim>, lo: nat, c: nat, hi: nat, inside: Pairs, after: Pairs, m: Pairs)
    requires lo < c < hi && GroupEndsAt(ds, lo, c) && Joins(lo, c, inside, after, m)
    requires Matching(ds, lo + 1, c, inside) && Matching(ds, c + 1, hi, after)
    ensures Matching(ds, lo, hi, m)
  {
    JoinIsTied(ds, lo, c, hi, inside, after, m);
    JoinIsNested(ds, lo, c, hi, inside, after, m);
    JoinCovers(ds, lo, c, hi, inside, after, m);
  }

  ghost predicate KeysIn(m: Pairs, lo: int, hi: int) {
    forall i {:trigger Mate(m, i)} :: Mate(m, i) >= 0 ==> lo <= i < hi
  }

  lemma MatchingKeys(ds: seq<Delim>, lo: nat, hi: nat, m: Pairs)
    requires Matching(ds, lo, hi, m)
    ensures KeysIn(m, lo, hi)
  {
  }

  lemma JoinMates(lo: nat, c: nat, hi: nat, inside: Pairs, after: Pairs) returns (m: Pairs)
    requires lo < c && KeysIn(inside, lo + 1, c) && KeysIn(after, c + 1, hi)
    ensures Joins(lo, c, inside, after, m)
  {
    m := inside + after + map[lo := c, c := lo];
    forall i {:trigger Mate(m, i)}
      ensures Mate(m, i) == if i == lo then c else if i == c then lo
                            else if i < c then Mate(inside, i) else Mate(after, i)
    {
      var a, b := Mate(inside, i), Mate(after, i);
    }
  }

  lemma JoinCovers(ds: seq<Delim>, lo: nat, c: nat, hi: nat, inside: Pairs, after: Pairs, m: Pairs)
    requires lo < c < hi && GroupEndsAt(ds, lo, c) && Joins(lo, c, inside, after, m)
    requires Matching(ds, lo + 1, c, inside) && Matching(ds, c + 1, hi, after)
    ensures forall i {:trigger Mate(m, i)} :: Mate(m, i) >= 0 <==> lo <= i < hi && DelimiterAt(ds, i)
  {
    forall i {:trigger Mate(m, i)} ensures Mate(m, i) >= 0 <==> lo <= i < hi && DelimiterAt(ds, i) {
      var a, b := Mate(inside, i), Mate(after, i);
    }
  }

  /** Having a correct pairing and being a word of the bracket grammar are the same thing. */
  lemma PairedIffBalanced(ds: seq<Delim>)
    ensures (exists m :: Matching(ds, 0, |ds|, m)) <==> Balanced(ds, 0, |ds|)
  {
    if m :| Matching(ds, 0, |ds|, m) {
      forall i {:trigger Mate(m, i)} | 0 <= i < |ds| && Mate(m, i) >= 0 ensures 0 <= Mate(m, i) < |ds| {
        assert Mate(m, Mate(m, i)) == i;
      }
      MatchingIsBalanced(ds, m, 0, |ds|);
    }
    if Balanced(ds, 0, |ds|) {
      var m := BalancedHasMatching(ds, 0, |ds|);
    }
  }
}
