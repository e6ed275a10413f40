/**
 Call arguments and test callbacks of the weak-test checker (scripts/check_weak_tests.py,
 _strip_wrapping_parentheses, _top_level_arguments, _find_callback_body), on tokens whose delimiters
 have been paired.
 */
module TypeScriptCalls {

  import opened TypeScriptDelimiters

  type Range = (nat, nat)

  datatype Arguments = Arguments(ranges: seq<Range>) | InvalidDelimiter(line: nat)

  predicate CommaAt(ts: seq<Token>, p: int) {
    0 <= p < |ts| && ts[p].value == ","
  }

  /** No pair opened in [from, p) is still open at `p`. */
  ghost predicate TopAt(ds: seq<Delim>, m: Pairs, from: int, p: int) {
    forall o {:trigger Mate(m, o)} :: from <= o < p && OpenAt(ds, o) ==> Mate(m, o) < p
  }

  /** A comma of the call's own argument list. */
  ghost predicate TopComma(ts: seq<Token>, m: Pairs, open: nat, close: nat, p: int) {
    open < p < close && CommaAt(ts, p) && TopAt(Delims(ts), m, open + 1, p)
  }

  // ---------------------------------------------------------------- stretches between top-level positions

  /** Moving past a plain token, a closed pair, keeps the position at top level. */
  lemma TopStep(ds: seq<Delim>, m: Pairs, from: int, p: int)
    requires TopAt(ds, m, from, p) && !OpenAt(ds, p)
    ensures TopAt(ds, m, from, p + 1)
  {
  }

  lemma TopJump(ds: seq<Delim>, m: Pairs, from: int, p: int)
    requires Matching(ds, 0, |ds|, m) && TopAt(ds, m, from, p) && OpenAt(ds, p)
    ensures p < Mate(m, p) && TopAt(ds, m, from, Mate(m, p) + 1)
  {
    forall o {:trigger Mate(m, o)} | from <= o < Mate(m, p) + 1 && OpenAt(ds, o) ensures Mate(m, o) < Mate(m, p) + 1 {
      var below := Encloses(m, p, o);
      var back := Mate(m, Mate(m, p));
    }
  }

  /** Inside a skipped pair nothing is at top level. */
  lemma NotTopInside(ds: seq<Delim>, m: Pairs, from: int, p: int, q: int)
    requires OpenAt(ds, p) && from <= p < q <= Mate(m, p)
    ensures !TopAt(ds, m, from, q)
  {
  }

  /** Between two top-level positions of a call every delimiter finds its partner. */
  lemma TopStretchIsClosed(ds: seq<Delim>, m: Pairs, open: nat, s: int, e: int)
    requires Matching(ds, 0, |ds|, m) && OpenAt(ds, open) && open < s <= e <= Mate(m, open)
    requires TopAt(ds, m, open + 1, s) && TopAt(ds, m, open + 1, e)
    ensures PairClosed(m, s, e)
  {
    forall i {:trigger Mate(m, i)} | s <= i < e && Mate(m, i) >= 0 ensures s <= Mate(m, i) < e {
      var o := Mate(m, i);
      var close := Mate(m, open);
      var below, beside, above := Encloses(m, open, i), Encloses(m, open, o), Encloses(m, o, open);
      assert Mate(m, o) == i && Mate(m, close) == open;
    }
  }

  // ---------------------------------------------------------------- _top_level_arguments

  function WithRange(kept: seq<Range>, start: nat, end: nat): seq<Range> {
    if start < end then kept + [(start, end)] else kept
  }

  /** The nonempty ones. */
  function Kept(ranges: seq<Range>): seq<Range> {
    if ranges == [] then []
    else
      var last := ranges[|ranges| - 1];
      WithRange(Kept(ranges[..|ranges| - 1]), last.0, last.1)
  }

  lemma KeptSnoc(ranges: seq<Range>, start: nat, end: nat)
    ensures Kept(ranges + [(start, end)]) == WithRange(Kept(ranges), start, end)
  {
    assert (ranges + [(start, end)])[..|ranges|] == ranges;
  }

  predicate InRanges(ranges: seq<Range>, p: int) {
    exists k :: 0 <= k < |ranges| && ranges[k].0 <= p < ranges[k].1
  }

  /** Nonempty ranges from `lo` on, in order, with at least one position between neighbours. */
  ghost predicate Ordered(ranges: seq<Range>, lo: nat, hi: nat) {
    && (forall k :: 0 <= k < |ranges| ==> lo <= ranges[k].0 < ranges[k].1 <= hi)
    && (forall k, l :: 0 <= k < l < |ranges| ==> ranges[k].1 < ranges[l].0)
  }

  /** Every position below `p` is a top-level comma or belongs to a range, and never both. */
  ghost predicate Covers(ts: seq<Token>, m: Pairs, open: nat, close: nat, ranges: seq<Range>, p: nat) {
    forall q :: open < q < p ==> (InRanges(ranges, q) <==> !TopComma(ts, m, open, close, q))
  }

  /** The arguments are exactly the maximal nonempty stretches between the call's own commas. */
  ghost predicate Splits(ts: seq<Token>, m: Pairs, open: nat, close: nat, ranges: seq<Range>) {
    Ordered(ranges, open + 1, close) && Covers(ts, m, open, close, ranges, close)
  }

  /** The splitter's state: `kept` splits everything below `start`, and an argument begins there. */
  ghost predicate Progress(ts: seq<Token>, m: Pairs, open: nat, close: nat, kept: seq<Range>, start: nat) {
    && Ordered(kept, open + 1, start) && Covers(ts, m, open, close, kept, start)
    && (forall k :: 0 <= k < |kept| ==> kept[k].1 < start)
  }

  lemma InMore(kept: seq<Range>, start: nat, end: nat, q: int)
    ensures InRanges(WithRange(kept, start, end), q) <==> InRanges(kept, q) || start <= q < end
  {
    var kept' := WithRange(kept, start, end);
    if InRanges(kept, q) {
      var k :| 0 <= k < |kept| && kept[k].0 <= q < kept[k].1;
      assert kept'[k] == kept[k];
    }
    if start <= q < end { assert kept'[|kept|] == (start, end); }
  }

  lemma CoverMore(ts: seq<Token>, m: Pairs, open: nat, close: nat, kept: seq<Range>, start: nat, end: nat)
    requires Progress(ts, m, open, close, kept, start) && open < start <= end
    requires forall q :: start <= q < end ==> !TopComma(ts, m, open, close, q)
    ensures Ordered(WithRange(kept, start, end), open + 1, end)
    ensures Covers(ts, m, open, close, WithRange(kept, start, end), end)
  {
    var kept' := WithRange(kept, start, end);
    forall q | open < q < end ensures InRanges(kept', q) <==> !TopComma(ts, m, open, close, q) {
      InMore(kept, start, end, q);
    }
  }

  lemma KeptIsBelow(kept: seq<Range>, start: nat, p: nat)
    requires start <= p && forall k :: 0 <= k < |kept| ==> kept[k].1 < start
    ensures forall k :: 0 <= k < |WithRange(kept, start, p)| ==> WithRange(kept, start, p)[k].1 < p + 1
  {
  }

  lemma OrderedWider(kept: seq<Range>, lo: nat, hi: nat, hi': nat)
    requires Ordered(kept, lo, hi) && hi <= hi'
    ensures Ordered(kept, lo, hi')
  {
  }

  /** At one of the call's commas the current argument ends and the next one begins. */
  lemma EndArgument(ts: seq<Token>, m: Pairs, open: nat, close: nat, kept: seq<Range>, start: nat, p: nat)
    requires Progress(ts, m, open, close, kept, start) && open < start <= p && TopComma(ts, m, open, close, p)
    requires forall q :: start <= q < p ==> !TopComma(ts, m, open, close, q)
    ensures Progress(ts, m, open, close, WithRange(kept, start, p), p + 1)
  {
    var kept' := WithRange(kept, start, p);
    CoverMore(ts, m, open, close, kept, start, p);
    KeptIsBelow(kept, start, p);
    OrderedWider(kept', open + 1, p, p + 1);
    forall q | open < q < p + 1 ensures InRanges(kept', q) <==> !TopComma(ts, m, open, close, q) {
      InMore(kept, start, p, q);
    }
  }

  /** The splitter between two tokens: what it has kept, and where the current argument began. */
  ghost predicate Splitting(
    ts: seq<Token>, m: Pairs, open: nat, close: nat, arguments: seq<Range>, start: nat, position: nat)
  {
    && open < start <= position <= close <= |ts|
    && TopAt(Delims(ts), m, open + 1, position)
    && Progress(ts, m, open, close, Kept(arguments), start)
    && forall q :: start <= q < position ==> !TopComma(ts, m, open, close, q)
  }

  lemma SplittingBegins(ts: seq<Token>, m: Pairs, open: nat, close: nat)
    requires open < close <= |ts|
    ensures Splitting(ts, m, open, close, [], open + 1, open + 1)
  {
  }

  /** A nested group is passed over whole. */
  lemma SplittingJumps(ts: seq<Token>, m: Pairs, open: nat, close: nat, arguments: seq<Range>, start: nat, position: nat)
    requires Matching(Delims(ts), 0, |ts|, m) && OpenAt(Delims(ts), open) && close == Mate(m, open)
    requires Splitting(ts, m, open, close, arguments, start, position) && position < close && OpenAt(Delims(ts), position)
    ensures position < Mate(m, position) < close
    ensures Splitting(ts, m, open, close, arguments, start, Mate(m, position) + 1)
  {
    TopJump(Delims(ts), m, open + 1, position);
    NestedInCall(Delims(ts), m, open, position);
    SkippedPair(ts, m, open, close, position);
  }

  lemma SplittingSteps(ts: seq<Token>, m: Pairs, open: nat, close: nat, arguments: seq<Range>, start: nat, position: nat)
    requires Splitting(ts, m, open, close, arguments, start, position) && position < close
    requires !OpenAt(Delims(ts), position) && !CommaAt(ts, position)
    ensures Splitting(ts, m, open, close, arguments, start, position + 1)
  {
    TopStep(Delims(ts), m, open + 1, position);
  }

  lemma SplittingEndsArgument(
    ts: seq<Token>, m: Pairs, open: nat, close: nat, arguments: seq<Range>, start: nat, position: nat)
    requires Splitting(ts, m, open, close, arguments, start, position) && position < close && CommaAt(ts, position)
    ensures Splitting(ts, m, open, close, arguments + [(start, position)], position + 1, position + 1)
  {
    CommaIsPlain(ts, position);
    TopStep(Delims(ts), m, open + 1, position);
    EndArgument(ts, m, open, close, Kept(arguments), start, position);
    KeptSnoc(arguments, start, position);
  }

  lemma {:induction false} SplittingEnds(ts: seq<Token>, m: Pairs, open: nat, close: nat, arguments: seq<Range>, start: nat)
    requires Splitting(ts, m, open, close, arguments, start, close)
    ensures Splits(ts, m, open, close, Kept(if start < close then arguments + [(start, close)] else arguments))
  {
    CoverMore(ts, m, open, close, Kept(arguments), start, close);
    KeptSnoc(arguments, start, close);
  }

  /** One token or one nested group; `ok` is false for a delimiter without a partner inside the call. */
  method SplitToken(
    ts: seq<Token>, open: nat, close: nat, m: Pairs, arguments: seq<Range>, start: nat, position: nat)
    returns (ok: bool, arguments': seq<Range>, start': nat, position': nat)
    requires Matching(Delims(ts), 0, |ts|, m) && OpenAt(Delims(ts), open) && close == Mate(m, open)
    requires Splitting(ts, m, open, close, arguments, start, position) && position < close
    ensures ok && position < position' && Splitting(ts, m, open, close, arguments', start', position')
  {
    var token := ts[position];
    ok, arguments', start', position' := true, arguments, start, position + 1;
    if DelimOf(token.value).Open? {
      SplittingJumps(ts, m, open, close, arguments, start, position);
      var nestedClose := Mate(m, position);
      if nestedClose < 0 || nestedClose > close { ok := false; } else { position' := nestedClose + 1; }
    } else if token.value == "," {
      SplittingEndsArgument(ts, m, open, close, arguments, start, position);
      arguments', start' := arguments + [(start, position)], position + 1;
    } else {
      SplittingSteps(ts, m, open, close, arguments, start, position);
    }
  }

  /** With the pairs of a successful match the splitter never raises, and splits exactly at the call's commas. */
  method TopLevelArguments(ts: seq<Token>, open: nat, close: nat, m: Pairs) returns (r: Arguments)
    requires Matching(Delims(ts), 0, |ts|, m) && OpenAt(Delims(ts), open) && close == Mate(m, open)
    ensures r.Arguments? && Splits(ts, m, open, close, r.ranges)
  {
    var arguments: seq<Range> := [];
    var argumentStart: nat := open + 1;
    var position: nat := argumentStart;
    CloseInRange(Delims(ts), m, open);
    SplittingBegins(ts, m, open, close);
    while position < close
      invariant Splitting(ts, m, open, close, arguments, argumentStart, position)
      decreases close - position
    {
      var ok, line := true, ts[position].line;
      ok, arguments, argumentStart, position := SplitToken(ts, open, close, m, arguments, argumentStart, position);
      if !ok { return InvalidDelimiter(line); }
    }
    SplittingEnds(ts, m, open, close, arguments, argumentStart);
    if argumentStart < close { arguments := arguments + [(argumentStart, close)]; }
    return Arguments(Kept(arguments));
  }

  lemma CloseInRange(ds: seq<Delim>, m: Pairs, open: nat)
    requires Matching(ds, 0, |ds|, m) && OpenAt(ds, open)
    ensures open < Mate(m, open) < |ds|
  {
  }

  lemma NestedInCall(ds: seq<Delim>, m: Pairs, open: nat, p: nat)
    requires Matching(ds, 0, |ds|, m) && OpenAt(ds, open) && open < p < Mate(m, open) && OpenAt(ds, p)
    ensures p < Mate(m, p) < Mate(m, open)
  {
    var below := Encloses(m, open, p);
  }

  lemma SkippedPair(ts: seq<Token>, m: Pairs, open: nat, close: nat, p: nat)
    requires OpenAt(Delims(ts), p) && open < p
    ensures forall q :: p <= q < Mate(m, p) + 1 ==> !TopComma(ts, m, open, close, q)
  {
    forall q | p <= q < Mate(m, p) + 1 ensures !TopComma(ts, m, open, close, q) {
      if p < q { NotTopInside(Delims(ts), m, open + 1, p, q); }
    }
  }

  // ---------------------------------------------------------------- arguments are bracket-closed

  lemma CommaIsPlain(ts: seq<Token>, p: int)
    requires CommaAt(ts, p)
    ensures !DelimiterAt(Delims(ts), p)
  {
  }

  /** Each argument holds whole pairs only. */
  lemma ArgumentIsClosed(ts: seq<Token>, m: Pairs, open: nat, close: nat, ranges: seq<Range>, k: nat)
    requires Matching(Delims(ts), 0, |ts|, m) && OpenAt(Delims(ts), open) && close == Mate(m, open)
    requires Splits(ts, m, open, close, ranges) && k < |ranges|
    ensures PairClosed(m, ranges[k].0, ranges[k].1)
  {
    var (s, e) := ranges[k];
    StartIsTop(ts, m, open, close, ranges, k);
    EndIsTop(ts, m, open, close, ranges, k);
    TopStretchIsClosed(Delims(ts), m, open, s, e);
  }

  lemma StartIsTop(ts: seq<Token>, m: Pairs, open: nat, close: nat, ranges: seq<Range>, k: nat)
    requires Splits(ts, m, open, close, ranges) && k < |ranges|
    ensures TopAt(Delims(ts), m, open + 1, ranges[k].0)
  {
    var s := ranges[k].0;
    if open + 1 < s {
      assert !InRanges(ranges, s - 1);
      assert TopComma(ts, m, open, close, s - 1);
      CommaIsPlain(ts, s - 1);
      TopStep(Delims(ts), m, open + 1, s - 1);
    }
  }

  lemma EndIsTop(ts: seq<Token>, m: Pairs, open: nat, close: nat, ranges: seq<Range>, k: nat)
    requires Matching(Delims(ts), 0, |ts|, m) && OpenAt(Delims(ts), open) && close == Mate(m, open)
    requires Splits(ts, m, open, close, ranges) && k < |ranges|
    ensures TopAt(Delims(ts), m, open + 1, ranges[k].1)
  {
    var e := ranges[k].1;
    if e < close {
      assert !InRanges(ranges, e);
      assert TopComma(ts, m, open, close, e);
    } else {
      EndOfCallIsTop(Delims(ts), m, open);
    }
  }

  lemma EndOfCallIsTop(ds: seq<Delim>, m: Pairs, open: nat)
    requires Matching(ds, 0, |ds|, m) && OpenAt(ds, open)
    ensures TopAt(ds, m, open + 1, Mate(m, open))
  {
    forall o {:trigger Mate(m, o)} | open + 1 <= o < Mate(m, open) && OpenAt(ds, o) ensures Mate(m, o) < Mate(m, open) {
      var below := Encloses(m, open, o);
    }
  }

  /** From a top-level position on, a closed stretch is closed. */
  lemma SuffixIsClosed(ds: seq<Delim>, m: Pairs, s: nat, p: nat, e: nat)
    requires Tied(ds, m) && PairClosed(m, s, e) && s <= p && TopAt(ds, m, s, p)
    ensures PairClosed(m, p, e)
  {
    forall i {:trigger Mate(m, i)} | p <= i < e && Mate(m, i) >= 0 ensures p <= Mate(m, i) < e {
      var back := Mate(m, Mate(m, i));
    }
  }

  // ---------------------------------------------------------------- _strip_wrapping_parentheses

  /** One pair of parentheses is around all of ts[s..e]. */
  predicate Wrapped(ts: seq<Token>, s: nat, e: nat, m: Pairs) {
    s < e <= |ts| && DelimOf(ts[s].value) == Open(Round) && Mate(m, s) == e - 1
  }

  /** ts[s..e] with every pair of parentheses that wraps all of it taken off. */
  function Strip(ts: seq<Token>, s: nat, e: nat, m: Pairs): Range
    decreases e - s
  {
    if Wrapped(ts, s, e, m) then Strip(ts, s + 1, e - 1, m) else (s, e)
  }

  predicate Stripped(ts: seq<Token>, m: Pairs, x: Range, r: Range) {
    r == Strip(ts, x.0, x.1, m)
  }

  lemma StripOne(ts: seq<Token>, s: nat, e: nat, m: Pairs)
    requires Matching(Delims(ts), 0, |ts|, m) && Wrapped(ts, s, e, m)
    ensures s + 1 <= e - 1 && PairClosed(m, s + 1, e - 1)
    ensures Strip(ts, s + 1, e - 1, m) == Strip(ts, s, e, m)
  {
    assert OpenAt(Delims(ts), s);
    InsideIsClosed(Delims(ts), m, s);
  }

  /** Parentheses around a range are two tokens, and close what they enclose. */
  ghost predicate WrapsClose(ts: seq<Token>, m: Pairs) {
    forall s: nat, e: nat :: Wrapped(ts, s, e, m) ==> s + 2 <= e && PairClosed(m, s + 1, e - 1)
  }

  lemma MatchedWrapsClose(ts: seq<Token>, m: Pairs)
    requires Matching(Delims(ts), 0, |ts|, m)
    ensures WrapsClose(ts, m)
  {
    forall s: nat, e: nat | Wrapped(ts, s, e, m) ensures s + 2 <= e && PairClosed(m, s + 1, e - 1) {
      StripOne(ts, s, e, m);
    }
  }

  lemma {:induction false} StripIsClosed(ts: seq<Token>, s: nat, e: nat, m: Pairs)
    requires WrapsClose(ts, m) && s <= e && PairClosed(m, s, e)
    ensures var (a, b) := Strip(ts, s, e, m); s <= a <= b <= e && PairClosed(m, a, b)
    decreases e - s
  {
    if Wrapped(ts, s, e, m) { StripIsClosed(ts, s + 1, e - 1, m); }
  }

  method StripLoop(ts: seq<Token>, start: nat, end: nat, m: Pairs) returns (s: nat, e: nat)
    requires start <= end && WrapsClose(ts, m)
    ensures (s, e) == Strip(ts, start, end, m)
  {
    s, e := start, end;
    while Wrapped(ts, s, e, m)
      invariant s <= e && Strip(ts, s, e, m) == Strip(ts, start, end, m)
      decreases e - s
    {
      s, e := s + 1, e - 1;
    }
  }

  /** Stripping keeps a closed stretch closed. */
  method StripWrappingParentheses(ts: seq<Token>, start: nat, end: nat, m: Pairs) returns (s: nat, e: nat)
    requires Matching(Delims(ts), 0, |ts|, m) && start <= end <= |ts| && PairClosed(m, start, end)
    ensures Stripped(ts, m, (start, end), (s, e))
    ensures start <= s <= e <= end && PairClosed(m, s, e)
  {
    MatchedWrapsClose(ts, m);
    s, e := StripLoop(ts, start, end, m);
    StripIsClosed(ts, start, end, m);
  }

  // ---------------------------------------------------------------- _find_callback_body

  datatype Inspection = NoCallback | Broken | Body(start: nat, end: nat)

  predicate ArrowAt(ts: seq<Token>, p: int) {
    0 <= p < |ts| && ts[p].value == "=>"
  }

  predicate FunctionAt(ts: seq<Token>, p: int) {
    0 <= p < |ts| && ts[p].value == "function"
  }

  predicate TriggerAt(ts: seq<Token>, p: int) {
    ArrowAt(ts, p) || FunctionAt(ts, p)
  }

  /** `p` is the first `=>` or `function` at the top level of ts[s..e]. */
  ghost predicate FirstTrigger(ts: seq<Token>, m: Pairs, s: nat, e: nat, p: nat) {
    && s <= p < e && TriggerAt(ts, p) && TopAt(Delims(ts), m, s, p)
    && forall q :: s <= q < p && TopAt(Delims(ts), m, s, q) ==> !TriggerAt(ts, q)
  }

  /** `q` is outside every parenthesis opened after `p`. */
  ghost predicate OutsideParens(ts: seq<Token>, m: Pairs, p: nat, q: int) {
    forall o {:trigger Mate(m, o)} :: p < o < q && o < |ts| && DelimOf(ts[o].value) == Open(Round) ==> Mate(m, o) < q
  }

  predicate BraceAt(ts: seq<Token>, q: int) {
    0 <= q < |ts| && DelimOf(ts[q].value) == Open(Curly)
  }

  /** `q` is the first brace after `p` outside parameter lists. */
  ghost predicate FirstBrace(ts: seq<Token>, m: Pairs, p: nat, e: nat, q: nat) {
    && p < q < e && BraceAt(ts, q) && OutsideParens(ts, m, p, q)
    && forall r :: p < r < q && OutsideParens(ts, m, p, r) ==> !BraceAt(ts, r)
  }

  /** Where an inspection finds a callback: the first trigger, and a body only if it is a body. */
  ghost predicate Found(ts: seq<Token>, m: Pairs, s: nat, e: nat, p: nat, r: Inspection) {
    && FirstTrigger(ts, m, s, e, p)
    && match r
       case NoCallback => false
       case Broken => if ArrowAt(ts, p) then p + 1 == e else forall q: nat :: !FirstBrace(ts, m, p, e, q)
       case Body(b, c) => BodyOf(ts, m, e, p, b, c)
  }

  /** What the first callback of ts[s..e] is worth, without a scan. */
  ghost predicate Inspects(ts: seq<Token>, m: Pairs, s: nat, e: nat, r: Inspection) {
    if r.NoCallback? then forall q :: s <= q < e && TopAt(Delims(ts), m, s, q) ==> !TriggerAt(ts, q)
    else exists p: nat :: Found(ts, m, s, e, p, r)
  }

  ghost predicate BodyOf(ts: seq<Token>, m: Pairs, e: nat, p: nat, b: nat, c: nat) {
    if ArrowAt(ts, p) then
      if BraceAt(ts, p + 1) then p + 1 < e && b == p + 2 && c == Mate(m, p + 1) else p + 1 < e && b == p + 1 && c == e
    else b > 0 && FirstBrace(ts, m, p, e, b - 1) && c == Mate(m, b - 1)
  }

  /** Between `p` and `q` no brace stands outside parameter lists, and `q` is outside them too. */
  ghost predicate Searched(ts: seq<Token>, m: Pairs, p: nat, q: int) {
    OutsideParens(ts, m, p, q) && forall r :: p < r < q && OutsideParens(ts, m, p, r) ==> !BraceAt(ts, r)
  }

  /** Skipping parameter lists, the first brace of a `function`, or `e`. */
  method FindBrace(ts: seq<Token>, m: Pairs, s: nat, p: nat, e: nat) returns (q: nat)
    requires Matching(Delims(ts), 0, |ts|, m) && s <= p < e <= |ts| && PairClosed(m, s, e)
    ensures q == e || FirstBrace(ts, m, p, e, q)
    ensures q == e ==> forall r: nat :: !FirstBrace(ts, m, p, e, r)
  {
    q := p + 1;
    while q < e
      invariant p < q <= e && Searched(ts, m, p, q)
    {
      var delim := DelimOf(ts[q].value);
      if delim == Open(Round) {
        var parametersClose := Mate(m, q);
        ParensJump(ts, m, p, q);
        q := parametersClose + 1;
        continue;
      }
      if delim == Open(Curly) { return; }
      ParensStep(ts, m, p, q);
      q := q + 1;
    }
  }

  lemma ParensStep(ts: seq<Token>, m: Pairs, p: nat, q: nat)
    requires p < q < |ts| && Searched(ts, m, p, q) && !BraceAt(ts, q) && DelimOf(ts[q].value) != Open(Round)
    ensures Searched(ts, m, p, q + 1)
  {
  }

  lemma ParensJump(ts: seq<Token>, m: Pairs, p: nat, q: nat)
    requires Matching(Delims(ts), 0, |ts|, m) && p < q < |ts| && DelimOf(ts[q].value) == Open(Round)
    requires Searched(ts, m, p, q)
    ensures q < Mate(m, q) && Searched(ts, m, p, Mate(m, q) + 1)
  {
    var ds := Delims(ts);
    assert OpenAt(ds, q) && ds[q] == Open(Round);
    forall o {:trigger Mate(m, o)} | p < o < Mate(m, q) + 1 && o < |ts| && DelimOf(ts[o].value) == Open(Round)
      ensures Mate(m, o) < Mate(m, q) + 1
    {
      var below := Encloses(m, q, o);
      assert OpenAt(ds, o);
    }
    forall r | q < r < Mate(m, q) + 1 ensures !OutsideParens(ts, m, p, r) {
      var open := Mate(m, q);
    }
  }

  /** One argument: where its callback body is, that it has none, or that it cannot be inspected. */
  method InspectArgument(ts: seq<Token>, m: Pairs, s: nat, e: nat) returns (r: Inspection)
    requires Matching(Delims(ts), 0, |ts|, m) && s <= e <= |ts| && PairClosed(m, s, e)
    ensures Inspects(ts, m, s, e, r)
    ensures r.Body? ==> s <= r.start <= r.end <= e && PairClosed(m, r.start, r.end)
  {
    ghost var ds := Delims(ts);
    var position := s;
    while position < e
      invariant s <= position <= e && TopAt(ds, m, s, position)
      invariant forall q :: s <= q < position && TopAt(ds, m, s, q) ==> !TriggerAt(ts, q)
    {
      var token := ts[position];
      if DelimOf(token.value).Open? {
        var nestedClose := Mate(m, position);
        TopJump(ds, m, s, position);
        forall q | position < q < nestedClose + 1 ensures !TopAt(ds, m, s, q) {
          NotTopInside(ds, m, s, position, q);
        }
        position := nestedClose + 1;
        continue;
      }
      if token.value == "=>" {
        TopStep(ds, m, s, position);
        SuffixIsClosed(ds, m, s, position + 1, e);
        r := InspectArrow(ts, m, s, e, position);
        return;
      }
      if token.value == "function" {
        r := InspectFunction(ts, m, s, e, position);
        return;
      }
      TopStep(ds, m, s, position);
      position := position + 1;
    }
    return NoCallback;
  }

  lemma BlockIsClosed(ts: seq<Token>, m: Pairs, q: nat, e: nat)
    requires Matching(Delims(ts), 0, |ts|, m) && q < e <= |ts| && PairClosed(m, q, e) && BraceAt(ts, q)
    ensures q < Mate(m, q) < e && PairClosed(m, q + 1, Mate(m, q))
  {
    assert OpenAt(Delims(ts), q);
    InsideIsClosed(Delims(ts), m, q);
  }

  method InspectArrow(ts: seq<Token>, m: Pairs, s: nat, e: nat, p: nat) returns (r: Inspection)
    requires Matching(Delims(ts), 0, |ts|, m) && e <= |ts| && PairClosed(m, s, e) && PairClosed(m, p + 1, e)
    requires FirstTrigger(ts, m, s, e, p) && ArrowAt(ts, p)
    ensures Inspects(ts, m, s, e, r)
    ensures r.Body? ==> s <= r.start <= r.end <= e && PairClosed(m, r.start, r.end)
  {
    if p + 1 >= e {
      assert Found(ts, m, s, e, p, Broken);
      return Broken;
    }
    if DelimOf(ts[p + 1].value) == Open(Curly) {
      var bodyClose := Mate(m, p + 1);
      BlockIsClosed(ts, m, p + 1, e);
      assert Found(ts, m, s, e, p, Body(p + 2, bodyClose));
      return Body(p + 2, bodyClose);
    }
    assert Found(ts, m, s, e, p, Body(p + 1, e));
    return Body(p + 1, e);
  }

  method InspectFunction(ts: seq<Token>, m: Pairs, s: nat, e: nat, p: nat) returns (r: Inspection)
    requires Matching(Delims(ts), 0, |ts|, m) && e <= |ts| && PairClosed(m, s, e)
    requires FirstTrigger(ts, m, s, e, p) && FunctionAt(ts, p) && !ArrowAt(ts, p)
    ensures Inspects(ts, m, s, e, r)
    ensures r.Body? ==> s <= r.start <= r.end <= e && PairClosed(m, r.start, r.end)
  {
    var q := FindBrace(ts, m, s, p, e);
    if q == e {
      assert Found(ts, m, s, e, p, Broken);
      return Broken;
    }
    var bodyClose := Mate(m, q);
    assert OpenAt(Delims(ts), q) && q < bodyClose < e;
    InsideIsClosed(Delims(ts), m, q);
    assert Found(ts, m, s, e, p, Body(q + 1, bodyClose));
    return Body(q + 1, bodyClose);
  }

  ghost predicate InspectsArgument(ts: seq<Token>, m: Pairs, argument: Range, r: Inspection) {
    var (s, e) := Strip(ts, argument.0, argument.1, m);
    Inspects(ts, m, s, e, r)
  }

  /** The first `n` arguments hold no callback. */
  ghost predicate Passed(ts: seq<Token>, m: Pairs, ranges: seq<Range>, n: nat) {
    n <= |ranges| && forall k :: 0 <= k < n ==> InspectsArgument(ts, m, ranges[k], NoCallback)
  }

  lemma PassedNext(ts: seq<Token>, m: Pairs, ranges: seq<Range>, n: nat)
    requires Passed(ts, m, ranges, n) && n < |ranges| && InspectsArgument(ts, m, ranges[n], NoCallback)
    ensures Passed(ts, m, ranges, n + 1)
  {
  }

  /**
   `r` is what the first argument with a callback gives, and a body lies inside that argument and is
   itself bracket-closed.
   */
  ghost predicate Decides(ts: seq<Token>, m: Pairs, ranges: seq<Range>, at: nat, r: Inspection) {
    && at <= |ranges|
    && Passed(ts, m, ranges, at)
    && (r.NoCallback? <==> at == |ranges|)
    && (at < |ranges| ==> InspectsArgument(ts, m, ranges[at], r))
    && (r.Body? ==> ranges[at].0 <= r.start <= r.end <= ranges[at].1 && PairClosed(m, r.start, r.end))
  }

  /** One argument, without the parentheses around it. */
  method InspectRange(ts: seq<Token>, m: Pairs, open: nat, close: nat, ranges: seq<Range>, k: nat) returns (r: Inspection)
    requires Matching(Delims(ts), 0, |ts|, m) && OpenAt(Delims(ts), open) && close == Mate(m, open)
    requires Splits(ts, m, open, close, ranges) && k < |ranges|
    ensures InspectsArgument(ts, m, ranges[k], r)
    ensures r.Body? ==> ranges[k].0 <= r.start <= r.end <= ranges[k].1 && PairClosed(m, r.start, r.end)
  {
    var (rawStart, rawEnd) := ranges[k];
    ArgumentIsClosed(ts, m, open, close, ranges, k);
    CloseInRange(Delims(ts), m, open);
    var start, end := StripWrappingParentheses(ts, rawStart, rawEnd, m);
    r := InspectArgument(ts, m, start, end);
  }

  method FindCallbackBody(ts: seq<Token>, open: nat, close: nat, m: Pairs) returns (r: Inspection)
    requires Matching(Delims(ts), 0, |ts|, m) && OpenAt(Delims(ts), open) && close == Mate(m, open)
    ensures exists ranges, at: nat :: Splits(ts, m, open, close, ranges) && Decides(ts, m, ranges, at, r)
  {
    var arguments := TopLevelArguments(ts, open, close, m);
    var k;
    k, r := FirstCallback(ts, open, close, m, arguments.ranges);
  }

  method FirstCallback(ts: seq<Token>, open: nat, close: nat, m: Pairs, ranges: seq<Range>) returns (k: nat, r: Inspection)
    requires Matching(Delims(ts), 0, |ts|, m) && OpenAt(Delims(ts), open) && close == Mate(m, open)
    requires Splits(ts, m, open, close, ranges)
    ensures Decides(ts, m, ranges, k, r)
  {
    k := 0;
    while k < |ranges|
      invariant Passed(ts, m, ranges, k)
    {
      r := InspectRange(ts, m, open, close, ranges, k);
      if !r.NoCallback? { return; }
      PassedNext(ts, m, ranges, k);
      k := k + 1;
    }
    r := NoCallback;
  }

  // ---------------------------------------------------------------- one split, one answer

  /** A position of one split's range lies in a range of the other that is not an earlier, equal one. */
  lemma SharedPosition(
    ts: seq<Token>, m: Pairs, open: nat, close: nat, a: seq<Range>, b: seq<Range>, k: nat, q: nat) returns (l: nat)
    requires Splits(ts, m, open, close, a) && Splits(ts, m, open, close, b) && k < |a| && a[k].0 <= q < a[k].1
    requires k <= |b| && forall i :: 0 <= i < k ==> a[i] == b[i]
    ensures k <= l < |b| && b[l].0 <= q < b[l].1
  {
    assert InRanges(a, q);
    assert InRanges(b, q);
    assert forall i :: 0 <= i < k ==> b[i].1 < a[k].0;
    l :| 0 <= l < |b| && b[l].0 <= q < b[l].1;
  }

  lemma NextRangeAgrees(ts: seq<Token>, m: Pairs, open: nat, close: nat, a: seq<Range>, b: seq<Range>, k: nat)
    requires Splits(ts, m, open, close, a) && Splits(ts, m, open, close, b) && k < |a| && k < |b|
    requires forall i :: 0 <= i < k ==> a[i] == b[i]
    ensures a[k] == b[k]
  {
    var la := SharedPosition(ts, m, open, close, a, b, k, a[k].0);
    var lb := SharedPosition(ts, m, open, close, b, a, k, b[k].0);
    assert a[k].0 == b[k].0;
    var ea := SharedPosition(ts, m, open, close, a, b, k, a[k].1 - 1);
    var eb := SharedPosition(ts, m, open, close, b, a, k, b[k].1 - 1);
    EndsAgree(ts, m, open, close, a, b, k);
    EndsAgree(ts, m, open, close, b, a, k);
  }

  lemma EndsAgree(ts: seq<Token>, m: Pairs, open: nat, close: nat, a: seq<Range>, b: seq<Range>, k: nat)
    requires Splits(ts, m, open, close, a) && Splits(ts, m, open, close, b) && k < |a| && k < |b|
    requires a[k].0 == b[k].0 && forall i :: 0 <= i < k ==> a[i] == b[i]
    ensures a[k].1 >= b[k].1
  {
    assert forall l :: k < l < |a| ==> a[k].1 < a[l].0;
    if a[k].1 < b[k].1 {
      var l := SharedPosition(ts, m, open, close, b, a, k, a[k].1);
    }
  }

  lemma {:induction false} RangesAgree(
    ts: seq<Token>, m: Pairs, open: nat, close: nat, a: seq<Range>, b: seq<Range>, n: nat)
    requires Splits(ts, m, open, close, a) && Splits(ts, m, open, close, b) && n <= |a|
    ensures n <= |b| && forall i :: 0 <= i < n ==> a[i] == b[i]
  {
    if n > 0 {
      RangesAgree(ts, m, open, close, a, b, n - 1);
      var l := SharedPosition(ts, m, open, close, a, b, n - 1, a[n - 1].0);
      NextRangeAgrees(ts, m, open, close, a, b, n - 1);
    }
  }

  /** A call has one list of arguments. */
  lemma SplitIsUnique(ts: seq<Token>, m: Pairs, open: nat, close: nat, a: seq<Range>, b: seq<Range>)
    requires Splits(ts, m, open, close, a) && Splits(ts, m, open, close, b)
    ensures a == b
  {
    RangesAgree(ts, m, open, close, a, b, |a|);
    RangesAgree(ts, m, open, close, b, a, |b|);
  }

  lemma FirstTriggerIsUnique(ts: seq<Token>, m: Pairs, s: nat, e: nat, p: nat, q: nat)
    requires FirstTrigger(ts, m, s, e, p) && FirstTrigger(ts, m, s, e, q)
    ensures p == q
  {
  }

  lemma FirstBraceIsUnique(ts: seq<Token>, m: Pairs, p: nat, e: nat, q: nat, r: nat)
    requires FirstBrace(ts, m, p, e, q) && FirstBrace(ts, m, p, e, r)
    ensures q == r
  {
  }

  lemma BodyIsUnique(ts: seq<Token>, m: Pairs, e: nat, p: nat, b: nat, c: nat, b': nat, c': nat)
    requires BodyOf(ts, m, e, p, b, c) && BodyOf(ts, m, e, p, b', c')
    ensures b == b' && c == c'
  {
    if !ArrowAt(ts, p) { FirstBraceIsUnique(ts, m, p, e, b - 1, b' - 1); }
  }

  lemma {:induction false} InspectionIsUnique(ts: seq<Token>, m: Pairs, s: nat, e: nat, r: Inspection, r': Inspection)
    requires Inspects(ts, m, s, e, r) && Inspects(ts, m, s, e, r')
    ensures r == r'
  {
    if !r.NoCallback? && !r'.NoCallback? {
      var p: nat :| Found(ts, m, s, e, p, r);
      var q: nat :| Found(ts, m, s, e, q, r');
      FirstTriggerIsUnique(ts, m, s, e, p, q);
      FoundIsUnique(ts, m, s, e, p, r, r');
    }
  }

  lemma FoundIsUnique(ts: seq<Token>, m: Pairs, s: nat, e: nat, p: nat, r: Inspection, r': Inspection)
    requires Found(ts, m, s, e, p, r) && Found(ts, m, s, e, p, r')
    ensures r == r'
  {
    if r.Body? && r'.Body? { BodyIsUnique(ts, m, e, p, r.start, r.end, r'.start, r'.end); }
    if r.Body? { BodyIsNotBroken(ts, m, e, p, r.start, r.end); }
    if r'.Body? { BodyIsNotBroken(ts, m, e, p, r'.start, r'.end); }
  }

  lemma BodyIsNotBroken(ts: seq<Token>, m: Pairs, e: nat, p: nat, b: nat, c: nat)
    requires BodyOf(ts, m, e, p, b, c)
    ensures if ArrowAt(ts, p) then p + 1 != e else exists q: nat :: FirstBrace(ts, m, p, e, q)
  {
    if !ArrowAt(ts, p) { assert FirstBrace(ts, m, p, e, b - 1); }
  }

  /** The callback search has one answer. */
  lemma {:induction false} DecisionIsUnique(
    ts: seq<Token>, m: Pairs, ranges: seq<Range>, at: nat, at': nat, r: Inspection, r': Inspection)
    requires Decides(ts, m, ranges, at, r) && Decides(ts, m, ranges, at', r')
    ensures r == r'
  {
    SameArgument(ts, m, ranges, at, at', r, r');
    SameArgument(ts, m, ranges, at', at, r', r);
    if at < |ranges| { ArgumentAnswerIsUnique(ts, m, ranges[at], r, r'); }
  }

  lemma ArgumentAnswerIsUnique(ts: seq<Token>, m: Pairs, argument: Range, r: Inspection, r': Inspection)
    requires InspectsArgument(ts, m, argument, r) && InspectsArgument(ts, m, argument, r')
    ensures r == r'
  {
    var (s, e) := Strip(ts, argument.0, argument.1, m);
    InspectionIsUnique(ts, m, s, e, r, r');
  }

  lemma SameArgument(
    ts: seq<Token>, m: Pairs, ranges: seq<Range>, at: nat, at': nat, r: Inspection, r': Inspection)
    requires Decides(ts, m, ranges, at, r) && Decides(ts, m, ranges, at', r')
    ensures at >= at'
  {
    if at < at' { ArgumentAnswerIsUnique(ts, m, ranges[at], r, NoCallback); }
  }
}
