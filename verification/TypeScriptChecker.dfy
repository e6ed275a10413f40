/**
 The checker that reads a TypeScript test file and reports weak tests (scripts/check_weak_tests.py,
 _classify_typescript_registration, check_typescript_source).
 */
module TypeScriptChecker {

  import opened Values
  import opened TypeScriptDelimiters
  import opened TypeScriptCalls
  import opened TypeScriptLexer
  import opened TypeScriptAssertions

  // ---------------------------------------------------------------- words

  datatype Root = TestRoot | SuiteRoot | SkippedTest | SkippedSuite | NoRoot

  function RootOf(value: string): Root {
    if value == "it" || value == "test" then TestRoot
    else if value == "describe" || value == "suite" then SuiteRoot
    else if value == "xit" || value == "xtest" then SkippedTest
    else if value == "xdescribe" || value == "xsuite" then SkippedSuite
    else NoRoot
  }

  datatype Modifier = Modifier(skips: bool, arguments: bool, template: bool) | NotModifier

  function ModifierOf(value: string): Modifier {
    if value == "skip" || value == "todo" then Modifier(true, false, false)
    else if value == "skipIf" then Modifier(true, true, false)
    else if value == "each" then Modifier(false, true, true)
    else if value == "runIf" then Modifier(false, true, false)
    else if value == "concurrent" || value == "fails" || value == "only" || value == "sequential" then
      Modifier(false, false, false)
    else NotModifier
  }

  function RootAt(ts: seq<Token>, i: int): Root {
    if 0 <= i < |ts| && !DotAt(ts, i - 1) then RootOf(ts[i].value) else NoRoot
  }

  predicate Skipping(r: Root) {
    r.SkippedTest? || r.SkippedSuite?
  }

  predicate Testing(r: Root) {
    r.TestRoot? || r.SkippedTest?
  }

  /** An undotted test or suite name that is followed by a call or a modifier. */
  predicate RootUse(ts: seq<Token>, i: int) {
    !RootAt(ts, i).NoRoot? && (CallAt(ts, i + 1) || DotAt(ts, i + 1))
  }

  // ---------------------------------------------------------------- registrations

  function ModifierAt(ts: seq<Token>, p: int): Modifier {
    if DotAt(ts, p) && p + 1 < |ts| then ModifierOf(ts[p + 1].value) else NotModifier
  }

  /** The position after the modifier that starts at `p`, with the arguments it takes. */
  function Link(ts: seq<Token>, m: Pairs, p: nat): Option<nat> {
    match ModifierAt(ts, p)
    case NotModifier => None
    case Modifier(_, arguments, template) =>
      if !arguments then Some(p + 2)
      else if CallAt(ts, p + 2) then if Mate(m, p + 2) >= 0 then Some(Mate(m, p + 2) + 1) else None
      else if template && p + 2 < |ts| && ts[p + 2].kind.Template? then Some(p + 3)
      else None
  }

  ghost predicate Leads(ts: seq<Token>, m: Pairs, p: nat, q: nat) {
    !CallAt(ts, p) && Link(ts, m, p) == Some(q)
  }

  /** Positions that lead from the name at `i` through one modifier after another. */
  ghost predicate Visited(ts: seq<Token>, m: Pairs, i: nat, ps: seq<nat>) {
    && |ps| > 0 && ps[0] == i + 1
    && forall k, l :: 0 <= k && l == k + 1 && l < |ps| ==> Leads(ts, m, ps[k], ps[l])
  }

  /** The positions of the modifiers after the name at `i`, up to the call. */
  ghost predicate Chain(ts: seq<Token>, m: Pairs, i: nat, ps: seq<nat>) {
    Visited(ts, m, i, ps) && CallAt(ts, ps[|ps| - 1])
  }

  ghost predicate SkipsIn(ts: seq<Token>, ps: seq<nat>, n: nat) {
    exists k :: 0 <= k < n <= |ps| && ModifierAt(ts, ps[k]).Modifier? && ModifierAt(ts, ps[k]).skips
  }

  datatype Registration = Registration(isTest: bool, skipped: bool, open: nat)

  /** The name at `i` registers a test or suite through this chain of modifiers. */
  ghost predicate RegisteredBy(ts: seq<Token>, m: Pairs, i: nat, ps: seq<nat>, reg: Registration) {
    && !RootAt(ts, i).NoRoot? && Chain(ts, m, i, ps)
    && reg.isTest == Testing(RootAt(ts, i))
    && reg.open == ps[|ps| - 1]
    && (reg.skipped <==> Skipping(RootAt(ts, i)) || SkipsIn(ts, ps, |ps| - 1))
  }

  ghost predicate Registered(ts: seq<Token>, m: Pairs, i: nat, reg: Registration) {
    exists ps :: RegisteredBy(ts, m, i, ps, reg)
  }

  /** Every chain from the name runs through the positions visited. */
  ghost predicate Forced(ts: seq<Token>, m: Pairs, i: nat, visited: seq<nat>) {
    forall ps :: Chain(ts, m, i, ps) ==> visited <= ps
  }

  /** A chain through the visited positions goes on where the last of them links. */
  lemma ChainGoesOn(ts: seq<Token>, m: Pairs, i: nat, visited: seq<nat>, ps: seq<nat>)
    requires |visited| > 0 && visited <= ps && Chain(ts, m, i, ps) && !CallAt(ts, visited[|visited| - 1])
    ensures |ps| > |visited| && Link(ts, m, visited[|visited| - 1]) == Some(ps[|visited|])
  {
    var n := |visited|;
    assert ps[n - 1] == visited[n - 1] && Leads(ts, m, ps[n - 1], ps[n]);
  }

  lemma VisitedOn(ts: seq<Token>, m: Pairs, i: nat, visited: seq<nat>, q: nat)
    requires Visited(ts, m, i, visited)
    requires !CallAt(ts, visited[|visited| - 1]) && Link(ts, m, visited[|visited| - 1]) == Some(q)
    ensures Visited(ts, m, i, visited + [q])
  {
    var more := visited + [q];
    forall k, l | 0 <= k && l == k + 1 && l < |more| ensures Leads(ts, m, more[k], more[l]) {
      if l < |visited| { assert Leads(ts, m, visited[k], visited[l]); }
    }
  }

  lemma ForcedOn(ts: seq<Token>, m: Pairs, i: nat, visited: seq<nat>, q: nat)
    requires Forced(ts, m, i, visited) && |visited| > 0
    requires !CallAt(ts, visited[|visited| - 1]) && Link(ts, m, visited[|visited| - 1]) == Some(q)
    ensures Forced(ts, m, i, visited + [q])
  {
    forall ps | Chain(ts, m, i, ps) ensures visited + [q] <= ps {
      ChainGoesOn(ts, m, i, visited, ps);
    }
  }

  lemma NoChain(ts: seq<Token>, m: Pairs, i: nat, visited: seq<nat>)
    requires Forced(ts, m, i, visited) && |visited| > 0 && !CallAt(ts, visited[|visited| - 1])
    ensures Link(ts, m, visited[|visited| - 1]).None? ==> forall ps :: !Chain(ts, m, i, ps)
  {
    forall ps | Chain(ts, m, i, ps) ensures Link(ts, m, visited[|visited| - 1]).Some? {
      ChainGoesOn(ts, m, i, visited, ps);
    }
  }

  /** Finds the registration of the name at `i`, or shows that no chain of modifiers leads to a call. */
  method ClassifyRegistration(ts: seq<Token>, i: nat, m: Pairs) returns (r: Option<Registration>)
    requires i < |ts| && Matching(Delims(ts), 0, |ts|, m)
    ensures r.Some? ==> Registered(ts, m, i, r.value)
    ensures r.None? ==> RootAt(ts, i).NoRoot? || forall ps :: !Chain(ts, m, i, ps)
  {
    var root := RootAt(ts, i);
    if root.NoRoot? { return None; }
    var skipped := Skipping(root);
    var position: nat := i + 1;
    ghost var visited: seq<nat> := [i + 1];
    while !CallAt(ts, position)
      invariant Visited(ts, m, i, visited) && visited[|visited| - 1] == position
      invariant Forced(ts, m, i, visited)
      invariant skipped <==> Skipping(root) || SkipsIn(ts, visited, |visited| - 1)
      decreases |ts| + 3 - position
    {
      var next := Link(ts, m, position);
      if next.None? {
        NoChain(ts, m, i, visited);
        return None;
      }
      LinkAdvances(ts, m, position);
      VisitedOn(ts, m, i, visited, next.value);
      ForcedOn(ts, m, i, visited, next.value);
      SkipsGrow(ts, visited, next.value);
      skipped := skipped || ModifierAt(ts, position).skips;
      position := next.value;
      visited := visited + [position];
    }
    var reg := Registration(Testing(root), skipped, position);
    assert RegisteredBy(ts, m, i, visited, reg);
    return Some(reg);
  }

  lemma LinkAdvances(ts: seq<Token>, m: Pairs, p: nat)
    requires Matching(Delims(ts), 0, |ts|, m) && Link(ts, m, p).Some?
    ensures p + 2 <= Link(ts, m, p).value <= |ts| && ModifierAt(ts, p).Modifier?
  {
    if ModifierAt(ts, p).arguments && CallAt(ts, p + 2) {
      assert OpenAt(Delims(ts), p + 2);
      var close := Mate(m, p + 2);
    }
  }

  lemma SkipsGrow(ts: seq<Token>, visited: seq<nat>, q: nat)
    requires |visited| > 0 && ModifierAt(ts, visited[|visited| - 1]).Modifier?
    ensures SkipsIn(ts, visited + [q], |visited|) <==>
              SkipsIn(ts, visited, |visited| - 1) || ModifierAt(ts, visited[|visited| - 1]).skips
  {
    var n, more := |visited| - 1, visited + [q];
    assert forall k :: 0 <= k < |visited| ==> more[k] == visited[k];
    if ModifierAt(ts, visited[n]).skips { assert ModifierAt(ts, more[n]).skips; }
    if SkipsIn(ts, visited, n) {
      var k :| 0 <= k < n && ModifierAt(ts, visited[k]).Modifier? && ModifierAt(ts, visited[k]).skips;
      assert ModifierAt(ts, more[k]).skips;
    }
  }

  // ---------------------------------------------------------------- what is reported

  datatype FindingKind = PassOnly | NoAssertion | ParseFailure | Skipped | Tautology | Uninspectable

  datatype Finding = Finding(kind: FindingKind, line: nat)

  /** What the callback search says of a registration's call. */
  ghost predicate Called(ts: seq<Token>, m: Pairs, open: nat, r: Inspection) {
    Mate(m, open) >= 0 &&
    exists ranges, at: nat :: Splits(ts, m, open, Mate(m, open), ranges) && Decides(ts, m, ranges, at, r)
  }

  /** A test worth having: a body that can be read, with an assertion and no tautology. */
  ghost predicate Sound(ts: seq<Token>, m: Pairs, rd: Reading, open: nat) {
    exists s: nat, e: nat :: s < e && Called(ts, m, open, Body(s, e)) && Asserts(ts, m, s, e)
                             && !Tautologies(ts, m, rd, s, e)
  }

  /** Nothing to report about the name at `i`. */
  ghost predicate Fine(ts: seq<Token>, m: Pairs, rd: Reading, i: nat) {
    RootUse(ts, i) ==>
      exists reg :: Registered(ts, m, i, reg) && !reg.skipped && (reg.isTest ==> Sound(ts, m, rd, reg.open))
  }

  /** The name at `i` registers a test that is not skipped, and this is its callback. */
  ghost predicate TestBody(ts: seq<Token>, m: Pairs, i: nat, r: Inspection) {
    exists reg :: Registered(ts, m, i, reg) && reg.isTest && !reg.skipped && Called(ts, m, reg.open, r)
  }

  ghost predicate SkippedName(ts: seq<Token>, m: Pairs, i: nat) {
    exists reg :: Registered(ts, m, i, reg) && reg.skipped
  }

  ghost predicate Unregistered(ts: seq<Token>, m: Pairs, i: nat) {
    RootUse(ts, i) && forall ps :: !Chain(ts, m, i, ps)
  }

  /** A finding of this kind about the name at `i` has a reason in the file. */
  ghost predicate Reason(ts: seq<Token>, m: Pairs, rd: Reading, i: nat, kind: FindingKind) {
    match kind
    case Skipped => SkippedName(ts, m, i)
    case Uninspectable => Unregistered(ts, m, i) || exists r :: TestBody(ts, m, i, r) && !r.Body?
    case PassOnly => exists s: nat :: TestBody(ts, m, i, Body(s, s))
    case NoAssertion => exists s: nat, e: nat :: s < e && TestBody(ts, m, i, Body(s, e)) && !Asserts(ts, m, s, e)
    case Tautology => exists s: nat, e: nat :: s < e && TestBody(ts, m, i, Body(s, e)) && Tautologies(ts, m, rd, s, e)
    case ParseFailure => false
  }

  /** The findings about the name at `i`: one for every reason, and none without. */
  ghost predicate Exactly(ts: seq<Token>, m: Pairs, rd: Reading, i: nat, fs: seq<Finding>) {
    && i < |ts| && (forall k :: 0 <= k < |fs| ==> fs[k].line == ts[i].line)
    && forall kind :: Reason(ts, m, rd, i, kind) <==> Finding(kind, ts[i].line) in fs
  }

  // ---------------------------------------------------------------- the words, listed

  const TEST_NAMES: set<string> := {"it", "test", "xit", "xtest"}
  const SUITE_NAMES: set<string> := {"describe", "suite", "xdescribe", "xsuite"}
  const SKIPPED_NAMES: set<string> := {"xit", "xtest", "xdescribe", "xsuite"}
  const SKIP_MODIFIERS: set<string> := {"skip", "skipIf", "todo"}
  const OTHER_MODIFIERS: set<string> := {"concurrent", "each", "fails", "only", "runIf", "sequential"}
  const CALLED_MODIFIERS: set<string> := {"each", "runIf", "skipIf"}

  lemma NamesMean(value: string)
    ensures Testing(RootOf(value)) <==> value in TEST_NAMES
    ensures !RootOf(value).NoRoot? <==> value in TEST_NAMES + SUITE_NAMES
    ensures Skipping(RootOf(value)) <==> value in SKIPPED_NAMES
  {
  }

  lemma ModifiersMean(value: string)
    ensures ModifierOf(value).Modifier? <==> value in SKIP_MODIFIERS + OTHER_MODIFIERS
    ensures ModifierOf(value).Modifier? ==>
              && (ModifierOf(value).skips <==> value in SKIP_MODIFIERS)
              && (ModifierOf(value).arguments <==> value in CALLED_MODIFIERS)
              && (ModifierOf(value).template <==> value == "each")
  {
  }

  /** A name by itself: `xit(` is skipped, `it(` is a test, `describe(` a suite. */
  lemma {:induction false} PlainNameRegisters(ts: seq<Token>, m: Pairs, i: nat)
    requires i + 1 < |ts| && !DotAt(ts, i - 1) && ts[i].value in TEST_NAMES + SUITE_NAMES && ts[i + 1].value == "("
    ensures Registered(ts, m, i, Registration(ts[i].value in TEST_NAMES, ts[i].value in SKIPPED_NAMES, i + 1))
  {
    NamesMean(ts[i].value);
    assert Chain(ts, m, i, [i + 1]);
    assert RegisteredBy(ts, m, i, [i + 1], Registration(ts[i].value in TEST_NAMES, ts[i].value in SKIPPED_NAMES, i + 1));
  }

  /** One modifier that takes no arguments: `it.skip(` and `describe.todo(` are skipped, `it.only(` is not. */
  lemma {:induction false} OneModifierRegisters(ts: seq<Token>, m: Pairs, i: nat)
    requires i + 3 < |ts| && !DotAt(ts, i - 1) && ts[i].value in TEST_NAMES + SUITE_NAMES
    requires ts[i + 1].value in {".", "?."} && ts[i + 3].value == "("
    requires ts[i + 2].value in SKIP_MODIFIERS + OTHER_MODIFIERS && ts[i + 2].value !in CALLED_MODIFIERS
    ensures Registered(ts, m, i, Registration(
              ts[i].value in TEST_NAMES, ts[i].value in SKIPPED_NAMES || ts[i + 2].value in SKIP_MODIFIERS, i + 3))
  {
    NamesMean(ts[i].value);
    ModifiersMean(ts[i + 2].value);
    var ps := [i + 1, i + 3];
    assert Leads(ts, m, ps[0], ps[1]);
    assert Chain(ts, m, i, ps);
    assert ModifierAt(ts, ps[0]).skips <==> SkipsIn(ts, ps, 1);
    assert RegisteredBy(ts, m, i, ps, Registration(
      ts[i].value in TEST_NAMES, ts[i].value in SKIPPED_NAMES || ts[i + 2].value in SKIP_MODIFIERS, i + 3));
  }

  /** One modifier with its arguments, `it.each([…])(` or `it.skipIf(…)(`, or with a template, ``it.each`…`(``. */
  lemma {:induction false} CalledModifierRegisters(ts: seq<Token>, m: Pairs, i: nat, open: nat)
    requires i + 3 < |ts| && !DotAt(ts, i - 1) && ts[i].value in TEST_NAMES + SUITE_NAMES
    requires ts[i + 1].value in {".", "?."} && ts[i + 2].value in CALLED_MODIFIERS && open < |ts| && ts[open].value == "("
    requires || (ts[i + 3].value == "(" && open == Mate(m, i + 3) + 1 && open > i + 3)
             || (ts[i + 3].value != "(" && ts[i + 2].value == "each" && ts[i + 3].kind.Template? && open == i + 4)
    ensures Registered(ts, m, i, Registration(
              ts[i].value in TEST_NAMES, ts[i].value in SKIPPED_NAMES || ts[i + 2].value == "skipIf", open))
  {
    NamesMean(ts[i].value);
    ModifiersMean(ts[i + 2].value);
    var ps := [i + 1, open];
    assert Leads(ts, m, ps[0], ps[1]);
    assert Chain(ts, m, i, ps);
    assert ModifierAt(ts, ps[0]).skips <==> SkipsIn(ts, ps, 1);
    assert RegisteredBy(ts, m, i, ps, Registration(
      ts[i].value in TEST_NAMES, ts[i].value in SKIPPED_NAMES || ts[i + 2].value == "skipIf", open));
  }

  /** So a skipped test is reported, whatever its body is. */
  lemma {:induction false} SkipsAreReported(ts: seq<Token>, m: Pairs, rd: Reading, i: nat, fs: seq<Finding>)
    requires AllReported(ts, m, rd, |ts|, fs) && i + 3 < |ts| && !DotAt(ts, i - 1)
    requires ts[i].value in TEST_NAMES + SUITE_NAMES
    requires || (ts[i].value in SKIPPED_NAMES && ts[i + 1].value == "(")
             || (ts[i + 1].value in {".", "?."} && ts[i + 2].value in {"skip", "todo"} && ts[i + 3].value == "(")
    ensures Finding(FindingKind.Skipped, ts[i].line) in fs
  {
    if ts[i + 1].value == "(" {
      PlainNameRegisters(ts, m, i);
    } else {
      OneModifierRegisters(ts, m, i);
    }
    assert SkippedName(ts, m, i);
    assert Reason(ts, m, rd, i, FindingKind.Skipped);
  }

  // ---------------------------------------------------------------- chains are unique

  lemma {:induction false} ChainsAgree(ts: seq<Token>, m: Pairs, i: nat, ps: seq<nat>, qs: seq<nat>, n: nat)
    requires Chain(ts, m, i, ps) && Chain(ts, m, i, qs) && n < |ps|
    ensures n < |qs| && ps[n] == qs[n]
  {
    if n > 0 {
      ChainsAgree(ts, m, i, ps, qs, n - 1);
      assert Leads(ts, m, ps[n - 1], ps[n]);
      assert !CallAt(ts, qs[n - 1]);
      assert Leads(ts, m, qs[n - 1], qs[n]);
    }
  }

  /** A name registers at most one thing. */
  lemma RegistrationIsUnique(ts: seq<Token>, m: Pairs, i: nat, a: Registration, b: Registration)
    requires Registered(ts, m, i, a) && Registered(ts, m, i, b)
    ensures a == b
  {
    var ps :| RegisteredBy(ts, m, i, ps, a);
    var qs :| RegisteredBy(ts, m, i, qs, b);
    ChainsAgree(ts, m, i, ps, qs, |ps| - 1);
    ChainsAgree(ts, m, i, qs, ps, |qs| - 1);
    forall n | 0 <= n < |ps| ensures ps[n] == qs[n] { ChainsAgree(ts, m, i, ps, qs, n); }
    assert ps == qs;
  }

  /** A registration's call has a closing parenthesis, so none is passed over for want of one. */
  lemma CallIsClosed(ts: seq<Token>, m: Pairs, i: nat, reg: Registration)
    requires Matching(Delims(ts), 0, |ts|, m) && Registered(ts, m, i, reg)
    ensures OpenAt(Delims(ts), reg.open) && Mate(m, reg.open) > reg.open
  {
    var ps :| RegisteredBy(ts, m, i, ps, reg);
    assert CallAt(ts, reg.open) && OpenAt(Delims(ts), reg.open);
    var close := Mate(m, reg.open);
  }

  lemma RegisteredIsUsed(ts: seq<Token>, m: Pairs, i: nat, reg: Registration)
    requires Registered(ts, m, i, reg)
    ensures RootUse(ts, i) && reg.isTest == Testing(RootAt(ts, i))
  {
    var ps :| RegisteredBy(ts, m, i, ps, reg);
    if |ps| > 1 { assert Leads(ts, m, ps[0], ps[1]); }
  }

  // ---------------------------------------------------------------- the callback search has one answer

  lemma CalledIsUnique(ts: seq<Token>, m: Pairs, open: nat, r: Inspection, r': Inspection)
    requires Called(ts, m, open, r) && Called(ts, m, open, r')
    ensures r == r'
  {
    var close := Mate(m, open);
    var ranges: seq<Range>, at: nat :| Splits(ts, m, open, close, ranges) && Decides(ts, m, ranges, at, r);
    var ranges': seq<Range>, at': nat :| Splits(ts, m, open, close, ranges') && Decides(ts, m, ranges', at', r');
    SplitIsUnique(ts, m, open, close, ranges, ranges');
    DecisionIsUnique(ts, m, ranges, at, at', r, r');
  }

  /** Whether a test is sound is decided by the body that the search finds. */
  lemma {:induction false} SoundIff(ts: seq<Token>, m: Pairs, rd: Reading, open: nat, r: Inspection)
    requires Called(ts, m, open, r)
    ensures Sound(ts, m, rd, open) <==>
              r.Body? && r.start < r.end && Asserts(ts, m, r.start, r.end) && !Tautologies(ts, m, rd, r.start, r.end)
  {
    if Sound(ts, m, rd, open) {
      var s: nat, e: nat :| s < e && Called(ts, m, open, Body(s, e)) && Asserts(ts, m, s, e)
                            && !Tautologies(ts, m, rd, s, e);
      CalledIsUnique(ts, m, open, r, Body(s, e));
    }
  }

  lemma FineIff(ts: seq<Token>, m: Pairs, rd: Reading, i: nat, reg: Registration)
    requires Registered(ts, m, i, reg)
    ensures Fine(ts, m, rd, i) <==> !reg.skipped && (reg.isTest ==> Sound(ts, m, rd, reg.open))
  {
    RegisteredIsUsed(ts, m, i, reg);
    forall other | Registered(ts, m, i, other) ensures other == reg { RegistrationIsUnique(ts, m, i, other, reg); }
  }

  lemma UnregisteredIsNotFine(ts: seq<Token>, m: Pairs, rd: Reading, i: nat)
    requires RootUse(ts, i) && forall ps :: !Chain(ts, m, i, ps)
    ensures !Fine(ts, m, rd, i)
  {
  }

  // ---------------------------------------------------------------- the checker

  method FindBody(ts: seq<Token>, m: Pairs, i: nat, reg: Registration) returns (body: Inspection)
    requires Matching(Delims(ts), 0, |ts|, m) && Registered(ts, m, i, reg)
    ensures Called(ts, m, reg.open, body)
    ensures body.Body? ==> body.start <= body.end <= |ts|
  {
    CallIsClosed(ts, m, i, reg);
    body := FindCallbackBody(ts, reg.open, Mate(m, reg.open), m);
    assert Called(ts, m, reg.open, body);
    if body.Body? { BodyInside(ts, m, reg.open, body); }
  }

  /** What is said about a test, given its body and whether it asserts and has a tautology. */
  function FindingsOf(body: Inspection, asserts: bool, tautology: bool, line: nat): seq<Finding> {
    if !body.Body? then [Finding(Uninspectable, line)]
    else if body.start == body.end then [Finding(PassOnly, line)]
    else
      (if asserts then [] else [Finding(NoAssertion, line)]) + if tautology then [Finding(Tautology, line)] else []
  }

  /** Whether the body asserts and whether it has a tautology, where there is something to read. */
  ghost predicate Summarised(ts: seq<Token>, m: Pairs, rd: Reading, body: Inspection, asserts: bool, tautology: bool) {
    body.Body? && body.start < body.end ==>
      && (asserts <==> Asserts(ts, m, body.start, body.end))
      && (tautology <==> Tautologies(ts, m, rd, body.start, body.end))
  }

  /** What a kind of finding says about the body. */
  predicate Warranted(body: Inspection, asserts: bool, tautology: bool, kind: FindingKind) {
    match kind
    case Uninspectable => !body.Body?
    case PassOnly => body.Body? && body.start == body.end
    case NoAssertion => body.Body? && body.start < body.end && !asserts
    case Tautology => body.Body? && body.start < body.end && tautology
    case _ => false
  }

  ghost predicate Says(fs: seq<Finding>, line: nat, body: Inspection, asserts: bool, tautology: bool) {
    && (forall k :: 0 <= k < |fs| ==> fs[k].line == line)
    && forall kind :: Warranted(body, asserts, tautology, kind) <==> Finding(kind, line) in fs
  }

  lemma FindingsSay(body: Inspection, asserts: bool, tautology: bool, line: nat)
    requires body.Body? ==> body.start <= body.end
    ensures Says(FindingsOf(body, asserts, tautology, line), line, body, asserts, tautology)
  {
  }

  lemma {:induction false} TestBodyIsUnique(ts: seq<Token>, m: Pairs, i: nat, r: Inspection, r': Inspection)
    requires TestBody(ts, m, i, r) && TestBody(ts, m, i, r')
    ensures r == r'
  {
    var reg :| Registered(ts, m, i, reg) && reg.isTest && !reg.skipped && Called(ts, m, reg.open, r);
    var reg' :| Registered(ts, m, i, reg') && reg'.isTest && !reg'.skipped && Called(ts, m, reg'.open, r');
    RegistrationIsUnique(ts, m, i, reg, reg');
    CalledIsUnique(ts, m, reg.open, r, r');
  }

  lemma TestIsNothingElse(ts: seq<Token>, m: Pairs, i: nat, r: Inspection)
    requires TestBody(ts, m, i, r)
    ensures !SkippedName(ts, m, i) && !Unregistered(ts, m, i)
  {
    var reg :| Registered(ts, m, i, reg) && reg.isTest && !reg.skipped && Called(ts, m, reg.open, r);
    forall other | Registered(ts, m, i, other) ensures other == reg { RegistrationIsUnique(ts, m, i, other, reg); }
  }

  lemma WarrantedHasReason(
    ts: seq<Token>, m: Pairs, rd: Reading, i: nat, body: Inspection, asserts: bool, tautology: bool, kind: FindingKind)
    requires TestBody(ts, m, i, body) && Summarised(ts, m, rd, body, asserts, tautology)
    requires Warranted(body, asserts, tautology, kind)
    ensures Reason(ts, m, rd, i, kind)
  {
    if body.Body? { assert body == Body(body.start, body.end); }
  }

  lemma {:induction false} ReasonIsWarranted(
    ts: seq<Token>, m: Pairs, rd: Reading, i: nat, body: Inspection, asserts: bool, tautology: bool, kind: FindingKind)
    requires TestBody(ts, m, i, body) && Summarised(ts, m, rd, body, asserts, tautology)
    requires Reason(ts, m, rd, i, kind)
    ensures Warranted(body, asserts, tautology, kind)
  {
    TestIsNothingElse(ts, m, i, body);
    match kind {
      case Uninspectable =>
        var r :| TestBody(ts, m, i, r) && !r.Body?;
        TestBodyIsUnique(ts, m, i, r, body);
      case PassOnly =>
        var s: nat :| TestBody(ts, m, i, Body(s, s));
        TestBodyIsUnique(ts, m, i, Body(s, s), body);
      case NoAssertion =>
        var s: nat, e: nat :| s < e && TestBody(ts, m, i, Body(s, e)) && !Asserts(ts, m, s, e);
        TestBodyIsUnique(ts, m, i, Body(s, e), body);
      case Tautology =>
        var s: nat, e: nat :| s < e && TestBody(ts, m, i, Body(s, e)) && Tautologies(ts, m, rd, s, e);
        TestBodyIsUnique(ts, m, i, Body(s, e), body);
      case _ =>
    }
  }

  lemma {:induction false} ReasonIff(
    ts: seq<Token>, m: Pairs, rd: Reading, i: nat, body: Inspection, asserts: bool, tautology: bool, kind: FindingKind)
    requires TestBody(ts, m, i, body) && Summarised(ts, m, rd, body, asserts, tautology)
    ensures Reason(ts, m, rd, i, kind) <==> Warranted(body, asserts, tautology, kind)
  {
    if Reason(ts, m, rd, i, kind) {
      ReasonIsWarranted(ts, m, rd, i, body, asserts, tautology, kind);
    } else if Warranted(body, asserts, tautology, kind) {
      WarrantedHasReason(ts, m, rd, i, body, asserts, tautology, kind);
    }
  }

  lemma FindingsAreExact(
    ts: seq<Token>, m: Pairs, rd: Reading, i: nat, body: Inspection, asserts: bool, tautology: bool, fs: seq<Finding>)
    requires i < |ts| && TestBody(ts, m, i, body) && Summarised(ts, m, rd, body, asserts, tautology)
    requires Says(fs, ts[i].line, body, asserts, tautology)
    ensures Exactly(ts, m, rd, i, fs)
  {
    forall kind ensures Reason(ts, m, rd, i, kind) <==> Finding(kind, ts[i].line) in fs {
      ReasonIff(ts, m, rd, i, body, asserts, tautology, kind);
    }
  }

  lemma {:induction false} FindingsMeanSound(
    ts: seq<Token>, m: Pairs, rd: Reading, open: nat, body: Inspection, asserts: bool, tautology: bool, line: nat)
    requires Called(ts, m, open, body) && (body.Body? ==> body.start <= body.end)
    requires Summarised(ts, m, rd, body, asserts, tautology)
    ensures FindingsOf(body, asserts, tautology, line) == [] <==> Sound(ts, m, rd, open)
  {
    SoundIff(ts, m, rd, open, body);
  }

  method Summarise(ts: seq<Token>, m: Pairs, rd: Reading, body: Inspection) returns (asserts: bool, tautology: bool)
    requires Matching(Delims(ts), 0, |ts|, m) && (body.Body? ==> body.start <= body.end <= |ts|)
    ensures Summarised(ts, m, rd, body, asserts, tautology)
  {
    asserts, tautology := false, false;
    if body.Body? && body.start < body.end {
      var count, found := AssertionSummary(ts, m, rd, body.start, body.end);
      asserts, tautology := count > 0, found;
    }
  }

  /** The findings about one test that is not skipped. */
  method CheckTest(ts: seq<Token>, m: Pairs, rd: Reading, i: nat, reg: Registration) returns (fs: seq<Finding>)
    requires i < |ts| && Matching(Delims(ts), 0, |ts|, m)
    requires Registered(ts, m, i, reg) && reg.isTest && !reg.skipped
    ensures Exactly(ts, m, rd, i, fs)
    ensures fs == [] <==> Sound(ts, m, rd, reg.open)
  {
    var body := FindBody(ts, m, i, reg);
    var asserts, tautology := Summarise(ts, m, rd, body);
    assert TestBody(ts, m, i, body);
    fs := FindingsOf(body, asserts, tautology, ts[i].line);
    FindingsSay(body, asserts, tautology, ts[i].line);
    FindingsAreExact(ts, m, rd, i, body, asserts, tautology, fs);
    FindingsMeanSound(ts, m, rd, reg.open, body, asserts, tautology, ts[i].line);
  }

  lemma BodyInside(ts: seq<Token>, m: Pairs, open: nat, r: Inspection)
    requires Matching(Delims(ts), 0, |ts|, m) && OpenAt(Delims(ts), open)
    requires Called(ts, m, open, r) && r.Body?
    ensures open < r.start <= r.end <= Mate(m, open) <= |ts|
  {
    var ranges: seq<Range>, at: nat :| Splits(ts, m, open, Mate(m, open), ranges) && Decides(ts, m, ranges, at, r);
    assert open + 1 <= ranges[at].0 && ranges[at].1 <= Mate(m, open);
    assert CloseAt(Delims(ts), Mate(m, open));
  }

  ghost predicate TestUse(ts: seq<Token>, i: nat) {
    RootUse(ts, i) && Testing(RootAt(ts, i))
  }

  ghost predicate TestBelow(ts: seq<Token>, n: nat) {
    exists i: nat :: i < n && TestUse(ts, i)
  }

  /** A finding is about some name and has its reason there, or says that there is no test at all. */
  ghost predicate Explained(ts: seq<Token>, m: Pairs, rd: Reading, f: Finding) {
    || (exists i: nat :: i < |ts| && f.line == ts[i].line && Reason(ts, m, rd, i, f.kind))
    || (f == Finding(Uninspectable, 1) && !TestBelow(ts, |ts|))
  }

  ghost predicate AllExplained(ts: seq<Token>, m: Pairs, rd: Reading, fs: seq<Finding>) {
    forall k :: 0 <= k < |fs| ==> Explained(ts, m, rd, fs[k])
  }

  /** Every reason below `n` is reported. */
  ghost predicate AllReported(ts: seq<Token>, m: Pairs, rd: Reading, n: nat, fs: seq<Finding>) {
    forall i: nat, kind :: i < n <= |ts| && Reason(ts, m, rd, i, kind) ==> Finding(kind, ts[i].line) in fs
  }

  lemma ReportedOn(ts: seq<Token>, m: Pairs, rd: Reading, n: nat, before: seq<Finding>, fs: seq<Finding>)
    requires AllReported(ts, m, rd, n, before) && Exactly(ts, m, rd, n, fs)
    ensures AllReported(ts, m, rd, n + 1, before + fs)
  {
    forall i: nat, kind | i < n + 1 <= |ts| && Reason(ts, m, rd, i, kind)
      ensures Finding(kind, ts[i].line) in before + fs
    {
    }
  }

  lemma ExactIsExplained(ts: seq<Token>, m: Pairs, rd: Reading, i: nat, fs: seq<Finding>)
    requires Exactly(ts, m, rd, i, fs)
    ensures AllExplained(ts, m, rd, fs)
  {
    forall k | 0 <= k < |fs| ensures Explained(ts, m, rd, fs[k]) {
      assert fs[k] == Finding(fs[k].kind, ts[i].line) && fs[k] in fs;
      assert Reason(ts, m, rd, i, fs[k].kind);
    }
  }

  lemma UnusedHasNoReason(ts: seq<Token>, m: Pairs, rd: Reading, i: nat, kind: FindingKind)
    requires !RootUse(ts, i)
    ensures !Reason(ts, m, rd, i, kind)
  {
    forall reg ensures Registered(ts, m, i, reg) ==> RootUse(ts, i) {
      if Registered(ts, m, i, reg) { RegisteredIsUsed(ts, m, i, reg); }
    }
  }

  lemma UnregisteredHasOneReason(ts: seq<Token>, m: Pairs, rd: Reading, i: nat, kind: FindingKind)
    requires Unregistered(ts, m, i)
    ensures Reason(ts, m, rd, i, kind) <==> kind.Uninspectable?
  {
  }

  /** A skipped name is reported as that alone, and a suite that is not skipped not at all. */
  lemma {:induction false} RegisteredReasons(ts: seq<Token>, m: Pairs, rd: Reading, i: nat, reg: Registration, kind: FindingKind)
    requires Registered(ts, m, i, reg) && (reg.skipped || !reg.isTest)
    ensures Reason(ts, m, rd, i, kind) <==> reg.skipped && kind == FindingKind.Skipped
  {
    forall other | Registered(ts, m, i, other) ensures other == reg { RegistrationIsUnique(ts, m, i, other, reg); }
  }

  lemma ExplainedTogether(ts: seq<Token>, m: Pairs, rd: Reading, before: seq<Finding>, fs: seq<Finding>)
    requires AllExplained(ts, m, rd, before) && AllExplained(ts, m, rd, fs)
    ensures AllExplained(ts, m, rd, before + fs)
  {
  }

  /** The findings about the name at `i`, and whether it is the use of a test name. */
  method CheckName(ts: seq<Token>, m: Pairs, rd: Reading, i: nat) returns (fs: seq<Finding>, test: bool)
    requires i < |ts| && Matching(Delims(ts), 0, |ts|, m)
    ensures Exactly(ts, m, rd, i, fs)
    ensures fs == [] <==> Fine(ts, m, rd, i)
    ensures test <==> TestUse(ts, i)
  {
    var line := ts[i].line;
    var classified := ClassifyRegistration(ts, i, m);
    if classified.None? {
      if !RootUse(ts, i) {
        forall kind { UnusedHasNoReason(ts, m, rd, i, kind); }
        return [], false;
      }
      UnregisteredIsNotFine(ts, m, rd, i);
      forall kind { UnregisteredHasOneReason(ts, m, rd, i, kind); }
      return [Finding(Uninspectable, line)], Testing(RootAt(ts, i));
    }
    var reg := classified.value;
    RegisteredIsUsed(ts, m, i, reg);
    FineIff(ts, m, rd, i, reg);
    if reg.skipped || !reg.isTest {
      forall kind { RegisteredReasons(ts, m, rd, i, reg, kind); }
      return if reg.skipped then [Finding(FindingKind.Skipped, line)] else [], reg.isTest;
    }
    fs := CheckTest(ts, m, rd, i, reg);
    return fs, true;
  }

  /** A file with nothing to report: some test, and nothing wrong with any name. */
  ghost predicate Clean(ts: seq<Token>, m: Pairs, rd: Reading) {
    HasTest(ts, m) && FineBelow(ts, m, rd, |ts|)
  }

  ghost predicate FineBelow(ts: seq<Token>, m: Pairs, rd: Reading, n: nat) {
    forall i: nat :: i < n ==> Fine(ts, m, rd, i)
  }

  lemma NameSettled(ts: seq<Token>, m: Pairs, rd: Reading, n: nat)
    ensures FineBelow(ts, m, rd, n + 1) <==> FineBelow(ts, m, rd, n) && Fine(ts, m, rd, n)
    ensures TestBelow(ts, n + 1) <==> TestBelow(ts, n) || TestUse(ts, n)
  {
  }

  ghost predicate HasTest(ts: seq<Token>, m: Pairs) {
    exists i: nat, reg :: Registered(ts, m, i, reg) && reg.isTest
  }

  /** A test name that is fine registers a test. */
  lemma FineTest(ts: seq<Token>, m: Pairs, rd: Reading, i: nat)
    requires TestUse(ts, i) && Fine(ts, m, rd, i)
    ensures HasTest(ts, m)
  {
    var reg :| Registered(ts, m, i, reg) && !reg.skipped && (reg.isTest ==> Sound(ts, m, rd, reg.open));
    RegisteredIsUsed(ts, m, i, reg);
  }

  lemma TestIsUsed(ts: seq<Token>, m: Pairs)
    requires HasTest(ts, m)
    ensures TestBelow(ts, |ts|)
  {
    var i: nat, reg :| Registered(ts, m, i, reg) && reg.isTest;
    RegisteredIsUsed(ts, m, i, reg);
    assert TestUse(ts, i);
  }

  /** A clean file is one where every name is fine and a test name is used. */
  lemma CleanIff(ts: seq<Token>, m: Pairs, rd: Reading)
    ensures Clean(ts, m, rd) <==> FineBelow(ts, m, rd, |ts|) && TestBelow(ts, |ts|)
  {
    if FineBelow(ts, m, rd, |ts|) && TestBelow(ts, |ts|) {
      var i: nat :| i < |ts| && TestUse(ts, i);
      FineTest(ts, m, rd, i);
    }
    if HasTest(ts, m) { TestIsUsed(ts, m); }
  }

  /** There is nothing to report exactly about a clean file, and every finding is explained. */
  method CheckTokens(ts: seq<Token>, m: Pairs, rd: Reading) returns (findings: seq<Finding>)
    requires Matching(Delims(ts), 0, |ts|, m)
    ensures findings == [] <==> Clean(ts, m, rd)
    ensures AllExplained(ts, m, rd, findings)
    ensures AllReported(ts, m, rd, |ts|, findings)
  {
    findings := [];
    var sawTest := false;
    var i: nat := 0;
    while i < |ts|
      invariant i <= |ts|
      invariant findings == [] <==> FineBelow(ts, m, rd, i)
      invariant sawTest <==> TestBelow(ts, i)
      invariant AllExplained(ts, m, rd, findings)
      invariant AllReported(ts, m, rd, i, findings)
    {
      var fs, test := CheckName(ts, m, rd, i);
      ReportedOn(ts, m, rd, i, findings, fs);
      ExactIsExplained(ts, m, rd, i, fs);
      ExplainedTogether(ts, m, rd, findings, fs);
      NameSettled(ts, m, rd, i);
      findings := findings + fs;
      sawTest := sawTest || test;
      i := i + 1;
    }
    if !sawTest {
      ExplainedTogether(ts, m, rd, findings, [Finding(Uninspectable, 1)]);
      findings := findings + [Finding(Uninspectable, 1)];
    }
    CleanIff(ts, m, rd);
  }

  /** The text has no complete token list, or its delimiters have no matching. */
  ghost predicate Unreadable(cls: Classes, source: string) {
    forall ts, m :: Complete(cls, source, ts) ==> !Matching(Delims(ts), 0, |ts|, m)
  }

  /** What the findings say of a token list and its pairs. */
  ghost predicate Accounts(ts: seq<Token>, m: Pairs, rd: Reading, findings: seq<Finding>) {
    (findings == [] <==> Clean(ts, m, rd)) && AllExplained(ts, m, rd, findings) && AllReported(ts, m, rd, |ts|, findings)
  }

  /** A single parse failure for an unreadable text; otherwise an account of its tokens. */
  ghost predicate Reported(source: string, rd: Reading, findings: seq<Finding>) {
    if Unreadable(rd.cls, source) then |findings| == 1 && findings[0].kind.ParseFailure?
    else
      forall ts, m ::
        Complete(rd.cls, source, ts) && Matching(Delims(ts), 0, |ts|, m) ==> Accounts(ts, m, rd, findings)
  }

  lemma {:induction false} OneTokenization(
    source: string, rd: Reading, ts: seq<Token>, m: Pairs, us: seq<Token>, m': Pairs, findings: seq<Finding>)
    requires TypeScriptLexer.Sane(rd.cls) && Complete(rd.cls, source, ts) && Complete(rd.cls, source, us)
    requires Matching(Delims(ts), 0, |ts|, m) && Matching(Delims(us), 0, |us|, m')
    requires Accounts(ts, m, rd, findings)
    ensures Accounts(us, m', rd, findings)
  {
    TokenizationIsUnique(rd.cls, source, ts, us);
    MatchingIsUnique(Delims(ts), 0, |ts|, m, m');
  }

  lemma UnbalancedIsUnreadable(cls: Classes, source: string, ts: seq<Token>)
    requires TypeScriptLexer.Sane(cls) && Complete(cls, source, ts)
    requires forall m :: !Matching(Delims(ts), 0, |ts|, m)
    ensures Unreadable(cls, source)
  {
    forall us, m | Complete(cls, source, us) ensures !Matching(Delims(us), 0, |us|, m) {
      TokenizationIsUnique(cls, source, ts, us);
    }
  }

  method CheckTypescriptSource(source: string, rd: Reading) returns (findings: seq<Finding>)
    requires TypeScriptLexer.Sane(rd.cls)
    ensures Reported(source, rd, findings)
  {
    var lexed := TokenizeTypescript(rd.cls, source);
    if lexed.LexError? { return [Finding(ParseFailure, lexed.line)]; }
    var paired := DelimiterPairs(lexed.tokens);
    if paired.ParseError? {
      UnbalancedIsUnreadable(rd.cls, source, lexed.tokens);
      return [Finding(ParseFailure, paired.line)];
    }
    findings := CheckTokens(lexed.tokens, paired.pairs, rd);
    forall us, m | Complete(rd.cls, source, us) && Matching(Delims(us), 0, |us|, m)
      ensures Accounts(us, m, rd, findings)
    {
      OneTokenization(source, rd, lexed.tokens, paired.pairs, us, m, findings);
    }
  }
}
