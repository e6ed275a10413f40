/**
 The character-level preflight over serialized JSON (scripts/golden_task_assertions.py,
 _assert_serialized_json_bounds), compared with the JSON grammar of sections 2, 4, 5 and 7 of
 RFC 8259.

 `Json` is a concrete syntax tree: it keeps the insignificant whitespace and the spelling of every
 string, so `Print` reaches every text of the grammar.
 */
module JsonPreflight {

  import opened Values

  datatype Limit = DepthLimit | NodeLimit

  datatype Outcome = Accepted | Rejected(limit: Limit)

  // ---------------------------------------------------------------- the scanner, without limits

  /** `peak` is the greatest depth so far; `clamped` says that `max(0, depth - 1)` has hit its floor. */
  datatype Scan = Scan(depth: nat, peak: nat, nodes: nat, inString: bool, escaped: bool, clamped: bool)

  const START := Scan(0, 0, 0, false, false, false)

  function Step(st: Scan, c: char): Scan {
    if st.inString then
      if st.escaped then st.(escaped := false)
      else if c == '\\' then st.(escaped := true)
      else if c == '"' then st.(inString := false)
      else st
    else if c == '"' then st.(inString := true)
    else if c == '[' || c == '{' then
      st.(depth := st.depth + 1, peak := Max(st.peak, st.depth + 1), nodes := st.nodes + 1)
    else if c == ']' || c == '}' then
      if st.depth == 0 then st.(clamped := true) else st.(depth := st.depth - 1)
    else if c == ',' || c == ':' then st.(nodes := st.nodes + 1)
    else st
  }

  function Run(st: Scan, s: string): Scan
    decreases |s|
  {
    if s == "" then st else Run(Step(st, s[0]), s[1..])
  }

  predicate WithinLimits(st: Scan) {
    st.peak <= MAX_SCAN_DEPTH && st.nodes <= MAX_SCAN_NODES
  }

  lemma {:induction false} RunConcat(st: Scan, s: string, t: string)
    ensures Run(st, s + t) == Run(Run(st, s), t)
    decreases |s|
  {
    if s == "" {
      assert s + t == t;
    } else {
      assert (s + t)[0] == s[0] && (s + t)[1..] == s[1..] + t;
      RunConcat(Step(st, s[0]), s[1..], t);
    }
  }

  lemma {:induction false} RunNeverForgets(st: Scan, s: string)
    ensures Run(st, s).peak >= st.peak && Run(st, s).nodes >= st.nodes
    decreases |s|
  {
    if s != "" { RunNeverForgets(Step(st, s[0]), s[1..]); }
  }

  lemma RunOne(st: Scan, s: string, i: nat)
    requires i < |s|
    ensures Run(st, s[..i + 1]) == Step(Run(st, s[..i]), s[i])
  {
    assert s[..i + 1] == s[..i] + [s[i]];
    RunConcat(st, s[..i], [s[i]]);
    assert [s[i]][1..] == "";
  }

  lemma RunPrefix(st: Scan, s: string, i: nat)
    requires i <= |s|
    ensures Run(st, s).peak >= Run(st, s[..i]).peak && Run(st, s).nodes >= Run(st, s[..i]).nodes
  {
    assert s == s[..i] + s[i..];
    RunConcat(st, s[..i], s[i..]);
    RunNeverForgets(Run(st, s[..i]), s[i..]);
  }

  /** The scanner with its early exits accepts exactly the texts whose complete run keeps both limits. */
  method AssertSerializedJsonBounds(value: string) returns (r: Outcome)
    ensures r.Accepted? <==> WithinLimits(Run(START, value))
    ensures r == Rejected(DepthLimit) ==> Run(START, value).peak > MAX_SCAN_DEPTH
    ensures r == Rejected(NodeLimit) ==> Run(START, value).nodes > MAX_SCAN_NODES
  {
    var depth: nat, structuralNodes: nat, inString, escaped := 0, 0, false, false;
    var i := 0;
    assert value[..0] == "";
    while i < |value|
      invariant 0 <= i <= |value|
      invariant var st := Run(START, value[..i]);
                && WithinLimits(st)
                && st == Scan(depth, st.peak, structuralNodes, inString, escaped, st.clamped)
    {
      var character := value[i];
      RunOne(START, value, i);
      i := i + 1;
      RunPrefix(START, value, i);
      if inString {
        if escaped {
          escaped := false;
        } else if character == '\\' {
          escaped := true;
        } else if character == '"' {
          inString := false;
        }
        continue;
      }
      if character == '"' {
        inString := true;
      } else if character in "[{" {
        depth, structuralNodes := depth + 1, structuralNodes + 1;
        if depth > MAX_SCAN_DEPTH { return Rejected(DepthLimit); }
      } else if character in "]}" {
        depth := if depth > 0 then depth - 1 else 0;
      } else if character in ",:" {
        structuralNodes := structuralNodes + 1;
      }
      if structuralNodes > MAX_SCAN_NODES { return Rejected(NodeLimit); }
    }
    assert value[..i] == value;
    return Accepted;
  }

  // ---------------------------------------------------------------- the grammar

  /** One step of a string body: a plain character, or a backslash and the character after it. */
  datatype Unit = Plain(c: char) | Escape(c: char)

  datatype Json =
    | Scalar(text: string)
    | Str(units: seq<Unit>)
    | Arr(pad: string, elements: Elements)
    | Obj(pad: string, members: Members)

  datatype Elements = NoElement | Element(before: string, value: Json, after: string, rest: Elements)

  datatype Members =
    | NoMember
    | Member(before: string, key: seq<Unit>, gap: string, gap': string, value: Json, after: string, rest: Members)

  predicate WsChar(c: char) {
    c == ' ' || c == '\t' || c == '\n' || c == '\r'
  }

  predicate IsWs(s: string) {
    forall i :: 0 <= i < |s| ==> WsChar(s[i])
  }

  predicate InertChar(c: char) {
    c != '"' && c != '[' && c != ']' && c != '{' && c != '}' && c != ',' && c != ':'
  }

  predicate IsInert(s: string) {
    forall i :: 0 <= i < |s| ==> InertChar(s[i])
  }

  predicate UnitsOk(units: seq<Unit>) {
    forall i :: 0 <= i < |units| && units[i].Plain? ==> units[i].c != '"' && units[i].c != '\\'
  }

  predicate WellFormed(j: Json) {
    match j
    case Scalar(text) => IsInert(text)
    case Str(units) => UnitsOk(units)
    case Arr(pad, elements) => IsWs(pad) && ElementsOk(elements)
    case Obj(pad, members) => IsWs(pad) && MembersOk(members)
  }

  predicate ElementsOk(es: Elements) {
    es.NoElement? || (IsWs(es.before) && WellFormed(es.value) && IsWs(es.after) && ElementsOk(es.rest))
  }

  predicate MembersOk(ms: Members) {
    ms.NoMember?
    || (IsWs(ms.before) && UnitsOk(ms.key) && IsWs(ms.gap) && IsWs(ms.gap') && WellFormed(ms.value) && IsWs(ms.after)
        && MembersOk(ms.rest))
  }

  function PrintUnits(units: seq<Unit>): string {
    if units == [] then ""
    else (if units[0].Plain? then [units[0].c] else ['\\', units[0].c]) + PrintUnits(units[1..])
  }

  function Quote(units: seq<Unit>): string {
    "\"" + (PrintUnits(units) + "\"")
  }

  function Print(j: Json): string
    decreases j, 0
  {
    match j
    case Scalar(text) => text
    case Str(units) => Quote(units)
    case Arr(pad, elements) => "[" + (pad + (PrintElements(elements) + "]"))
    case Obj(pad, members) => "{" + (pad + (PrintMembers(members) + "}"))
  }

  function PrintElements(es: Elements): string
    decreases es, 1
  {
    if es.NoElement? then "" else es.before + (Print(es.value) + (es.after + MoreElements(es.rest)))
  }

  /** What is printed after an element: nothing, or a comma and the rest. */
  function MoreElements(es: Elements): string
    decreases es, 2
  {
    if es.NoElement? then "" else "," + PrintElements(es)
  }

  function PrintMembers(ms: Members): string
    decreases ms, 1
  {
    if ms.NoMember? then "" else PrintMember(ms, MoreMembers(ms.rest))
  }

  /** The first member, and what follows it. */
  function PrintMember(ms: Members, tail: string): string
    requires ms.Member?
    decreases ms, 0
  {
    ms.before + (Quote(ms.key) + (ms.gap + (":" + (ms.gap' + (Print(ms.value) + (ms.after + tail))))))
  }

  function MoreMembers(ms: Members): string
    decreases ms, 2
  {
    if ms.NoMember? then "" else "," + PrintMembers(ms)
  }

  /** Containers around the deepest point. */
  function Nesting(j: Json): nat {
    match j
    case Arr(_, elements) => 1 + ElementsNesting(elements)
    case Obj(_, members) => 1 + MembersNesting(members)
    case _ => 0
  }

  function ElementsNesting(es: Elements): nat {
    if es.NoElement? then 0 else Max(Nesting(es.value), ElementsNesting(es.rest))
  }

  function MembersNesting(ms: Members): nat {
    if ms.NoMember? then 0 else Max(Nesting(ms.value), MembersNesting(ms.rest))
  }

  /** Values in the parsed tree, keys not counted. */
  function ValueCount(j: Json): nat {
    match j
    case Arr(_, elements) => 1 + ElementsValues(elements)
    case Obj(_, members) => 1 + MembersValues(members)
    case _ => 1
  }

  function ElementsValues(es: Elements): nat {
    if es.NoElement? then 0 else ValueCount(es.value) + ElementsValues(es.rest)
  }

  function MembersValues(ms: Members): nat {
    if ms.NoMember? then 0 else ValueCount(ms.value) + MembersValues(ms.rest)
  }

  /** Opening brackets, commas and colons outside strings. */
  function Structure(j: Json): nat {
    match j
    case Arr(_, elements) => 1 + ElementsStructure(elements)
    case Obj(_, members) => 1 + MembersStructure(members)
    case _ => 0
  }

  function ElementsStructure(es: Elements): nat {
    if es.NoElement? then 0
    else Structure(es.value) + (if es.rest.NoElement? then 0 else 1) + ElementsStructure(es.rest)
  }

  function MembersStructure(ms: Members): nat {
    if ms.NoMember? then 0
    else 1 + Structure(ms.value) + (if ms.rest.NoMember? then 0 else 1) + MembersStructure(ms.rest)
  }

  // ---------------------------------------------------------------- the scanner reads the grammar right

  predicate Outside(st: Scan) {
    !st.inString && !st.escaped && st.depth <= st.peak
  }

  function Absorb(st: Scan, nesting: nat, structure: nat): Scan {
    st.(peak := Max(st.peak, st.depth + nesting), nodes := st.nodes + structure)
  }

  lemma {:induction false} RunInert(st: Scan, s: string)
    requires Outside(st) && IsInert(s)
    ensures Run(st, s) == st
    decreases |s|
  {
    if s != "" {
      assert InertChar(s[0]);
      RunInert(st, s[1..]);
    }
  }

  lemma {:induction false} RunWs(st: Scan, s: string)
    requires Outside(st) && IsWs(s)
    ensures Run(st, s) == st
  {
    RunInert(st, s);
  }

  lemma {:induction false} RunUnits(st: Scan, units: seq<Unit>)
    requires st.inString && !st.escaped && UnitsOk(units)
    ensures Run(st, PrintUnits(units)) == st
    decreases |units|
  {
    if units != [] {
      var head := if units[0].Plain? then [units[0].c] else ['\\', units[0].c];
      RunConcat(st, head, PrintUnits(units[1..]));
      assert Run(st, head) == st by {
        if units[0].Plain? {
          assert head[1..] == "";
        } else {
          assert head[1..] == [units[0].c] && head[1..][1..] == "";
          assert Run(st.(escaped := true), [units[0].c]) == Run(st, "");
        }
      }
      RunUnits(st, units[1..]);
    }
  }

  lemma RunChar(st: Scan, c: char)
    ensures Run(st, [c]) == Step(st, c)
  {
    assert [c][1..] == "";
  }

  /** A quoted string is invisible to the scanner, whatever quotes, backslashes or brackets it holds. */
  lemma RunQuote(st: Scan, units: seq<Unit>)
    requires Outside(st) && UnitsOk(units)
    ensures Run(st, Quote(units)) == st
  {
    var inside := st.(inString := true);
    RunConcat(st, "\"", PrintUnits(units) + "\"");
    RunChar(st, '"');
    RunConcat(inside, PrintUnits(units), "\"");
    RunUnits(inside, units);
    RunChar(inside, '"');
  }

  /** Over any printed value the scanner measures exactly its nesting and structure, and never clamps. */
  lemma {:induction false} RunPrint(st: Scan, j: Json)
    requires Outside(st) && WellFormed(j)
    ensures Run(st, Print(j)) == Absorb(st, Nesting(j), Structure(j))
    decreases j
  {
    match j
    case Scalar(text) => RunInert(st, text);
    case Str(units) => RunQuote(st, units);
    case Arr(pad, elements) =>
      var inner := Step(st, '[');
      RunElements(inner, elements);
      RunContainer(st, '[', pad, PrintElements(elements), ']', ElementsNesting(elements), ElementsStructure(elements));
    case Obj(pad, members) =>
      var inner := Step(st, '{');
      RunMembers(inner, members);
      RunContainer(st, '{', pad, PrintMembers(members), '}', MembersNesting(members), MembersStructure(members));
  }

  lemma RunContainer(st: Scan, open: char, pad: string, body: string, close: char, nesting: nat, structure: nat)
    requires Outside(st) && IsWs(pad) && (open == '[' || open == '{') && (close == ']' || close == '}')
    requires Run(Step(st, open), body) == Absorb(Step(st, open), nesting, structure)
    ensures Run(st, [open] + (pad + (body + [close]))) == Absorb(st, 1 + nesting, 1 + structure)
  {
    var inner := Step(st, open);
    RunConcat(st, [open], pad + (body + [close]));
    RunChar(st, open);
    RunConcat(inner, pad, body + [close]);
    RunWs(inner, pad);
    RunConcat(inner, body, [close]);
    RunChar(Absorb(inner, nesting, structure), close);
  }

  lemma {:induction false} RunPadded(st: Scan, before: string, j: Json, after: string, tail: string)
    requires Outside(st) && IsWs(before) && IsWs(after)
    requires Run(st, Print(j)) == Absorb(st, Nesting(j), Structure(j))
    ensures Run(st, before + (Print(j) + (after + tail))) == Run(Absorb(st, Nesting(j), Structure(j)), tail)
  {
    RunConcat(st, before, Print(j) + (after + tail));
    RunWs(st, before);
    RunConcat(st, Print(j), after + tail);
    var st' := Absorb(st, Nesting(j), Structure(j));
    RunConcat(st', after, tail);
    RunWs(st', after);
  }

  lemma AbsorbTwice(st: Scan, n: nat, k: nat, n': nat, k': nat)
    ensures Absorb(Absorb(st, n, k), n', k') == Absorb(st, Max(n, n'), k + k')
  {
  }

  /** A comma before a text counts once more. */
  lemma RunComma(st: Scan, text: string, n: nat, k: nat)
    requires Outside(st) && Run(Step(st, ','), text) == Absorb(Step(st, ','), n, k)
    ensures Run(st, "," + text) == Absorb(st, n, 1 + k)
  {
    RunConcat(st, ",", text);
    RunChar(st, ',');
  }

  lemma {:induction false} RunElements(st: Scan, es: Elements)
    requires Outside(st) && ElementsOk(es)
    ensures Run(st, PrintElements(es)) == Absorb(st, ElementsNesting(es), ElementsStructure(es))
    decreases es, 0
  {
    if es.Element? {
      var n, k := Nesting(es.value), Structure(es.value);
      RunPrint(st, es.value);
      RunPadded(st, es.before, es.value, es.after, MoreElements(es.rest));
      RunMoreElements(Absorb(st, n, k), es.rest);
      AbsorbTwice(st, n, k, ElementsNesting(es.rest), MoreElementsStructure(es.rest));
    }
  }

  function MoreElementsStructure(es: Elements): nat {
    if es.NoElement? then 0 else 1 + ElementsStructure(es)
  }

  lemma {:induction false} RunMoreElements(st: Scan, es: Elements)
    requires Outside(st) && ElementsOk(es)
    ensures Run(st, MoreElements(es)) == Absorb(st, ElementsNesting(es), MoreElementsStructure(es))
    decreases es, 1
  {
    if es.Element? {
      RunElements(Step(st, ','), es);
      RunComma(st, PrintElements(es), ElementsNesting(es), ElementsStructure(es));
    }
  }

  lemma RunKey(st: Scan, before: string, key: seq<Unit>, gap: string, rest: string)
    requires Outside(st) && IsWs(before) && UnitsOk(key) && IsWs(gap)
    ensures Run(st, before + (Quote(key) + (gap + (":" + rest)))) == Run(Step(st, ':'), rest)
  {
    RunConcat(st, before, Quote(key) + (gap + (":" + rest)));
    RunWs(st, before);
    RunConcat(st, Quote(key), gap + (":" + rest));
    RunQuote(st, key);
    RunConcat(st, gap, ":" + rest);
    RunWs(st, gap);
    RunConcat(st, ":", rest);
    RunChar(st, ':');
  }

  function MoreMembersStructure(ms: Members): nat {
    if ms.NoMember? then 0 else 1 + MembersStructure(ms)
  }

  lemma ColonAbsorb(st: Scan, n: nat, k: nat)
    requires Outside(st)
    ensures Absorb(Step(st, ':'), n, k) == Absorb(st, n, 1 + k)
  {
  }

  /** A key, a colon and a value, and what is left to run. */
  lemma RunMember(st: Scan, ms: Members, tail: string)
    requires Outside(st) && ms.Member? && MembersOk(ms)
    requires Run(Step(st, ':'), Print(ms.value)) == Absorb(Step(st, ':'), Nesting(ms.value), Structure(ms.value))
    ensures Run(st, PrintMember(ms, tail)) == Run(Absorb(st, Nesting(ms.value), 1 + Structure(ms.value)), tail)
  {
    RunKey(st, ms.before, ms.key, ms.gap, ms.gap' + (Print(ms.value) + (ms.after + tail)));
    RunPadded(Step(st, ':'), ms.gap', ms.value, ms.after, tail);
    ColonAbsorb(st, Nesting(ms.value), Structure(ms.value));
  }

  lemma {:induction false} RunMembers(st: Scan, ms: Members)
    requires Outside(st) && MembersOk(ms)
    ensures Run(st, PrintMembers(ms)) == Absorb(st, MembersNesting(ms), MembersStructure(ms))
    decreases ms, 0
  {
    if ms.Member? {
      var n, k := Nesting(ms.value), 1 + Structure(ms.value);
      RunPrint(Step(st, ':'), ms.value);
      RunMember(st, ms, MoreMembers(ms.rest));
      RunMoreMembers(Absorb(st, n, k), ms.rest);
      AbsorbTwice(st, n, k, MembersNesting(ms.rest), MoreMembersStructure(ms.rest));
    }
  }

  lemma {:induction false} RunMoreMembers(st: Scan, ms: Members)
    requires Outside(st) && MembersOk(ms)
    ensures Run(st, MoreMembers(ms)) == Absorb(st, MembersNesting(ms), MoreMembersStructure(ms))
    decreases ms, 1
  {
    if ms.Member? {
      RunMembers(Step(st, ','), ms);
      RunComma(st, PrintMembers(ms), MembersNesting(ms), MembersStructure(ms));
    }
  }

  /** A JSON text: a value with whitespace on both sides (section 2 of RFC 8259). */
  function Document(lead: string, j: Json, trail: string): string {
    lead + (Print(j) + trail)
  }

  /** On every JSON text the unlimited scan ends balanced and holds the tree's own measurements. */
  lemma DocumentMeasured(lead: string, j: Json, trail: string)
    requires IsWs(lead) && WellFormed(j) && IsWs(trail)
    ensures Run(START, Document(lead, j, trail)) == Scan(0, Nesting(j), Structure(j), false, false, false)
  {
    RunConcat(START, lead, Print(j) + trail);
    RunWs(START, lead);
    RunConcat(START, Print(j), trail);
    RunPrint(START, j);
    RunWs(Absorb(START, Nesting(j), Structure(j)), trail);
  }

  lemma {:induction false} ValuesBounded(j: Json)
    ensures ValueCount(j) <= Structure(j) + 1
    decreases j
  {
    match j
    case Arr(_, elements) => ElementsBounded(elements);
    case Obj(_, members) => MembersBounded(members);
    case _ =>
  }

  lemma {:induction false} ElementsBounded(es: Elements)
    ensures ElementsValues(es) <= ElementsStructure(es) + 1
    decreases es
  {
    if es.Element? {
      ValuesBounded(es.value);
      ElementsBounded(es.rest);
    }
  }

  lemma {:induction false} MembersBounded(ms: Members)
    ensures MembersValues(ms) <= MembersStructure(ms)
    decreases ms
  {
    if ms.Member? {
      ValuesBounded(ms.value);
      MembersBounded(ms.rest);
    }
  }

  /**
   On every JSON text: the preflight accepts exactly when the tree's nesting and structure fit, and
   an accepted tree is at most 64 containers deep and at most 10,001 values large.
   */
  lemma PreflightExact(lead: string, j: Json, trail: string)
    requires IsWs(lead) && WellFormed(j) && IsWs(trail)
    ensures var st := Run(START, Document(lead, j, trail));
            && (WithinLimits(st) <==> Nesting(j) <= MAX_SCAN_DEPTH && Structure(j) <= MAX_SCAN_NODES)
            && (WithinLimits(st) ==> ValueCount(j) <= MAX_SCAN_NODES + 1)
            && !st.clamped
  {
    DocumentMeasured(lead, j, trail);
    ValuesBounded(j);
  }
}
