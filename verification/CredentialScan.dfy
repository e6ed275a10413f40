/**
 The explicit-stack credential scan (scripts/golden_task_assertions.py, _assert_no_credential_values,
 _bounded_serialized_json_mapping, _credential_mapping_rule, _account_credential_scan_chars).

 The scan pops work items, charges node, depth and character budgets on the way, and opens one level
 of JSON that is serialized inside strings. `Audit` is the order-free meaning: it adds up the whole
 tree of work and asks every local condition, with no stack and no early exit.
 */
module CredentialScan {

  import JsonPreflight
  import opened Values

  datatype Entry = Entry(key: Key, item: Node)

  /** A snapshot tree; `Other` stands for numbers, booleans and opaque objects. */
  datatype Node =
    | Null
    | Other
    | Bytes(length: nat)
    | Str(text: string)
    | Arr(items: seq<Node>)
    | Map(entries: seq<Entry>)

  datatype Parse = Parsed(node: Node) | DecodeError | ParseLimit

  /** The parts of the scan decided elsewhere: the text patterns, the mapping-key table, the JSON parser. */
  datatype Rules = Rules(
    textRule: string -> bool,
    credentialKey: string -> bool,
    isSpace: char -> bool,
    parse: string -> Parse)

  datatype Serialized = Plain | Embedded(node: Node) | TooLarge

  /** One stack entry: (value, depth, chars_counted, allow_serialized_json). */
  datatype Work = Work(node: Node, depth: nat, counted: bool, allowJson: bool)

  datatype Verdict = Accepted | Rejected

  // ---------------------------------------------------------------- local rules

  function NonEmptyScalar(node: Node): bool {
    match node
    case Null => false
    case Other => true
    case Bytes(length) => length > 0
    case Str(text) => text != ""
    case Arr(items) => items != []
    case Map(entries) => entries != []
  }

  function StripLeft(rules: Rules, s: string): string {
    if s != "" && rules.isSpace(s[0]) then StripLeft(rules, s[1..]) else s
  }

  function SerializedMapping(rules: Rules, text: string): Serialized {
    var content := StripLeft(rules, text);
    if content == "" || content[0] != '{' then Plain
    else if |text| > MAX_SERIALIZED_JSON_CHARS then TooLarge
    else if !JsonPreflight.WithinLimits(JsonPreflight.Run(JsonPreflight.START, text)) then TooLarge
    else
      match rules.parse(text)
      case Parsed(node) => Embedded(node)
      case DecodeError => Plain
      case ParseLimit => TooLarge
  }

  /** The work one string opens: nothing, or its embedded JSON at depth 0 with no further nesting. */
  function Opened(rules: Rules, text: string, allowJson: bool): seq<Work> {
    if !allowJson then []
    else
      match SerializedMapping(rules, text)
      case Embedded(node) => [Work(node, 0, false, false)]
      case _ => []
  }

  predicate TextOk(rules: Rules, text: string, allowJson: bool) {
    && !rules.textRule(text)
    && (allowJson ==> !SerializedMapping(rules, text).TooLarge?)
  }

  predicate EntryOk(rules: Rules, e: Entry, allowJson: bool) {
    && (e.key.TextKey? ==>
          && |e.key.name| <= MAX_STRING_CHARS
          && !rules.textRule(e.key.name)
          && !(rules.credentialKey(e.key.name) && NonEmptyScalar(e.item)))
    && (e.item.Str? ==>
          && |e.item.text| <= MAX_STRING_CHARS
          && (allowJson ==> !SerializedMapping(rules, e.item.text).TooLarge?))
    && (e.key.TextKey? && e.item.Str? ==>
          && |e.key.name| + |e.item.text| + 2 <= MAX_STRING_CHARS
          && !rules.textRule(e.key.name + ": " + e.item.text))
  }

  /** Everything asked of one work item by itself. */
  predicate WorkOk(rules: Rules, w: Work) {
    && w.depth <= MAX_SCAN_DEPTH
    && match w.node {
         case Str(text) => (w.counted || |text| <= MAX_STRING_CHARS) && TextOk(rules, text, w.allowJson)
         case Map(entries) => forall i :: 0 <= i < |entries| ==> EntryOk(rules, entries[i], w.allowJson)
         case _ => true
       }
  }

  function EntryChars(e: Entry): nat {
    (if e.key.TextKey? then |e.key.name| else 0) + (if e.item.Str? then |e.item.text| else 0)
  }

  function EntriesChars(entries: seq<Entry>): nat {
    if entries == [] then 0
    else EntriesChars(entries[..|entries| - 1]) + EntryChars(entries[|entries| - 1])
  }

  /** Characters charged while this work item is handled. */
  function WorkChars(w: Work): nat {
    match w.node
    case Str(text) => if w.counted then 0 else |text|
    case Map(entries) => EntriesChars(entries)
    case _ => 0
  }

  // ---------------------------------------------------------------- the tree of work

  function EntryWork(rules: Rules, e: Entry, depth: nat, allowJson: bool): (ws: seq<Work>)
    ensures ws != []
  {
    (if e.item.Str? then Opened(rules, e.item.text, allowJson) else [])
    + [Work(e.item, depth + 1, e.item.Str?, allowJson && !e.item.Str?)]
  }

  function EntriesWork(rules: Rules, entries: seq<Entry>, depth: nat, allowJson: bool): seq<Work> {
    if entries == [] then []
    else
      EntriesWork(rules, entries[..|entries| - 1], depth, allowJson)
      + EntryWork(rules, entries[|entries| - 1], depth, allowJson)
  }

  function ItemsWork(items: seq<Node>, depth: nat, allowJson: bool): seq<Work> {
    seq(|items|, i requires 0 <= i < |items| => Work(items[i], depth + 1, false, allowJson))
  }

  /** What handling `w` pushes. */
  function Subwork(rules: Rules, w: Work): seq<Work> {
    match w.node
    case Str(text) => Opened(rules, text, w.allowJson)
    case Map(entries) => EntriesWork(rules, entries, w.depth, w.allowJson)
    case Arr(items) => ItemsWork(items, w.depth, w.allowJson)
    case _ => []
  }

  /** Work only ever opens smaller work: either JSON is no longer allowed, or the node is a part. */
  ghost predicate Below(c: Work, w: Work) {
    (w.allowJson && !c.allowJson) || (c.allowJson == w.allowJson && c.node < w.node)
  }

  lemma {:induction false} EntriesWorkBelow(rules: Rules, entries: seq<Entry>, depth: nat, allowJson: bool, c: Work)
    requires c in EntriesWork(rules, entries, depth, allowJson)
    ensures (allowJson && !c.allowJson) || (c.allowJson == allowJson && exists i :: 0 <= i < |entries| && c.node == entries[i].item)
    decreases |entries|
  {
    var front := entries[..|entries| - 1];
    if c in EntriesWork(rules, front, depth, allowJson) {
      EntriesWorkBelow(rules, front, depth, allowJson, c);
      if c.allowJson == allowJson {
        var i :| 0 <= i < |front| && c.node == front[i].item;
        assert entries[i] == front[i];
      }
    }
  }

  lemma SubworkBelow(rules: Rules, w: Work)
    ensures forall c :: c in Subwork(rules, w) ==> Below(c, w)
  {
    forall c | c in Subwork(rules, w) ensures Below(c, w) {
      match w.node
      case Map(entries) =>
        EntriesWorkBelow(rules, entries, w.depth, w.allowJson, c);
        if c.allowJson == w.allowJson {
          var i :| 0 <= i < |entries| && c.node == entries[i].item;
          assert entries[i].item < w.node;
        }
      case _ =>
    }
  }

  /** Totals over a tree of work: items, characters, and whether every item is acceptable. */
  datatype Report = Report(items: nat, chars: nat, clean: bool)

  const NOTHING := Report(0, 0, true)

  function Plus(a: Report, b: Report): Report {
    Report(a.items + b.items, a.chars + b.chars, a.clean && b.clean)
  }

  ghost function Audit(rules: Rules, w: Work): (r: Report)
    ensures r.items >= 1
    decreases w.allowJson, w.node, 1, 0
  {
    SubworkBelow(rules, w);
    Plus(Report(1, WorkChars(w), WorkOk(rules, w)), AuditBelow(rules, Subwork(rules, w), w))
  }

  ghost function AuditBelow(rules: Rules, ws: seq<Work>, w: Work): Report
    requires forall c :: c in ws ==> Below(c, w)
    decreases w.allowJson, w.node, 0, |ws|
  {
    if ws == [] then NOTHING
    else
      var c := ws[0];
      assert Below(c, w);
      Plus(Audit(rules, c), AuditBelow(rules, ws[1..], w))
  }

  ghost function Total(audit: Work -> Report, ws: seq<Work>): Report {
    if ws == [] then NOTHING else Plus(audit(ws[0]), Total(audit, ws[1..]))
  }

  ghost function Auditor(rules: Rules): Work -> Report {
    w => Audit(rules, w)
  }

  ghost function AuditAll(rules: Rules, ws: seq<Work>): Report {
    Total(Auditor(rules), ws)
  }

  lemma {:induction false} AuditBelowIsAll(rules: Rules, ws: seq<Work>, w: Work)
    requires forall c :: c in ws ==> Below(c, w)
    ensures AuditBelow(rules, ws, w) == AuditAll(rules, ws)
    decreases |ws|
  {
    if ws != [] { AuditBelowIsAll(rules, ws[1..], w); }
  }

  lemma {:induction false} AuditUnfolds(rules: Rules, w: Work)
    ensures Audit(rules, w)
         == Plus(Report(1, WorkChars(w), WorkOk(rules, w)), AuditAll(rules, Subwork(rules, w)))
  {
    SubworkBelow(rules, w);
    AuditBelowIsAll(rules, Subwork(rules, w), w);
  }

  lemma {:induction false} TotalConcat(audit: Work -> Report, a: seq<Work>, b: seq<Work>)
    ensures Total(audit, a + b) == Plus(Total(audit, a), Total(audit, b))
    decreases |a|
  {
    if a == [] {
      assert a + b == b;
    } else {
      assert (a + b)[0] == a[0] && (a + b)[1..] == a[1..] + b;
      TotalConcat(audit, a[1..], b);
    }
  }

  lemma {:induction false} PendingCounts(rules: Rules, ws: seq<Work>)
    ensures AuditAll(rules, ws).items >= |ws|
    decreases |ws|
  {
    if ws != [] { PendingCounts(rules, ws[1..]); }
  }

  lemma {:induction false} PendingClean(rules: Rules, ws: seq<Work>, c: Work)
    requires c in ws && AuditAll(rules, ws).clean
    ensures WorkOk(rules, c)
    decreases |ws|
  {
    if c == ws[0] { AuditUnfolds(rules, c); } else { PendingClean(rules, ws[1..], c); }
  }

  lemma TotalOne(audit: Work -> Report, w: Work)
    ensures Total(audit, [w]) == audit(w)
  {
    assert [w][1..] == [];
  }

  /**
   One turn: the popped item's own totals move to the counters and its subwork joins the stack, and
   the grand total stays what it was.
   */
  lemma Turn(rules: Rules, total: Report, nodesSeen: nat, totalChars: nat, rest: seq<Work>, w: Work)
    requires total == Plus(Report(nodesSeen, totalChars, true), AuditAll(rules, rest + [w]))
    ensures var next := AuditAll(rules, rest + Subwork(rules, w));
            && total == Plus(Report(nodesSeen + 1, totalChars + WorkChars(w), WorkOk(rules, w)), next)
            && next.items < AuditAll(rules, rest + [w]).items
  {
    PoppedTotal(rules, rest, w);
    TotalConcat(Auditor(rules), rest, Subwork(rules, w));
    PlusMoves(nodesSeen, totalChars, AuditAll(rules, rest), WorkChars(w), WorkOk(rules, w), AuditAll(rules, Subwork(rules, w)));
  }

  lemma PoppedTotal(rules: Rules, rest: seq<Work>, w: Work)
    ensures AuditAll(rules, rest + [w])
         == Plus(AuditAll(rules, rest), Plus(Report(1, WorkChars(w), WorkOk(rules, w)), AuditAll(rules, Subwork(rules, w))))
  {
    TotalConcat(Auditor(rules), rest, [w]);
    TotalOne(Auditor(rules), w);
    AuditUnfolds(rules, w);
  }

  lemma PlusMoves(nodes: nat, chars: nat, rest: Report, own: nat, ok: bool, more: Report)
    ensures Plus(Report(nodes, chars, true), Plus(rest, Plus(Report(1, own, ok), more)))
         == Plus(Report(nodes + 1, chars + own, ok), Plus(rest, more))
  {
  }

  /** A turn that has to stop means that the grand total cannot fit. */
  lemma StopIsJust(rules: Rules, total: Report, nodesSeen: nat, totalChars: nat, rest: seq<Work>, w: Work)
    requires total == Plus(Report(nodesSeen, totalChars + WorkChars(w), WorkOk(rules, w)),
                           AuditAll(rules, rest + Subwork(rules, w)))
    requires Stops(rules, w, rest, nodesSeen, totalChars)
    ensures !Affordable(total)
  {
    var next := rest + Subwork(rules, w);
    PendingCounts(rules, next);
    if c :| c in Subwork(rules, w) && !WorkOk(rules, c) {
      assert c in next;
      if AuditAll(rules, next).clean { PendingClean(rules, next, c); }
    }
  }

  /** The reasons for which a turn on `w` gives up. */
  ghost predicate Stops(rules: Rules, w: Work, rest: seq<Work>, nodesSeen: nat, totalChars: nat) {
    || nodesSeen > MAX_SCAN_NODES
    || !WorkOk(rules, w)
    || totalChars + WorkChars(w) > MAX_TOTAL_CHARS
    || nodesSeen + |rest| + |Subwork(rules, w)| > MAX_SCAN_NODES
    || exists c :: c in Subwork(rules, w) && !WorkOk(rules, c)
  }

  function RootWork(root: Node): Work {
    Work(root, 0, false, true)
  }

  predicate Affordable(r: Report) {
    r.items <= MAX_SCAN_NODES && r.chars <= MAX_TOTAL_CHARS && r.clean
  }

  /** The order-free condition: total work, total characters, and every item acceptable. */
  ghost predicate Acceptable(rules: Rules, root: Node) {
    Affordable(Audit(rules, RootWork(root)))
  }

  // ---------------------------------------------------------------- the scan

  /** The scan's early checks reject nothing that fits, and nothing that does not fit gets through. */
  method AssertNoCredentialValues(rules: Rules, root: Node) returns (verdict: Verdict)
    ensures verdict.Accepted? <==> Acceptable(rules, root)
  {
    TotalOne(Auditor(rules), RootWork(root));
    verdict := ScanStack(rules, [RootWork(root)], Audit(rules, RootWork(root)));
  }

  method ScanStack(rules: Rules, work: seq<Work>, ghost total: Report) returns (verdict: Verdict)
    requires total == AuditAll(rules, work)
    ensures verdict.Accepted? <==> Affordable(total)
  {
    var stack := work;
    var nodesSeen, totalChars := 0, 0;
    while stack != []
      invariant 0 <= nodesSeen <= MAX_SCAN_NODES && 0 <= totalChars <= MAX_TOTAL_CHARS
      invariant total == Plus(Report(nodesSeen, totalChars, true), AuditAll(rules, stack))
      decreases AuditAll(rules, stack).items
    {
      var current := stack[|stack| - 1];
      assert stack == stack[..|stack| - 1] + [current];
      stack := stack[..|stack| - 1];
      Turn(rules, total, nodesSeen, totalChars, stack, current);
      nodesSeen := nodesSeen + 1;
      if nodesSeen > MAX_SCAN_NODES { return Rejected; }
      if current.depth > MAX_SCAN_DEPTH { return Rejected; }
      var handled := Handle(rules, current, stack, nodesSeen, totalChars);
      if handled.Breach? {
        StopIsJust(rules, total, nodesSeen, totalChars, stack, current);
        return Rejected;
      }
      stack, totalChars := handled.stack, handled.chars;
    }
    return Accepted;
  }

  datatype Handled = Breach | Handled(stack: seq<Work>, chars: nat)

  /** One turn of the loop after the pop: the new stack and character count, or nothing if a check failed. */
  method Handle(rules: Rules, w: Work, stack: seq<Work>, nodesSeen: nat, totalChars: nat) returns (r: Handled)
    requires w.depth <= MAX_SCAN_DEPTH && totalChars <= MAX_TOTAL_CHARS
    ensures r.Handled? ==> WorkOk(rules, w) && r.chars == totalChars + WorkChars(w) <= MAX_TOTAL_CHARS
    ensures r.Handled? ==> r.stack == stack + Subwork(rules, w)
    ensures r.Breach? ==> Stops(rules, w, stack, nodesSeen, totalChars)
  {
    match w.node {
      case Str(text) =>
        var chars := totalChars;
        if !w.counted {
          if |text| > MAX_STRING_CHARS || chars + |text| > MAX_TOTAL_CHARS { return Breach; }
          chars := chars + |text|;
        }
        if w.allowJson && SerializedMapping(rules, text).TooLarge? { return Breach; }
        if rules.textRule(text) { return Breach; }
        return Handled(stack + Opened(rules, text, w.allowJson), chars);
      case Map(entries) =>
        r := HandleEntries(rules, w, entries, stack, nodesSeen, totalChars);
      case Arr(items) =>
        var pushed := stack;
        var i := 0;
        while i < |items|
          invariant 0 <= i <= |items|
          invariant pushed == stack + Subwork(rules, w)[..i]
        {
          if w.depth >= MAX_SCAN_DEPTH {
            ghost var child := Subwork(rules, w)[i];
            assert child in Subwork(rules, w) && !WorkOk(rules, child);
            return Breach;
          }
          if nodesSeen + |pushed| >= MAX_SCAN_NODES { return Breach; }
          pushed := pushed + [Work(items[i], w.depth + 1, false, w.allowJson)];
          i := i + 1;
        }
        return Handled(pushed, totalChars);
      case _ =>
        return Handled(stack, totalChars);
    }
  }

  method HandleEntries(
    rules: Rules, w: Work, entries: seq<Entry>, stack: seq<Work>, nodesSeen: nat, totalChars: nat)
    returns (r: Handled)
    requires w.node == Map(entries) && w.depth <= MAX_SCAN_DEPTH && totalChars <= MAX_TOTAL_CHARS
    ensures r.Handled? ==> WorkOk(rules, w) && r.chars == totalChars + EntriesChars(entries) <= MAX_TOTAL_CHARS
    ensures r.Handled? ==> r.stack == stack + Subwork(rules, w)
    ensures r.Breach? ==> Stops(rules, w, stack, nodesSeen, totalChars)
  {
    var chars := totalChars;
    var pushed := stack;
    var i: nat := 0;
    assert entries[..0] == [];
    while i < |entries|
      invariant EntriesDone(rules, w, entries, i, stack, totalChars, pushed, chars)
    {
      if w.depth >= MAX_SCAN_DEPTH || nodesSeen + |pushed| >= MAX_SCAN_NODES {
        EntryStops(rules, w, entries, i, stack, nodesSeen, totalChars);
        return Breach;
      }
      var handled := HandleEntry(rules, entries[i], w.depth, w.allowJson, pushed, chars);
      if handled.Breach? {
        EntryStops(rules, w, entries, i, stack, nodesSeen, totalChars);
        return Breach;
      }
      EntryDone(rules, w, entries, i, stack, totalChars, pushed, chars);
      pushed, chars := handled.stack, handled.chars;
      i := i + 1;
    }
    assert entries[..i] == entries;
    return Handled(pushed, chars);
  }

  /** The first `i` entries have been taken: what they pushed and what they cost. */
  ghost predicate EntriesDone(
    rules: Rules, w: Work, entries: seq<Entry>, i: nat, stack: seq<Work>, totalChars: nat, pushed: seq<Work>, chars: nat)
  {
    && i <= |entries|
    && chars == totalChars + EntriesChars(entries[..i]) <= MAX_TOTAL_CHARS
    && pushed == stack + EntriesWork(rules, entries[..i], w.depth, w.allowJson)
    && forall k :: 0 <= k < i ==> EntryOk(rules, entries[k], w.allowJson)
  }

  lemma EntryDone(
    rules: Rules, w: Work, entries: seq<Entry>, i: nat, stack: seq<Work>, totalChars: nat, pushed: seq<Work>, chars: nat)
    requires i < |entries| && EntriesDone(rules, w, entries, i, stack, totalChars, pushed, chars)
    requires EntryOk(rules, entries[i], w.allowJson) && chars + EntryChars(entries[i]) <= MAX_TOTAL_CHARS
    ensures EntriesDone(rules, w, entries, i + 1, stack, totalChars,
                        pushed + EntryWork(rules, entries[i], w.depth, w.allowJson), chars + EntryChars(entries[i]))
  {
    EntriesPrefix(rules, entries, i, w.depth, w.allowJson);
  }

  method HandleEntry(rules: Rules, e: Entry, depth: nat, allowJson: bool, stack: seq<Work>, totalChars: nat)
    returns (r: Handled)
    requires totalChars <= MAX_TOTAL_CHARS
    ensures r.Handled? <==> EntryOk(rules, e, allowJson) && totalChars + EntryChars(e) <= MAX_TOTAL_CHARS
    ensures r.Handled? ==>
              r.stack == stack + EntryWork(rules, e, depth, allowJson) && r.chars == totalChars + EntryChars(e)
  {
    var chars := totalChars;
    if e.key.TextKey? {
      var key := e.key.name;
      if |key| > MAX_STRING_CHARS || chars + |key| > MAX_TOTAL_CHARS { return Breach; }
      chars := chars + |key|;
      if rules.textRule(key) { return Breach; }
      if rules.credentialKey(key) && NonEmptyScalar(e.item) { return Breach; }
    }
    var itemCounted, itemAllowsJson := false, allowJson;
    var serialized: seq<Work> := [];
    if e.item.Str? {
      var item := e.item.text;
      if |item| > MAX_STRING_CHARS || chars + |item| > MAX_TOTAL_CHARS { return Breach; }
      chars, itemCounted := chars + |item|, true;
      if allowJson {
        if SerializedMapping(rules, item).TooLarge? { return Breach; }
        serialized, itemAllowsJson := Opened(rules, item, true), false;
      }
      if e.key.TextKey? {
        if |e.key.name| + |item| + 2 > MAX_STRING_CHARS { return Breach; }
        if rules.textRule(e.key.name + ": " + item) { return Breach; }
      }
    }
    return Handled(stack + serialized + [Work(e.item, depth + 1, itemCounted, itemAllowsJson)], chars);
  }

  lemma {:induction false} EntriesPrefix(rules: Rules, entries: seq<Entry>, i: nat, depth: nat, allowJson: bool)
    requires i < |entries|
    ensures EntriesChars(entries[..i + 1]) == EntriesChars(entries[..i]) + EntryChars(entries[i])
    ensures EntriesChars(entries[..i + 1]) <= EntriesChars(entries)
    ensures EntriesWork(rules, entries[..i + 1], depth, allowJson)
         == EntriesWork(rules, entries[..i], depth, allowJson) + EntryWork(rules, entries[i], depth, allowJson)
    ensures EntriesWork(rules, entries[..i + 1], depth, allowJson) <= EntriesWork(rules, entries, depth, allowJson)
    decreases |entries|
  {
    if i == |entries| - 1 {
      assert entries[..i + 1] == entries;
    } else {
      var front := entries[..|entries| - 1];
      EntriesPrefix(rules, front, i, depth, allowJson);
      assert front[..i] == entries[..i] && front[..i + 1] == entries[..i + 1];
    }
  }

  /** The four ways an entry stops the scan are breaches of the whole mapping. */
  lemma EntryStops(
    rules: Rules, w: Work, entries: seq<Entry>, i: nat, stack: seq<Work>, nodesSeen: nat, totalChars: nat)
    requires w.node == Map(entries) && i < |entries|
    requires
      || w.depth >= MAX_SCAN_DEPTH
      || nodesSeen + |stack| + |EntriesWork(rules, entries[..i], w.depth, w.allowJson)| >= MAX_SCAN_NODES
      || !EntryOk(rules, entries[i], w.allowJson)
      || totalChars + EntriesChars(entries[..i]) + EntryChars(entries[i]) > MAX_TOTAL_CHARS
    ensures Stops(rules, w, stack, nodesSeen, totalChars)
  {
    EntriesPrefix(rules, entries, i, w.depth, w.allowJson);
    if w.depth >= MAX_SCAN_DEPTH { ChildTooDeep(rules, w, entries, i); }
  }

  lemma ChildTooDeep(rules: Rules, w: Work, entries: seq<Entry>, i: nat)
    requires w.node == Map(entries) && i < |entries| && w.depth >= MAX_SCAN_DEPTH
    ensures exists c :: c in Subwork(rules, w) && !WorkOk(rules, c)
  {
    EntriesPrefix(rules, entries, i, w.depth, w.allowJson);
    var own := EntryWork(rules, entries[i], w.depth, w.allowJson);
    var upTo, all := EntriesWork(rules, entries[..i + 1], w.depth, w.allowJson), Subwork(rules, w);
    assert own[|own| - 1] == upTo[|upTo| - 1] == all[|upTo| - 1];
    assert own[|own| - 1] in all && !WorkOk(rules, own[|own| - 1]);
  }

  // ---------------------------------------------------------------- what a clean report means

  /** The work item reached from `w` by the child indices in `path`. */
  ghost function At(rules: Rules, w: Work, path: seq<nat>): (r: seq<Work>)
    ensures |r| <= 1
    decreases |path|
  {
    if path == [] then [w]
    else
      var more := Subwork(rules, w);
      if path[0] < |more| then At(rules, more[path[0]], path[1..]) else []
  }

  ghost predicate EveryItemOk(rules: Rules, w: Work) {
    forall path, c :: c in At(rules, w, path) ==> WorkOk(rules, c)
  }

  lemma {:induction false} CleanReachesEveryItem(rules: Rules, w: Work, path: seq<nat>, c: Work)
    requires Audit(rules, w).clean && c in At(rules, w, path)
    ensures WorkOk(rules, c)
    decreases |path|
  {
    AuditUnfolds(rules, w);
    if path != [] {
      var child := Subwork(rules, w)[path[0]];
      CleanChild(rules, Subwork(rules, w), path[0]);
      CleanReachesEveryItem(rules, child, path[1..], c);
    }
  }

  lemma {:induction false} CleanChild(rules: Rules, ws: seq<Work>, i: nat)
    requires i < |ws| && AuditAll(rules, ws).clean
    ensures Audit(rules, ws[i]).clean
    decreases i
  {
    if i > 0 { CleanChild(rules, ws[1..], i - 1); }
  }

  lemma {:induction false} EveryItemOkIsClean(rules: Rules, w: Work)
    requires EveryItemOk(rules, w)
    ensures Audit(rules, w).clean
    decreases w.allowJson, w.node, 1, 0
  {
    assert w in At(rules, w, []);
    AuditUnfolds(rules, w);
    var more := Subwork(rules, w);
    SubworkBelow(rules, w);
    forall i | 0 <= i < |more| ensures EveryItemOk(rules, more[i]) {
      forall path, c | c in At(rules, more[i], path) ensures WorkOk(rules, c) {
        assert ([i] + path)[0] == i && ([i] + path)[1..] == path;
        assert c in At(rules, w, [i] + path);
      }
    }
    AllItemsOkAreClean(rules, more, w);
  }

  lemma {:induction false} AllItemsOkAreClean(rules: Rules, ws: seq<Work>, w: Work)
    requires forall i :: 0 <= i < |ws| ==> EveryItemOk(rules, ws[i])
    requires forall c :: c in ws ==> Below(c, w)
    ensures AuditAll(rules, ws).clean
    decreases w.allowJson, w.node, 0, |ws|
  {
    if ws != [] {
      assert Below(ws[0], w);
      EveryItemOkIsClean(rules, ws[0]);
      AllItemsOkAreClean(rules, ws[1..], w);
    }
  }

  /** The scan's acceptance, spelled out: budgets on the totals, and every reachable item acceptable. */
  lemma {:induction false} AcceptableMeans(rules: Rules, root: Node)
    ensures Acceptable(rules, root) <==>
              && Audit(rules, RootWork(root)).items <= MAX_SCAN_NODES
              && Audit(rules, RootWork(root)).chars <= MAX_TOTAL_CHARS
              && EveryItemOk(rules, RootWork(root))
  {
    var w := RootWork(root);
    if Audit(rules, w).clean {
      forall path, c | c in At(rules, w, path) ensures WorkOk(rules, c) {
        CleanReachesEveryItem(rules, w, path, c);
      }
    }
    if EveryItemOk(rules, w) { EveryItemOkIsClean(rules, w); }
  }

  // ---------------------------------------------------------------- what the preflight buys the scan

  /** The tree a faithful parser builds; `decode` is how it reads string bodies. */
  function ToNode(decode: seq<JsonPreflight.Unit> -> string, j: JsonPreflight.Json): Node {
    match j
    case Scalar(text) => if text == "null" then Null else Other
    case Str(units) => Str(decode(units))
    case Arr(_, elements) => Arr(ToItems(decode, elements))
    case Obj(_, members) => Map(ToEntries(decode, members))
  }

  function ToItems(decode: seq<JsonPreflight.Unit> -> string, es: JsonPreflight.Elements): seq<Node> {
    if es.NoElement? then [] else [ToNode(decode, es.value)] + ToItems(decode, es.rest)
  }

  function ToEntries(decode: seq<JsonPreflight.Unit> -> string, ms: JsonPreflight.Members): seq<Entry> {
    if ms.NoMember? then []
    else [Entry(TextKey(decode(ms.key)), ToNode(decode, ms.value))] + ToEntries(decode, ms.rest)
  }

  /** With JSON no longer allowed, a mapping opens one work item per entry. */
  lemma {:induction false} PlainEntriesWork(rules: Rules, entries: seq<Entry>, depth: nat)
    ensures EntriesWork(rules, entries, depth, false)
         == seq(|entries|, i requires 0 <= i < |entries| => Work(entries[i].item, depth + 1, entries[i].item.Str?, false))
    decreases |entries|
  {
    if entries != [] { PlainEntriesWork(rules, entries[..|entries| - 1], depth); }
  }

  lemma {:induction false} EmbeddedItems(
    rules: Rules, decode: seq<JsonPreflight.Unit> -> string, j: JsonPreflight.Json, depth: nat, counted: bool)
    ensures Audit(rules, Work(ToNode(decode, j), depth, counted, false)).items == JsonPreflight.ValueCount(j)
    decreases j
  {
    var w := Work(ToNode(decode, j), depth, counted, false);
    AuditUnfolds(rules, w);
    match j
    case Arr(_, elements) => EmbeddedElements(rules, decode, elements, depth);
    case Obj(_, members) =>
      PlainEntriesWork(rules, ToEntries(decode, members), depth);
      EmbeddedMembers(rules, decode, members, depth);
    case _ =>
  }

  lemma {:induction false} EmbeddedElements(
    rules: Rules, decode: seq<JsonPreflight.Unit> -> string, es: JsonPreflight.Elements, depth: nat)
    ensures AuditAll(rules, ItemsWork(ToItems(decode, es), depth, false)).items == JsonPreflight.ElementsValues(es)
    decreases es
  {
    if es.Element? {
      var ws := ItemsWork(ToItems(decode, es), depth, false);
      assert ws[1..] == ItemsWork(ToItems(decode, es.rest), depth, false);
      EmbeddedItems(rules, decode, es.value, depth + 1, false);
      EmbeddedElements(rules, decode, es.rest, depth);
    }
  }

  lemma {:induction false} EmbeddedMembers(
    rules: Rules, decode: seq<JsonPreflight.Unit> -> string, ms: JsonPreflight.Members, depth: nat)
    ensures AuditAll(rules, EntriesWork(rules, ToEntries(decode, ms), depth, false)).items
         == JsonPreflight.MembersValues(ms)
    decreases ms
  {
    if ms.Member? {
      PlainEntriesWork(rules, ToEntries(decode, ms), depth);
      PlainEntriesWork(rules, ToEntries(decode, ms.rest), depth);
      var ws := EntriesWork(rules, ToEntries(decode, ms), depth, false);
      assert ws[1..] == EntriesWork(rules, ToEntries(decode, ms.rest), depth, false);
      var item := ToNode(decode, ms.value);
      assert ws[0] == Work(item, depth + 1, item.Str?, false);
      EmbeddedItems(rules, decode, ms.value, depth + 1, item.Str?);
      EmbeddedMembers(rules, decode, ms.rest, depth);
    }
  }

  /** What an embedded value pushes first, second and so on are its own parts, one deeper. */
  lemma EmbeddedChild(
    rules: Rules, decode: seq<JsonPreflight.Unit> -> string, j: JsonPreflight.Json, depth: nat, counted: bool, k: nat)
    returns (value: JsonPreflight.Json)
    requires k < |Subwork(rules, Work(ToNode(decode, j), depth, counted, false))|
    ensures var child := Subwork(rules, Work(ToNode(decode, j), depth, counted, false))[k];
            child == Work(ToNode(decode, value), depth + 1, child.counted, false)
    ensures value < j && JsonPreflight.Nesting(value) + 1 <= JsonPreflight.Nesting(j)
  {
    if j.Arr? {
      value := ElementAt(decode, j.elements, k);
    } else {
      assert j.Obj?;
      PlainEntriesWork(rules, ToEntries(decode, j.members), depth);
      value := MemberAt(decode, j.members, k);
    }
  }

  lemma {:induction false} EmbeddedDepth(
    rules: Rules, decode: seq<JsonPreflight.Unit> -> string, j: JsonPreflight.Json, depth: nat, counted: bool,
    path: seq<nat>, c: Work)
    requires c in At(rules, Work(ToNode(decode, j), depth, counted, false), path)
    ensures c.depth <= depth + JsonPreflight.Nesting(j)
    decreases j
  {
    if path != [] {
      var child := Subwork(rules, Work(ToNode(decode, j), depth, counted, false))[path[0]];
      var value := EmbeddedChild(rules, decode, j, depth, counted, path[0]);
      EmbeddedDepth(rules, decode, value, depth + 1, child.counted, path[1..], c);
    }
  }

  lemma {:induction false} ElementAt(decode: seq<JsonPreflight.Unit> -> string, es: JsonPreflight.Elements, i: nat)
    returns (value: JsonPreflight.Json)
    requires i < |ToItems(decode, es)|
    ensures ToItems(decode, es)[i] == ToNode(decode, value)
    ensures JsonPreflight.Nesting(value) <= JsonPreflight.ElementsNesting(es) && value < es
    decreases es
  {
    if i == 0 { value := es.value; } else { value := ElementAt(decode, es.rest, i - 1); }
  }

  lemma {:induction false} MemberAt(decode: seq<JsonPreflight.Unit> -> string, ms: JsonPreflight.Members, i: nat)
    returns (value: JsonPreflight.Json)
    requires i < |ToEntries(decode, ms)|
    ensures ToEntries(decode, ms)[i].item == ToNode(decode, value)
    ensures JsonPreflight.Nesting(value) <= JsonPreflight.MembersNesting(ms) && value < ms
    decreases ms
  {
    if i == 0 { value := ms.value; } else { value := MemberAt(decode, ms.rest, i - 1); }
  }

  /** The first character that is not whitespace starts the stripped text. */
  lemma {:induction false} StripsTo(rules: Rules, s: string, n: nat)
    requires n < |s| && !rules.isSpace(s[n]) && forall i :: 0 <= i < n ==> rules.isSpace(s[i])
    ensures StripLeft(rules, s) != "" && StripLeft(rules, s)[0] == s[n]
    decreases n
  {
    if n > 0 {
      assert s[1..][n - 1] == s[n];
      StripsTo(rules, s[1..], n - 1);
    }
  }

  lemma {:induction false} StrippedIsPart(rules: Rules, s: string)
    ensures forall c :: c in StripLeft(rules, s) ==> c in s
    decreases |s|
  {
    if s != "" && rules.isSpace(s[0]) { StrippedIsPart(rules, s[1..]); }
  }

  /** A table of whitespace that has the JSON whitespace and no quote or bracket. */
  predicate JsonSpaces(rules: Rules) {
    && (forall c :: c in " \t\n\r" ==> rules.isSpace(c))
    && !rules.isSpace('"') && !rules.isSpace('[') && !rules.isSpace('{')
  }

  /** Only an object's text is taken for an embedded mapping. */
  lemma OnlyObjectsAreOpened(rules: Rules, lead: string, j: JsonPreflight.Json, trail: string)
    requires JsonSpaces(rules)
    requires JsonPreflight.IsWs(lead) && JsonPreflight.WellFormed(j) && JsonPreflight.IsWs(trail)
    ensures !SerializedMapping(rules, JsonPreflight.Document(lead, j, trail)).Plain? ==> j.Obj?
  {
    var doc, text := JsonPreflight.Document(lead, j, trail), JsonPreflight.Print(j);
    assert doc == lead + text + trail;
    if j.Scalar? {
      StrippedIsPart(rules, doc);
      assert '{' !in lead && '{' !in text && '{' !in trail;
      assert '{' !in StripLeft(rules, doc);
    } else {
      assert doc[|lead|] == text[0];
      StripsTo(rules, doc, |lead|);
    }
  }

  /**
   A text the scan takes for an embedded mapping, and the preflight lets through, never trips the scan's
   own depth limit once parsed, and adds at most 10,000 work items, one for each value.
   */
  lemma {:induction false} PreflightProtectsScan(
    rules: Rules, decode: seq<JsonPreflight.Unit> -> string, lead: string, j: JsonPreflight.Json, trail: string)
    requires JsonSpaces(rules)
    requires JsonPreflight.IsWs(lead) && JsonPreflight.WellFormed(j) && JsonPreflight.IsWs(trail)
    requires SerializedMapping(rules, JsonPreflight.Document(lead, j, trail)).Embedded?
    ensures var w := Work(ToNode(decode, j), 0, false, false);
            && Audit(rules, w).items == JsonPreflight.ValueCount(j) <= MAX_SCAN_NODES
            && forall path, c :: c in At(rules, w, path) ==> c.depth <= MAX_SCAN_DEPTH
  {
    OnlyObjectsAreOpened(rules, lead, j, trail);
    JsonPreflight.PreflightExact(lead, j, trail);
    JsonPreflight.MembersBounded(j.members);
    EmbeddedItems(rules, decode, j, 0, false);
    var w := Work(ToNode(decode, j), 0, false, false);
    forall path, c | c in At(rules, w, path) ensures c.depth <= MAX_SCAN_DEPTH {
      EmbeddedDepth(rules, decode, j, 0, false, path, c);
    }
  }

  // ---------------------------------------------------------------- what acceptance says of the tree

  /** The nodes of a tree, without what is serialized in its strings. */
  function Size(node: Node): nat {
    match node
    case Arr(items) => 1 + ItemsSize(items)
    case Map(entries) => 1 + EntriesSize(entries)
    case _ => 1
  }

  function ItemsSize(items: seq<Node>): nat {
    if items == [] then 0 else ItemsSize(items[..|items| - 1]) + Size(items[|items| - 1])
  }

  function EntriesSize(entries: seq<Entry>): nat {
    if entries == [] then 0 else EntriesSize(entries[..|entries| - 1]) + EntrySize(entries[|entries| - 1])
  }

  function EntrySize(e: Entry): nat {
    Size(e.item)
  }

  /** The edges below the deepest node. */
  function Height(node: Node): nat {
    match node
    case Arr(items) => ItemsHeight(items)
    case Map(entries) => EntriesHeight(entries)
    case _ => 0
  }

  function ItemsHeight(items: seq<Node>): nat {
    if items == [] then 0 else Max(ItemsHeight(items[..|items| - 1]), 1 + Height(items[|items| - 1]))
  }

  function EntriesHeight(entries: seq<Entry>): nat {
    if entries == [] then 0 else Max(EntriesHeight(entries[..|entries| - 1]), 1 + EntryHeight(entries[|entries| - 1]))
  }

  function EntryHeight(e: Entry): nat {
    Height(e.item)
  }

  /** A report covers a tree: it counts at least its nodes, and it is clean only if no node is too deep. */
  ghost predicate Covers(r: Report, size: nat, deepest: nat) {
    r.items >= size && (r.clean ==> deepest <= MAX_SCAN_DEPTH)
  }

  /** The audit of a node covers the tree below it. */
  lemma {:induction false} AuditCovers(rules: Rules, w: Work)
    ensures Covers(Audit(rules, w), Size(w.node), w.depth + Height(w.node))
    decreases w.node, 1
  {
    AuditUnfolds(rules, w);
    match w.node
    case Arr(items) => ItemsCovered(rules, items, w);
    case Map(entries) => EntriesCovered(rules, entries, w);
    case _ =>
  }

  lemma {:induction false} ItemsCovered(rules: Rules, items: seq<Node>, w: Work)
    requires forall i :: 0 <= i < |items| ==> items[i] < w.node
    ensures var r := AuditAll(rules, ItemsWork(items, w.depth, w.allowJson));
            r.items >= ItemsSize(items) && (r.clean ==> items == [] || w.depth + ItemsHeight(items) <= MAX_SCAN_DEPTH)
    decreases w.node, 0, |items|
  {
    if items != [] {
      var n := |items| - 1;
      var front, last := ItemsWork(items[..n], w.depth, w.allowJson), Work(items[n], w.depth + 1, false, w.allowJson);
      assert ItemsWork(items, w.depth, w.allowJson) == front + [last];
      TotalConcat(Auditor(rules), front, [last]);
      TotalOne(Auditor(rules), last);
      ItemsCovered(rules, items[..n], w);
      AuditCovers(rules, last);
    }
  }

  lemma {:induction false} EntriesCovered(rules: Rules, entries: seq<Entry>, w: Work)
    requires forall i :: 0 <= i < |entries| ==> entries[i].item < w.node
    ensures var r := AuditAll(rules, EntriesWork(rules, entries, w.depth, w.allowJson));
            r.items >= EntriesSize(entries) && (r.clean ==> entries == [] || w.depth + EntriesHeight(entries) <= MAX_SCAN_DEPTH)
    decreases w.node, 0, |entries|
  {
    if entries != [] {
      var n := |entries| - 1;
      var e := entries[n];
      var last := Work(e.item, w.depth + 1, e.item.Str?, w.allowJson && !e.item.Str?);
      EntriesCovered(rules, entries[..n], w);
      AuditCovers(rules, last);
      EntryCovered(rules, EntriesWork(rules, entries[..n], w.depth, w.allowJson), e, w.depth, w.allowJson, last);
    }
  }

  /** The work of an entry holds the item itself, whatever else its text opens. */
  lemma EntryCovered(rules: Rules, front: seq<Work>, e: Entry, depth: nat, allowJson: bool, last: Work)
    requires last == Work(e.item, depth + 1, e.item.Str?, allowJson && !e.item.Str?)
    ensures var r, f, l := AuditAll(rules, front + EntryWork(rules, e, depth, allowJson)), AuditAll(rules, front), Audit(rules, last);
            r.items >= f.items + l.items && (r.clean ==> f.clean && l.clean)
  {
    var extra := if e.item.Str? then Opened(rules, e.item.text, allowJson) else [];
    assert EntryWork(rules, e, depth, allowJson) == extra + [last];
    TotalConcat(Auditor(rules), front, extra + [last]);
    TotalConcat(Auditor(rules), extra, [last]);
    TotalOne(Auditor(rules), last);
  }

  /** An accepted tree has at most 10,000 nodes and is at most 64 deep. */
  lemma AcceptedIsSmall(rules: Rules, root: Node)
    requires Acceptable(rules, root)
    ensures Size(root) <= MAX_SCAN_NODES && Height(root) <= MAX_SCAN_DEPTH
  {
    AuditCovers(rules, RootWork(root));
  }
}
