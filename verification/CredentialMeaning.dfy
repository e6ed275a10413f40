/**
 What the credential scan means for the value it reads (scripts/golden_task_assertions.py,
 _assert_no_credential_values), said of the value's own parts and of the JSON its strings hold, without
 work items: which credentials an accepted value cannot hold, and what its scan costs.
 */
module CredentialMeaning {

  import opened Values
  import opened CredentialScan
  import JsonPreflight

  // ---------------------------------------------------------------- JSON in a string

  /** The first character that is not whitespace is a brace. */
  ghost predicate LooksSerialized(rules: Rules, text: string) {
    exists k :: 0 <= k < |text| && text[k] == '{' && !rules.isSpace(text[k]) && forall i :: 0 <= i < k ==> rules.isSpace(text[i])
  }

  ghost predicate Bounded(text: string) {
    |text| <= MAX_SERIALIZED_JSON_CHARS && JsonPreflight.WithinLimits(JsonPreflight.Run(JsonPreflight.START, text))
  }

  /** A string that must not be scanned: it looks like JSON and is too large to be parsed. */
  ghost predicate Oversized(rules: Rules, text: string) {
    LooksSerialized(rules, text) && (!Bounded(text) || rules.parse(text).ParseLimit?)
  }

  /** The value serialized in a string. */
  ghost predicate Holds(rules: Rules, text: string, inner: Node) {
    LooksSerialized(rules, text) && Bounded(text) && rules.parse(text) == Parsed(inner)
  }

  lemma {:induction false} StripFinds(rules: Rules, s: string)
    ensures LooksSerialized(rules, s) <==> StripLeft(rules, s) != "" && StripLeft(rules, s)[0] == '{'
    decreases |s|
  {
    if s != "" && rules.isSpace(s[0]) {
      StripFinds(rules, s[1..]);
      if LooksSerialized(rules, s) {
        var k :| 0 <= k < |s| && s[k] == '{' && !rules.isSpace(s[k]) && forall i :: 0 <= i < k ==> rules.isSpace(s[i]);
        assert s[1..][k - 1] == '{' && forall i :: 0 <= i < k - 1 ==> s[1..][i] == s[i + 1];
      }
      if LooksSerialized(rules, s[1..]) {
        var k :| 0 <= k < |s| - 1 && s[1..][k] == '{' && !rules.isSpace(s[1..][k]) && forall i :: 0 <= i < k ==> rules.isSpace(s[1..][i]);
        forall i | 0 <= i < k + 1 ensures rules.isSpace(s[i]) { assert i > 0 ==> s[i] == s[1..][i - 1]; }
        assert s[k + 1] == '{';
      }
    }
  }

  lemma {:induction false} SerializedMeans(rules: Rules, text: string)
    ensures SerializedMapping(rules, text).TooLarge? <==> Oversized(rules, text)
    ensures forall inner :: SerializedMapping(rules, text) == Embedded(inner) <==> Holds(rules, text, inner)
  {
    StripFinds(rules, text);
  }

  // ---------------------------------------------------------------- what is asked of a value

  const EMPTY: set<Node> := {Null, Bytes(0), Str(""), Arr([]), Map([])}

  /** An entry names no credential and its text matches no pattern, alone or as `key: value`. */
  predicate Innocent(rules: Rules, e: Entry) {
    e.key.TextKey? ==>
      && !rules.textRule(e.key.name) && (rules.credentialKey(e.key.name) ==> e.item in EMPTY)
      && (e.item.Str? ==> !rules.textRule(e.key.name + ": " + e.item.text))
  }

  predicate Short(e: Entry) {
    e.key.TextKey? ==>
      |e.key.name| + (if e.item.Str? then |e.item.text| + 2 else 0) <= MAX_STRING_CHARS
  }

  /** Everything asked of a value at this depth; `outer` until JSON has been inside. */
  ghost predicate Sound(rules: Rules, node: Node, depth: nat, outer: bool)
    decreases outer, node
  {
    depth <= MAX_SCAN_DEPTH &&
    match node
    case Str(text) =>
      && |text| <= MAX_STRING_CHARS && !rules.textRule(text)
      && (outer ==> !Oversized(rules, text) && forall inner :: Holds(rules, text, inner) ==> Sound(rules, inner, 0, false))
    case Arr(items) => forall i :: 0 <= i < |items| ==> Sound(rules, items[i], depth + 1, outer)
    case Map(entries) =>
      forall i :: 0 <= i < |entries| ==>
        Innocent(rules, entries[i]) && Short(entries[i]) && Sound(rules, entries[i].item, depth + 1, outer)
    case _ => true
  }

  datatype Measure = Parts | Letters

  /** What a scan of the value costs: one item for each part, or the characters of its keys and strings. */
  ghost function Toll(rules: Rules, node: Node, outer: bool, m: Measure): nat
    decreases outer, node, 1, 0
  {
    match node
    case Str(text) =>
      (if m.Parts? then 1 else |text|) +
      if outer && exists inner :: Holds(rules, text, inner) then Toll(rules, rules.parse(text).node, false, m) else 0
    case Arr(items) => (if m.Parts? then 1 else 0) + ItemsToll(rules, items, node, outer, m)
    case Map(entries) => (if m.Parts? then 1 else 0) + EntriesToll(rules, entries, node, outer, m)
    case _ => if m.Parts? then 1 else 0
  }

  ghost function ItemsToll(rules: Rules, items: seq<Node>, node: Node, outer: bool, m: Measure): nat
    requires forall i :: 0 <= i < |items| ==> items[i] < node
    decreases outer, node, 0, |items|
  {
    if items == [] then 0
    else ItemsToll(rules, items[..|items| - 1], node, outer, m) + Toll(rules, items[|items| - 1], outer, m)
  }

  ghost function EntriesToll(rules: Rules, entries: seq<Entry>, node: Node, outer: bool, m: Measure): nat
    requires forall i :: 0 <= i < |entries| ==> entries[i].item < node
    decreases outer, node, 0, |entries|
  {
    if entries == [] then 0
    else
      var e := entries[|entries| - 1];
      EntriesToll(rules, entries[..|entries| - 1], node, outer, m) + KeyToll(e, m) + Toll(rules, e.item, outer, m)
  }

  function KeyToll(e: Entry, m: Measure): nat {
    if m.Letters? && e.key.TextKey? then |e.key.name| else 0
  }

  // ---------------------------------------------------------------- a clean audit is soundness

  /** An audit of work: each item's own report, and those of what it pushes. */
  ghost predicate IsAudit(rules: Rules, audit: Work -> Report) {
    forall w {:trigger Subwork(rules, w)} ::
      audit(w) == Plus(Report(1, WorkChars(w), WorkOk(rules, w)), Total(audit, Subwork(rules, w)))
  }

  lemma {:induction false} AuditorAudits(rules: Rules)
    ensures IsAudit(rules, Auditor(rules))
  {
    forall w ensures Auditor(rules)(w) == Plus(Report(1, WorkChars(w), WorkOk(rules, w)), Total(Auditor(rules), Subwork(rules, w))) {
      AuditUnfolds(rules, w);
    }
  }

  lemma {:induction false} AllClean(audit: Work -> Report, ws: seq<Work>)
    ensures Total(audit, ws).clean <==> forall c :: c in ws ==> audit(c).clean
    decreases |ws|
  {
    if ws != [] { AllClean(audit, ws[1..]); }
  }

  lemma {:induction false} CleanIff(rules: Rules, audit: Work -> Report, w: Work)
    requires IsAudit(rules, audit)
    ensures audit(w).clean <==> WorkOk(rules, w) && forall c :: c in Subwork(rules, w) ==> audit(c).clean
  {
    AllClean(audit, Subwork(rules, w));
  }

  lemma {:induction false} EntriesWorkHas(rules: Rules, entries: seq<Entry>, depth: nat, outer: bool, c: Work)
    ensures c in EntriesWork(rules, entries, depth, outer) <==>
              exists i :: 0 <= i < |entries| && c in EntryWork(rules, entries[i], depth, outer)
    decreases |entries|
  {
    if entries != [] {
      var n := |entries| - 1;
      var front := entries[..n];
      EntriesWorkHas(rules, front, depth, outer, c);
      if c in EntriesWork(rules, front, depth, outer) {
        var i :| 0 <= i < |front| && c in EntryWork(rules, front[i], depth, outer);
        assert entries[i] == front[i];
      }
      if i :| 0 <= i < |entries| && c in EntryWork(rules, entries[i], depth, outer) {
        if i < n { assert front[i] == entries[i]; }
      }
    }
  }

  ghost predicate EntrySound(rules: Rules, e: Entry, depth: nat, outer: bool) {
    Innocent(rules, e) && Short(e) && Sound(rules, e.item, depth, outer)
  }

  lemma EntryRules(rules: Rules, e: Entry, outer: bool)
    ensures EntryOk(rules, e, outer) && (e.item.Str? ==> !rules.textRule(e.item.text)) <==>
              Innocent(rules, e) && Short(e) && (e.item.Str? ==> |e.item.text| <= MAX_STRING_CHARS && TextOk(rules, e.item.text, outer))
  {
    assert NonEmptyScalar(e.item) <==> e.item !in EMPTY;
  }

  /** What a string asks of its text and of the JSON in it. */
  lemma {:induction false} TextSound(rules: Rules, audit: Work -> Report, text: string, depth: nat, outer: bool)
    requires IsAudit(rules, audit)
    ensures Sound(rules, Str(text), depth, outer) <==>
              && depth <= MAX_SCAN_DEPTH && |text| <= MAX_STRING_CHARS && TextOk(rules, text, outer)
              && forall c :: c in Opened(rules, text, outer) ==> audit(c).clean
    decreases outer, Str(text), 0
  {
    SerializedMeans(rules, text);
    if outer && SerializedMapping(rules, text).Embedded? {
      var inner := SerializedMapping(rules, text).node;
      assert Holds(rules, text, inner) && Opened(rules, text, outer) == [Work(inner, 0, false, false)];
      CleanMeansSound(rules, audit, inner, 0, false);
    }
  }

  lemma {:induction false} StringEntryClean(rules: Rules, audit: Work -> Report, e: Entry, depth: nat, outer: bool)
    requires IsAudit(rules, audit) && e.item.Str?
    ensures EntryOk(rules, e, outer) && (forall c :: c in EntryWork(rules, e, depth, outer) ==> audit(c).clean) <==>
              EntrySound(rules, e, depth + 1, outer)
    decreases outer, e.item, 1
  {
    EntryRules(rules, e, outer);
    var last := Work(e.item, depth + 1, true, false);
    assert EntryWork(rules, e, depth, outer) == Opened(rules, e.item.text, outer) + [last];
    TextSound(rules, audit, e.item.text, depth + 1, outer);
    CountedClean(rules, audit, e.item.text, depth + 1);
  }

  lemma {:induction false} CountedClean(rules: Rules, audit: Work -> Report, text: string, depth: nat)
    requires IsAudit(rules, audit)
    ensures audit(Work(Str(text), depth, true, false)).clean <==> depth <= MAX_SCAN_DEPTH && !rules.textRule(text)
  {
    CleanIff(rules, audit, Work(Str(text), depth, true, false));
  }

  lemma {:induction false} EntryClean(rules: Rules, audit: Work -> Report, e: Entry, depth: nat, outer: bool, node: Node)
    requires IsAudit(rules, audit) && e.item < node
    ensures EntryOk(rules, e, outer) && (forall c :: c in EntryWork(rules, e, depth, outer) ==> audit(c).clean) <==>
              EntrySound(rules, e, depth + 1, outer)
    decreases outer, node, 1
  {
    if e.item.Str? {
      StringEntryClean(rules, audit, e, depth, outer);
    } else {
      EntryRules(rules, e, outer);
      assert EntryWork(rules, e, depth, outer) == [Work(e.item, depth + 1, false, outer)];
      CleanMeansSound(rules, audit, e.item, depth + 1, outer);
    }
  }

  lemma {:induction false} ItemsClean(rules: Rules, audit: Work -> Report, items: seq<Node>, depth: nat, outer: bool, node: Node)
    requires IsAudit(rules, audit)
    requires forall i :: 0 <= i < |items| ==> items[i] < node
    ensures (forall c :: c in ItemsWork(items, depth, outer) ==> audit(c).clean) <==>
              forall i :: 0 <= i < |items| ==> Sound(rules, items[i], depth + 1, outer)
    decreases outer, node, 1
  {
    var ws := ItemsWork(items, depth, outer);
    forall i | 0 <= i < |items| ensures audit(ws[i]).clean <==> Sound(rules, items[i], depth + 1, outer) {
      CleanMeansSound(rules, audit, items[i], depth + 1, outer);
    }
  }

  lemma {:induction false} EntriesClean(rules: Rules, audit: Work -> Report, entries: seq<Entry>, depth: nat, outer: bool, node: Node)
    requires IsAudit(rules, audit)
    requires forall i :: 0 <= i < |entries| ==> entries[i].item < node
    ensures (&& (forall i :: 0 <= i < |entries| ==> EntryOk(rules, entries[i], outer))
             && (forall c :: c in EntriesWork(rules, entries, depth, outer) ==> audit(c).clean)) <==>
              forall i :: 0 <= i < |entries| ==> EntrySound(rules, entries[i], depth + 1, outer)
    decreases outer, node, 2
  {
    forall c ensures c in EntriesWork(rules, entries, depth, outer) <==>
        exists i :: 0 <= i < |entries| && c in EntryWork(rules, entries[i], depth, outer)
    {
      EntriesWorkHas(rules, entries, depth, outer, c);
    }
    forall i | 0 <= i < |entries|
      ensures EntryOk(rules, entries[i], outer) && (forall c :: c in EntryWork(rules, entries[i], depth, outer) ==> audit(c).clean)
              <==> EntrySound(rules, entries[i], depth + 1, outer)
    {
      EntryClean(rules, audit, entries[i], depth, outer, node);
    }
  }

  lemma {:induction false} MapClean(rules: Rules, audit: Work -> Report, entries: seq<Entry>, depth: nat, outer: bool)
    requires IsAudit(rules, audit)
    ensures audit(Work(Map(entries), depth, false, outer)).clean <==> Sound(rules, Map(entries), depth, outer)
    decreases outer, Map(entries), 3
  {
    CleanIff(rules, audit, Work(Map(entries), depth, false, outer));
    EntriesClean(rules, audit, entries, depth, outer, Map(entries));
    MapSound(rules, entries, depth, outer);
  }

  lemma {:induction false} MapSound(rules: Rules, entries: seq<Entry>, depth: nat, outer: bool)
    ensures Sound(rules, Map(entries), depth, outer) <==>
              depth <= MAX_SCAN_DEPTH && forall i :: 0 <= i < |entries| ==> EntrySound(rules, entries[i], depth + 1, outer)
  {
  }

  lemma {:induction false} ArrClean(rules: Rules, audit: Work -> Report, items: seq<Node>, depth: nat, outer: bool)
    requires IsAudit(rules, audit)
    ensures audit(Work(Arr(items), depth, false, outer)).clean <==> Sound(rules, Arr(items), depth, outer)
    decreases outer, Arr(items), 3
  {
    CleanIff(rules, audit, Work(Arr(items), depth, false, outer));
    ItemsClean(rules, audit, items, depth, outer, Arr(items));
  }

  lemma {:induction false} StrClean(rules: Rules, audit: Work -> Report, text: string, depth: nat, outer: bool)
    requires IsAudit(rules, audit)
    ensures audit(Work(Str(text), depth, false, outer)).clean <==> Sound(rules, Str(text), depth, outer)
    decreases outer, Str(text), 3
  {
    CleanIff(rules, audit, Work(Str(text), depth, false, outer));
    TextSound(rules, audit, text, depth, outer);
  }

  /** The audit of a value is clean exactly if the value is sound. */
  lemma {:induction false} CleanMeansSound(rules: Rules, audit: Work -> Report, node: Node, depth: nat, outer: bool)
    requires IsAudit(rules, audit)
    ensures audit(Work(node, depth, false, outer)).clean <==> Sound(rules, node, depth, outer)
    decreases outer, node, 4
  {
    match node
    case Str(text) => StrClean(rules, audit, text, depth, outer);
    case Arr(items) => ArrClean(rules, audit, items, depth, outer);
    case Map(entries) => MapClean(rules, audit, entries, depth, outer);
    case _ => AllClean(audit, Subwork(rules, Work(node, depth, false, outer)));
  }

  // ---------------------------------------------------------------- the audit adds up the toll

  function Of(r: Report, m: Measure): nat {
    if m.Parts? then r.items else r.chars
  }

  lemma {:induction false} AllPlus(audit: Work -> Report, ws: seq<Work>, w: Work, m: Measure)
    ensures Of(Total(audit, ws + [w]), m) == Of(Total(audit, ws), m) + Of(audit(w), m)
  {
    TotalConcat(audit, ws, [w]);
    TotalOne(audit, w);
  }

  lemma {:induction false} TextToll(rules: Rules, audit: Work -> Report, text: string, outer: bool, m: Measure)
    requires IsAudit(rules, audit)
    ensures Toll(rules, Str(text), outer, m) == (if m.Parts? then 1 else |text|) + Of(Total(audit, Opened(rules, text, outer)), m)
    decreases outer, Str(text), 0
  {
    SerializedMeans(rules, text);
    if outer && SerializedMapping(rules, text).Embedded? {
      var inner := SerializedMapping(rules, text).node;
      assert Holds(rules, text, inner) && Opened(rules, text, outer) == [] + [Work(inner, 0, false, false)];
      AllPlus(audit, [], Work(inner, 0, false, false), m);
      AuditToll(rules, audit, inner, 0, false, m);
    }
  }

  lemma {:induction false} CountedToll(rules: Rules, audit: Work -> Report, text: string, depth: nat, m: Measure)
    requires IsAudit(rules, audit)
    ensures Of(audit(Work(Str(text), depth, true, false)), m) == if m.Parts? then 1 else 0
  {
    OwnToll(rules, audit, Work(Str(text), depth, true, false), m);
  }

  lemma {:induction false} EntryToll(rules: Rules, audit: Work -> Report, e: Entry, depth: nat, outer: bool, node: Node, m: Measure)
    requires IsAudit(rules, audit)
    requires e.item < node
    ensures (if m.Letters? then EntryChars(e) else 0) + Of(Total(audit, EntryWork(rules, e, depth, outer)), m)
         == KeyToll(e, m) + Toll(rules, e.item, outer, m)
    decreases outer, node, 1
  {
    var last := Work(e.item, depth + 1, e.item.Str?, outer && !e.item.Str?);
    var inside := if e.item.Str? then Opened(rules, e.item.text, outer) else [];
    assert EntryWork(rules, e, depth, outer) == inside + [last];
    AllPlus(audit, inside, last, m);
    if e.item.Str? {
      TextToll(rules, audit, e.item.text, outer, m);
      CountedToll(rules, audit, e.item.text, depth + 1, m);
    } else {
      AuditToll(rules, audit, e.item, depth + 1, outer, m);
    }
  }

  lemma {:induction false} ItemsAudit(rules: Rules, audit: Work -> Report, items: seq<Node>, depth: nat, outer: bool, node: Node, m: Measure)
    requires IsAudit(rules, audit)
    requires forall i :: 0 <= i < |items| ==> items[i] < node
    ensures Of(Total(audit, ItemsWork(items, depth, outer)), m) == ItemsToll(rules, items, node, outer, m)
    decreases outer, node, 2, |items|
  {
    if items != [] {
      var n := |items| - 1;
      var front, last := items[..n], Work(items[n], depth + 1, false, outer);
      assert ItemsWork(items, depth, outer) == ItemsWork(front, depth, outer) + [last];
      AllPlus(audit, ItemsWork(front, depth, outer), last, m);
      ItemsAudit(rules, audit, front, depth, outer, node, m);
      AuditToll(rules, audit, items[n], depth + 1, outer, m);
    }
  }

  lemma {:induction false} EntriesAudit(rules: Rules, audit: Work -> Report, entries: seq<Entry>, depth: nat, outer: bool, node: Node, m: Measure)
    requires IsAudit(rules, audit)
    requires forall i :: 0 <= i < |entries| ==> entries[i].item < node
    ensures (if m.Letters? then EntriesChars(entries) else 0) + Of(Total(audit, EntriesWork(rules, entries, depth, outer)), m)
         == EntriesToll(rules, entries, node, outer, m)
    decreases outer, node, 2, |entries|
  {
    if entries != [] {
      var n := |entries| - 1;
      var front, e := entries[..n], entries[n];
      TotalConcat(audit, EntriesWork(rules, front, depth, outer), EntryWork(rules, e, depth, outer));
      EntriesAudit(rules, audit, front, depth, outer, node, m);
      EntryToll(rules, audit, e, depth, outer, node, m);
    }
  }

  lemma {:induction false} OwnToll(rules: Rules, audit: Work -> Report, w: Work, m: Measure)
    requires IsAudit(rules, audit)
    ensures Of(audit(w), m) == (if m.Parts? then 1 else WorkChars(w)) + Of(Total(audit, Subwork(rules, w)), m)
  {
  }

  lemma {:induction false} StrToll(rules: Rules, audit: Work -> Report, text: string, depth: nat, outer: bool, m: Measure)
    requires IsAudit(rules, audit)
    ensures Of(audit(Work(Str(text), depth, false, outer)), m) == Toll(rules, Str(text), outer, m)
    decreases outer, Str(text), 3
  {
    OwnToll(rules, audit, Work(Str(text), depth, false, outer), m);
    TextToll(rules, audit, text, outer, m);
  }

  lemma {:induction false} ArrToll(rules: Rules, audit: Work -> Report, items: seq<Node>, depth: nat, outer: bool, m: Measure)
    requires IsAudit(rules, audit)
    ensures Of(audit(Work(Arr(items), depth, false, outer)), m) == Toll(rules, Arr(items), outer, m)
    decreases outer, Arr(items), 3
  {
    OwnToll(rules, audit, Work(Arr(items), depth, false, outer), m);
    ItemsAudit(rules, audit, items, depth, outer, Arr(items), m);
  }

  lemma {:induction false} MapToll(rules: Rules, audit: Work -> Report, entries: seq<Entry>, depth: nat, outer: bool, m: Measure)
    requires IsAudit(rules, audit)
    ensures Of(audit(Work(Map(entries), depth, false, outer)), m) == Toll(rules, Map(entries), outer, m)
    decreases outer, Map(entries), 3
  {
    OwnToll(rules, audit, Work(Map(entries), depth, false, outer), m);
    EntriesAudit(rules, audit, entries, depth, outer, Map(entries), m);
  }

  /** The audit of a value adds up its toll. */
  lemma {:induction false} AuditToll(rules: Rules, audit: Work -> Report, node: Node, depth: nat, outer: bool, m: Measure)
    requires IsAudit(rules, audit)
    ensures Of(audit(Work(node, depth, false, outer)), m) == Toll(rules, node, outer, m)
    decreases outer, node, 4
  {
    match node
    case Str(text) => StrToll(rules, audit, text, depth, outer, m);
    case Arr(items) => ArrToll(rules, audit, items, depth, outer, m);
    case Map(entries) => MapToll(rules, audit, entries, depth, outer, m);
    case _ => OwnToll(rules, audit, Work(node, depth, false, outer), m);
  }

  /** A value passes if and only if its scan is affordable and it is sound. */
  lemma {:induction false} AcceptableIff(rules: Rules, root: Node)
    ensures Acceptable(rules, root) <==>
              && Toll(rules, root, true, Parts) <= MAX_SCAN_NODES && Toll(rules, root, true, Letters) <= MAX_TOTAL_CHARS
              && Sound(rules, root, 0, true)
  {
    AuditorAudits(rules);
    AuditToll(rules, Auditor(rules), root, 0, true, Parts);
    AuditToll(rules, Auditor(rules), root, 0, true, Letters);
    CleanMeansSound(rules, Auditor(rules), root, 0, true);
  }

  // ---------------------------------------------------------------- what an accepted value cannot hold

  /** The part of a value reached by child indices. */
  ghost function Part(node: Node, path: seq<nat>): Option<Node>
    decreases |path|
  {
    if path == [] then Some(node)
    else
      match node
      case Arr(items) => if path[0] < |items| then Part(items[path[0]], path[1..]) else None
      case Map(entries) => if path[0] < |entries| then Part(entries[path[0]].item, path[1..]) else None
      case _ => None
  }

  /** No string of the value matches a pattern, and no entry of it names a credential. */
  ghost predicate Bare(rules: Rules, node: Node) {
    && (forall path, text :: Part(node, path) == Some(Str(text)) ==> !rules.textRule(text))
    && (forall path, entries, i ::
          Part(node, path) == Some(Map(entries)) && 0 <= i < |entries| ==> Innocent(rules, entries[i]))
  }

  lemma {:induction false} SoundPart(rules: Rules, node: Node, depth: nat, outer: bool, path: seq<nat>)
    requires Sound(rules, node, depth, outer) && Part(node, path).Some?
    ensures Sound(rules, Part(node, path).value, depth + |path|, outer)
    decreases |path|
  {
    if path != [] {
      var child := if node.Arr? then node.items[path[0]] else node.entries[path[0]].item;
      SoundPart(rules, child, depth + 1, outer, path[1..]);
    }
  }

  lemma {:induction false} SoundIsBare(rules: Rules, node: Node, outer: bool)
    requires Sound(rules, node, 0, outer)
    ensures Bare(rules, node)
  {
    forall path, text | Part(node, path) == Some(Str(text)) ensures !rules.textRule(text) {
      SoundPart(rules, node, 0, outer, path);
    }
    forall path, entries, i | Part(node, path) == Some(Map(entries)) && 0 <= i < |entries| ensures Innocent(rules, entries[i]) {
      SoundPart(rules, node, 0, outer, path);
      MapSound(rules, entries, |path|, outer);
    }
  }

  lemma {:induction false} HeldIsBare(rules: Rules, root: Node, path: seq<nat>, text: string, inner: Node)
    requires Sound(rules, root, 0, true) && Part(root, path) == Some(Str(text)) && Holds(rules, text, inner)
    ensures Sound(rules, inner, 0, false) && Bare(rules, inner)
  {
    SoundPart(rules, root, 0, true, path);
    SoundIsBare(rules, inner, false);
  }

  /** Nothing serialized in a string of the value holds a credential. */
  ghost predicate BareWithin(rules: Rules, root: Node) {
    forall path, text, inner :: Part(root, path) == Some(Str(text)) && Holds(rules, text, inner) ==> Bare(rules, inner)
  }

  lemma {:induction false} SoundIsBareWithin(rules: Rules, root: Node)
    requires Sound(rules, root, 0, true)
    ensures BareWithin(rules, root)
  {
    forall path, text, inner | Part(root, path) == Some(Str(text)) && Holds(rules, text, inner) ensures Bare(rules, inner) {
      HeldIsBare(rules, root, path, text, inner);
    }
  }

  /** Neither an accepted value nor what is serialized in any of its strings holds a credential. */
  lemma {:induction false} AcceptedIsBare(rules: Rules, root: Node)
    requires Acceptable(rules, root)
    ensures Bare(rules, root) && BareWithin(rules, root)
  {
    AcceptableIff(rules, root);
    SoundIsBare(rules, root, true);
    SoundIsBareWithin(rules, root);
  }

  // ---------------------------------------------------------------- JSON documents

  /** The document has this member at some depth. */
  predicate HasMember(j: JsonPreflight.Json, key: seq<JsonPreflight.Unit>, value: JsonPreflight.Json) {
    match j
    case Arr(_, elements) => MemberInElements(elements, key, value)
    case Obj(_, members) => MemberInMembers(members, key, value)
    case _ => false
  }

  predicate MemberInElements(es: JsonPreflight.Elements, key: seq<JsonPreflight.Unit>, value: JsonPreflight.Json) {
    es.Element? && (HasMember(es.value, key, value) || MemberInElements(es.rest, key, value))
  }

  predicate MemberInMembers(ms: JsonPreflight.Members, key: seq<JsonPreflight.Unit>, value: JsonPreflight.Json) {
    ms.Member? &&
    ((ms.key == key && ms.value == value) || HasMember(ms.value, key, value) || MemberInMembers(ms.rest, key, value))
  }

  /** The document has this string as a value at some depth. */
  predicate HasText(j: JsonPreflight.Json, units: seq<JsonPreflight.Unit>) {
    match j
    case Str(own) => own == units
    case Arr(_, elements) => TextInElements(elements, units)
    case Obj(_, members) => TextInMembers(members, units)
    case Scalar(_) => false
  }

  predicate TextInElements(es: JsonPreflight.Elements, units: seq<JsonPreflight.Unit>) {
    es.Element? && (HasText(es.value, units) || TextInElements(es.rest, units))
  }

  predicate TextInMembers(ms: JsonPreflight.Members, units: seq<JsonPreflight.Unit>) {
    ms.Member? && (HasText(ms.value, units) || TextInMembers(ms.rest, units))
  }

  predicate Blank(decode: seq<JsonPreflight.Unit> -> string, j: JsonPreflight.Json) {
    match j
    case Scalar(text) => text == "null"
    case Str(units) => decode(units) == ""
    case Arr(_, elements) => elements.NoElement?
    case Obj(_, members) => members.NoMember?
  }

  /** A member that is not a credential. */
  predicate Harmless(rules: Rules, decode: seq<JsonPreflight.Unit> -> string, key: seq<JsonPreflight.Unit>, value: JsonPreflight.Json) {
    !rules.textRule(decode(key)) && (rules.credentialKey(decode(key)) ==> Blank(decode, value))
  }

  ghost predicate ItemsSound(rules: Rules, items: seq<Node>, depth: nat) {
    forall i :: 0 <= i < |items| ==> Sound(rules, items[i], depth, false)
  }

  ghost predicate EntriesSound(rules: Rules, entries: seq<Entry>, depth: nat) {
    forall i :: 0 <= i < |entries| ==> EntrySound(rules, entries[i], depth, false)
  }

  lemma {:induction false} MemberIsHarmless(
    rules: Rules, decode: seq<JsonPreflight.Unit> -> string, j: JsonPreflight.Json, depth: nat,
    key: seq<JsonPreflight.Unit>, value: JsonPreflight.Json)
    requires Sound(rules, ToNode(decode, j), depth, false) && HasMember(j, key, value)
    ensures Harmless(rules, decode, key, value)
    decreases j
  {
    match j
    case Arr(_, elements) => ElementsAreHarmless(rules, decode, elements, depth + 1, key, value);
    case Obj(_, members) =>
      MapSound(rules, ToEntries(decode, members), depth, false);
      MembersAreHarmless(rules, decode, members, depth + 1, key, value);
  }

  lemma {:induction false} ElementsAreHarmless(
    rules: Rules, decode: seq<JsonPreflight.Unit> -> string, es: JsonPreflight.Elements, depth: nat,
    key: seq<JsonPreflight.Unit>, value: JsonPreflight.Json)
    requires ItemsSound(rules, ToItems(decode, es), depth) && MemberInElements(es, key, value)
    ensures Harmless(rules, decode, key, value)
    decreases es
  {
    var items := ToItems(decode, es);
    assert items[0] == ToNode(decode, es.value) && items[1..] == ToItems(decode, es.rest);
    if HasMember(es.value, key, value) {
      MemberIsHarmless(rules, decode, es.value, depth, key, value);
    } else {
      assert forall i :: 0 <= i < |items[1..]| ==> items[1..][i] == items[i + 1];
      ElementsAreHarmless(rules, decode, es.rest, depth, key, value);
    }
  }

  lemma {:induction false} MembersAreHarmless(
    rules: Rules, decode: seq<JsonPreflight.Unit> -> string, ms: JsonPreflight.Members, depth: nat,
    key: seq<JsonPreflight.Unit>, value: JsonPreflight.Json)
    requires EntriesSound(rules, ToEntries(decode, ms), depth) && MemberInMembers(ms, key, value)
    ensures Harmless(rules, decode, key, value)
    decreases ms
  {
    var entries := ToEntries(decode, ms);
    assert entries[0] == Entry(TextKey(decode(ms.key)), ToNode(decode, ms.value)) && entries[1..] == ToEntries(decode, ms.rest);
    assert EntrySound(rules, entries[0], depth, false);
    if ms.key == key && ms.value == value {
      BlankIffEmpty(decode, value);
    } else if HasMember(ms.value, key, value) {
      MemberIsHarmless(rules, decode, ms.value, depth, key, value);
    } else {
      assert forall i :: 0 <= i < |entries[1..]| ==> entries[1..][i] == entries[i + 1];
      MembersAreHarmless(rules, decode, ms.rest, depth, key, value);
    }
  }

  lemma BlankIffEmpty(decode: seq<JsonPreflight.Unit> -> string, j: JsonPreflight.Json)
    ensures Blank(decode, j) <==> ToNode(decode, j) in EMPTY
  {
  }

  lemma {:induction false} TextIsHarmless(
    rules: Rules, decode: seq<JsonPreflight.Unit> -> string, j: JsonPreflight.Json, depth: nat, units: seq<JsonPreflight.Unit>)
    requires Sound(rules, ToNode(decode, j), depth, false) && HasText(j, units)
    ensures !rules.textRule(decode(units))
    decreases j
  {
    match j
    case Arr(_, elements) => ElementTextIsHarmless(rules, decode, elements, depth + 1, units);
    case Obj(_, members) =>
      MapSound(rules, ToEntries(decode, members), depth, false);
      MemberTextIsHarmless(rules, decode, members, depth + 1, units);
    case _ =>
  }

  lemma {:induction false} ElementTextIsHarmless(
    rules: Rules, decode: seq<JsonPreflight.Unit> -> string, es: JsonPreflight.Elements, depth: nat, units: seq<JsonPreflight.Unit>)
    requires ItemsSound(rules, ToItems(decode, es), depth) && TextInElements(es, units)
    ensures !rules.textRule(decode(units))
    decreases es
  {
    var items := ToItems(decode, es);
    assert items[0] == ToNode(decode, es.value) && items[1..] == ToItems(decode, es.rest);
    if HasText(es.value, units) {
      TextIsHarmless(rules, decode, es.value, depth, units);
    } else {
      assert forall i :: 0 <= i < |items[1..]| ==> items[1..][i] == items[i + 1];
      ElementTextIsHarmless(rules, decode, es.rest, depth, units);
    }
  }

  lemma {:induction false} MemberTextIsHarmless(
    rules: Rules, decode: seq<JsonPreflight.Unit> -> string, ms: JsonPreflight.Members, depth: nat, units: seq<JsonPreflight.Unit>)
    requires EntriesSound(rules, ToEntries(decode, ms), depth) && TextInMembers(ms, units)
    ensures !rules.textRule(decode(units))
    decreases ms
  {
    var entries := ToEntries(decode, ms);
    assert entries[0].item == ToNode(decode, ms.value) && entries[1..] == ToEntries(decode, ms.rest);
    assert EntrySound(rules, entries[0], depth, false);
    if HasText(ms.value, units) {
      TextIsHarmless(rules, decode, ms.value, depth, units);
    } else {
      assert forall i :: 0 <= i < |entries[1..]| ==> entries[1..][i] == entries[i + 1];
      MemberTextIsHarmless(rules, decode, ms.rest, depth, units);
    }
  }

  /** The text is an object within the limits, and the parser reads it as that object. */
  ghost predicate Serializes(
    rules: Rules, decode: seq<JsonPreflight.Unit> -> string, text: string, lead: string, j: JsonPreflight.Json, trail: string)
  {
    && text == JsonPreflight.Document(lead, j, trail) && |text| <= MAX_SERIALIZED_JSON_CHARS
    && JsonPreflight.IsWs(lead) && JsonPreflight.WellFormed(j) && JsonPreflight.IsWs(trail) && j.Obj?
    && JsonPreflight.Nesting(j) <= MAX_SCAN_DEPTH && JsonPreflight.Structure(j) <= MAX_SCAN_NODES
    && rules.parse(text) == Parsed(ToNode(decode, j))
  }

  lemma {:induction false} SerializedIsHeld(
    rules: Rules, decode: seq<JsonPreflight.Unit> -> string, text: string, lead: string, j: JsonPreflight.Json, trail: string)
    requires JsonSpaces(rules) && Serializes(rules, decode, text, lead, j, trail)
    ensures Holds(rules, text, ToNode(decode, j))
  {
    JsonPreflight.PreflightExact(lead, j, trail);
    assert text[|lead|] == JsonPreflight.Print(j)[0] == '{';
    forall i | 0 <= i < |lead| ensures rules.isSpace(text[i]) { assert text[i] == lead[i] && lead[i] in " \t\n\r"; }
  }

  /** No member of the document, at any depth, is a credential, and no text in it matches a pattern. */
  ghost predicate HoldsNoCredential(rules: Rules, decode: seq<JsonPreflight.Unit> -> string, j: JsonPreflight.Json) {
    && (forall key, value :: HasMember(j, key, value) ==> Harmless(rules, decode, key, value))
    && (forall units :: HasText(j, units) ==> !rules.textRule(decode(units)))
  }

  lemma {:induction false} SoundHoldsNoCredential(
    rules: Rules, decode: seq<JsonPreflight.Unit> -> string, j: JsonPreflight.Json)
    requires Sound(rules, ToNode(decode, j), 0, false)
    ensures HoldsNoCredential(rules, decode, j)
  {
    forall key, value | HasMember(j, key, value) ensures Harmless(rules, decode, key, value) {
      MemberIsHarmless(rules, decode, j, 0, key, value);
    }
    forall units | HasText(j, units) ensures !rules.textRule(decode(units)) {
      TextIsHarmless(rules, decode, j, 0, units);
    }
  }

  /** Wherever an accepted value has the text of an object, that object holds no credential. */
  lemma {:induction false} DocumentsAreScanned(
    rules: Rules, decode: seq<JsonPreflight.Unit> -> string, root: Node, path: seq<nat>, text: string,
    lead: string, j: JsonPreflight.Json, trail: string)
    requires JsonSpaces(rules) && Serializes(rules, decode, text, lead, j, trail)
    requires Acceptable(rules, root) && Part(root, path) == Some(Str(text))
    ensures HoldsNoCredential(rules, decode, j)
  {
    SerializedIsHeld(rules, decode, text, lead, j, trail);
    AcceptableIff(rules, root);
    HeldIsBare(rules, root, path, text, ToNode(decode, j));
    SoundHoldsNoCredential(rules, decode, j);
  }

  /** The text of an object costs one item, and one more for each of its values. */
  lemma {:induction false} DocumentToll(
    rules: Rules, decode: seq<JsonPreflight.Unit> -> string, text: string, lead: string, j: JsonPreflight.Json, trail: string)
    requires JsonSpaces(rules) && Serializes(rules, decode, text, lead, j, trail)
    ensures Audit(rules, RootWork(Str(text))).items == 1 + JsonPreflight.ValueCount(j)
  {
    SerializedIsHeld(rules, decode, text, lead, j, trail);
    AuditorAudits(rules);
    AuditToll(rules, Auditor(rules), Str(text), 0, true, Parts);
    AuditToll(rules, Auditor(rules), ToNode(decode, j), 0, false, Parts);
    EmbeddedItems(rules, decode, j, 0, false);
  }
}
