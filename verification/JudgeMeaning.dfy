/**
 * What passing the credential judge says about the object graph itself: no value that can be reached
 * from one that passed holds a credential (scripts/golden_task_assertions.py).
 */
module JudgeMeaning {
  import opened Values
  import opened CredentialSnapshot
  import opened CredentialJudge
  import M = CredentialMeaning
  import S = SnapshotMeaning
  import CredentialScan

  type Rules = CredentialScan.Rules

  // ---------------------------------------------------------------- the tree of a snapshot

  lemma {:induction false} ItemsAt(isNull: int -> bool, ts: seq<Snap>)
    ensures |ToItems(isNull, ts)| == |ts|
    ensures forall i :: 0 <= i < |ts| ==> ToItems(isNull, ts)[i] == ToNode(isNull, ts[i])
    decreases |ts|
  {
    if ts != [] { ItemsAt(isNull, ts[..|ts| - 1]); }
  }

  lemma {:induction false} EntriesAt(isNull: int -> bool, es: seq<(string, Snap)>)
    ensures |ToEntries(isNull, es)| == |es|
    ensures forall i :: 0 <= i < |es| ==>
              ToEntries(isNull, es)[i] == CredentialScan.Entry(TextKey(es[i].0), ToNode(isNull, es[i].1))
    decreases |es|
  {
    if es != [] { EntriesAt(isNull, es[..|es| - 1]); }
  }

  /** Neither the tree nor an object serialized in one of its strings holds a credential. */
  ghost predicate CleanTree(rules: Rules, node: CredentialScan.Node) {
    M.Bare(rules, node) && M.BareWithin(rules, node)
  }

  lemma {:induction false} CleanItem(rules: Rules, items: seq<CredentialScan.Node>, i: nat)
    requires CleanTree(rules, CredentialScan.Arr(items)) && i < |items|
    ensures CleanTree(rules, items[i])
  {
    var node := CredentialScan.Arr(items);
    forall path ensures M.Part(node, [i] + path) == M.Part(items[i], path) {
      assert ([i] + path)[0] == i && ([i] + path)[1..] == path;
    }
  }

  lemma {:induction false} CleanEntry(rules: Rules, entries: seq<CredentialScan.Entry>, i: nat)
    requires CleanTree(rules, CredentialScan.Map(entries)) && i < |entries|
    ensures CleanTree(rules, entries[i].item) && M.Innocent(rules, entries[i])
  {
    var node := CredentialScan.Map(entries);
    forall path ensures M.Part(node, [i] + path) == M.Part(entries[i].item, path) {
      assert ([i] + path)[0] == i && ([i] + path)[1..] == path;
    }
    assert M.Part(node, []) == Some(node);
  }

  // ---------------------------------------------------------------- the graph

  /** A snapshot of nothing: `None`, no bytes, or an empty text, list or mapping. */
  predicate Nothing(isNull: int -> bool, t: Snap) {
    match t
    case SAtom(scalar) => isNull(scalar)
    case SText(text) => text == ""
    case SEmptyBytes => true
    case SOpaque => false
    case SDict(entries) => entries == []
    case SPairs(entries) => entries == []
    case SList(elements) => elements == []
  }

  lemma NothingIff(isNull: int -> bool, t: Snap)
    ensures ToNode(isNull, t) in M.EMPTY <==> Nothing(isNull, t)
  {
    match t
    case SDict(entries) => EntriesAt(isNull, entries);
    case SPairs(entries) => EntriesAt(isNull, entries);
    case SList(elements) => ItemsAt(isNull, elements);
    case _ =>
  }

  ghost predicate Clean(h: Heap, rules: Rules, isNull: int -> bool, v: Value) {
    exists t :: Unfolds(h, v, t) && CleanTree(rules, ToNode(isNull, t))
  }

  /** The item is there, and in a mapping no later one has its key. */
  ghost predicate ItemAt(o: Obj, i: nat, key: string, u: Value) {
    match o
    case Pairs(items) => i < |items| && items[i] == Item(TextKey(key), u)
    case Mapping(items) =>
      && i < |items| && items[i] == Item(TextKey(key), u)
      && forall j :: i < j < |items| && items[j].Item? ==> items[j].key != TextKey(key)
    case _ => false
  }

  /** An object shows its elements, its items, or what it dumps. */
  ghost predicate Shows(o: Obj, u: Value) {
    match o
    case List(elements) => u in elements
    case Model(dumped) => u == dumped
    case _ => exists i: nat, key :: ItemAt(o, i, key, u)
  }

  /** An item that is no credential: neither its key nor its text matches, and a credential's key has no value. */
  ghost predicate NoCredential(h: Heap, rules: Rules, isNull: int -> bool, key: string, u: Value) {
    && !rules.textRule(key)
    && (rules.credentialKey(key) ==> exists t :: Unfolds(h, u, t) && Nothing(isNull, t))
    && forall text :: Unfolds(h, u, SText(text)) ==> !rules.textRule(key + ": " + text)
  }

  lemma {:induction false} LastIsInDict(pairs: S.Entries, d: S.Entries, i: nat) returns (e: nat)
    requires S.IsDict(pairs, d) && S.LastAt(pairs, i)
    ensures e < |d| && d[e] == pairs[i]
  {
    assert S.HasKey(d, pairs[i].0);
    e :| 0 <= e < |d| && d[e].0 == pairs[i].0;
    assert S.IsLast(pairs, d[e]);
    var k: nat :| S.LastAt(pairs, k) && pairs[k] == d[e];
    assert k == i;
  }

  /** A shown item is an entry of the snapshot. */
  lemma {:induction false} ItemHasEntry(h: Heap, o: Obj, t: Snap, i: nat, key: string, u: Value)
    returns (entries: S.Entries, e: nat)
    requires S.DepictsObject(h, o, t) && ItemAt(o, i, key, u)
    ensures (t == SDict(entries) || t == SPairs(entries)) && e < |entries| && entries[e].0 == key
    ensures Unfolds(h, u, entries[e].1)
  {
    match o
    case Pairs(items) => entries, e := t.entries, i;
    case Mapping(items) =>
      var pairs: S.Entries :| S.Itemwise(h, items, pairs) && S.IsDict(pairs, t.entries);
      forall j | i < j < |pairs| ensures pairs[j].0 != pairs[i].0 { assert items[j].Item?; }
      entries := t.entries;
      e := LastIsInDict(pairs, entries, i);
  }

  lemma {:induction false} ItemIsHarmless(
    h: Heap, rules: Rules, isNull: int -> bool, id: Id, i: nat, key: string, u: Value)
    requires Clean(h, rules, isNull, Ref(id)) && id in h && ItemAt(h[id], i, key, u)
    ensures Clean(h, rules, isNull, u) && NoCredential(h, rules, isNull, key, u)
  {
    var t :| Unfolds(h, Ref(id), t) && CleanTree(rules, ToNode(isNull, t));
    S.UnfoldingDepicts(h, Ref(id), t);
    var entries, e := ItemHasEntry(h, h[id], t, i, key, u);
    EntriesAt(isNull, entries);
    CleanEntry(rules, ToEntries(isNull, entries), e);
    NothingIff(isNull, entries[e].1);
    forall text | Unfolds(h, u, SText(text)) ensures entries[e].1 == SText(text) {
      UnfoldingIsUnique(h, u, SText(text), entries[e].1);
    }
  }

  lemma {:induction false} ShownIsClean(h: Heap, rules: Rules, isNull: int -> bool, id: Id, u: Value)
    requires Clean(h, rules, isNull, Ref(id)) && id in h && Shows(h[id], u)
    ensures Clean(h, rules, isNull, u)
  {
    var t :| Unfolds(h, Ref(id), t) && CleanTree(rules, ToNode(isNull, t));
    S.UnfoldingDepicts(h, Ref(id), t);
    if h[id].List? {
      var elements := h[id].elements;
      var i :| 0 <= i < |elements| && elements[i] == u;
      ItemsAt(isNull, t.elements);
      CleanItem(rules, ToItems(isNull, t.elements), i);
      assert Unfolds(h, u, t.elements[i]);
    } else if h[id].Model? {
      assert Unfolds(h, u, t);
    } else {
      var i: nat, key :| ItemAt(h[id], i, key, u);
      ItemIsHarmless(h, rules, isNull, id, i, key, u);
    }
  }

  /** Values, each shown by the object before it. */
  ghost predicate IsTrail(h: Heap, trail: seq<Value>) {
    forall i, j :: 0 <= i && j == i + 1 && j < |trail| ==>
      trail[i].Ref? && trail[i].id in h && Shows(h[trail[i].id], trail[j])
  }

  lemma {:induction false} TrailIsClean(h: Heap, rules: Rules, isNull: int -> bool, trail: seq<Value>, k: nat)
    requires IsTrail(h, trail) && k < |trail| && Clean(h, rules, isNull, trail[0])
    ensures Clean(h, rules, isNull, trail[k])
    decreases k
  {
    if k > 0 {
      var i := k - 1;
      TrailIsClean(h, rules, isNull, trail, i);
      assert trail[i].Ref? && trail[i].id in h && Shows(h[trail[i].id], trail[k]);
      ShownIsClean(h, rules, isNull, trail[i].id, trail[k]);
    }
  }

  lemma {:induction false} HarmlessIsClean(h: Heap, rules: Rules, isNull: int -> bool, v: Value)
    requires Harmless(h, rules, isNull, v)
    ensures Clean(h, rules, isNull, v)
  {
    var t :| Unfolds(h, v, t) && CredentialScan.Acceptable(rules, ToNode(isNull, t));
    M.AcceptedIsBare(rules, ToNode(isNull, t));
  }

  lemma {:induction false} CleanText(h: Heap, rules: Rules, isNull: int -> bool, text: string)
    requires Clean(h, rules, isNull, Text(text))
    ensures !rules.textRule(text) && forall inner :: M.Holds(rules, text, inner) ==> M.Bare(rules, inner)
  {
    var t :| Unfolds(h, Text(text), t) && CleanTree(rules, ToNode(isNull, t));
    S.UnfoldingDepicts(h, Text(text), t);
    assert M.Part(CredentialScan.Str(text), []) == Some(CredentialScan.Str(text));
  }

  /** From a value that passes no text is shown that matches a pattern or serializes an object with a credential. */
  lemma {:induction false} NoTextIsShown(h: Heap, rules: Rules, isNull: int -> bool, trail: seq<Value>, k: nat, text: string)
    requires IsTrail(h, trail) && k < |trail| && Harmless(h, rules, isNull, trail[0]) && trail[k] == Text(text)
    ensures !rules.textRule(text) && forall inner :: M.Holds(rules, text, inner) ==> M.Bare(rules, inner)
  {
    HarmlessIsClean(h, rules, isNull, trail[0]);
    TrailIsClean(h, rules, isNull, trail, k);
    CleanText(h, rules, isNull, text);
  }

  /** And no item of an object on the way names a credential. */
  lemma {:induction false} NoCredentialIsShown(
    h: Heap, rules: Rules, isNull: int -> bool, trail: seq<Value>, k: nat, i: nat, key: string, u: Value)
    requires IsTrail(h, trail) && k < |trail| && Harmless(h, rules, isNull, trail[0])
    requires trail[k].Ref? && trail[k].id in h && ItemAt(h[trail[k].id], i, key, u)
    ensures NoCredential(h, rules, isNull, key, u)
  {
    HarmlessIsClean(h, rules, isNull, trail[0]);
    TrailIsClean(h, rules, isNull, trail, k);
    ItemIsHarmless(h, rules, isNull, trail[k].id, i, key, u);
  }
}
