/**
 The credential judge as a whole (scripts/golden_task_assertions.py): a value is snapshotted, and the
 snapshot is scanned. The memo lets a small graph have a snapshot that is a huge or deep tree; it is
 the scan that refuses such a tree.
 */
module CredentialJudge {

  import opened Values
  import opened CredentialSnapshot
  import CredentialScan

  /** The tree the scan reads; which scalars are `None` is a parameter. */
  function ToNode(isNull: int -> bool, t: Snap): CredentialScan.Node {
    match t
    case SAtom(scalar) => if isNull(scalar) then CredentialScan.Null else CredentialScan.Other
    case SText(text) => CredentialScan.Str(text)
    case SEmptyBytes => CredentialScan.Bytes(0)
    case SOpaque => CredentialScan.Other
    case SDict(entries) => CredentialScan.Map(ToEntries(isNull, entries))
    case SPairs(entries) => CredentialScan.Map(ToEntries(isNull, entries))
    case SList(elements) => CredentialScan.Arr(ToItems(isNull, elements))
  }

  function ToItems(isNull: int -> bool, ts: seq<Snap>): seq<CredentialScan.Node> {
    if ts == [] then [] else ToItems(isNull, ts[..|ts| - 1]) + [ToNode(isNull, ts[|ts| - 1])]
  }

  function ToEntries(isNull: int -> bool, es: seq<(string, Snap)>): seq<CredentialScan.Entry> {
    if es == [] then []
    else ToEntries(isNull, es[..|es| - 1]) + [ToEntry(isNull, es[|es| - 1])]
  }

  function ToEntry(isNull: int -> bool, e: (string, Snap)): CredentialScan.Entry {
    CredentialScan.Entry(TextKey(e.0), ToNode(isNull, e.1))
  }

  /** What the judge is for: the value has a tree, and the tree is acceptable. */
  ghost predicate Harmless(h: Heap, rules: CredentialScan.Rules, isNull: int -> bool, v: Value) {
    exists t :: Unfolds(h, v, t) && CredentialScan.Acceptable(rules, ToNode(isNull, t))
  }

  /** A harmless value has no cycle and nothing that raises, and its tree is small and shallow. */
  lemma HarmlessMeans(h: Heap, rules: CredentialScan.Rules, isNull: int -> bool, v: Value)
    requires Closed(h) && Resolved(h, v) && Harmless(h, rules, isNull, v)
    ensures !Cyclic(h, v) && !Faulty(h, v)
    ensures forall t :: Unfolds(h, v, t) ==>
              && CredentialScan.Acceptable(rules, ToNode(isNull, t))
              && CredentialScan.Size(ToNode(isNull, t)) <= MAX_SCAN_NODES
              && CredentialScan.Height(ToNode(isNull, t)) <= MAX_SCAN_DEPTH
  {
    var good :| Unfolds(h, v, good) && CredentialScan.Acceptable(rules, ToNode(isNull, good));
    UnfoldsIffAcyclicAndSound(h, v);
    forall t | Unfolds(h, v, t) ensures t == good { UnfoldingIsUnique(h, v, t, good); }
    CredentialScan.AcceptedIsSmall(rules, ToNode(isNull, good));
  }

  /**
   Snapshot, then scan. Only harmless values pass, whatever the memo already holds; and every harmless
   value whose unfolding fits the snapshot's own budgets passes.
   */
  method JudgeValue(context: SnapshotContext, rules: CredentialScan.Rules, isNull: int -> bool, value: Value)
    returns (passed: bool)
    requires context.Valid() && Resolved(context.heap, value) && context.path == []
    modifies context
    ensures context.Valid() && context.path == []
    ensures passed ==> Harmless(context.heap, rules, isNull, value)
    ensures Fits(context.heap, value, 0, 0, 0) ==> (passed <==> Harmless(context.heap, rules, isNull, value))
  {
    var outcome := context.SnapshotRoot(value);
    if outcome.Fail? { return false; }
    var verdict := CredentialScan.AssertNoCredentialValues(rules, ToNode(isNull, outcome.snap));
    passed := verdict.Accepted?;
    OnlyOneTree(context.heap, rules, isNull, value, outcome.snap);
  }

  lemma {:induction false} OnlyOneTree(h: Heap, rules: CredentialScan.Rules, isNull: int -> bool, v: Value, t: Snap)
    requires Unfolds(h, v, t)
    ensures Harmless(h, rules, isNull, v) <==> CredentialScan.Acceptable(rules, ToNode(isNull, t))
  {
    forall u | Unfolds(h, v, u) ensures u == t { UnfoldingIsUnique(h, v, u, t); }
  }
}
