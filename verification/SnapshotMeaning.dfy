/**
 * What the snapshot of each kind of object is, in terms of the snapshots of the values it holds
 * (scripts/golden_task_assertions.py, class _CredentialSnapshotContext).
 */
module SnapshotMeaning {
  import opened Values
  import opened CredentialSnapshot

  // ---------------------------------------------------------------- dictionaries

  type Entries = seq<(string, Snap)>

  ghost predicate Distinct(d: Entries) {
    forall e, f :: 0 <= e < f < |d| ==> d[e].0 != d[f].0
  }

  /** The last pair with its key is `pairs[k]`. */
  ghost predicate LastAt(pairs: Entries, k: nat) {
    k < |pairs| && forall j :: k < j < |pairs| ==> pairs[j].0 != pairs[k].0
  }

  /** `key` occurs, and up to its first occurrence `later` does not. */
  ghost predicate Precedes(pairs: Entries, key: string, later: string) {
    exists k :: 0 <= k < |pairs| && pairs[k].0 == key && forall j :: 0 <= j <= k ==> pairs[j].0 != later
  }

  ghost predicate HasKey(d: Entries, key: string) {
    exists e :: 0 <= e < |d| && d[e].0 == key
  }

  ghost predicate IsLast(pairs: Entries, entry: (string, Snap)) {
    exists k: nat :: LastAt(pairs, k) && pairs[k] == entry
  }

  /** One entry per key, in the order in which the keys first occur, each with the last value of its key. */
  ghost predicate IsDict(pairs: Entries, d: Entries) {
    && Distinct(d)
    && (forall k :: 0 <= k < |pairs| ==> HasKey(d, pairs[k].0))
    && (forall e :: 0 <= e < |d| ==> IsLast(pairs, d[e]))
    && forall e, f :: 0 <= e < f < |d| ==> Precedes(pairs, d[e].0, d[f].0)
  }

  lemma {:induction false} PutAt(d: Entries, e: nat, key: string, snap: Snap)
    requires Distinct(d) && e < |d| && d[e].0 == key
    ensures Put(d, key, snap) == d[e := (key, snap)]
    decreases |d|
  {
    if e > 0 {
      PutAt(d[1..], e - 1, key, snap);
    }
  }

  lemma {:induction false} PutNew(d: Entries, key: string, snap: Snap)
    requires !HasKey(d, key)
    ensures Put(d, key, snap) == d + [(key, snap)]
    decreases |d|
  {
    if d != [] {
      assert forall e :: 0 <= e < |d| - 1 ==> d[1..][e] == d[e + 1];
      PutNew(d[1..], key, snap);
    }
  }

  lemma {:induction false} LastSurvives(pairs: Entries, last: (string, Snap), entry: (string, Snap))
    requires IsLast(pairs, entry) && entry.0 != last.0
    ensures IsLast(pairs + [last], entry)
  {
    var k: nat :| LastAt(pairs, k) && pairs[k] == entry;
    assert LastAt(pairs + [last], k);
  }

  lemma {:induction false} LastIsLast(pairs: Entries, last: (string, Snap))
    ensures IsLast(pairs + [last], last)
  {
    assert LastAt(pairs + [last], |pairs|);
  }

  lemma {:induction false} PrecedesMore(pairs: Entries, last: (string, Snap), key: string, later: string)
    requires Precedes(pairs, key, later)
    ensures Precedes(pairs + [last], key, later)
  {
    var k :| 0 <= k < |pairs| && pairs[k].0 == key && forall j :: 0 <= j <= k ==> pairs[j].0 != later;
    assert (pairs + [last])[k] == pairs[k];
  }

  lemma {:induction false} ReplaceKeepsDict(pairs: Entries, last: (string, Snap), d: Entries, e: nat)
    requires IsDict(pairs, d) && e < |d| && d[e].0 == last.0
    ensures IsDict(pairs + [last], d[e := last])
  {
    var more, d' := pairs + [last], d[e := last];
    assert forall i :: 0 <= i < |d| ==> d'[i].0 == d[i].0;
    forall k | 0 <= k < |more| ensures HasKey(d', more[k].0) {
      if k < |pairs| {
        assert HasKey(d, pairs[k].0);
        var i :| 0 <= i < |d| && d[i].0 == pairs[k].0;
        assert d'[i].0 == more[k].0;
      } else {
        assert d'[e].0 == more[k].0;
      }
    }
    forall i | 0 <= i < |d'| ensures IsLast(more, d'[i]) {
      if i == e { LastIsLast(pairs, last); } else { LastSurvives(pairs, last, d[i]); }
    }
    forall i, j | 0 <= i < j < |d'| ensures Precedes(more, d'[i].0, d'[j].0) {
      PrecedesMore(pairs, last, d[i].0, d[j].0);
    }
  }

  lemma {:induction false} AppendKeepsDict(pairs: Entries, last: (string, Snap), d: Entries)
    requires IsDict(pairs, d) && !HasKey(d, last.0)
    ensures IsDict(pairs + [last], d + [last])
  {
    var more, d' := pairs + [last], d + [last];
    assert forall i :: 0 <= i < |d| ==> d'[i] == d[i] && d[i].0 != last.0;
    forall k | 0 <= k < |more| ensures HasKey(d', more[k].0) {
      if k < |pairs| {
        assert HasKey(d, pairs[k].0);
        var i :| 0 <= i < |d| && d[i].0 == pairs[k].0;
        assert d'[i].0 == more[k].0;
      } else {
        assert d'[|d|].0 == more[k].0;
      }
    }
    forall i | 0 <= i < |d'| ensures IsLast(more, d'[i]) {
      if i == |d| { LastIsLast(pairs, last); } else { LastSurvives(pairs, last, d[i]); }
    }
    forall i, j | 0 <= i < j < |d'| ensures Precedes(more, d'[i].0, d'[j].0) {
      if j < |d| { PrecedesMore(pairs, last, d[i].0, d[j].0); } else { NewIsLater(pairs, last, d, i); }
    }
  }

  lemma {:induction false} NewIsLater(pairs: Entries, last: (string, Snap), d: Entries, i: nat)
    requires IsDict(pairs, d) && !HasKey(d, last.0) && i < |d|
    ensures Precedes(pairs + [last], d[i].0, last.0)
  {
    assert IsLast(pairs, d[i]);
    var k: nat :| LastAt(pairs, k) && pairs[k] == d[i];
    forall j | 0 <= j <= k ensures (pairs + [last])[j].0 != last.0 {
      assert HasKey(d, pairs[j].0);
    }
    assert (pairs + [last])[k].0 == d[i].0;
  }

  lemma {:induction false} ToDictIsDict(pairs: Entries)
    ensures IsDict(pairs, ToDict(pairs))
    decreases |pairs|
  {
    if pairs != [] {
      var front, last := pairs[..|pairs| - 1], pairs[|pairs| - 1];
      var d := ToDict(front);
      ToDictIsDict(front);
      assert pairs == front + [last];
      if HasKey(d, last.0) {
        var e :| 0 <= e < |d| && d[e].0 == last.0;
        PutAt(d, e, last.0, last.1);
        ReplaceKeepsDict(front, last, d, e);
      } else {
        PutNew(d, last.0, last.1);
        AppendKeepsDict(front, last, d);
      }
    }
  }

  // ---------------------------------------------------------------- one object

  /** The snapshots of the elements, one by one. */
  ghost predicate Elementwise(h: Heap, vs: seq<Value>, ts: seq<Snap>) {
    |ts| == |vs| && forall i :: 0 <= i < |vs| ==> Unfolds(h, vs[i], ts[i])
  }

  /** The snapshots of the items under their keys, one by one; every key is text. */
  ghost predicate Itemwise(h: Heap, items: seq<Item>, pairs: Entries) {
    && |pairs| == |items|
    && forall i :: 0 <= i < |items| ==>
         items[i].Item? && items[i].key == TextKey(pairs[i].0) && Unfolds(h, items[i].value, pairs[i].1)
  }

  /** What a snapshot shows of a value. */
  ghost predicate Depicts(h: Heap, v: Value, t: Snap) {
    match v
    case Atom(scalar) => t == SAtom(scalar)
    case Text(text) => t == SText(text)
    case Ref(id) => id in h && DepictsObject(h, h[id], t)
  }

  ghost predicate DepictsObject(h: Heap, o: Obj, t: Snap) {
    match o
    case Binary(length) => if length > 0 then t.SOpaque? else t.SEmptyBytes?
    case Mapping(items) => t.SDict? && exists pairs :: Itemwise(h, items, pairs) && IsDict(pairs, t.entries)
    case Pairs(items) => t.SPairs? && Itemwise(h, items, t.entries)
    case List(elements) => t.SList? && Elementwise(h, elements, t.elements)
    case Model(dumped) => Unfolds(h, dumped, t)
    case Opaque => t.SOpaque?
    case Broken(_) => false
  }

  lemma {:induction false} UnfoldAllIsElementwise(h: Heap, vs: seq<Value>, n: nat)
    requires UnfoldAll(h, vs, n).Some?
    ensures Elementwise(h, vs, UnfoldAll(h, vs, n).value.part)
    decreases |vs|
  {
    if vs != [] {
      var front, last := vs[..|vs| - 1], vs[|vs| - 1];
      UnfoldAllIsElementwise(h, front, n);
      assert UnfoldsTo(h, last, n - 1, Unfold(h, last, n - 1).value.part);
      assert forall i :: 0 <= i < |front| ==> vs[i] == front[i];
    }
  }

  lemma {:induction false} UnfoldItemsIsItemwise(h: Heap, items: seq<Item>, n: nat)
    requires UnfoldItems(h, items, n).Some?
    ensures Itemwise(h, items, UnfoldItems(h, items, n).value.part)
    decreases |items|
  {
    if items != [] {
      var front, last := items[..|items| - 1], items[|items| - 1];
      UnfoldItemsIsItemwise(h, front, n);
      assert UnfoldsTo(h, last.value, n - 1, Unfold(h, last.value, n - 1).value.part);
      assert forall i :: 0 <= i < |front| ==> items[i] == front[i];
    }
  }

  lemma {:induction false} ObjectIsDepicted(h: Heap, o: Obj, n: nat)
    requires UnfoldObj(h, o, n).Some?
    ensures DepictsObject(h, o, UnfoldObj(h, o, n).value.part)
  {
    match o
    case Mapping(items) =>
      UnfoldItemsIsItemwise(h, items, n);
      ToDictIsDict(UnfoldItems(h, items, n).value.part);
    case Pairs(items) => UnfoldItemsIsItemwise(h, items, n);
    case List(elements) => UnfoldAllIsElementwise(h, elements, n);
    case Model(dumped) => assert UnfoldsTo(h, dumped, n - 1, UnfoldObj(h, o, n).value.part);
    case _ =>
  }

  /** Every snapshot shows what its object holds; with `UnfoldingIsUnique`, nothing else does. */
  lemma {:induction false} UnfoldingDepicts(h: Heap, v: Value, t: Snap)
    requires Unfolds(h, v, t)
    ensures Depicts(h, v, t)
  {
    var n :| UnfoldsTo(h, v, n, t);
    if v.Ref? { ObjectIsDepicted(h, h[v.id], n); }
  }

  // ---------------------------------------------------------------- what a snapshot costs

  /** The values of a snapshot, the characters of its strings and keys, and the longest of these. */
  function Size(t: Snap): nat {
    match t
    case SDict(entries) => 1 + SizeOfEntries(entries)
    case SPairs(entries) => 1 + SizeOfEntries(entries)
    case SList(elements) => 1 + SizeOfAll(elements)
    case _ => 1
  }

  function SizeOfAll(ts: seq<Snap>): nat {
    if ts == [] then 0 else SizeOfAll(ts[..|ts| - 1]) + Size(ts[|ts| - 1])
  }

  function SizeOfEntries(es: Entries): nat {
    if es == [] then 0 else SizeOfEntries(es[..|es| - 1]) + SizeOfEntry(es[|es| - 1])
  }

  function SizeOfEntry(e: (string, Snap)): nat {
    Size(e.1)
  }

  function Letters(t: Snap): nat {
    match t
    case SText(text) => |text|
    case SDict(entries) => LettersOfEntries(entries)
    case SPairs(entries) => LettersOfEntries(entries)
    case SList(elements) => LettersOfAll(elements)
    case _ => 0
  }

  function LettersOfAll(ts: seq<Snap>): nat {
    if ts == [] then 0 else LettersOfAll(ts[..|ts| - 1]) + Letters(ts[|ts| - 1])
  }

  function LettersOfEntries(es: Entries): nat {
    if es == [] then 0 else LettersOfEntries(es[..|es| - 1]) + LettersOfEntry(es[|es| - 1])
  }

  function LettersOfEntry(e: (string, Snap)): nat {
    |e.0| + Letters(e.1)
  }

  function Longest(t: Snap): nat {
    match t
    case SText(text) => |text|
    case SDict(entries) => LongestOfEntries(entries)
    case SPairs(entries) => LongestOfEntries(entries)
    case SList(elements) => LongestOfAll(elements)
    case _ => 0
  }

  function LongestOfAll(ts: seq<Snap>): nat {
    if ts == [] then 0 else Max(LongestOfAll(ts[..|ts| - 1]), Longest(ts[|ts| - 1]))
  }

  function LongestOfEntries(es: Entries): nat {
    if es == [] then 0 else Max(LongestOfEntries(es[..|es| - 1]), LongestOfEntry(es[|es| - 1]))
  }

  function LongestOfEntry(e: (string, Snap)): nat {
    Max(|e.0|, Longest(e.1))
  }

  /** Nothing is dumped and no key is given twice, so that every visit shows in the snapshot. */
  ghost predicate IsPlain(h: Heap) {
    forall id :: id in h ==> match h[id]
      case Model(_) => false
      case Mapping(items) =>
        forall i, j :: 0 <= i < j < |items| && items[i].Item? && items[j].Item? ==> items[i].key != items[j].key
      case _ => true
  }

  lemma {:induction false} DistinctIsDict(pairs: Entries)
    requires Distinct(pairs)
    ensures ToDict(pairs) == pairs
    decreases |pairs|
  {
    if pairs != [] {
      var front, last := pairs[..|pairs| - 1], pairs[|pairs| - 1];
      DistinctIsDict(front);
      PutNew(front, last.0, last.1);
    }
  }

  lemma DistinctItems(h: Heap, items: seq<Item>, pairs: Entries)
    requires Itemwise(h, items, pairs)
    requires forall i, j :: 0 <= i < j < |items| && items[i].Item? && items[j].Item? ==> items[i].key != items[j].key
    ensures Distinct(pairs)
  {
    forall i, j | 0 <= i < j < |pairs| ensures pairs[i].0 != pairs[j].0 {
      assert items[i].key == TextKey(pairs[i].0) && items[j].key == TextKey(pairs[j].0);
    }
  }

  ghost predicate Costs(u: Costed<Snap>) {
    u.nodes == Size(u.part) && u.chars == Letters(u.part) && u.longest == Longest(u.part)
  }

  /** In a plain graph the walk is charged for exactly what the snapshot holds. */
  lemma {:induction false} CostIsSize(h: Heap, v: Value, n: nat)
    requires IsPlain(h) && Unfold(h, v, n).Some?
    ensures Costs(Unfold(h, v, n).value)
    decreases n, 2
  {
    if v.Ref? { ObjectCostIsSize(h, v.id, n); }
  }

  lemma {:induction false} ObjectCostIsSize(h: Heap, id: Id, n: nat)
    requires IsPlain(h) && id in h && UnfoldObj(h, h[id], n).Some?
    ensures Costs(UnfoldObj(h, h[id], n).value)
    decreases n, 1
  {
    match h[id]
    case Mapping(items) =>
      ItemsCostIsSize(h, items, n);
      UnfoldItemsIsItemwise(h, items, n);
      var pairs := UnfoldItems(h, items, n).value.part;
      DistinctItems(h, items, pairs);
      DistinctIsDict(pairs);
    case Pairs(items) => ItemsCostIsSize(h, items, n);
    case List(elements) => ElementsCostIsSize(h, elements, n);
    case _ =>
  }

  lemma {:induction false} ElementsCostIsSize(h: Heap, vs: seq<Value>, n: nat)
    requires IsPlain(h) && UnfoldAll(h, vs, n).Some?
    ensures var u := UnfoldAll(h, vs, n).value;
            u.nodes == SizeOfAll(u.part) && u.chars == LettersOfAll(u.part) && u.longest == LongestOfAll(u.part)
    decreases n, 0, |vs|
  {
    if vs != [] {
      var front, last := vs[..|vs| - 1], vs[|vs| - 1];
      ElementsCostIsSize(h, front, n);
      CostIsSize(h, last, n - 1);
      var u, f := UnfoldAll(h, vs, n).value.part, UnfoldAll(h, front, n).value.part;
      assert u[..|u| - 1] == f && u[|u| - 1] == Unfold(h, last, n - 1).value.part;
    }
  }

  lemma {:induction false} ItemsCostIsSize(h: Heap, items: seq<Item>, n: nat)
    requires IsPlain(h) && UnfoldItems(h, items, n).Some?
    ensures var u := UnfoldItems(h, items, n).value;
            && u.nodes == SizeOfEntries(u.part) && u.chars == LettersOfEntries(u.part)
            && u.longest == LongestOfEntries(u.part)
    decreases n, 0, |items|
  {
    if items != [] {
      var front, last := items[..|items| - 1], items[|items| - 1];
      ItemsCostIsSize(h, front, n);
      CostIsSize(h, last.value, n - 1);
      var u, f := UnfoldItems(h, items, n).value.part, UnfoldItems(h, front, n).value.part;
      assert u[..|u| - 1] == f && u[|u| - 1] == (last.key.name, Unfold(h, last.value, n - 1).value.part);
    }
  }
}
