/**
 The memoised, cycle-detecting snapshot of an arbitrary Python object graph
 (scripts/golden_task_assertions.py, class _CredentialSnapshotContext).

 The graph is a finite heap of objects named by identity. `Unfold` is the reference meaning of a
 snapshot: the tree obtained by following every edge with no memo and no active set, defined when
 the tree is at most `n` edges deep. The class below walks each object once.
 */
module CredentialSnapshot {

  import opened Values

  type Id = nat

  /** What a Python variable holds: an immutable scalar, an exact `str`, or a reference. */
  datatype Value = Atom(scalar: int) | Text(text: string) | Ref(id: Id)

  /** One step of iterating a mapping; `BadItem` is a step that raises. */
  datatype Item = Item(key: Key, value: Value) | BadItem

  /** The heap objects the snapshot distinguishes; `Broken` raises when it is inspected or dumped. */
  datatype Obj =
    | Binary(length: nat)
    | Mapping(items: seq<Item>)
    | Pairs(items: seq<Item>)
    | List(elements: seq<Value>)
    | Model(dumped: Value)
    | Opaque
    | Broken(inDump: bool)

  type Heap = map<Id, Obj>

  datatype Failure =
    | NodeLimit | DepthLimit | StringLimit | TotalLimit | SnapshotError | ModelDumpError | Cycle

  datatype Snap =
    | SAtom(scalar: int)
    | SText(text: string)
    | SEmptyBytes
    | SOpaque
    | SDict(entries: seq<(string, Snap)>)
    | SPairs(entries: seq<(string, Snap)>)
    | SList(elements: seq<Snap>)

  /** Part of an unfolding with what visiting all of it costs: values, characters, longest string. */
  datatype Costed<+T> = Costed(part: T, nodes: nat, chars: nat, longest: nat)

  datatype Outcome = Ok(snap: Snap) | Fail(failure: Failure)

  datatype EntriesOutcome = EntriesOk(entries: seq<(string, Snap)>) | EntriesFail(failure: Failure)

  datatype ElementsOutcome = ElementsOk(elements: seq<Snap>) | ElementsFail(failure: Failure)

  // ---------------------------------------------------------------- the graph

  function ItemValues(items: seq<Item>): (vs: seq<Value>)
    ensures forall i :: 0 <= i < |items| && items[i].Item? ==> items[i].value in vs
  {
    if items == [] then []
    else
      var rest := ItemValues(items[..|items| - 1]);
      var last := items[|items| - 1];
      if last.Item? then rest + [last.value] else rest
  }

  /** The out-edges of an object, in the order the snapshot follows them. */
  function Children(o: Obj): seq<Value> {
    match o
    case Mapping(items) => ItemValues(items)
    case Pairs(items) => ItemValues(items)
    case List(elements) => elements
    case Model(dumped) => [dumped]
    case _ => []
  }

  predicate Resolved(h: Heap, v: Value) {
    v.Ref? ==> v.id in h
  }

  /** No dangling references. */
  ghost predicate Closed(h: Heap) {
    forall id, v :: id in h && v in Children(h[id]) ==> Resolved(h, v)
  }

  ghost predicate IsWalk(h: Heap, w: seq<Id>) {
    && (forall i :: 0 <= i < |w| ==> w[i] in h)
    && (forall i, j :: 0 <= i < j < |w| && j == i + 1 ==> Ref(w[j]) in Children(h[w[i]]))
  }

  ghost predicate Repeats(w: seq<Id>) {
    exists i, j :: 0 <= i < j < |w| && w[i] == w[j]
  }

  /** `w` is a walk that starts at `v` and meets some object twice. */
  ghost predicate LoopFrom(h: Heap, v: Value, w: seq<Id>) {
    w != [] && v == Ref(w[0]) && IsWalk(h, w) && Repeats(w)
  }

  /** A cycle can be reached from `v`. */
  ghost predicate Cyclic(h: Heap, v: Value) {
    exists w :: LoopFrom(h, v, w)
  }

  predicate Uninspectable(o: Obj) {
    match o
    case Broken(_) => true
    case Mapping(items) => exists i :: 0 <= i < |items| && (items[i].BadItem? || items[i].key.OtherKey?)
    case Pairs(items) => exists i :: 0 <= i < |items| && (items[i].BadItem? || items[i].key.OtherKey?)
    case _ => false
  }

  /** `w` is a walk from `v` to an object whose inspection raises. */
  ghost predicate FaultFrom(h: Heap, v: Value, w: seq<Id>) {
    w != [] && v == Ref(w[0]) && IsWalk(h, w) && Uninspectable(h[w[|w| - 1]])
  }

  ghost predicate Faulty(h: Heap, v: Value) {
    exists w :: FaultFrom(h, v, w)
  }

  // ---------------------------------------------------------------- the reference unfolding

  /** `result[key] = snap` on an insertion-ordered dict. */
  function Put(entries: seq<(string, Snap)>, key: string, snap: Snap): seq<(string, Snap)> {
    if entries == [] then [(key, snap)]
    else if entries[0].0 == key then [(key, snap)] + entries[1..]
    else [entries[0]] + Put(entries[1..], key, snap)
  }

  function ToDict(pairs: seq<(string, Snap)>): seq<(string, Snap)> {
    if pairs == [] then []
    else
      var last := pairs[|pairs| - 1];
      Put(ToDict(pairs[..|pairs| - 1]), last.0, last.1)
  }

  function Unfold(h: Heap, v: Value, n: nat): Option<Costed<Snap>>
    decreases n, 2
  {
    match v
    case Atom(scalar) => Some(Costed(SAtom(scalar), 1, 0, 0))
    case Text(text) => Some(Costed(SText(text), 1, |text|, |text|))
    case Ref(id) => if id in h then UnfoldObj(h, h[id], n) else None
  }

  function UnfoldObj(h: Heap, o: Obj, n: nat): Option<Costed<Snap>>
    decreases n, 1
  {
    match o
    case Binary(length) => Some(Costed(if length == 0 then SEmptyBytes else SOpaque, 1, 0, 0))
    case Mapping(items) =>
      var u := UnfoldItems(h, items, n);
      if u.None? then None
      else Some(Costed(SDict(ToDict(u.value.part)), 1 + u.value.nodes, u.value.chars, u.value.longest))
    case Pairs(items) =>
      var u := UnfoldItems(h, items, n);
      if u.None? then None
      else Some(Costed(SPairs(u.value.part), 1 + u.value.nodes, u.value.chars, u.value.longest))
    case List(elements) =>
      var u := UnfoldAll(h, elements, n);
      if u.None? then None
      else Some(Costed(SList(u.value.part), 1 + u.value.nodes, u.value.chars, u.value.longest))
    case Model(dumped) =>
      if n == 0 then None
      else
        var u := Unfold(h, dumped, n - 1);
        if u.None? then None else Some(u.value.(nodes := 1 + u.value.nodes))
    case Opaque => Some(Costed(SOpaque, 1, 0, 0))
    case Broken(_) => None
  }

  function UnfoldAll(h: Heap, vs: seq<Value>, n: nat): Option<Costed<seq<Snap>>>
    decreases n, 0, |vs|
  {
    if vs == [] then Some(Costed([], 0, 0, 0))
    else if n == 0 then None
    else
      var front := UnfoldAll(h, vs[..|vs| - 1], n);
      var last := Unfold(h, vs[|vs| - 1], n - 1);
      if front.None? || last.None? then None else Some(AddElement(front.value, last.value))
  }

  function AddElement(front: Costed<seq<Snap>>, last: Costed<Snap>): Costed<seq<Snap>> {
    Costed(front.part + [last.part], front.nodes + last.nodes, front.chars + last.chars,
           Max(front.longest, last.longest))
  }

  function UnfoldItems(h: Heap, items: seq<Item>, n: nat): Option<Costed<seq<(string, Snap)>>>
    decreases n, 0, |items|
  {
    if items == [] then Some(Costed([], 0, 0, 0))
    else
      var item := items[|items| - 1];
      if n == 0 || item.BadItem? || item.key.OtherKey? then None
      else
        var front := UnfoldItems(h, items[..|items| - 1], n);
        var last := Unfold(h, item.value, n - 1);
        if front.None? || last.None? then None else Some(AddEntry(front.value, item.key.name, last.value))
  }

  function AddEntry(front: Costed<seq<(string, Snap)>>, key: string, last: Costed<Snap>)
    : Costed<seq<(string, Snap)>>
  {
    Costed(front.part + [(key, last.part)], front.nodes + last.nodes, front.chars + |key| + last.chars,
           Max(front.longest, Max(|key|, last.longest)))
  }

  /** `t` is the tree unfolding of `v`. */
  ghost predicate Unfolds(h: Heap, v: Value, t: Snap) {
    exists n :: UnfoldsTo(h, v, n, t)
  }

  ghost predicate UnfoldsTo(h: Heap, v: Value, n: nat, t: Snap) {
    Unfold(h, v, n).Some? && Unfold(h, v, n).value.part == t
  }

  lemma {:induction false} UnfoldGrows(h: Heap, v: Value, n: nat, m: nat)
    requires n <= m && Unfold(h, v, n).Some?
    ensures Unfold(h, v, m) == Unfold(h, v, n)
    decreases n, 2
  {
    if v.Ref? {
      match h[v.id]
      case Mapping(items) => UnfoldItemsGrows(h, items, n, m);
      case Pairs(items) => UnfoldItemsGrows(h, items, n, m);
      case List(elements) => UnfoldAllGrows(h, elements, n, m);
      case Model(dumped) => UnfoldGrows(h, dumped, n - 1, m - 1);
      case _ =>
    }
  }

  lemma {:induction false} UnfoldAllGrows(h: Heap, vs: seq<Value>, n: nat, m: nat)
    requires n <= m && UnfoldAll(h, vs, n).Some?
    ensures UnfoldAll(h, vs, m) == UnfoldAll(h, vs, n)
    decreases n, 0, |vs|
  {
    if vs != [] {
      UnfoldAllGrows(h, vs[..|vs| - 1], n, m);
      UnfoldGrows(h, vs[|vs| - 1], n - 1, m - 1);
    }
  }

  lemma {:induction false} UnfoldItemsGrows(h: Heap, items: seq<Item>, n: nat, m: nat)
    requires n <= m && UnfoldItems(h, items, n).Some?
    ensures UnfoldItems(h, items, m) == UnfoldItems(h, items, n)
    decreases n, 0, |items|
  {
    if items != [] {
      UnfoldItemsGrows(h, items[..|items| - 1], n, m);
      UnfoldGrows(h, items[|items| - 1].value, n - 1, m - 1);
    }
  }

  /** A value has at most one unfolding. */
  lemma UnfoldingIsUnique(h: Heap, v: Value, s: Snap, t: Snap)
    requires Unfolds(h, v, s) && Unfolds(h, v, t)
    ensures s == t
  {
    var n :| UnfoldsTo(h, v, n, s);
    var m :| UnfoldsTo(h, v, m, t);
    if n <= m { UnfoldGrows(h, v, n, m); } else { UnfoldGrows(h, v, m, n); }
  }

  // ---------------------------------------------------------------- cycles have no unfolding

  lemma {:induction false} UnfoldChild(h: Heap, vs: seq<Value>, i: nat, n: nat)
    requires i < |vs| && UnfoldAll(h, vs, n).Some?
    ensures n > 0 && Unfold(h, vs[i], n - 1).Some?
    decreases |vs|
  {
    if i < |vs| - 1 { UnfoldChild(h, vs[..|vs| - 1], i, n); }
  }

  lemma {:induction false} UnfoldItemChild(h: Heap, items: seq<Item>, v: Value, n: nat)
    requires v in ItemValues(items) && UnfoldItems(h, items, n).Some?
    ensures n > 0 && Unfold(h, v, n - 1).Some?
    decreases |items|
  {
    if v != items[|items| - 1].value { UnfoldItemChild(h, items[..|items| - 1], v, n); }
  }

  lemma UnfoldEdge(h: Heap, id: Id, v: Value, n: nat)
    requires id in h && v in Children(h[id]) && Unfold(h, Ref(id), n).Some?
    ensures n > 0 && Unfold(h, v, n - 1).Some?
  {
    match h[id]
    case Mapping(items) => UnfoldItemChild(h, items, v, n);
    case Pairs(items) => UnfoldItemChild(h, items, v, n);
    case List(elements) =>
      var i :| 0 <= i < |elements| && elements[i] == v;
      UnfoldChild(h, elements, i, n);
    case _ =>
  }

  lemma {:induction false} UnfoldAlongWalk(h: Heap, w: seq<Id>, n: nat)
    requires w != [] && IsWalk(h, w) && Unfold(h, Ref(w[0]), n).Some?
    ensures n >= |w| - 1 && Unfold(h, Ref(w[|w| - 1]), n - (|w| - 1)).Some?
    decreases |w|
  {
    if |w| > 1 {
      var front := w[0..|w| - 1];
      SubWalk(h, w, 0, |w| - 1);
      UnfoldAlongWalk(h, front, n);
      assert front[|front| - 1] == w[|w| - 2];
      UnfoldEdge(h, w[|w| - 2], Ref(w[|w| - 1]), n - (|front| - 1));
    }
  }

  lemma {:induction false} ClosedWalkNeverUnfolds(h: Heap, w: seq<Id>, n: nat)
    requires |w| > 1 && IsWalk(h, w) && w[0] == w[|w| - 1]
    ensures Unfold(h, Ref(w[0]), n).None?
    decreases n
  {
    if Unfold(h, Ref(w[0]), n).Some? {
      UnfoldAlongWalk(h, w, n);
      ClosedWalkNeverUnfolds(h, w, n - (|w| - 1));
    }
  }

  lemma SubWalk(h: Heap, w: seq<Id>, i: nat, j: nat)
    requires IsWalk(h, w) && i <= j <= |w|
    ensures IsWalk(h, w[i..j])
  {
    var part := w[i..j];
    forall k, l | 0 <= k < l < |part| && l == k + 1 ensures Ref(part[l]) in Children(h[part[k]]) {
      assert part[k] == w[i + k] && part[l] == w[i + l];
    }
  }

  lemma LoopNeverUnfolds(h: Heap, w: seq<Id>, i: nat, j: nat, n: nat)
    requires IsWalk(h, w) && i < j < |w| && w[i] == w[j]
    ensures Unfold(h, Ref(w[0]), n).None?
  {
    if Unfold(h, Ref(w[0]), n).Some? {
      var lead, loop := w[0..i + 1], w[i..j + 1];
      assert lead[0] == w[0] && lead[|lead| - 1] == w[i] && loop[0] == w[i] && loop[|loop| - 1] == w[j];
      SubWalk(h, w, 0, i + 1);
      UnfoldAlongWalk(h, lead, n);
      SubWalk(h, w, i, j + 1);
      ClosedWalkNeverUnfolds(h, loop, n - i);
    }
  }

  /** A value from which a cycle can be reached has no unfolding, however deep one looks. */
  lemma CyclicNeverUnfolds(h: Heap, v: Value, n: nat)
    requires Cyclic(h, v)
    ensures Unfold(h, v, n).None?
  {
    var w :| LoopFrom(h, v, w);
    var i, j :| 0 <= i < j < |w| && w[i] == w[j];
    LoopNeverUnfolds(h, w, i, j, n);
  }

  lemma {:induction false} FaultyItemsNeverUnfold(h: Heap, items: seq<Item>, i: nat, n: nat)
    requires i < |items| && (items[i].BadItem? || items[i].key.OtherKey?)
    ensures UnfoldItems(h, items, n).None?
    decreases |items|
  {
    if i < |items| - 1 { FaultyItemsNeverUnfold(h, items[..|items| - 1], i, n); }
  }

  lemma FaultyNeverUnfolds(h: Heap, v: Value, n: nat)
    requires Faulty(h, v)
    ensures Unfold(h, v, n).None?
  {
    var w :| FaultFrom(h, v, w);
    if Unfold(h, v, n).Some? {
      UnfoldAlongWalk(h, w, n);
      var o, m := h[w[|w| - 1]], n - (|w| - 1);
      if o.Mapping? || o.Pairs? {
        var i :| 0 <= i < |o.items| && (o.items[i].BadItem? || o.items[i].key.OtherKey?);
        FaultyItemsNeverUnfold(h, o.items, i, m);
      }
    }
  }

  // ---------------------------------------------------------------- and nothing else fails to unfold

  lemma {:induction false} StuckAll(h: Heap, vs: seq<Value>, n: nat) returns (v: Value)
    requires n > 0 && UnfoldAll(h, vs, n).None?
    ensures v in vs && Unfold(h, v, n - 1).None?
    decreases |vs|
  {
    if Unfold(h, vs[|vs| - 1], n - 1).None? {
      v := vs[|vs| - 1];
    } else {
      v := StuckAll(h, vs[..|vs| - 1], n);
    }
  }

  lemma {:induction false} StuckItems(h: Heap, items: seq<Item>, n: nat) returns (v: Value)
    requires n > 0 && UnfoldItems(h, items, n).None?
    requires forall i :: 0 <= i < |items| ==> items[i].Item? && items[i].key.TextKey?
    ensures v in ItemValues(items) && Unfold(h, v, n - 1).None?
    decreases |items|
  {
    if Unfold(h, items[|items| - 1].value, n - 1).None? {
      v := items[|items| - 1].value;
    } else {
      v := StuckItems(h, items[..|items| - 1], n);
    }
  }

  /** A value that does not unfold within `n` starts a walk of n+1 objects or reaches a fault. */
  lemma {:induction false} StuckWalk(h: Heap, v: Value, n: nat) returns (w: seq<Id>)
    requires Closed(h) && Resolved(h, v) && Unfold(h, v, n).None?
    ensures w != [] && v == Ref(w[0]) && IsWalk(h, w)
    ensures |w| == n + 1 || Uninspectable(h[w[|w| - 1]])
    decreases n
  {
    var o := h[v.id];
    if n == 0 || Uninspectable(o) {
      w := [v.id];
    } else {
      var child: Value;
      match o {
        case Mapping(items) => child := StuckItems(h, items, n);
        case Pairs(items) => child := StuckItems(h, items, n);
        case List(elements) => child := StuckAll(h, elements, n);
        case Model(dumped) => child := dumped;
      }
      var rest := StuckWalk(h, child, n - 1);
      w := [v.id] + rest;
      forall i, j | 0 <= i < j < |w| && j == i + 1 ensures Ref(w[j]) in Children(h[w[i]]) {
        if i > 0 { assert w[i] == rest[i - 1] && w[j] == rest[j - 1]; }
      }
    }
  }

  lemma {:induction false} Pigeonhole(w: seq<Id>, s: set<Id>)
    requires forall i :: 0 <= i < |w| ==> w[i] in s
    requires |w| > |s|
    ensures Repeats(w)
    decreases |w|
  {
    var last := w[|w| - 1];
    var front := w[..|w| - 1];
    if i :| 0 <= i < |front| && front[i] == last {
      assert w[i] == w[|w| - 1];
    } else {
      forall i | 0 <= i < |front| ensures front[i] in s - {last} {
        assert front[i] == w[i];
      }
      Pigeonhole(front, s - {last});
      var i, j :| 0 <= i < j < |front| && front[i] == front[j];
      assert w[i] == w[j];
    }
  }

  /** In a finite graph, having an unfolding means exactly: no cycle and no faulty object in reach. */
  lemma UnfoldsIffAcyclicAndSound(h: Heap, v: Value)
    requires Closed(h) && Resolved(h, v)
    ensures (exists t :: Unfolds(h, v, t)) <==> !Cyclic(h, v) && !Faulty(h, v)
  {
    if t :| Unfolds(h, v, t) {
      var n :| UnfoldsTo(h, v, n, t);
      if Cyclic(h, v) { CyclicNeverUnfolds(h, v, n); }
      if Faulty(h, v) { FaultyNeverUnfolds(h, v, n); }
    }
    if !Cyclic(h, v) && !Faulty(h, v) {
      var n := |h.Keys|;
      if Unfold(h, v, n).None? {
        var w := StuckWalk(h, v, n);
        if Uninspectable(h[w[|w| - 1]]) {
          assert FaultFrom(h, v, w);
        } else {
          Pigeonhole(w, h.Keys);
          assert LoopFrom(h, v, w);
        }
      } else {
        assert UnfoldsTo(h, v, n, Unfold(h, v, n).value.part);
        assert Unfolds(h, v, Unfold(h, v, n).value.part);
      }
    }
  }

  // ---------------------------------------------------------------- budgets of the full unfolding

  /** Visiting all of `u` keeps every limit, given what has been counted already. */
  predicate Affordable<T>(u: Option<Costed<T>>, nodes: nat, chars: nat) {
    && u.Some?
    && nodes + u.value.nodes <= MAX_SCAN_NODES
    && chars + u.value.chars <= MAX_TOTAL_CHARS
    && u.value.longest <= MAX_STRING_CHARS
  }

  /** The whole unfolding of `v`, hung at `depth`, stays inside what is left of every limit. */
  ghost predicate Fits(h: Heap, v: Value, depth: nat, nodes: nat, chars: nat) {
    depth <= MAX_SCAN_DEPTH && Affordable(Unfold(h, v, MAX_SCAN_DEPTH - depth), nodes, chars)
  }

  /** What visiting part of an unfolding with a memo costs is at most the cost of all of it. */
  predicate Covers<T>(u: Option<Costed<T>>, nodes: nat, chars: nat, nodes': nat, chars': nat) {
    u.Some? && nodes' <= nodes + u.value.nodes && chars' <= chars + u.value.chars
  }

  /** Part of the work costs no more than all of it. */
  predicate Within<T>(part: Option<Costed<T>>, whole: Option<Costed<T>>) {
    && part.Some? && whole.Some? && part.value.nodes <= whole.value.nodes && part.value.chars <= whole.value.chars
    && part.value.longest <= whole.value.longest
  }

  lemma {:induction false} ElementsWithin(h: Heap, vs: seq<Value>, j: nat, n: nat)
    requires j <= |vs| && UnfoldAll(h, vs, n).Some?
    ensures Within(UnfoldAll(h, vs[..j], n), UnfoldAll(h, vs, n))
    decreases |vs|
  {
    if j == |vs| {
      assert vs[..j] == vs;
    } else {
      var front := vs[..|vs| - 1];
      assert Within(UnfoldAll(h, front, n), UnfoldAll(h, vs, n));
      ElementsWithin(h, front, j, n);
      assert front[..j] == vs[..j];
    }
  }

  lemma ElementStep(h: Heap, vs: seq<Value>, i: nat, n: nat)
    requires i < |vs| && UnfoldAll(h, vs[..i + 1], n).Some?
    ensures n > 0
    ensures var front, last := UnfoldAll(h, vs[..i], n), Unfold(h, vs[i], n - 1);
            front.Some? && last.Some? && UnfoldAll(h, vs[..i + 1], n) == Some(AddElement(front.value, last.value))
  {
    assert vs[..i + 1][..i] == vs[..i];
  }

  lemma {:induction false} ItemsWithin(h: Heap, items: seq<Item>, j: nat, n: nat)
    requires j <= |items| && UnfoldItems(h, items, n).Some?
    ensures Within(UnfoldItems(h, items[..j], n), UnfoldItems(h, items, n))
    decreases |items|
  {
    if j == |items| {
      assert items[..j] == items;
    } else {
      var front := items[..|items| - 1];
      assert Within(UnfoldItems(h, front, n), UnfoldItems(h, items, n));
      ItemsWithin(h, front, j, n);
      assert front[..j] == items[..j];
    }
  }

  lemma EntryStep(h: Heap, items: seq<Item>, i: nat, n: nat)
    requires i < |items| && UnfoldItems(h, items[..i + 1], n).Some?
    ensures n > 0 && items[i].Item? && items[i].key.TextKey?
    ensures var front, last := UnfoldItems(h, items[..i], n), Unfold(h, items[i].value, n - 1);
            && front.Some? && last.Some?
            && UnfoldItems(h, items[..i + 1], n) == Some(AddEntry(front.value, items[i].key.name, last.value))
  {
    assert items[..i + 1][..i] == items[..i];
  }

  /** The first `i` elements have been walked: their snapshots, and counters within their cost. */
  ghost predicate WalkedElements(
    h: Heap, vs: seq<Value>, i: nat, n: nat, snaps: seq<Snap>, nodes: nat, chars: nat, nodes': nat, chars': nat)
  {
    && i <= |vs| && AllUnfoldTo(h, vs[..i], n, snaps)
    && Covers(UnfoldAll(h, vs[..i], n), nodes, chars, nodes', chars')
  }

  lemma NextElementFits(
    h: Heap, vs: seq<Value>, i: nat, n: nat, snaps: seq<Snap>, nodes: nat, chars: nat, nodes': nat, chars': nat)
    requires i < |vs| && Affordable(UnfoldAll(h, vs, n), nodes, chars)
    requires WalkedElements(h, vs, i, n, snaps, nodes, chars, nodes', chars')
    ensures n > 0 && Affordable(Unfold(h, vs[i], n - 1), nodes', chars')
  {
    ElementsWithin(h, vs, i + 1, n);
    ElementStep(h, vs, i, n);
  }

  lemma ElementWalked(
    h: Heap, vs: seq<Value>, i: nat, n: nat, snaps: seq<Snap>, nodes: nat, chars: nat, nodes': nat, chars': nat,
    snap: Snap, nodes'': nat, chars'': nat)
    requires i < |vs| && n > 0 && Affordable(UnfoldAll(h, vs, n), nodes, chars)
    requires WalkedElements(h, vs, i, n, snaps, nodes, chars, nodes', chars')
    requires Covers(Unfold(h, vs[i], n - 1), nodes', chars', nodes'', chars'')
    requires snap == Unfold(h, vs[i], n - 1).value.part
    ensures WalkedElements(h, vs, i + 1, n, snaps + [snap], nodes, chars, nodes'', chars'')
  {
    ElementsWithin(h, vs, i + 1, n);
    ElementStep(h, vs, i, n);
  }

  ghost predicate WalkedItems(
    h: Heap, items: seq<Item>, i: nat, n: nat, entries: seq<(string, Snap)>, nodes: nat, chars: nat, nodes': nat, chars': nat)
  {
    && i <= |items| && ItemsUnfoldTo(h, items[..i], n, entries)
    && Covers(UnfoldItems(h, items[..i], n), nodes, chars, nodes', chars')
  }

  lemma NextItemFits(
    h: Heap, items: seq<Item>, i: nat, n: nat, entries: seq<(string, Snap)>, nodes: nat, chars: nat, nodes': nat, chars': nat)
    requires i < |items| && Affordable(UnfoldItems(h, items, n), nodes, chars)
    requires WalkedItems(h, items, i, n, entries, nodes, chars, nodes', chars')
    ensures n > 0 && items[i].Item? && items[i].key.TextKey? && |items[i].key.name| <= MAX_STRING_CHARS
    ensures Affordable(Unfold(h, items[i].value, n - 1), nodes', chars' + |items[i].key.name|)
  {
    ItemsWithin(h, items, i + 1, n);
    EntryStep(h, items, i, n);
  }

  lemma ItemWalked(
    h: Heap, items: seq<Item>, i: nat, n: nat, entries: seq<(string, Snap)>, nodes: nat, chars: nat, nodes': nat, chars': nat,
    snap: Snap, nodes'': nat, chars'': nat)
    requires i < |items| && n > 0 && Affordable(UnfoldItems(h, items, n), nodes, chars)
    requires WalkedItems(h, items, i, n, entries, nodes, chars, nodes', chars')
    requires items[i].Item? && items[i].key.TextKey?
    requires Covers(Unfold(h, items[i].value, n - 1), nodes', chars' + |items[i].key.name|, nodes'', chars'')
    requires snap == Unfold(h, items[i].value, n - 1).value.part
    ensures WalkedItems(h, items, i + 1, n, entries + [(items[i].key.name, snap)], nodes, chars, nodes'', chars'')
  {
    ItemsWithin(h, items, i + 1, n);
    EntryStep(h, items, i, n);
  }

  // ---------------------------------------------------------------- the memoised walk

  ghost predicate MemoSound(h: Heap, memo: map<Id, Snap>) {
    forall id :: id in memo ==> Unfolds(h, Ref(id), memo[id])
  }

  ghost predicate LoopPast(h: Heap, path: seq<Id>, w: seq<Id>) {
    IsWalk(h, path + w) && Repeats(path + w)
  }

  /** Some continuation of the open path meets an object twice. */
  ghost predicate LoopsPast(h: Heap, path: seq<Id>) {
    exists w :: LoopPast(h, path, w)
  }

  ghost predicate LoopVia(h: Heap, path: seq<Id>, v: Value, w: seq<Id>) {
    w != [] && v == Ref(w[0]) && LoopPast(h, path, w)
  }

  /** Some continuation of the open path through `v` meets an object twice. */
  ghost predicate LoopsThrough(h: Heap, path: seq<Id>, v: Value) {
    exists w :: LoopVia(h, path, v, w)
  }

  lemma LoopOutward(h: Heap, path: seq<Id>, id: Id)
    requires LoopsPast(h, path + [id])
    ensures LoopsThrough(h, path, Ref(id))
  {
    var w :| LoopPast(h, path + [id], w);
    assert path + ([id] + w) == path + [id] + w;
    assert LoopVia(h, path, Ref(id), [id] + w);
  }

  lemma LoopAhead(h: Heap, path: seq<Id>, v: Value)
    requires LoopsThrough(h, path, v)
    ensures LoopsPast(h, path)
    ensures path == [] ==> Cyclic(h, v)
  {
    var w :| LoopVia(h, path, v, w);
    if path == [] {
      assert path + w == w;
      assert LoopFrom(h, v, w);
    }
  }

  lemma WalkStep(h: Heap, path: seq<Id>, id: Id)
    requires IsWalk(h, path) && id in h
    requires path != [] ==> Ref(id) in Children(h[path[|path| - 1]])
    ensures IsWalk(h, path + [id])
  {
  }

  /** Meeting an object that is still open: a closed walk, and no unfolding at any depth. */
  lemma OpenAgain(h: Heap, path: seq<Id>, id: Id, n: nat)
    requires IsWalk(h, path + [id]) && id in path
    ensures LoopsThrough(h, path, Ref(id))
    ensures Unfold(h, Ref(id), n).None?
  {
    var k :| 0 <= k < |path| && path[k] == id;
    var w := path + [id];
    assert w[k] == w[|path|];
    assert LoopVia(h, path, Ref(id), [id]);
    SubWalk(h, w, k, |w|);
    var loop := w[k..|w|];
    assert loop[0] == w[k] && loop[|loop| - 1] == w[|w| - 1];
    ClosedWalkNeverUnfolds(h, loop, n);
  }

  function Remaining(depth: nat): nat {
    if depth > MAX_SCAN_DEPTH then 0 else MAX_SCAN_DEPTH + 1 - depth
  }

  class SnapshotContext {
    const heap: Heap
    var memo: map<Id, Snap>
    var active: set<Id>
    var nodesSeen: nat
    var totalChars: nat
    ghost var path: seq<Id>  // the open objects, outermost first

    ghost predicate Valid()
      reads this
    {
      && Closed(heap)
      && MemoSound(heap, memo)
      && IsWalk(heap, path)
      && (forall id :: id in active <==> id in path)
    }

    /** `v` is what the innermost open object is being followed to. */
    ghost predicate Follows(v: Value)
      reads this
    {
      Resolved(heap, v) && (path != [] ==> path[|path| - 1] in heap && v in Children(heap[path[|path| - 1]]))
    }

    /** Nothing is left open and no memo entry is lost or changed, on success and on failure. */
    twostate predicate Restored()
      reads this
    {
      && Valid()
      && path == old(path)
      && active == old(active)
      && old(memo.Keys) <= memo.Keys
      && (forall id :: id in old(memo) ==> memo[id] == old(memo)[id])
    }

    constructor (heap: Heap)
      requires Closed(heap)
      ensures Valid() && this.heap == heap && path == [] && active == {} && memo == map[]
    {
      this.heap := heap;
      memo, active, nodesSeen, totalChars, path := map[], {}, 0, 0, [];
    }

    /** Whatever the memo already holds, a fresh root is answered by its unfolding or not at all. */
    method SnapshotRoot(value: Value) returns (r: Outcome)
      requires Valid() && Resolved(heap, value) && path == []
      modifies this
      ensures Restored()
      ensures r.Ok? ==> Unfolds(heap, value, r.snap)
      ensures Cyclic(heap, value) || Faulty(heap, value) ==> r.Fail?
      ensures r == Fail(Cycle) ==> Cyclic(heap, value)
      ensures Fits(heap, value, 0, 0, 0) ==> r == Ok(Unfold(heap, value, MAX_SCAN_DEPTH).value.part)
    {
      nodesSeen, totalChars := 0, 0;
      r := Snapshot(value, 0);
      if r.Ok? {
        ghost var n :| UnfoldsTo(heap, value, n, r.snap);
        if Cyclic(heap, value) { CyclicNeverUnfolds(heap, value, n); }
        if Faulty(heap, value) { FaultyNeverUnfolds(heap, value, n); }
      } else if r.failure == Cycle {
        LoopAhead(heap, path, value);
      }
    }

    method Snapshot(v: Value, depth: nat) returns (r: Outcome)
      requires Valid() && Follows(v)
      modifies this
      ensures Restored()
      ensures r.Ok? ==> Unfolds(heap, v, r.snap)
      ensures r == Fail(Cycle) ==> LoopsThrough(heap, path, v)
      ensures Fits(heap, v, depth, old(nodesSeen), old(totalChars)) ==>
                var u := Unfold(heap, v, MAX_SCAN_DEPTH - depth);
                r == Ok(u.value.part) && Covers(u, old(nodesSeen), old(totalChars), nodesSeen, totalChars)
      decreases Remaining(depth), 2
    {
      nodesSeen := nodesSeen + 1;
      if nodesSeen > MAX_SCAN_NODES { return Fail(NodeLimit); }
      if depth > MAX_SCAN_DEPTH { return Fail(DepthLimit); }
      match v {
        case Atom(scalar) =>
          assert UnfoldsTo(heap, v, 0, SAtom(scalar));
          return Ok(SAtom(scalar));
        case Text(text) =>
          assert UnfoldsTo(heap, v, 0, SText(text));
          var error := AccountChars(text);
          if error.Some? { return Fail(error.value); }
          return Ok(SText(text));
        case Ref(id) =>
          r := SnapshotRef(id, depth);
      }
    }

    /** Called with the visit itself already counted. */
    method SnapshotRef(id: Id, depth: nat) returns (r: Outcome)
      requires Valid() && Follows(Ref(id)) && depth <= MAX_SCAN_DEPTH && nodesSeen > 0
      modifies this
      ensures Restored()
      ensures r.Ok? ==> Unfolds(heap, Ref(id), r.snap)
      ensures r == Fail(Cycle) ==> LoopsThrough(heap, path, Ref(id))
      ensures Fits(heap, Ref(id), depth, old(nodesSeen) - 1, old(totalChars)) ==>
                var u := Unfold(heap, Ref(id), MAX_SCAN_DEPTH - depth);
                r == Ok(u.value.part) && Covers(u, old(nodesSeen) - 1, old(totalChars), nodesSeen, totalChars)
      decreases Remaining(depth), 1
    {
      ghost var n := MAX_SCAN_DEPTH - depth;
      if heap[id] == Binary(0) {
        assert UnfoldsTo(heap, Ref(id), 0, SEmptyBytes);
        return Ok(SEmptyBytes);
      }
      if id in memo {
        MemoAnswers(heap, memo, id, n);
        return Ok(memo[id]);
      }
      WalkStep(heap, path, id);
      if id in active {
        OpenAgain(heap, path, id, n);
        return Fail(Cycle);
      }
      r := SnapshotNew(id, depth);
    }

    method SnapshotNew(id: Id, depth: nat) returns (r: Outcome)
      requires Valid() && Follows(Ref(id)) && depth <= MAX_SCAN_DEPTH && nodesSeen > 0
      requires id !in active && id !in memo
      modifies this
      ensures Restored()
      ensures r.Ok? ==> Unfolds(heap, Ref(id), r.snap)
      ensures r == Fail(Cycle) ==> LoopsThrough(heap, path, Ref(id))
      ensures Fits(heap, Ref(id), depth, old(nodesSeen) - 1, old(totalChars)) ==>
                var u := Unfold(heap, Ref(id), MAX_SCAN_DEPTH - depth);
                r == Ok(u.value.part) && Covers(u, old(nodesSeen) - 1, old(totalChars), nodesSeen, totalChars)
      decreases Remaining(depth), 0, 2
    {
      WalkStep(heap, path, id);
      ghost var outer, outerActive := path, active;
      active, path := active + {id}, path + [id];
      r := SnapshotDynamic(id, depth);
      active, path := active - {id}, path[..|path| - 1];
      assert path == outer && active == outerActive;
      if r.Ok? {
        memo := memo[id := r.snap];
      } else if r.failure == Cycle {
        LoopOutward(heap, path, id);
      }
    }

    method SnapshotDynamic(id: Id, depth: nat) returns (r: Outcome)
      requires Valid() && path != [] && path[|path| - 1] == id && depth <= MAX_SCAN_DEPTH && nodesSeen > 0
      modifies this
      ensures Restored()
      ensures r.Ok? ==> Unfolds(heap, Ref(id), r.snap)
      ensures r == Fail(Cycle) ==> LoopsPast(heap, path)
      ensures Fits(heap, Ref(id), depth, old(nodesSeen) - 1, old(totalChars)) ==>
                var u := Unfold(heap, Ref(id), MAX_SCAN_DEPTH - depth);
                r == Ok(u.value.part) && Covers(u, old(nodesSeen) - 1, old(totalChars), nodesSeen, totalChars)
      decreases Remaining(depth), 0, 1
    {
      ghost var n := MAX_SCAN_DEPTH - depth;
      assert Unfold(heap, Ref(id), n) == UnfoldObj(heap, heap[id], n);
      match heap[id] {
        case Binary(length) =>
          assert UnfoldsTo(heap, Ref(id), 0, if length == 0 then SEmptyBytes else SOpaque);
          return Ok(if length == 0 then SEmptyBytes else SOpaque);
        case Opaque =>
          assert UnfoldsTo(heap, Ref(id), 0, SOpaque);
          return Ok(SOpaque);
        case Broken(inDump) =>
          return Fail(if inDump then ModelDumpError else SnapshotError);
        case Mapping(items) =>
          var entries := SnapshotEntries(items, false, depth);
          if entries.EntriesFail? { return Fail(entries.failure); }
          EntriesUnfold(heap, id, items, entries.entries);
          return Ok(SDict(ToDict(entries.entries)));
        case Pairs(items) =>
          var entries := SnapshotEntries(items, true, depth);
          if entries.EntriesFail? { return Fail(entries.failure); }
          EntriesUnfold(heap, id, items, entries.entries);
          return Ok(SPairs(entries.entries));
        case List(elements) =>
          var snaps := SnapshotElements(elements, depth);
          if snaps.ElementsFail? { return Fail(snaps.failure); }
          ElementsUnfold(heap, id, elements, snaps.elements);
          return Ok(SList(snaps.elements));
        case Model(dumped) =>
          r := Snapshot(dumped, depth + 1);
          if r.Ok? {
            DumpUnfolds(heap, id, dumped, r.snap);
          } else if r.failure == Cycle {
            LoopAhead(heap, path, dumped);
          }
      }
    }

    method SnapshotElements(elements: seq<Value>, depth: nat) returns (r: ElementsOutcome)
      requires Valid() && path != [] && heap[path[|path| - 1]] == List(elements) && depth <= MAX_SCAN_DEPTH
      modifies this
      ensures Restored()
      ensures r.ElementsOk? ==> exists n :: AllUnfoldTo(heap, elements, n, r.elements)
      ensures r == ElementsFail(Cycle) ==> LoopsPast(heap, path)
      ensures var u := UnfoldAll(heap, elements, MAX_SCAN_DEPTH - depth);
              Affordable(u, old(nodesSeen), old(totalChars)) ==>
                r == ElementsOk(u.value.part) && Covers(u, old(nodesSeen), old(totalChars), nodesSeen, totalChars)
      decreases Remaining(depth), 0, 0
    {
      ghost var n := MAX_SCAN_DEPTH - depth;
      ghost var fits := Affordable(UnfoldAll(heap, elements, n), nodesSeen, totalChars);
      var snaps: seq<Snap> := [];
      ghost var deep := 0;
      var i := 0;
      while i < |elements|
        invariant 0 <= i <= |elements| && deep >= 0
        invariant Restored()
        invariant AllUnfoldTo(heap, elements[..i], deep, snaps)
        invariant fits ==>
          WalkedElements(heap, elements, i, n, snaps, old(nodesSeen), old(totalChars), nodesSeen, totalChars)
      {
        ghost var nodes, chars := nodesSeen, totalChars;
        if fits { NextElementFits(heap, elements, i, n, snaps, old(nodesSeen), old(totalChars), nodes, chars); }
        var one := Snapshot(elements[i], depth + 1);
        if one.Fail? {
          if one.failure == Cycle { LoopAhead(heap, path, elements[i]); }
          return ElementsFail(one.failure);
        }
        deep := ExtendAll(heap, elements, i, deep, snaps, one.snap);
        if fits {
          ElementWalked(heap, elements, i, n, snaps, old(nodesSeen), old(totalChars), nodes, chars, one.snap, nodesSeen, totalChars);
        }
        snaps := snaps + [one.snap];
        i := i + 1;
      }
      assert elements[..i] == elements;
      return ElementsOk(snaps);
    }

    /** `keyFirst`: preserved pairs account the key before the value, a mapping the other way round. */
    method SnapshotEntries(items: seq<Item>, keyFirst: bool, depth: nat) returns (r: EntriesOutcome)
      requires Valid() && path != [] && depth <= MAX_SCAN_DEPTH
      requires heap[path[|path| - 1]] == if keyFirst then Pairs(items) else Mapping(items)
      modifies this
      ensures Restored()
      ensures r.EntriesOk? ==> exists n :: ItemsUnfoldTo(heap, items, n, r.entries)
      ensures r == EntriesFail(Cycle) ==> LoopsPast(heap, path)
      ensures var u := UnfoldItems(heap, items, MAX_SCAN_DEPTH - depth);
              Affordable(u, old(nodesSeen), old(totalChars)) ==>
                r == EntriesOk(u.value.part) && Covers(u, old(nodesSeen), old(totalChars), nodesSeen, totalChars)
      decreases Remaining(depth), 0, 0
    {
      ghost var n := MAX_SCAN_DEPTH - depth;
      ghost var fits := Affordable(UnfoldItems(heap, items, n), nodesSeen, totalChars);
      var entries: seq<(string, Snap)> := [];
      ghost var deep := 0;
      var i := 0;
      while i < |items|
        invariant 0 <= i <= |items| && deep >= 0
        invariant Restored()
        invariant ItemsUnfoldTo(heap, items[..i], deep, entries)
        invariant fits ==>
          WalkedItems(heap, items, i, n, entries, old(nodesSeen), old(totalChars), nodesSeen, totalChars)
      {
        ghost var nodes, chars := nodesSeen, totalChars;
        if fits { NextItemFits(heap, items, i, n, entries, old(nodesSeen), old(totalChars), nodes, chars); }
        var entry := SnapshotEntry(items[i], keyFirst, depth);
        if entry.EntriesFail? { return EntriesFail(entry.failure); }
        deep := ExtendItems(heap, items, i, deep, entries, entry.entries[0].1);
        if fits {
          ItemWalked(heap, items, i, n, entries, old(nodesSeen), old(totalChars), nodes, chars, entry.entries[0].1,
                     nodesSeen, totalChars);
        }
        assert entry.entries == [(items[i].key.name, entry.entries[0].1)];
        entries := entries + entry.entries;
        i := i + 1;
      }
      assert items[..i] == items;
      return EntriesOk(entries);
    }

    method SnapshotEntry(item: Item, keyFirst: bool, depth: nat) returns (r: EntriesOutcome)
      requires Valid() && path != [] && depth <= MAX_SCAN_DEPTH
      requires item.Item? ==> Follows(item.value)
      modifies this
      ensures Restored()
      ensures r.EntriesOk? ==> item.Item? && item.key.TextKey? && |r.entries| == 1
                               && r.entries[0].0 == item.key.name && Unfolds(heap, item.value, r.entries[0].1)
      ensures r == EntriesFail(Cycle) ==> LoopsPast(heap, path)
      ensures depth < MAX_SCAN_DEPTH && item.Item? && item.key.TextKey? && |item.key.name| <= MAX_STRING_CHARS
              && Fits(heap, item.value, depth + 1, old(nodesSeen), old(totalChars) + |item.key.name|) ==>
                var u := Unfold(heap, item.value, MAX_SCAN_DEPTH - (depth + 1));
                && r == EntriesOk([(item.key.name, u.value.part)])
                && Covers(u, old(nodesSeen), old(totalChars) + |item.key.name|, nodesSeen, totalChars)
      decreases Remaining(depth), 0, 0, 0
    {
      if item.BadItem? { return EntriesFail(SnapshotError); }
      if keyFirst {
        if item.key.OtherKey? { return EntriesFail(SnapshotError); }
        var error := AccountChars(item.key.name);
        if error.Some? { return EntriesFail(error.value); }
      }
      var one := Snapshot(item.value, depth + 1);
      if one.Fail? {
        if one.failure == Cycle { LoopAhead(heap, path, item.value); }
        return EntriesFail(one.failure);
      }
      if !keyFirst {
        if item.key.OtherKey? { return EntriesFail(SnapshotError); }
        var error := AccountChars(item.key.name);
        if error.Some? { return EntriesFail(error.value); }
      }
      return EntriesOk([(item.key.name, one.snap)]);
    }

    method AccountChars(text: string) returns (error: Option<Failure>)
      modifies this`totalChars
      ensures error.None? <==> |text| <= MAX_STRING_CHARS && old(totalChars) + |text| <= MAX_TOTAL_CHARS
      ensures error.Some? ==> error.value in {StringLimit, TotalLimit} && totalChars == old(totalChars)
      ensures error.None? ==> totalChars == old(totalChars) + |text|
    {
      if |text| > MAX_STRING_CHARS { return Some(StringLimit); }
      if totalChars + |text| > MAX_TOTAL_CHARS { return Some(TotalLimit); }
      totalChars := totalChars + |text|;
      return None;
    }
  }

  ghost predicate AllUnfoldTo(h: Heap, vs: seq<Value>, n: nat, snaps: seq<Snap>) {
    UnfoldAll(h, vs, n).Some? && UnfoldAll(h, vs, n).value.part == snaps
  }

  ghost predicate ItemsUnfoldTo(h: Heap, items: seq<Item>, n: nat, entries: seq<(string, Snap)>) {
    UnfoldItems(h, items, n).Some? && UnfoldItems(h, items, n).value.part == entries
  }

  lemma ExtendAll(h: Heap, vs: seq<Value>, i: nat, deep: nat, snaps: seq<Snap>, snap: Snap) returns (n: nat)
    requires i < |vs| && AllUnfoldTo(h, vs[..i], deep, snaps) && Unfolds(h, vs[i], snap)
    ensures AllUnfoldTo(h, vs[..i + 1], n, snaps + [snap])
  {
    var k :| UnfoldsTo(h, vs[i], k, snap);
    n := deep + k + 1;
    UnfoldAllGrows(h, vs[..i], deep, n);
    UnfoldGrows(h, vs[i], k, n - 1);
    assert vs[..i + 1][..i] == vs[..i];
  }

  lemma ExtendItems(h: Heap, items: seq<Item>, i: nat, deep: nat, entries: seq<(string, Snap)>, snap: Snap)
    returns (n: nat)
    requires i < |items| && ItemsUnfoldTo(h, items[..i], deep, entries)
    requires items[i].Item? && items[i].key.TextKey? && Unfolds(h, items[i].value, snap)
    ensures ItemsUnfoldTo(h, items[..i + 1], n, entries + [(items[i].key.name, snap)])
  {
    var k :| UnfoldsTo(h, items[i].value, k, snap);
    n := deep + k + 1;
    UnfoldItemsGrows(h, items[..i], deep, n);
    UnfoldGrows(h, items[i].value, k, n - 1);
    assert items[..i + 1][..i] == items[..i];
  }

  lemma EntriesUnfold(h: Heap, id: Id, items: seq<Item>, entries: seq<(string, Snap)>)
    requires id in h && exists n :: ItemsUnfoldTo(h, items, n, entries)
    ensures h[id] == Mapping(items) ==> Unfolds(h, Ref(id), SDict(ToDict(entries)))
    ensures h[id] == Pairs(items) ==> Unfolds(h, Ref(id), SPairs(entries))
  {
    var n: nat :| ItemsUnfoldTo(h, items, n, entries);
    assert Unfold(h, Ref(id), n) == UnfoldObj(h, h[id], n);
    assert h[id] == Mapping(items) ==> UnfoldsTo(h, Ref(id), n, SDict(ToDict(entries)));
    assert h[id] == Pairs(items) ==> UnfoldsTo(h, Ref(id), n, SPairs(entries));
  }

  lemma ElementsUnfold(h: Heap, id: Id, elements: seq<Value>, snaps: seq<Snap>)
    requires id in h && h[id] == List(elements) && exists n :: AllUnfoldTo(h, elements, n, snaps)
    ensures Unfolds(h, Ref(id), SList(snaps))
  {
    var n: nat :| AllUnfoldTo(h, elements, n, snaps);
    assert UnfoldsTo(h, Ref(id), n, SList(snaps));
  }

  lemma DumpUnfolds(h: Heap, id: Id, dumped: Value, snap: Snap)
    requires id in h && h[id] == Model(dumped) && Unfolds(h, dumped, snap)
    ensures Unfolds(h, Ref(id), snap)
  {
    var n: nat :| UnfoldsTo(h, dumped, n, snap);
    assert UnfoldsTo(h, Ref(id), n + 1, snap);
  }

  lemma MemoAnswers(h: Heap, memo: map<Id, Snap>, id: Id, n: nat)
    requires MemoSound(h, memo) && id in memo
    ensures Unfolds(h, Ref(id), memo[id])
    ensures Unfold(h, Ref(id), n).Some? ==> Unfold(h, Ref(id), n).value.part == memo[id]
    ensures Unfold(h, Ref(id), n).Some? ==> Unfold(h, Ref(id), n).value.nodes > 0
  {
    if Unfold(h, Ref(id), n).Some? {
      assert UnfoldsTo(h, Ref(id), n, Unfold(h, Ref(id), n).value.part);
      UnfoldingIsUnique(h, Ref(id), memo[id], Unfold(h, Ref(id), n).value.part);
    }
  }
}
