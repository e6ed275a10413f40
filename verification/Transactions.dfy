/**
 * Interleaved transactions over rows, with row locks, unique keys and deferred checks.
 *
 * A cell is one parent row with the rows that reference it. Every statement that changes a cell
 * holds the parent's row lock until its transaction ends, so an open transaction works on private
 * copies of the cells it has locked. A commit runs every deferred check the transaction queued and
 * publishes all of its cells, or none.
 */
module Transactions {
  import opened Values

  /** A statement fails, matches no row, or changes one cell. */
  datatype Outcome<C> = Rejected | NoRow | Changed(cell: C)

  /** What the schema decides about one cell. */
  datatype Rules<!C, !O> = Rules(
    apply: (Option<C>, O) -> Outcome<C>,
    target: O -> string,
    queues: O -> bool,
    check: C -> bool,
    clash: (C, C) -> bool)

  datatype Work<C> = Work(cells: map<string, C>, queued: seq<string>)

  datatype State<C> = State(committed: map<string, C>, open: map<nat, Work<C>>)

  datatype Event<O> = Begin(t: nat) | Execute(t: nat, op: O) | Commit(t: nat) | Rollback(t: nat)

  // ---------------------------------------------------------------- steps

  function View<C>(s: State<C>, t: nat, id: string): (v: Option<C>)
    requires t in s.open
  {
    if id in s.open[t].cells then Some(s.open[t].cells[id])
    else if id in s.committed then Some(s.committed[id])
    else None
  }

  /** Some other cell of `cells` has a unique key in common with `c`. */
  predicate Duplicates<C, O>(rules: Rules<C, O>, cells: map<string, C>, id: string, c: C) {
    exists i :: i in cells && i != id && rules.clash(c, cells[i])
  }

  /** Another open transaction holds the lock on this cell. */
  predicate Held<C>(s: State<C>, t: nat, id: string) {
    exists u :: u in s.open && u != t && id in s.open[u].cells
  }

  /** Another open transaction has written a cell with a unique key in common with `c`. */
  predicate Contended<C, O>(rules: Rules<C, O>, s: State<C>, t: nat, id: string, c: C) {
    exists u :: u in s.open && u != t && Duplicates(rules, s.open[u].cells, id, c)
  }

  function Abort<C>(s: State<C>, t: nat): (r: State<C>) {
    s.(open := s.open - {t})
  }

  function Write<C, O>(rules: Rules<C, O>, s: State<C>, t: nat, op: O, c: C): (r: State<C>)
    requires t in s.open
  {
    var w, id := s.open[t], rules.target(op);
    s.(open := s.open[t := Work(w.cells[id := c], if rules.queues(op) then w.queued + [id] else w.queued)])
  }

  /** A statement that has to wait leaves the state as it is; one that fails ends its transaction. */
  function ExecuteStep<C, O>(rules: Rules<C, O>, s: State<C>, t: nat, op: O): (r: State<C>) {
    var id := rules.target(op);
    if t !in s.open || Held(s, t, id) then s
    else
      match rules.apply(View(s, t, id), op)
      case NoRow => s
      case Rejected => Abort(s, t)
      case Changed(c) =>
        if Duplicates(rules, s.committed, id, c) || Duplicates(rules, s.open[t].cells, id, c) then Abort(s, t)
        else if Contended(rules, s, t, id, c) then s
        else Write(rules, s, t, op, c)
  }

  predicate Passes<C, O>(rules: Rules<C, O>, w: Work<C>, id: string) {
    id in w.cells ==> rules.check(w.cells[id])
  }

  predicate QueuePasses<C, O>(rules: Rules<C, O>, w: Work<C>) {
    forall k :: 0 <= k < |w.queued| ==> Passes(rules, w, w.queued[k])
  }

  function CommitStep<C, O>(rules: Rules<C, O>, s: State<C>, t: nat): (r: State<C>) {
    if t !in s.open then s
    else if QueuePasses(rules, s.open[t]) then State(s.committed + s.open[t].cells, s.open - {t})
    else Abort(s, t)
  }

  function Step<C, O>(rules: Rules<C, O>, s: State<C>, e: Event<O>): (r: State<C>) {
    match e
    case Begin(t) => if t in s.open then s else s.(open := s.open[t := Work(map[], [])])
    case Execute(t, op) => ExecuteStep(rules, s, t, op)
    case Commit(t) => CommitStep(rules, s, t)
    case Rollback(t) => Abort(s, t)
  }

  function Run<C, O>(rules: Rules<C, O>, s: State<C>, es: seq<Event<O>>): (r: State<C>)
    decreases |es|
  {
    if |es| == 0 then s else Run(rules, Step(rules, s, es[0]), es[1..])
  }

  // ---------------------------------------------------------------- what is claimed of cells

  /**
   * A claim about cells: `sound` is what every statement keeps, `consistent` is what the deferred
   * check adds, and `succeeds` relates an earlier cell to a later one.
   */
  datatype Claim<!C> = Claim(
    sound: (string, C) -> bool,
    consistent: C -> bool,
    succeeds: (C, C) -> bool)

  /** One statement keeps the claim; one that queues no check keeps consistency by itself. */
  ghost predicate StatementKeeps<C, O>(rules: Rules<C, O>, k: Claim<C>, view: Option<C>, op: O, c: C) {
    && k.sound(rules.target(op), c)
    && (view.Some? ==> k.succeeds(view.value, c))
    && (rules.queues(op) || (view.Some? && (k.consistent(view.value) ==> k.consistent(c))))
  }

  ghost predicate Kept<C(!new), O(!new)>(rules: Rules<C, O>, k: Claim<C>) {
    && (forall view: Option<C>, op: O ::
          (view.Some? ==> k.sound(rules.target(op), view.value)) && rules.apply(view, op).Changed? ==>
            StatementKeeps(rules, k, view, op, rules.apply(view, op).cell))
    && (forall i, c :: k.sound(i, c) && rules.check(c) ==> k.consistent(c))
    && (forall c :: k.succeeds(c, c))
    && (forall a, b, c :: k.succeeds(a, b) && k.succeeds(b, c) ==> k.succeeds(a, c))
    && (forall a, b :: rules.clash(a, b) ==> rules.clash(b, a))
  }

  ghost predicate CellOk<C>(k: Claim<C>, committed: map<string, C>, w: Work<C>, i: string)
    requires i in w.cells
  {
    && k.sound(i, w.cells[i])
    && (i in w.queued || k.consistent(w.cells[i]))
    && (i in committed ==> k.succeeds(committed[i], w.cells[i]))
  }

  ghost predicate CommittedOk<C>(k: Claim<C>, s: State<C>) {
    forall i :: i in s.committed ==> k.sound(i, s.committed[i]) && k.consistent(s.committed[i])
  }

  ghost predicate OpenOk<C>(k: Claim<C>, s: State<C>) {
    forall t, i :: t in s.open && i in s.open[t].cells ==> CellOk(k, s.committed, s.open[t], i)
  }

  ghost predicate LocksExclusive<C>(s: State<C>) {
    forall t, u, i :: t in s.open && u in s.open && i in s.open[t].cells && i in s.open[u].cells ==> t == u
  }

  /** The committed cells (`None`), or the private cells of one open transaction. */
  ghost function Cells<C>(s: State<C>, h: Option<nat>): map<string, C> {
    if h.None? then s.committed else if h.value in s.open then s.open[h.value].cells else map[]
  }

  ghost predicate Apart<C, O>(rules: Rules<C, O>, a: map<string, C>, b: map<string, C>) {
    forall i, j :: i in a && j in b && i != j ==> !rules.clash(a[i], b[j])
  }

  ghost predicate Distinct<C, O>(rules: Rules<C, O>, s: State<C>) {
    forall h, k :: Apart(rules, Cells(s, h), Cells(s, k))
  }

  ghost predicate Inv<C, O>(rules: Rules<C, O>, k: Claim<C>, s: State<C>) {
    CommittedOk(k, s) && OpenOk(k, s) && LocksExclusive(s) && Distinct(rules, s)
  }

  // ---------------------------------------------------------------- every step keeps the invariant

  lemma {:induction false} AbortKeeps<C(!new), O(!new)>(rules: Rules<C, O>, k: Claim<C>, s: State<C>, t: nat)
    requires Inv(rules, k, s)
    ensures Inv(rules, k, Abort(s, t))
  {
    var r := Abort(s, t);
    forall h, g ensures Apart(rules, Cells(r, h), Cells(r, g)) {
      assert Apart(rules, Cells(s, h), Cells(s, g));
    }
  }

  lemma {:induction false} WriteKeepsDistinct<C(!new), O(!new)>(
    rules: Rules<C, O>, k: Claim<C>, s: State<C>, t: nat, op: O, c: C)
    requires Kept(rules, k) && Distinct(rules, s) && t in s.open
    requires !Duplicates(rules, s.committed, rules.target(op), c)
    requires !Duplicates(rules, s.open[t].cells, rules.target(op), c)
    requires !Contended(rules, s, t, rules.target(op), c)
    ensures Distinct(rules, Write(rules, s, t, op, c))
  {
    var r, id := Write(rules, s, t, op, c), rules.target(op);
    forall h ensures !Duplicates(rules, Cells(r, h), id, c) {
      if h.Some? && h.value in s.open && h.value != t {
        assert !Duplicates(rules, s.open[h.value].cells, id, c);
      }
    }
    forall h, g ensures Apart(rules, Cells(r, h), Cells(r, g)) {
      assert Apart(rules, Cells(s, h), Cells(s, g));
      forall i, j | i in Cells(r, h) && j in Cells(r, g) && i != j
        ensures !rules.clash(Cells(r, h)[i], Cells(r, g)[j])
      {
        if h == Some(t) && i == id {
          assert !Duplicates(rules, Cells(r, g), id, c);
        } else if g == Some(t) && j == id {
          assert !Duplicates(rules, Cells(r, h), id, c);
        }
      }
    }
  }

  lemma ViewOk<C(!new), O(!new)>(rules: Rules<C, O>, k: Claim<C>, s: State<C>, t: nat, id: string)
    requires Kept(rules, k) && Inv(rules, k, s) && t in s.open && View(s, t, id).Some?
    ensures k.sound(id, View(s, t, id).value)
    ensures id in s.committed ==> k.succeeds(s.committed[id], View(s, t, id).value)
    ensures id in s.open[t].queued || k.consistent(View(s, t, id).value)
  {
    if id in s.open[t].cells { assert CellOk(k, s.committed, s.open[t], id); }
  }

  lemma WriteKeepsCell<C(!new), O(!new)>(rules: Rules<C, O>, k: Claim<C>, s: State<C>, t: nat, op: O, c: C)
    requires Kept(rules, k) && Inv(rules, k, s) && t in s.open
    requires rules.apply(View(s, t, rules.target(op)), op) == Changed(c)
    ensures var r := Write(rules, s, t, op, c); CellOk(k, s.committed, r.open[t], rules.target(op))
  {
    var id := rules.target(op);
    var view, w, after := View(s, t, id), s.open[t], Write(rules, s, t, op, c).open[t];
    if view.Some? { ViewOk(rules, k, s, t, id); }
    assert StatementKeeps(rules, k, view, op, c);
    if rules.queues(op) {
      assert after.queued[|w.queued|] == id;
    }
  }

  lemma WriteKeepsOpen<C(!new), O(!new)>(rules: Rules<C, O>, k: Claim<C>, s: State<C>, t: nat, op: O, c: C)
    requires Kept(rules, k) && Inv(rules, k, s) && t in s.open
    requires rules.apply(View(s, t, rules.target(op)), op) == Changed(c)
    ensures OpenOk(k, Write(rules, s, t, op, c))
  {
    var r := Write(rules, s, t, op, c);
    forall u, i | u in r.open && i in r.open[u].cells ensures CellOk(k, r.committed, r.open[u], i) {
      if u == t && i == rules.target(op) {
        WriteKeepsCell(rules, k, s, t, op, c);
      } else {
        assert CellOk(k, s.committed, s.open[u], i);
      }
    }
  }

  lemma {:induction false} ExecuteKeeps<C(!new), O(!new)>(rules: Rules<C, O>, k: Claim<C>, s: State<C>, t: nat, op: O)
    requires Kept(rules, k) && Inv(rules, k, s)
    ensures Inv(rules, k, ExecuteStep(rules, s, t, op))
  {
    AbortKeeps(rules, k, s, t);
    var id := rules.target(op);
    if t in s.open && !Held(s, t, id) && rules.apply(View(s, t, id), op).Changed? {
      var c := rules.apply(View(s, t, id), op).cell;
      WriteKeepsOpen(rules, k, s, t, op, c);
      if !Duplicates(rules, s.committed, id, c) && !Duplicates(rules, s.open[t].cells, id, c)
         && !Contended(rules, s, t, id, c) {
        WriteKeepsDistinct(rules, k, s, t, op, c);
      }
    }
  }

  /** The checks a transaction queued are enough for every cell it publishes. */
  lemma QueueSuffices<C(!new), O(!new)>(rules: Rules<C, O>, k: Claim<C>, s: State<C>, t: nat, i: string)
    requires Kept(rules, k) && Inv(rules, k, s) && t in s.open && QueuePasses(rules, s.open[t])
    requires i in s.open[t].cells
    ensures k.sound(i, s.open[t].cells[i]) && k.consistent(s.open[t].cells[i])
  {
    var w := s.open[t];
    assert CellOk(k, s.committed, w, i);
    if i in w.queued {
      var n :| 0 <= n < |w.queued| && w.queued[n] == i;
      assert Passes(rules, w, w.queued[n]);
    }
  }

  lemma PublishKeepsDistinct<C(!new), O(!new)>(rules: Rules<C, O>, s: State<C>, t: nat)
    requires Distinct(rules, s) && t in s.open
    ensures Distinct(rules, State(s.committed + s.open[t].cells, s.open - {t}))
  {
    var r := State(s.committed + s.open[t].cells, s.open - {t});
    forall h, g ensures Apart(rules, Cells(r, h), Cells(r, g)) {
      forall i, j | i in Cells(r, h) && j in Cells(r, g) && i != j
        ensures !rules.clash(Cells(r, h)[i], Cells(r, g)[j])
      {
        var h' := if h.None? && i in s.open[t].cells then Some(t) else h;
        var g' := if g.None? && j in s.open[t].cells then Some(t) else g;
        assert Apart(rules, Cells(s, h'), Cells(s, g'));
      }
    }
  }

  lemma {:induction false} CommitKeeps<C(!new), O(!new)>(rules: Rules<C, O>, k: Claim<C>, s: State<C>, t: nat)
    requires Kept(rules, k) && Inv(rules, k, s)
    ensures Inv(rules, k, CommitStep(rules, s, t))
  {
    AbortKeeps(rules, k, s, t);
    if t in s.open && QueuePasses(rules, s.open[t]) {
      var r := CommitStep(rules, s, t);
      forall i | i in r.committed ensures k.sound(i, r.committed[i]) && k.consistent(r.committed[i]) {
        if i in s.open[t].cells { QueueSuffices(rules, k, s, t, i); }
      }
      forall u, i | u in r.open && i in r.open[u].cells ensures CellOk(k, r.committed, r.open[u], i) {
        assert CellOk(k, s.committed, s.open[u], i);
        assert i !in s.open[t].cells;
      }
      PublishKeepsDistinct(rules, s, t);
    }
  }

  lemma BeginKeeps<C(!new), O(!new)>(rules: Rules<C, O>, k: Claim<C>, s: State<C>, t: nat)
    requires Inv(rules, k, s)
    ensures Inv(rules, k, Step(rules, s, Begin(t)))
  {
    var r := Step(rules, s, Begin(t));
    forall h, g ensures Apart(rules, Cells(r, h), Cells(r, g)) {
      assert Apart(rules, Cells(s, h), Cells(s, g));
    }
  }

  lemma {:induction false} StepKeeps<C(!new), O(!new)>(rules: Rules<C, O>, k: Claim<C>, s: State<C>, e: Event<O>)
    requires Kept(rules, k) && Inv(rules, k, s)
    ensures Inv(rules, k, Step(rules, s, e))
  {
    match e
    case Begin(t) => BeginKeeps(rules, k, s, t);
    case Execute(t, op) => ExecuteKeeps(rules, k, s, t, op);
    case Commit(t) => CommitKeeps(rules, k, s, t);
    case Rollback(t) => AbortKeeps(rules, k, s, t);
  }

  /** A committed cell stays committed, and every later version succeeds it. */
  lemma StepExtends<C(!new), O(!new)>(rules: Rules<C, O>, k: Claim<C>, s: State<C>, e: Event<O>, i: string)
    requires Kept(rules, k) && Inv(rules, k, s) && i in s.committed
    ensures i in Step(rules, s, e).committed && k.succeeds(s.committed[i], Step(rules, s, e).committed[i])
  {
    if e.Commit? && e.t in s.open && i in s.open[e.t].cells {
      assert CellOk(k, s.committed, s.open[e.t], i);
    }
  }

  /** Every interleaving keeps the claim on committed cells, and only ever extends them. */
  lemma {:induction false} RunKeeps<C(!new), O(!new)>(rules: Rules<C, O>, k: Claim<C>, s: State<C>, es: seq<Event<O>>)
    requires Kept(rules, k) && Inv(rules, k, s)
    ensures Inv(rules, k, Run(rules, s, es))
    ensures forall i :: i in s.committed ==>
              i in Run(rules, s, es).committed && k.succeeds(s.committed[i], Run(rules, s, es).committed[i])
    decreases |es|
  {
    if |es| > 0 {
      var next := Step(rules, s, es[0]);
      StepKeeps(rules, k, s, es[0]);
      RunKeeps(rules, k, next, es[1..]);
      forall i | i in s.committed
        ensures i in Run(rules, s, es).committed && k.succeeds(s.committed[i], Run(rules, s, es).committed[i])
      {
        StepExtends(rules, k, s, es[0], i);
      }
    }
  }

  lemma {:induction false} RunAppend<C, O>(rules: Rules<C, O>, s: State<C>, es: seq<Event<O>>, e: Event<O>)
    ensures Run(rules, s, es + [e]) == Step(rules, Run(rules, s, es), e)
    decreases |es|
  {
    if |es| == 0 {
      assert es + [e] == [e] && [e][1..] == [];
      assert Run(rules, Step(rules, s, e), []) == Step(rules, s, e);
    } else {
      assert (es + [e])[0] == es[0] && (es + [e])[1..] == es[1..] + [e];
      RunAppend(rules, Step(rules, s, es[0]), es[1..], e);
    }
  }

  // ---------------------------------------------------------------- the database

  /**
   * A database under a schema. Its history is what was asked of it, its state is the run of that
   * history, and a claim that held of the first rows holds of every state.
   */
  class Database<C(!new), O(!new)> {
    const rules: Rules<C, O>
    var committed: map<string, C>
    var open: map<nat, Work<C>>
    ghost const claim: Claim<C>
    ghost const base: map<string, C>
    ghost var history: seq<Event<O>>

    ghost function Now(): State<C>
      reads this
    {
      State(committed, open)
    }

    ghost predicate Valid()
      reads this
    {
      && Kept(rules, claim) && Inv(rules, claim, State(base, map[]))
      && Now() == Run(rules, State(base, map[]), history)
    }

    /** Every valid database satisfies its claim. */
    lemma ClaimHolds()
      requires Valid()
      ensures Inv(rules, claim, Now())
    {
      RunKeeps(rules, claim, State(base, map[]), history);
    }

    constructor (rules: Rules<C, O>, base: map<string, C>, ghost claim: Claim<C>)
      requires Kept(rules, claim) && Inv(rules, claim, State(base, map[]))
      ensures Valid() && this.rules == rules && this.base == base && this.claim == claim && history == []
    {
      this.rules, committed, open := rules, base, map[];
      this.base, this.claim, history := base, claim, [];
    }

    method BeginTransaction(t: nat)
      requires Valid()
      modifies this
      ensures Valid() && history == old(history) + [Begin(t)]
      ensures committed == old(committed) && open.Keys == old(open).Keys + {t}
    {
      RunAppend(rules, State(base, map[]), history, Begin(t));
      history := history + [Begin(t)];
      if t !in open { open := open[t := Work(map[], [])]; }
    }

    /** Whether the statement ran, so that its transaction is still open. */
    method ExecuteStatement(t: nat, op: O) returns (ran: bool)
      requires Valid()
      modifies this
      ensures Valid() && history == old(history) + [Execute(t, op)]
      ensures committed == old(committed) && (ran ==> t in open)
      ensures forall u :: u in old(open) && u != t ==> u in open && open[u] == old(open)[u]
    {
      RunAppend(rules, State(base, map[]), history, Execute(t, op));
      history := history + [Execute(t, op)];
      var id := rules.target(op);
      var s := State(committed, open);
      if t !in open || Held(s, t, id) { return false; }
      var outcome := rules.apply(View(s, t, id), op);
      if outcome.NoRow? { return true; }
      if outcome.Rejected? || Duplicates(rules, committed, id, outcome.cell)
         || Duplicates(rules, open[t].cells, id, outcome.cell) {
        open := open - {t};
        return false;
      }
      if Contended(rules, s, t, id, outcome.cell) { return false; }
      var w := open[t];
      var queued := if rules.queues(op) then w.queued + [id] else w.queued;
      open := open[t := Work(w.cells[id := outcome.cell], queued)];
      return true;
    }

    /** Runs the queued checks in order; the first that fails rolls the transaction back. */
    method CommitTransaction(t: nat) returns (done: bool)
      requires Valid()
      modifies this
      ensures Valid() && history == old(history) + [Commit(t)]
      ensures done <==> t in old(open) && QueuePasses(rules, old(open)[t])
      ensures committed == if done then old(committed) + old(open)[t].cells else old(committed)
      ensures t !in open
    {
      RunAppend(rules, State(base, map[]), history, Commit(t));
      history := history + [Commit(t)];
      if t !in open { return false; }
      done := ChecksPass(open[t]);
      if done { committed := committed + open[t].cells; }
      open := open - {t};
    }

    method ChecksPass(w: Work<C>) returns (ok: bool)
      ensures ok <==> QueuePasses(rules, w)
    {
      var n := 0;
      while n < |w.queued|
        invariant n <= |w.queued|
        invariant forall k :: 0 <= k < n ==> Passes(rules, w, w.queued[k])
      {
        if !Passes(rules, w, w.queued[n]) { return false; }
        n := n + 1;
      }
      return true;
    }

    method RollbackTransaction(t: nat)
      requires Valid()
      modifies this
      ensures Valid() && history == old(history) + [Rollback(t)]
      ensures committed == old(committed) && open == old(open) - {t}
    {
      RunAppend(rules, State(base, map[]), history, Rollback(t));
      history := history + [Rollback(t)];
      open := open - {t};
    }
  }
}
