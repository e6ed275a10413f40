/**
 * Which statements the profile schema lets through, and that every committed generation can be
 * brought to the end of its life: promoted, retired or orphaned, and cleaned with its payload gone.
 */
module ProfileLifecycle {
  import opened ProfileCleanup
  import opened Transactions
  import opened Values

  // ---------------------------------------------------------------- when a statement is accepted

  const GRAPH: set<(Disposition, Disposition)> :=
    {(Validated, Promoted), (Validated, Orphan), (Promoted, Retired), (Retired, CleanupConfirmed), (Orphan, CleanupConfirmed)}

  /** What the schema asks of a statement on an existing generation. */
  predicate Permitted(c: Cell, op: Operation) {
    var g := c.generation;
    match op
    case UpdateGeneration(_, row) =>
      && row.audit == g.audit && (g.disposition, row.disposition) in GRAPH
      && (if row.disposition.CleanupConfirmed? then row.proof.Some? && |row.proof.value| == 32 else row.proof.None?)
    case InsertPayload(_, owner, payload) =>
      && owner == g.audit.owner && c.payloads == map[] && !g.disposition.CleanupConfirmed?
      && payload.cipherVersion == "aes256gcm-browser-profile-v1" && !(forall k :: 0 <= k < |payload.keyId| ==> payload.keyId[k] == ' ')
      && |payload.nonce| == 12 && |payload.ciphertext| >= 16
    case DeletePayload(_, owner) => owner in c.payloads && g.disposition.CleanupConfirmed?
    case InsertReceipt(_, owner, receipt) =>
      && owner == g.audit.owner && c.receipts == map[] && !g.disposition.CleanupConfirmed?
      && receipt.providerKey == g.audit.providerKey && receipt.captureOperation == g.audit.captureOperation
      && receipt.reference == g.audit.reference && |receipt.proof| == 32
    case _ => false
  }

  /** The rows after an accepted statement. */
  predicate Effect(c: Cell, op: Operation, clock: int, after: Cell) {
    match op
    case UpdateGeneration(_, row) =>
      after.generation == row.(changedAt := Some(clock)) && after.payloads == c.payloads && after.receipts == c.receipts
    case InsertPayload(_, owner, payload) =>
      after.generation == c.generation && after.payloads == map[owner := payload] && after.receipts == c.receipts
    case DeletePayload(_, _) =>
      after.generation == c.generation && after.payloads == map[] && after.receipts == c.receipts
    case InsertReceipt(_, owner, receipt) =>
      after.generation == c.generation && after.payloads == c.payloads && after.receipts == map[owner := receipt]
    case _ => false
  }

  /** A statement that finds no row to change. */
  predicate Missing(view: Option<Cell>, op: Operation) {
    match op
    case UpdatePayload(_, owner, _) => view.None? || owner !in view.value.payloads
    case DeletePayload(_, owner) => view.None? || owner !in view.value.payloads
    case UpdateReceipt(_, owner, _) => view.None? || owner !in view.value.receipts
    case DeleteReceipt(_, owner) => view.None? || owner !in view.value.receipts
    case UpdateGeneration(_, _) => view.None?
    case DeleteGeneration(_) => view.None?
    case _ => false
  }

  lemma {:induction false} KeysAreOwner(id: string, c: Cell)
    requires Sound(id, c)
    ensures var owner := c.generation.audit.owner;
            && (c.payloads == map[] || c.payloads.Keys == {owner}) && (c.receipts == map[] || c.receipts.Keys == {owner})
  {
    if owner :| owner in c.payloads { assert c.payloads.Keys == {owner}; }
    if owner :| owner in c.receipts { assert c.receipts.Keys == {owner}; }
  }

  /** On an existing generation exactly the permitted statements are accepted, and they change just what they name. */
  lemma {:induction false} AcceptedIff(id: string, c: Cell, op: Operation, clock: int)
    requires Sound(id, c)
    ensures Apply(Some(c), op, clock).Accepted? <==> Permitted(c, op)
    ensures Permitted(c, op) ==> Effect(c, op, clock, Apply(Some(c), op, clock).row)
    ensures Apply(Some(c), op, clock).Unmatched? <==> Missing(Some(c), op)
  {
    KeysAreOwner(id, c);
    if op.DeletePayload? && op.owner in c.payloads { assert c.payloads - {op.owner} == map[]; }
  }

  /** The audit columns a generation can be inserted with. */
  predicate WellFormed(a: Audit) {
    && IsName(a.id) && IsName(a.providerKey) && IsName(a.captureOperation)
    && 0 < a.bindingRevision < 9007199254740992 && 0 < a.profileRevision < 9007199254740992
    && 0 < a.leaseEpoch < 9007199254740992 && 0 <= a.capturedBytes < 9007199254740992
    && |a.manifest| == |a.reference| == |a.subject| == |a.origin| == |a.projection| == 32
  }

  /** Without a generation only the insert of a fresh, validated one is accepted. */
  lemma {:induction false} FreshAcceptedIff(op: Operation, clock: int)
    ensures Apply(None, op, clock).Accepted? <==>
              op.InsertGeneration? && WellFormed(op.row.audit) && op.row == Generation(op.row.audit, Validated, None, None)
    ensures Apply(None, op, clock).Accepted? ==> Apply(None, op, clock).row == Cell(op.row, map[], map[], [Inserted])
    ensures Apply(None, op, clock).Unmatched? <==> Missing(None, op)
  {
  }

  // ---------------------------------------------------------------- a transaction that is alone

  /** Steps that are linked one after the other, with what each leaves. */
  ghost predicate Linked<S, C>(link: (Option<C>, S, C) -> bool, view: Option<C>, steps: seq<S>, cells: seq<C>) {
    && |cells| == |steps| && (|steps| > 0 ==> link(view, steps[0], cells[0]))
    && forall i, j :: 0 <= i && j == i + 1 && j < |steps| ==> link(Some(cells[i]), steps[j], cells[j])
  }

  lemma LinkedTwo<S, C>(link: (Option<C>, S, C) -> bool, view: Option<C>, steps: seq<S>, a: C, b: C)
    requires |steps| == 2 && link(view, steps[0], a) && link(Some(a), steps[1], b)
    ensures Linked(link, view, steps, [a, b])
  {
  }

  lemma LinkedThree<S, C>(link: (Option<C>, S, C) -> bool, view: Option<C>, steps: seq<S>, a: C, b: C, c: C)
    requires |steps| == 3 && link(view, steps[0], a) && link(Some(a), steps[1], b) && link(Some(b), steps[2], c)
    ensures Linked(link, view, steps, [a, b, c])
  {
  }

  lemma {:induction false} LinkedFront<S, C>(link: (Option<C>, S, C) -> bool, view: Option<C>, steps: seq<S>, cells: seq<C>)
    requires Linked(link, view, steps, cells) && |steps| > 0
    ensures var n := |steps| - 1;
            Linked(link, view, steps[..n], cells[..n]) && link(if n == 0 then view else Some(cells[n - 1]), steps[n], cells[n])
  {
  }

  predicate Answers(view: Option<Cell>, st: Statement, r: Outcome<Cell>) {
    r == ApplyStatement(view, st)
  }

  /** The statement is on this generation, and the schema's only answer is this change. */
  ghost predicate Link(id: string, view: Option<Cell>, st: Statement, after: Cell) {
    Target(st.op) == id && forall r {:trigger Answers(view, st, r)} :: Answers(view, st, r) ==> r == Changed(after)
  }

  ghost function Linker(id: string): (Option<Cell>, Statement, Cell) -> bool {
    (view, st, after) => Link(id, view, st, after)
  }

  /** Statements on one generation that are accepted one after the other, with the cell each leaves. */
  ghost predicate Chain(id: string, view: Option<Cell>, sts: seq<Statement>, cells: seq<Cell>) {
    Linked(Linker(id), view, sts, cells)
  }

  function Executes(t: nat, sts: seq<Statement>): seq<Event<Statement>> {
    if sts == [] then [] else Executes(t, sts[..|sts| - 1]) + [Execute(t, sts[|sts| - 1])]
  }

  function Script(t: nat, sts: seq<Statement>): seq<Event<Statement>> {
    [Begin(t)] + Executes(t, sts) + [Commit(t)]
  }

  ghost function Committed(s: State<Cell>, id: string): Option<Cell> {
    if id in s.committed then Some(s.committed[id]) else None
  }

  /** The transaction `t` alone, with this one generation written. */
  ghost predicate AloneWith(s: State<Cell>, start: State<Cell>, t: nat, id: string, c: Cell) {
    && s.committed == start.committed && s.open.Keys == {t} && s.open[t].cells == map[id := c]
    && forall k :: 0 <= k < |s.open[t].queued| ==> s.open[t].queued[k] == id
  }

  ghost predicate NoClash(s: State<Cell>, id: string, c: Cell) {
    forall i :: i in s.committed && i != id ==> !Clash(c, s.committed[i])
  }

  lemma {:induction false} FirstExecutes(start: State<Cell>, s: State<Cell>, t: nat, id: string, st: Statement, c: Cell)
    requires s == State(start.committed, map[t := Work(map[], [])])
    requires Link(id, Committed(start, id), st, c) && NoClash(start, id, c)
    ensures AloneWith(Step(Schema(), s, Execute(t, st)), start, t, id, c)
  {
    assert !Held(s, t, id) && View(s, t, id) == Committed(start, id);
    assert Answers(Committed(start, id), st, ApplyStatement(Committed(start, id), st));
    assert !Duplicates(Schema(), s.committed, id, c) && !Duplicates(Schema(), s.open[t].cells, id, c);
    assert !Contended(Schema(), s, t, id, c);
    assert map[][id := c] == map[id := c];
  }

  lemma {:induction false} NextExecutes(start: State<Cell>, s: State<Cell>, t: nat, id: string, before: Cell, st: Statement, c: Cell)
    requires AloneWith(s, start, t, id, before) && Link(id, Some(before), st, c) && NoClash(start, id, c)
    ensures AloneWith(Step(Schema(), s, Execute(t, st)), start, t, id, c)
  {
    assert !Held(s, t, id) && View(s, t, id) == Some(before);
    assert Answers(Some(before), st, ApplyStatement(Some(before), st));
    assert !Duplicates(Schema(), s.committed, id, c) && !Duplicates(Schema(), s.open[t].cells, id, c);
    assert !Contended(Schema(), s, t, id, c);
    assert map[id := before][id := c] == map[id := c];
  }

  lemma {:induction false} FirstRuns(start: State<Cell>, t: nat, id: string, st: Statement, c: Cell)
    requires start.open == map[] && Link(id, Committed(start, id), st, c) && NoClash(start, id, c)
    ensures AloneWith(Run(Schema(), start, [Begin(t)] + [Execute(t, st)]), start, t, id, c)
  {
    BeginRuns(start, t);
    RunAppend(Schema(), start, [Begin(t)], Execute(t, st));
    FirstExecutes(start, Run(Schema(), start, [Begin(t)]), t, id, st, c);
  }

  lemma {:induction false} NextRuns(
    start: State<Cell>, front: seq<Event<Statement>>, t: nat, id: string, before: Cell, st: Statement, c: Cell)
    requires AloneWith(Run(Schema(), start, front), start, t, id, before)
    requires Link(id, Some(before), st, c) && NoClash(start, id, c)
    ensures AloneWith(Run(Schema(), start, front + [Execute(t, st)]), start, t, id, c)
  {
    RunAppend(Schema(), start, front, Execute(t, st));
    NextExecutes(start, Run(Schema(), start, front), t, id, before, st, c);
  }

  lemma {:induction false} ChainFront(id: string, view: Option<Cell>, sts: seq<Statement>, cells: seq<Cell>)
    requires Chain(id, view, sts, cells) && |sts| > 0
    ensures var n := |sts| - 1;
            && |cells| == n + 1 && Chain(id, view, sts[..n], cells[..n])
            && Link(id, if n == 0 then view else Some(cells[n - 1]), sts[n], cells[n])
  {
    LinkedFront(Linker(id), view, sts, cells);
  }

  lemma ExecutesSnoc(t: nat, sts: seq<Statement>)
    requires |sts| > 0
    ensures var n := |sts| - 1;
            [Begin(t)] + Executes(t, sts) == ([Begin(t)] + Executes(t, sts[..n])) + [Execute(t, sts[n])]
  {
  }

  lemma {:induction false} ExecutesRun(start: State<Cell>, t: nat, id: string, sts: seq<Statement>, cells: seq<Cell>)
    requires start.open == map[] && |sts| > 0 && Chain(id, Committed(start, id), sts, cells)
    requires forall k :: 0 <= k < |cells| ==> NoClash(start, id, cells[k])
    ensures AloneWith(Run(Schema(), start, [Begin(t)] + Executes(t, sts)), start, t, id, cells[|cells| - 1])
    decreases |sts|
  {
    var n := |sts| - 1;
    var front := [Begin(t)] + Executes(t, sts[..n]);
    ChainFront(id, Committed(start, id), sts, cells);
    ExecutesSnoc(t, sts);
    if n == 0 {
      assert front == [Begin(t)];
      FirstRuns(start, t, id, sts[n], cells[n]);
    } else {
      ExecutesRun(start, t, id, sts[..n], cells[..n]);
      NextRuns(start, front, t, id, cells[n - 1], sts[n], cells[n]);
    }
  }

  lemma {:induction false} BeginRuns(start: State<Cell>, t: nat)
    requires start.open == map[]
    ensures Run(Schema(), start, [Begin(t)]) == State(start.committed, map[t := Work(map[], [])])
  {
    var none: seq<Event<Statement>> := [];
    RunAppend(Schema(), start, none, Begin(t));
    assert none + [Begin(t)] == [Begin(t)] && start.open[t := Work(map[], [])] == map[t := Work(map[], [])];
  }

  lemma {:induction false} CommitsAlone(start: State<Cell>, s: State<Cell>, t: nat, id: string, c: Cell)
    requires AloneWith(s, start, t, id, c) && CheckPasses(c)
    ensures Step(Schema(), s, Commit(t)) == State(start.committed[id := c], map[])
  {
    var w := s.open[t];
    assert forall k :: 0 <= k < |w.queued| ==> Passes(Schema(), w, w.queued[k]);
    assert s.committed + map[id := c] == start.committed[id := c];
    assert s.open - {t} == map[];
  }

  /** Accepted statements on one generation, alone in the database, are committed if the last check passes. */
  lemma {:induction false} ScriptCommits(start: State<Cell>, t: nat, id: string, sts: seq<Statement>, cells: seq<Cell>)
    requires start.open == map[] && |sts| > 0 && Chain(id, Committed(start, id), sts, cells)
    requires (forall k :: 0 <= k < |cells| ==> NoClash(start, id, cells[k])) && CheckPasses(cells[|cells| - 1])
    ensures Run(Schema(), start, Script(t, sts)) == State(start.committed[id := cells[|cells| - 1]], map[])
  {
    ExecutesRun(start, t, id, sts, cells);
    RunAppend(Schema(), start, [Begin(t)] + Executes(t, sts), Commit(t));
    CommitsAlone(start, Run(Schema(), start, [Begin(t)] + Executes(t, sts)), t, id, cells[|cells| - 1]);
  }

  // ---------------------------------------------------------------- reachable generations

  /** A committed generation of a reachable state in which no transaction is open. */
  ghost predicate AtRest(s: State<Cell>, id: string) {
    Inv(Schema(), Cleanup(), s) && s.open == map[] && id in s.committed
  }

  lemma {:induction false} RestingFacts(s: State<Cell>, id: string)
    requires AtRest(s, id)
    ensures var c := s.committed[id];
            Sound(id, c) && Consistent(c) && forall d: Cell :: d.generation.audit == c.generation.audit ==> NoClash(s, id, d)
  {
    assert Apart(Schema(), Cells(s, None), Cells(s, None));
    assert CommittedOk(Cleanup(), s);
    forall d: Cell, i | d.generation.audit == s.committed[id].generation.audit && i in s.committed && i != id
      ensures !Clash(d, s.committed[i])
    {
      assert !Schema().clash(s.committed[id], s.committed[i]);
    }
  }

  lemma {:induction false} AcceptedChanges(id: string, c: Cell, op: Operation, clock: int) returns (after: Cell)
    requires Sound(id, c) && Target(op) == id && Permitted(c, op)
    ensures Link(id, Some(c), Statement(op, clock), after)
    ensures Sound(id, after) && Effect(c, op, clock, after) && after.generation.audit == c.generation.audit
  {
    AcceptedIff(id, c, op, clock);
    ApplyKeeps(c, op, clock);
    after := Apply(Some(c), op, clock).row;
  }

  /** The database with this generation changed and nothing else. */
  ghost predicate OnlyChanged(s: State<Cell>, end: State<Cell>, id: string) {
    && end.open == map[] && end.committed.Keys == s.committed.Keys
    && forall i :: i in s.committed && i != id ==> end.committed[i] == s.committed[i]
  }

  /** Accepted statements that keep the audit fields, on a generation at rest. */
  lemma {:induction false} RestingScript(s: State<Cell>, id: string, t: nat, sts: seq<Statement>, cells: seq<Cell>)
    requires AtRest(s, id) && |sts| > 0 && Chain(id, Some(s.committed[id]), sts, cells) && CheckPasses(cells[|cells| - 1])
    requires forall k :: 0 <= k < |cells| ==> cells[k].generation.audit == s.committed[id].generation.audit
    ensures var end := Run(Schema(), s, Script(t, sts)); OnlyChanged(s, end, id) && end.committed[id] == cells[|cells| - 1]
  {
    RestingFacts(s, id);
    ScriptCommits(s, t, id, sts, cells);
  }

  lemma {:induction false} MoveChain(id: string, c: Cell, to: Disposition, clock: int) returns (after: Cell)
    requires Sound(id, c) && Consistent(c) && (c.generation.disposition, to) in GRAPH && !to.CleanupConfirmed?
    ensures Chain(id, Some(c), [Statement(UpdateGeneration(id, c.generation.(disposition := to)), clock)], [after])
    ensures after.generation == c.generation.(disposition := to, changedAt := Some(clock))
    ensures after.payloads == c.payloads && CheckPasses(after)
  {
    var op := UpdateGeneration(id, c.generation.(disposition := to));
    after := AcceptedChanges(id, c, op, clock);
    CheckMeans(id, after);
  }

  /** A move along the graph short of the cleanup: a transaction with the one update commits it. */
  lemma {:induction false} MoveCommits(s: State<Cell>, id: string, t: nat, to: Disposition, clock: int)
    requires AtRest(s, id) && (s.committed[id].generation.disposition, to) in GRAPH && !to.CleanupConfirmed?
    ensures var g := s.committed[id].generation;
            var end := Run(Schema(), s, Script(t, [Statement(UpdateGeneration(id, g.(disposition := to)), clock)]));
            && OnlyChanged(s, end, id) && end.committed[id].payloads == s.committed[id].payloads
            && end.committed[id].generation == g.(disposition := to, changedAt := Some(clock))
  {
    var c := s.committed[id];
    RestingFacts(s, id);
    var after := MoveChain(id, c, to, clock);
    RestingScript(s, id, t, [Statement(UpdateGeneration(id, c.generation.(disposition := to)), clock)], [after]);
  }

  /** Receipt, confirmation and deletion of the payload; a receipt already there is not written again. */
  function CleanupStatements(id: string, c: Cell, proof: Octets, recordedAt: int, clock: int): seq<Statement> {
    var a := c.generation.audit;
    (if c.receipts == map[]
     then [Statement(InsertReceipt(id, a.owner, Receipt(a.providerKey, a.captureOperation, a.reference, proof, recordedAt)), clock)]
     else [])
    + [Statement(UpdateGeneration(id, c.generation.(disposition := CleanupConfirmed, proof := Some(proof))), clock),
       Statement(DeletePayload(id, a.owner), clock)]
  }

  /** A proof that fits: any digest, unless a receipt already names one. */
  ghost predicate Fits(c: Cell, proof: Octets) {
    |proof| == 32 && forall o :: o in c.receipts ==> c.receipts[o].proof == proof
  }

  ghost predicate Cleaned(c: Cell, before: Cell, proof: Octets) {
    && c.generation.audit == before.generation.audit && Confirmed(c) && c.payloads == map[]
    && c.generation.proof == Some(proof) && c.receipts.Keys == {c.generation.audit.owner}
    && c.receipts[c.generation.audit.owner].proof == proof
  }

  /** The update and the deletion that end a cleanup, from a cell that has its receipt. */
  lemma {:induction false} ConfirmAndDelete(id: string, c: Cell, proof: Octets, clock: int) returns (confirmed: Cell, done: Cell)
    requires Sound(id, c) && (c.generation.disposition.Retired? || c.generation.disposition.Orphan?)
    requires c.payloads.Keys == {c.generation.audit.owner} == c.receipts.Keys && Fits(c, proof)
    ensures var update := UpdateGeneration(id, c.generation.(disposition := CleanupConfirmed, proof := Some(proof)));
            && Link(id, Some(c), Statement(update, clock), confirmed)
            && Link(id, Some(confirmed), Statement(DeletePayload(id, c.generation.audit.owner), clock), done)
    ensures Cleaned(done, c, proof) && CheckPasses(done) && confirmed.generation.audit == c.generation.audit
  {
    var owner := c.generation.audit.owner;
    var update := UpdateGeneration(id, c.generation.(disposition := CleanupConfirmed, proof := Some(proof)));
    confirmed := AcceptedChanges(id, c, update, clock);
    done := AcceptedChanges(id, confirmed, DeletePayload(id, owner), clock);
    assert owner in done.receipts;
    CheckMeans(id, done);
  }

  lemma {:induction false} ReceiptGiven(id: string, c: Cell, proof: Octets, recordedAt: int, clock: int) returns (receipted: Cell)
    requires Sound(id, c) && !Confirmed(c) && c.receipts == map[] && |proof| == 32
    ensures Link(id, Some(c), CleanupStatements(id, c, proof, recordedAt, clock)[0], receipted)
    ensures Sound(id, receipted) && receipted.generation == c.generation && receipted.payloads == c.payloads
    ensures receipted.receipts.Keys == {c.generation.audit.owner} && Fits(receipted, proof)
  {
    receipted := AcceptedChanges(id, c, CleanupStatements(id, c, proof, recordedAt, clock)[0].op, clock);
  }

  lemma {:induction false} CleanupChain(id: string, c: Cell, proof: Octets, recordedAt: int, clock: int) returns (cells: seq<Cell>)
    requires Sound(id, c) && Consistent(c) && (c.generation.disposition.Retired? || c.generation.disposition.Orphan?)
    requires Fits(c, proof)
    ensures |cells| > 0 && Chain(id, Some(c), CleanupStatements(id, c, proof, recordedAt, clock), cells)
    ensures CheckPasses(cells[|cells| - 1]) && Cleaned(cells[|cells| - 1], c, proof)
    ensures forall k :: 0 <= k < |cells| ==> cells[k].generation.audit == c.generation.audit
  {
    KeysAreOwner(id, c);
    var sts := CleanupStatements(id, c, proof, recordedAt, clock);
    if c.receipts == map[] {
      var receipted := ReceiptGiven(id, c, proof, recordedAt, clock);
      var confirmed, done := ConfirmAndDelete(id, receipted, proof, clock);
      LinkedThree(Linker(id), Some(c), sts, receipted, confirmed, done);
      cells := [receipted, confirmed, done];
    } else {
      var confirmed, done := ConfirmAndDelete(id, c, proof, clock);
      LinkedTwo(Linker(id), Some(c), sts, confirmed, done);
      cells := [confirmed, done];
    }
  }

  /** Every retired or orphaned generation can be cleaned: confirmed, its payload gone, and all else as it was. */
  lemma {:induction false} CleanupCommits(s: State<Cell>, id: string, t: nat, proof: Octets, recordedAt: int, clock: int)
    requires AtRest(s, id) && Fits(s.committed[id], proof)
    requires s.committed[id].generation.disposition.Retired? || s.committed[id].generation.disposition.Orphan?
    ensures var end := Run(Schema(), s, Script(t, CleanupStatements(id, s.committed[id], proof, recordedAt, clock)));
            OnlyChanged(s, end, id) && Cleaned(end.committed[id], s.committed[id], proof)
  {
    RestingFacts(s, id);
    var cells := CleanupChain(id, s.committed[id], proof, recordedAt, clock);
    RestingScript(s, id, t, CleanupStatements(id, s.committed[id], proof, recordedAt, clock), cells);
  }

  // ---------------------------------------------------------------- the whole life of a generation

  lemma {:induction false} StaysAtRest(s: State<Cell>, id: string, es: seq<Event<Statement>>)
    requires AtRest(s, id) && Run(Schema(), s, es).open == map[] && id in Run(Schema(), s, es).committed
    ensures AtRest(Run(Schema(), s, es), id)
  {
    SchemaKept();
    RunKeeps(Schema(), Cleanup(), s, es);
  }

  lemma {:induction false} RunsOn(s: State<Cell>, es: seq<Event<Statement>>, more: seq<Event<Statement>>)
    ensures Run(Schema(), s, es + more) == Run(Schema(), Run(Schema(), s, es), more)
    decreases |more|
  {
    if more == [] {
      assert es + more == es;
    } else {
      var n := |more| - 1;
      RunsOn(s, es, more[..n]);
      assert es + more == (es + more[..n]) + [more[n]] && more == more[..n] + [more[n]];
      RunAppend(Schema(), s, es + more[..n], more[n]);
      RunAppend(Schema(), Run(Schema(), s, es), more[..n], more[n]);
    }
  }

  /** A proof that fits the generation always exists. */
  lemma {:induction false} SomeProofFits(id: string, c: Cell) returns (proof: Octets)
    requires Sound(id, c)
    ensures Fits(c, proof)
  {
    var owner := c.generation.audit.owner;
    proof := if owner in c.receipts then c.receipts[owner].proof else seq(32, _ => 0);
    KeysAreOwner(id, c);
  }

  /** A run to a cleaned generation, all others as they were. */
  ghost predicate CleansBy(s: State<Cell>, id: string, es: seq<Event<Statement>>) {
    var end := Run(Schema(), s, es);
    && id in s.committed && OnlyChanged(s, end, id) && Confirmed(end.committed[id]) && end.committed[id].payloads == map[]
    && end.committed[id].generation.audit == s.committed[id].generation.audit
  }

  lemma {:induction false} RetiredCanBeCleaned(s: State<Cell>, id: string) returns (es: seq<Event<Statement>>)
    requires AtRest(s, id)
    requires s.committed[id].generation.disposition.Retired? || s.committed[id].generation.disposition.Orphan?
    ensures CleansBy(s, id, es)
  {
    RestingFacts(s, id);
    var proof := SomeProofFits(id, s.committed[id]);
    es := Script(0, CleanupStatements(id, s.committed[id], proof, 0, 0));
    CleanupCommits(s, id, 0, proof, 0, 0);
  }

  lemma {:induction false} CleansAfterMove(s: State<Cell>, id: string, to: Disposition) returns (es: seq<Event<Statement>>)
    requires AtRest(s, id) && (s.committed[id].generation.disposition, to) in GRAPH && (to.Retired? || to.Orphan?)
    ensures CleansBy(s, id, es)
  {
    var move := Script(0, [Statement(UpdateGeneration(id, s.committed[id].generation.(disposition := to)), 0)]);
    MoveCommits(s, id, 0, to, 0);
    StaysAtRest(s, id, move);
    var rest := RetiredCanBeCleaned(Run(Schema(), s, move), id);
    RunsOn(s, move, rest);
    es := move + rest;
  }

  /** Whatever happened before, once no transaction is open every generation that is not confirmed can be cleaned. */
  lemma {:induction false} EveryGenerationCanBeCleaned(rows: map<string, Legacy>, es: seq<Event<Statement>>, id: string)
    returns (more: seq<Event<Statement>>)
    requires LegacyTable(rows) && Migrate(rows).Some? && History(rows, es).open == map[]
    requires id in History(rows, es).committed && !Confirmed(History(rows, es).committed[id])
    ensures CleansBy(History(rows, es), id, more)
  {
    HistoryKeeps(rows, es);
    var s := History(rows, es);
    var d := s.committed[id].generation.disposition;
    if d.Validated? {
      more := CleansAfterMove(s, id, Orphan);
    } else if d.Promoted? {
      more := CleansAfterMove(s, id, Retired);
    } else {
      more := RetiredCanBeCleaned(s, id);
    }
  }

  /** A new generation and its payload are committed together if no committed one shares a unique key with it. */
  lemma {:induction false} BirthCommits(s: State<Cell>, t: nat, a: Audit, payload: Payload, clock: int)
    requires s.open == map[] && a.id !in s.committed && AuditChecks(a) && PayloadChecks(payload)
    requires forall i :: i in s.committed ==> var b := s.committed[i].generation.audit;
               a.providerKey == b.providerKey ==> a.reference != b.reference && a.captureOperation != b.captureOperation
    ensures var row := Generation(a, Validated, None, None);
            var sts := [Statement(InsertGeneration(row), clock), Statement(InsertPayload(a.id, a.owner, payload), clock)];
            Run(Schema(), s, Script(t, sts)) ==
              State(s.committed[a.id := Cell(row, map[a.owner := payload], map[], [Inserted, PayloadInserted])], map[])
  {
    var row := Generation(a, Validated, None, None);
    var sts := [Statement(InsertGeneration(row), clock), Statement(InsertPayload(a.id, a.owner, payload), clock)];
    var inserted := Cell(row, map[], map[], [Inserted]);
    var filled := Cell(row, map[a.owner := payload], map[], [Inserted, PayloadInserted]);
    assert Link(a.id, None, sts[0], inserted);
    assert map[][a.owner := payload] == map[a.owner := payload] && [Inserted] + [PayloadInserted] == [Inserted, PayloadInserted];
    assert Link(a.id, Some(inserted), sts[1], filled);
    LinkedTwo(Linker(a.id), None, sts, inserted, filled);
    assert |filled.payloads| == 1;
    ScriptCommits(s, t, a.id, sts, [inserted, filled]);
  }
}
