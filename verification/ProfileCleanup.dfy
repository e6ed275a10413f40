/**
 * Browser profile generations, their encrypted payloads and their cleanup receipts, as the
 * triggers, CHECKs and deferred constraints of the payload-cleanup migration guard them.
 *
 * A cell is a generation with the payload and receipt rows that carry its id. Every statement on
 * them takes the generation's row lock, so transactions interleave as module Transactions says.
 */
module ProfileCleanup {
  import opened Transactions
  import opened Values

  datatype Disposition = Validated | Promoted | Retired | Orphan | CleanupConfirmed

  datatype Owner = Owner(tenant: string, user: string, session: string, targetSystem: string, binding: string)

  /** The columns of a generation that no update may change. */
  datatype Audit = Audit(
    id: string, owner: Owner, bindingRevision: int, profileRevision: int, leaseEpoch: int,
    providerKey: string, captureOperation: string, manifest: Octets, reference: Octets,
    subject: Octets, origin: Octets, projection: Octets, capturedBytes: int, createdAt: int)

  datatype Generation = Generation(
    audit: Audit, disposition: Disposition, proof: Option<Octets>, changedAt: Option<int>)

  datatype Payload = Payload(cipherVersion: string, keyId: string, nonce: Octets, ciphertext: Octets)

  datatype Receipt = Receipt(
    providerKey: string, captureOperation: string, reference: Octets, proof: Octets, recordedAt: int)

  // ---------------------------------------------------------------- row CHECKs

  predicate AuditChecks(a: Audit) {
    && IsName(a.id) && IsName(a.providerKey) && IsName(a.captureOperation)
    && 1 <= a.bindingRevision <= MAX_REVISION && 1 <= a.profileRevision <= MAX_REVISION
    && 1 <= a.leaseEpoch <= MAX_REVISION && 0 <= a.capturedBytes <= MAX_REVISION
    && |a.manifest| == 32 && |a.reference| == 32 && |a.subject| == 32 && |a.origin| == 32
    && |a.projection| == 32
  }

  predicate GenerationChecks(g: Generation) {
    && AuditChecks(g.audit)
    && (g.proof.Some? ==> |g.proof.value| == 32)
    && (g.disposition.CleanupConfirmed? <==> g.proof.Some?)
  }

  predicate PayloadChecks(p: Payload) {
    && p.cipherVersion == "aes256gcm-browser-profile-v1"
    && NotBlank(p.keyId)
    && |p.nonce| == 12 && |p.ciphertext| >= 16
  }

  predicate ReceiptChecks(r: Receipt) {
    && IsName(r.providerKey) && IsName(r.captureOperation)
    && |r.reference| == 32 && |r.proof| == 32
  }

  // ---------------------------------------------------------------- cells and their log

  /** What a committed or pending row change did to a generation. */
  datatype Change =
    | Migrated(from: Disposition)
    | Inserted
    | Updated(to: Disposition, proof: Option<Octets>, at: int)
    | PayloadInserted
    | PayloadDeleted
    | ReceiptInserted(digest: Octets)

  /** A generation row, the payload and receipt rows that carry its id, and what happened to them. */
  datatype Cell = Cell(
    generation: Generation, payloads: map<Owner, Payload>, receipts: map<Owner, Receipt>, log: seq<Change>)

  predicate Confirmed(c: Cell) {
    c.generation.disposition.CleanupConfirmed?
  }

  datatype Operation =
    | InsertGeneration(row: Generation)
    | UpdateGeneration(id: string, row: Generation)
    | DeleteGeneration(id: string)
    | InsertPayload(id: string, owner: Owner, payload: Payload)
    | UpdatePayload(id: string, owner: Owner, payload: Payload)
    | DeletePayload(id: string, owner: Owner)
    | InsertReceipt(id: string, owner: Owner, receipt: Receipt)
    | UpdateReceipt(id: string, owner: Owner, receipt: Receipt)
    | DeleteReceipt(id: string, owner: Owner)

  function Target(op: Operation): string {
    if op.InsertGeneration? then op.row.audit.id else op.id
  }

  /** Generation inserts and updates and payload inserts and deletes queue a deferred check. */
  predicate Queues(op: Operation) {
    op.InsertGeneration? || op.UpdateGeneration? || op.InsertPayload? || op.DeletePayload?
  }

  datatype Error =
    | DeleteForbidden | GenerationImmutable | TransitionInvalid | CleanupProofInvalid
    | InsertInvalid | PayloadImmutable | PayloadStateInvalid | ReceiptImmutable | ReceiptInvalid
    | ConstraintViolated

  /** What the guards and constraints say of a row statement. */
  datatype Verdict<T> = Refused(error: Error) | Unmatched | Accepted(row: T)

  predicate Moves(from: Disposition, to: Disposition) {
    || (from.Validated? && (to.Promoted? || to.Orphan?))
    || (from.Promoted? && to.Retired?)
    || ((from.Retired? || from.Orphan?) && to.CleanupConfirmed?)
  }

  function UpdateRow(old_: Generation, new_: Generation, clock: int): (r: Verdict<Generation>)
    ensures r.Accepted? ==>
              && r.row.audit == old_.audit && Moves(old_.disposition, r.row.disposition)
              && r.row.changedAt == Some(clock) && GenerationChecks(r.row)
  {
    if new_.audit != old_.audit then Refused(GenerationImmutable)
    else if !Moves(old_.disposition, new_.disposition) then Refused(TransitionInvalid)
    else if new_.disposition.CleanupConfirmed? && (new_.proof.None? || old_.proof.Some?) then
      Refused(CleanupProofInvalid)
    else
      var stamped := new_.(changedAt := Some(clock));
      if GenerationChecks(stamped) then Accepted(stamped) else Refused(ConstraintViolated)
  }

  function InsertRow(row: Generation): (r: Verdict<Cell>) {
    if !row.disposition.Validated? || row.proof.Some? || row.changedAt.Some? then Refused(InsertInvalid)
    else if GenerationChecks(row) then Accepted(Cell(row, map[], map[], [Inserted]))
    else Refused(ConstraintViolated)
  }

  function PayloadRow(c: Cell, op: Operation): (r: Verdict<Cell>)
    requires op.InsertPayload? || op.DeletePayload?
  {
    if op.InsertPayload? then
      if Confirmed(c) then Refused(PayloadStateInvalid)
      else if !PayloadChecks(op.payload) || op.owner in c.payloads || op.owner != c.generation.audit.owner then
        Refused(ConstraintViolated)
      else Accepted(c.(payloads := c.payloads[op.owner := op.payload], log := c.log + [PayloadInserted]))
    else if op.owner !in c.payloads then Unmatched
    else if !Confirmed(c) then Refused(PayloadStateInvalid)
    else Accepted(c.(payloads := c.payloads - {op.owner}, log := c.log + [PayloadDeleted]))
  }

  function ReceiptRow(c: Cell, owner: Owner, r: Receipt): (o: Verdict<Cell>) {
    var a := c.generation.audit;
    if || owner != a.owner || Confirmed(c) || r.providerKey != a.providerKey
       || r.captureOperation != a.captureOperation || r.reference != a.reference
    then Refused(ReceiptInvalid)
    else if !ReceiptChecks(r) || owner in c.receipts then Refused(ConstraintViolated)
    else Accepted(c.(receipts := c.receipts[owner := r], log := c.log + [ReceiptInserted(r.proof)]))
  }

  /** A row statement against the cell its transaction sees: guards, then CHECKs and keys. */
  function Apply(view: Option<Cell>, op: Operation, clock: int): (r: Verdict<Cell>) {
    match view
    case None =>
      (match op
       case InsertGeneration(row) => InsertRow(row)
       case InsertPayload(_, _, _) => Refused(PayloadStateInvalid)
       case InsertReceipt(_, _, _) => Refused(ReceiptInvalid)
       case _ => Unmatched)
    case Some(c) =>
      (match op
       case InsertGeneration(row) =>
         if InsertRow(row).Accepted? then Refused(ConstraintViolated) else InsertRow(row)
       case UpdateGeneration(_, row) =>
         (match UpdateRow(c.generation, row, clock)
          case Refused(e) => Refused(e)
          case Unmatched => Unmatched
          case Accepted(g) =>
            Accepted(c.(generation := g, log := c.log + [Updated(g.disposition, g.proof, clock)])))
       case DeleteGeneration(_) => Refused(DeleteForbidden)
       case InsertPayload(_, _, _) => PayloadRow(c, op)
       case DeletePayload(_, _) => PayloadRow(c, op)
       case UpdatePayload(_, owner, _) => if owner in c.payloads then Refused(PayloadImmutable) else Unmatched
       case InsertReceipt(_, owner, receipt) => ReceiptRow(c, owner, receipt)
       case UpdateReceipt(_, owner, _) => if owner in c.receipts then Refused(ReceiptImmutable) else Unmatched
       case DeleteReceipt(_, owner) => if owner in c.receipts then Refused(ReceiptImmutable) else Unmatched)
  }

  /**
   * The deferred check at commit. The two proofs are compared as SQL does: a missing confirmed
   * proof makes the comparison unknown, and an unknown comparison raises nothing.
   */
  predicate CheckPasses(c: Cell) {
    && (Confirmed(c) <==> |c.payloads| == 0)
    && (Confirmed(c) ==>
          exists o :: o in c.receipts &&
            (c.generation.proof.None? || c.receipts[o].proof == c.generation.proof.value))
  }

  /** The unique keys over provider and reference, and over provider and capture operation. */
  predicate Clash(a: Cell, b: Cell) {
    var x, y := a.generation.audit, b.generation.audit;
    x.providerKey == y.providerKey && (x.reference == y.reference || x.captureOperation == y.captureOperation)
  }

  // ---------------------------------------------------------------- the schema as transaction rules

  datatype Statement = Statement(op: Operation, clock: int)

  function ApplyStatement(view: Option<Cell>, st: Statement): (r: Outcome<Cell>) {
    match Apply(view, st.op, st.clock)
    case Refused(_) => Rejected
    case Unmatched => NoRow
    case Accepted(c) => Changed(c)
  }

  function Schema(): Rules<Cell, Statement> {
    Rules(ApplyStatement, (st: Statement) => Target(st.op), (st: Statement) => Queues(st.op), CheckPasses, Clash)
  }

  // ---------------------------------------------------------------- the per-generation automaton

  /** What the log of a generation says about it. */
  datatype Track = Track(
    disposition: Disposition, proof: Option<Octets>, changedAt: Option<int>, payload: bool, receipt: Option<Octets>)

  function Advance(t: Track, c: Change): Track {
    match c
    case Migrated(d) => Track(d, None, None, true, None)
    case Inserted => Track(Validated, None, None, false, None)
    case Updated(d, proof, at) => t.(disposition := d, proof := proof, changedAt := Some(at))
    case PayloadInserted => t.(payload := true)
    case PayloadDeleted => t.(payload := false)
    case ReceiptInserted(proof) => t.(receipt := Some(proof))
  }

  function Tracked(log: seq<Change>): Track {
    if log == [] then Track(Validated, None, None, false, None)
    else Advance(Tracked(log[..|log| - 1]), log[|log| - 1])
  }

  predicate Starts(c: Change) {
    c.Inserted? || (c.Migrated? && !c.from.CleanupConfirmed?)
  }

  predicate Follows(t: Track, c: Change) {
    match c
    case Migrated(_) => false
    case Inserted => false
    case Updated(d, proof, _) => Moves(t.disposition, d) && (d.CleanupConfirmed? <==> proof.Some?)
    case PayloadInserted => !t.disposition.CleanupConfirmed? && !t.payload
    case PayloadDeleted => t.disposition.CleanupConfirmed? && t.payload
    case ReceiptInserted(_) => !t.disposition.CleanupConfirmed? && t.receipt.None?
  }

  predicate Legal(log: seq<Change>) {
    if |log| == 0 then false
    else if |log| == 1 then Starts(log[0])
    else Legal(log[..|log| - 1]) && Follows(Tracked(log[..|log| - 1]), log[|log| - 1])
  }

  function Summary(c: Cell): Track {
    var owner := c.generation.audit.owner;
    Track(c.generation.disposition, c.generation.proof, c.generation.changedAt, owner in c.payloads,
          if owner in c.receipts then Some(c.receipts[owner].proof) else None)
  }

  // ---------------------------------------------------------------- invariant

  ghost predicate Copies(r: Receipt, a: Audit) {
    r.providerKey == a.providerKey && r.captureOperation == a.captureOperation && r.reference == a.reference
  }

  /** What every statement keeps, committed or not. */
  ghost predicate Sound(id: string, c: Cell) {
    var owner := c.generation.audit.owner;
    && c.generation.audit.id == id && GenerationChecks(c.generation)
    && c.payloads.Keys <= {owner} && c.receipts.Keys <= {owner}
    && (owner in c.receipts ==> Copies(c.receipts[owner], c.generation.audit) && |c.receipts[owner].proof| == 32)
    && Legal(c.log) && Tracked(c.log) == Summary(c)
  }

  /** What the deferred check adds: a payload exactly until confirmation, and then one matching receipt. */
  ghost predicate Consistent(c: Cell) {
    var owner := c.generation.audit.owner;
    && c.payloads.Keys == (if Confirmed(c) then {} else {owner})
    && (Confirmed(c) ==>
          && c.receipts.Keys == {owner}
          && c.generation.proof == Some(c.receipts[owner].proof))
  }

  /** The audit fields never change, the log grows, and a completed cleanup is final. */
  ghost predicate Succeeds(a: Cell, b: Cell) {
    && a.generation.audit == b.generation.audit
    && a.log <= b.log
    && (Confirmed(a) && a.payloads == map[] ==> a == b)
  }

  ghost function Cleanup(): Claim<Cell> {
    Claim(Sound, Consistent, Succeeds)
  }

  // ---------------------------------------------------------------- one statement

  lemma Appended(log: seq<Change>, c: Change)
    requires Legal(log) && Follows(Tracked(log), c)
    ensures Legal(log + [c]) && Tracked(log + [c]) == Advance(Tracked(log), c)
  {
    assert (log + [c])[..|log|] == log;
  }

  lemma InsertKeeps(row: Generation)
    requires InsertRow(row).Accepted?
    ensures Sound(row.audit.id, InsertRow(row).row)
  {
    assert Tracked([]) == Track(Validated, None, None, false, None);
    assert Tracked([Inserted]) == Advance(Tracked([Inserted][..0]), Inserted);
  }

  lemma UpdateKeeps(c: Cell, id: string, g: Generation, clock: int)
    requires Sound(id, c) && UpdateRow(c.generation, g, clock).Accepted?
    ensures !Confirmed(c)
    ensures var h := UpdateRow(c.generation, g, clock).row;
            Sound(id, c.(generation := h, log := c.log + [Updated(h.disposition, h.proof, clock)]))
  {
    var h := UpdateRow(c.generation, g, clock).row;
    Appended(c.log, Updated(h.disposition, h.proof, clock));
  }

  lemma PayloadKeeps(c: Cell, op: Operation)
    requires Sound(Target(op), c) && (op.InsertPayload? || op.DeletePayload?) && PayloadRow(c, op).Accepted?
    ensures Sound(Target(op), PayloadRow(c, op).row)
    ensures Confirmed(c) ==> op.DeletePayload? && c.payloads != map[]
  {
    Appended(c.log, if op.InsertPayload? then PayloadInserted else PayloadDeleted);
  }

  lemma ReceiptKeeps(c: Cell, id: string, owner: Owner, r: Receipt)
    requires Sound(id, c) && ReceiptRow(c, owner, r).Accepted?
    ensures Sound(id, ReceiptRow(c, owner, r).row) && !Confirmed(c)
  {
    Appended(c.log, ReceiptInserted(r.proof));
  }

  /** A statement that changes a row keeps the cell sound; after confirmation only the payload can go. */
  lemma {:induction false} ApplyKeeps(c: Cell, op: Operation, clock: int)
    requires Sound(Target(op), c) && Apply(Some(c), op, clock).Accepted?
    ensures Sound(Target(op), Apply(Some(c), op, clock).row)
    ensures Succeeds(c, Apply(Some(c), op, clock).row)
    ensures Confirmed(c) ==> op.DeletePayload?
  {
    if op.UpdateGeneration? {
      UpdateKeeps(c, op.id, op.row, clock);
    } else if op.InsertReceipt? {
      ReceiptKeeps(c, op.id, op.owner, op.receipt);
    } else {
      PayloadKeeps(c, op);
    }
  }

  /** A receipt insert queues no check and needs none. */
  lemma ReceiptNeedsNoCheck(c: Cell, op: Operation, clock: int)
    requires Consistent(c) && Apply(Some(c), op, clock).Accepted? && !Queues(op)
    ensures op.InsertReceipt? && Consistent(Apply(Some(c), op, clock).row)
  {
  }

  lemma CheckMeans(id: string, c: Cell)
    requires Sound(id, c)
    ensures CheckPasses(c) <==> Consistent(c)
  {
    var owner := c.generation.audit.owner;
    assert |c.payloads| == 0 <==> c.payloads == map[];
    assert c.payloads.Keys == {} || c.payloads.Keys == {owner};
    if c.payloads.Keys == {owner} { assert owner in c.payloads; }
  }

  // ---------------------------------------------------------------- the log of one generation

  function Count(log: seq<Change>, p: Change -> bool): nat {
    if log == [] then 0 else Count(log[..|log| - 1], p) + if p(log[|log| - 1]) then 1 else 0
  }

  const IS_UPDATE := (c: Change) => c.Updated?
  const IS_RECEIPT := (c: Change) => c.ReceiptInserted?
  const IS_PAYLOAD := (c: Change) => c.PayloadInserted? || c.Migrated?
  const IS_DELETE := (c: Change) => c.PayloadDeleted?

  function Rank(d: Disposition): nat {
    match d
    case Validated => 0
    case Promoted => 1
    case Retired => 2
    case Orphan => 2
    case CleanupConfirmed => 3
  }

  /** Updates climb the disposition ranks; receipts and payloads appear at most once. */
  lemma {:induction false} LogCounts(log: seq<Change>)
    requires Legal(log)
    ensures Count(log, IS_UPDATE) <= Rank(Tracked(log).disposition) <= 3
    ensures Count(log, IS_RECEIPT) == if Tracked(log).receipt.Some? then 1 else 0
    ensures Count(log, IS_PAYLOAD) <= 1
    ensures Count(log, IS_PAYLOAD) == Count(log, IS_DELETE) + if Tracked(log).payload then 1 else 0
    ensures !Tracked(log).disposition.CleanupConfirmed? ==> Count(log, IS_DELETE) == 0
    ensures Tracked(log).disposition.CleanupConfirmed? <==> Tracked(log).proof.Some?
  {
    var before := log[..|log| - 1];
    assert Tracked([]) == Track(Validated, None, None, false, None);
    if |log| == 1 {
      assert before == [];
    } else {
      LogCounts(before);
    }
  }

  lemma {:induction false} SchemaKept()
    ensures Kept(Schema(), Cleanup())
  {
    forall view: Option<Cell>, st: Statement |
      (view.Some? ==> Sound(Target(st.op), view.value)) && ApplyStatement(view, st).Changed?
      ensures StatementKeeps(Schema(), Cleanup(), view, st, ApplyStatement(view, st).cell)
    {
      if view.None? {
        InsertKeeps(st.op.row);
      } else {
        ApplyKeeps(view.value, st.op, st.clock);
        if !Queues(st.op) && Consistent(view.value) { ReceiptNeedsNoCheck(view.value, st.op, st.clock); }
      }
    }
    forall i, c | Sound(i, c) && CheckPasses(c) ensures Consistent(c) { CheckMeans(i, c); }
  }

  // ---------------------------------------------------------------- migration

  datatype Legacy = Legacy(generation: Generation, payload: Payload)

  /** Refuses a table with confirmed rows; otherwise moves every payload into its own row. */
  function Migrate(rows: map<string, Legacy>): (base: Option<map<string, Cell>>) {
    if exists id :: id in rows && rows[id].generation.disposition.CleanupConfirmed? then None
    else
      Some(map id | id in rows :: var g := rows[id].generation;
             Cell(g, map[g.audit.owner := rows[id].payload], map[], [Migrated(g.disposition)]))
  }

  /** The row CHECKs and unique keys of the table before the migration. */
  ghost predicate LegacyTable(rows: map<string, Legacy>) {
    && (forall id :: id in rows ==>
          && rows[id].generation.audit.id == id && GenerationChecks(rows[id].generation)
          && rows[id].generation.changedAt.None? && PayloadChecks(rows[id].payload))
    && (forall i, j :: i in rows && j in rows && i != j ==>
          var x, y := rows[i].generation.audit, rows[j].generation.audit;
          !(x.providerKey == y.providerKey
            && (x.reference == y.reference || x.captureOperation == y.captureOperation)))
  }

  lemma MigratedIsSound(g: Generation, p: Payload)
    requires GenerationChecks(g) && g.changedAt.None? && !g.disposition.CleanupConfirmed?
    ensures var c := Cell(g, map[g.audit.owner := p], map[], [Migrated(g.disposition)]);
            Sound(g.audit.id, c) && Consistent(c)
  {
    assert Tracked([]) == Track(Validated, None, None, false, None);
    assert Tracked([Migrated(g.disposition)]) == Advance(Tracked([Migrated(g.disposition)][..0]), Migrated(g.disposition));
  }

  lemma MigratedAreApart(rows: map<string, Legacy>)
    requires LegacyTable(rows) && Migrate(rows).Some?
    ensures Distinct(Schema(), State(Migrate(rows).value, map[]))
  {
    var s := State(Migrate(rows).value, map[]);
    forall h, k ensures Apart(Schema(), Cells(s, h), Cells(s, k)) {
      forall i, j | i in Cells(s, h) && j in Cells(s, k) && i != j ensures !Clash(Cells(s, h)[i], Cells(s, k)[j]) {
        assert i in rows && j in rows;
      }
    }
  }

  lemma {:induction false} MigrationEstablishes(rows: map<string, Legacy>)
    requires LegacyTable(rows) && Migrate(rows).Some?
    ensures Inv(Schema(), Cleanup(), State(Migrate(rows).value, map[]))
  {
    var s := State(Migrate(rows).value, map[]);
    MigratedAreApart(rows);
    forall i | i in s.committed ensures Sound(i, s.committed[i]) && Consistent(s.committed[i]) {
      MigratedIsSound(rows[i].generation, rows[i].payload);
    }
  }

  // ---------------------------------------------------------------- main results

  /** A run of interleaved transactions from the migrated table. */
  ghost function History(rows: map<string, Legacy>, es: seq<Event<Statement>>): State<Cell>
    requires Migrate(rows).Some?
  {
    Run(Schema(), State(Migrate(rows).value, map[]), es)
  }

  lemma {:induction false} HistoryKeeps(rows: map<string, Legacy>, es: seq<Event<Statement>>)
    requires LegacyTable(rows) && Migrate(rows).Some?
    ensures Inv(Schema(), Cleanup(), History(rows, es))
  {
    SchemaKept();
    MigrationEstablishes(rows);
    RunKeeps(Schema(), Cleanup(), State(Migrate(rows).value, map[]), es);
  }

  /**
   * After every interleaving, a committed generation has a payload exactly when it is not
   * confirmed, and a confirmed one has exactly one receipt, whose proof is its cleanup proof.
   */
  lemma {:induction false} PayloadIffNotConfirmed(rows: map<string, Legacy>, es: seq<Event<Statement>>, id: string)
    requires LegacyTable(rows) && Migrate(rows).Some? && id in History(rows, es).committed
    ensures var c := History(rows, es).committed[id];
            && (Confirmed(c) <==> |c.payloads| == 0) && |c.payloads| <= 1
            && (Confirmed(c) ==>
                  && |c.receipts| == 1
                  && forall o :: o in c.receipts ==>
                       o == c.generation.audit.owner && Some(c.receipts[o].proof) == c.generation.proof)
  {
    HistoryKeeps(rows, es);
    var c := History(rows, es).committed[id];
    assert Sound(id, c) && Consistent(c);
    assert |c.payloads| == |c.payloads.Keys| && |c.receipts| == |c.receipts.Keys|;
  }

  /** Later transactions keep the audit fields of a committed generation; a confirmed cell is final. */
  lemma {:induction false} ConfirmedIsFinal(rows: map<string, Legacy>, es: seq<Event<Statement>>, later: seq<Event<Statement>>, id: string)
    requires LegacyTable(rows) && Migrate(rows).Some? && id in History(rows, es).committed
    ensures var end := Run(Schema(), History(rows, es), later).committed;
            && id in end
            && end[id].generation.audit == History(rows, es).committed[id].generation.audit
            && History(rows, es).committed[id].log <= end[id].log
            && (Confirmed(History(rows, es).committed[id]) ==> end[id] == History(rows, es).committed[id])
  {
    SchemaKept();
    HistoryKeeps(rows, es);
    RunKeeps(Schema(), Cleanup(), History(rows, es), later);
    var c := History(rows, es).committed[id];
    assert Consistent(c);
    var end := Run(Schema(), History(rows, es), later).committed;
    assert Cleanup().succeeds(c, end[id]);
  }

  /** Two receipts of different generations never name the same provider and generation reference. */
  lemma ReceiptsIdentifyOne(rows: map<string, Legacy>, es: seq<Event<Statement>>, i: string, j: string, o: Owner, p: Owner)
    requires LegacyTable(rows) && Migrate(rows).Some? && i != j
    requires var end := History(rows, es).committed;
             i in end && j in end && o in end[i].receipts && p in end[j].receipts
    ensures var end := History(rows, es).committed;
            var x, y := end[i].receipts[o], end[j].receipts[p];
            x.providerKey == y.providerKey ==>
              x.reference != y.reference && x.captureOperation != y.captureOperation
  {
    HistoryKeeps(rows, es);
    var s := History(rows, es);
    assert Sound(i, s.committed[i]) && Sound(j, s.committed[j]);
    assert Apart(Schema(), Cells(s, None), Cells(s, None));
    assert !Schema().clash(s.committed[i], s.committed[j]);
  }

  /** The receipt at `r` came before the confirmation at `k`, and after it only the payload deletion. */
  ghost predicate CleanedInOrder(log: seq<Change>, k: nat, r: nat) {
    && r < k < |log|
    && log[k].Updated? && log[k].to.CleanupConfirmed?
    && log[r].ReceiptInserted? && log[k].proof == Some(log[r].digest)
    && log[k + 1..] == if Count(log, IS_PAYLOAD) == 1 then [PayloadDeleted] else []
  }

  lemma {:induction false} ReceiptRecorded(log: seq<Change>)
    requires Legal(log) && Tracked(log).receipt.Some?
    ensures exists r :: 0 <= r < |log| && log[r] == ReceiptInserted(Tracked(log).receipt.value)
  {
    var n := |log| - 1;
    if log[n].ReceiptInserted? {
      assert log[n] == ReceiptInserted(Tracked(log).receipt.value);
    } else {
      ReceiptRecorded(log[..n]);
      var r :| 0 <= r < n && log[..n][r] == ReceiptInserted(Tracked(log[..n]).receipt.value);
      assert log[r] == ReceiptInserted(Tracked(log).receipt.value);
    }
  }

  lemma ConfirmationIsLast(log: seq<Change>)
    requires Legal(log) && Tracked(log).disposition.CleanupConfirmed? && !log[|log| - 1].PayloadDeleted?
    ensures |log| > 1 && log[|log| - 1].Updated? && log[|log| - 1].to.CleanupConfirmed?
    ensures log[|log| - 1].proof == Tracked(log).proof
    ensures Tracked(log[..|log| - 1]).payload == Tracked(log).payload
    ensures Tracked(log[..|log| - 1]).receipt == Tracked(log).receipt
  {
    assert Tracked([]) == Track(Validated, None, None, false, None);
  }

  lemma CleanupOrder(log: seq<Change>)
    requires Legal(log)
    requires var t := Tracked(log); t.disposition.CleanupConfirmed? && !t.payload && t.receipt.Some? && t.receipt == t.proof
    ensures exists k, r :: CleanedInOrder(log, k, r)
  {
    LogCounts(log);
    var n := |log| - 1;
    var k := if log[n].PayloadDeleted? then n - 1 else n;
    if k < n {
      assert Count(log, IS_DELETE) == Count(log[..n], IS_DELETE) + 1;
      ConfirmationIsLast(log[..n]);
      assert log[..n][..k] == log[..k] && log[k + 1..] == [PayloadDeleted];
    } else {
      ConfirmationIsLast(log);
      LogCounts(log[..n]);
      assert Count(log, IS_PAYLOAD) == Count(log[..n], IS_PAYLOAD) == 0;
    }
    ReceiptRecorded(log[..k]);
    var r :| 0 <= r < k && log[..k][r] == ReceiptInserted(Tracked(log[..k]).receipt.value);
    assert CleanedInOrder(log, k, r);
  }

  /**
   * The committed log of a generation holds at most three updates and one receipt. A confirmed
   * generation was cleaned in one order only: receipt, confirmation, payload deletion.
   */
  lemma CommittedLog(rows: map<string, Legacy>, es: seq<Event<Statement>>, id: string)
    requires LegacyTable(rows) && Migrate(rows).Some? && id in History(rows, es).committed
    ensures var c := History(rows, es).committed[id];
            && Count(c.log, IS_UPDATE) <= 3 && Count(c.log, IS_RECEIPT) <= 1
            && Count(c.log, IS_PAYLOAD) <= 1
            && (Confirmed(c) ==> exists k, r :: CleanedInOrder(c.log, k, r))
            && (!Confirmed(c) ==> Count(c.log, IS_DELETE) == 0 && Count(c.log, IS_PAYLOAD) == 1)
  {
    HistoryKeeps(rows, es);
    var c := History(rows, es).committed[id];
    assert Sound(id, c) && Consistent(c);
    LogCounts(c.log);
    if Confirmed(c) { CleanupOrder(c.log); }
  }

  // ---------------------------------------------------------------- generations without a payload

  lemma {:induction false} CountGrows(before: seq<Change>, after: seq<Change>, p: Change -> bool)
    requires before <= after
    ensures Count(before, p) <= Count(after, p)
    decreases |after|
  {
    if |before| < |after| {
      CountGrows(before, after[..|after| - 1], p);
    } else {
      assert before == after;
    }
  }

  /** A generation that was ever committed unconfirmed had exactly one payload, then and ever after. */
  lemma UnconfirmedHadPayload(rows: map<string, Legacy>, es: seq<Event<Statement>>, later: seq<Event<Statement>>, id: string)
    requires LegacyTable(rows) && Migrate(rows).Some? && id in History(rows, es).committed
    requires !Confirmed(History(rows, es).committed[id])
    ensures var end := Run(Schema(), History(rows, es), later).committed;
            id in end && Count(end[id].log, IS_PAYLOAD) == 1
  {
    CommittedLog(rows, es, id);
    ConfirmedIsFinal(rows, es, later, id);
    SchemaKept();
    HistoryKeeps(rows, es);
    RunKeeps(Schema(), Cleanup(), History(rows, es), later);
    var before, after := History(rows, es).committed[id], Run(Schema(), History(rows, es), later).committed[id];
    assert Sound(id, after);
    LogCounts(after.log);
    CountGrows(before.log, after.log, IS_PAYLOAD);
  }

  /** A transaction that is alone in an empty database and has written one generation. */
  ghost function Solo(id: string, c: Cell, queued: seq<string>): State<Cell> {
    State(map[], map[0 := Work(map[id := c], queued)])
  }

  lemma SoloExecutes(id: string, c: Cell, queued: seq<string>, st: Statement, c': Cell)
    requires Target(st.op) == id && ApplyStatement(Some(c), st) == Changed(c')
    ensures Step(Schema(), Solo(id, c, queued), Execute(0, st)) ==
              Solo(id, c', if Queues(st.op) then queued + [id] else queued)
  {
    var s := Solo(id, c, queued);
    assert !Held(s, 0, id) && View(s, 0, id) == Some(c);
    assert map[id := c][id := c'] == map[id := c'];
  }

  lemma SoloInserts(id: string, st: Statement, c: Cell)
    requires Target(st.op) == id && Queues(st.op) && ApplyStatement(None, st) == Changed(c)
    ensures Step(Schema(), State(map[], map[0 := Work(map[], [])]), Execute(0, st)) == Solo(id, c, [id])
  {
    var s: State<Cell> := State(map[], map[0 := Work(map[], [])]);
    assert !Held(s, 0, id) && View(s, 0, id) == None;
    assert [] + [id] == [id];
  }

  lemma SoloCommits(id: string, c: Cell, queued: seq<string>)
    requires CheckPasses(c) && forall k :: 0 <= k < |queued| ==> queued[k] == id
    ensures Step(Schema(), Solo(id, c, queued), Commit(0)).committed == map[id := c]
  {
    var w := Work(map[id := c], queued);
    assert forall k :: 0 <= k < |queued| ==> Passes(Schema(), w, queued[k]);
  }

  /** Insert, orphan, receipt, confirm: one generation's whole life in one transaction. */
  function Shortcut(a: Audit, proof: Octets): seq<Event<Statement>> {
    [Begin(0), Execute(0, Statement(InsertGeneration(Generation(a, Validated, None, None)), 1)),
     Execute(0, Statement(UpdateGeneration(a.id, Generation(a, Orphan, None, None)), 2)),
     Execute(0, Statement(InsertReceipt(a.id, a.owner, ReceiptFor(a, proof)), 3)),
     Execute(0, Statement(UpdateGeneration(a.id, Generation(a, CleanupConfirmed, Some(proof), None)), 4)),
     Commit(0)]
  }

  function ReceiptFor(a: Audit, proof: Octets): Receipt {
    Receipt(a.providerKey, a.captureOperation, a.reference, proof, 3)
  }

  /** The generation after each statement of the shortcut. */
  function Stage(a: Audit, proof: Octets, n: nat): Cell {
    if n == 0 then Cell(Generation(a, Validated, None, None), map[], map[], [Inserted])
    else if n == 1 then
      Cell(Generation(a, Orphan, None, Some(2)), map[], map[], [Inserted, Updated(Orphan, None, 2)])
    else if n == 2 then
      Stage(a, proof, 1).(receipts := map[a.owner := ReceiptFor(a, proof)],
                          log := [Inserted, Updated(Orphan, None, 2), ReceiptInserted(proof)])
    else
      Cell(Generation(a, CleanupConfirmed, Some(proof), Some(4)), map[], map[a.owner := ReceiptFor(a, proof)],
           [Inserted, Updated(Orphan, None, 2), ReceiptInserted(proof), Updated(CleanupConfirmed, Some(proof), 4)])
  }

  /** The checks queued after each statement of the shortcut. */
  function Queue(id: string, n: nat): seq<string> {
    if n == 0 then [id] else if n < 3 then [id, id] else [id, id, id]
  }

  lemma {:induction false} StageFollows(a: Audit, proof: Octets, n: nat)
    requires AuditChecks(a) && |proof| == 32 && 1 <= n <= 3
    ensures var e := Shortcut(a, proof)[n + 1];
            && e.Execute? && e.t == 0 && Target(e.op.op) == a.id
            && ApplyStatement(Some(Stage(a, proof, n - 1)), e.op) == Changed(Stage(a, proof, n))
            && Queue(a.id, n) == if Queues(e.op.op) then Queue(a.id, n - 1) + [a.id] else Queue(a.id, n - 1)
  {
    var before, after := Stage(a, proof, n - 1), Stage(a, proof, n);
    assert after.log == before.log + [after.log[n]];
    assert map[][a.owner := ReceiptFor(a, proof)] == map[a.owner := ReceiptFor(a, proof)];
  }

  lemma ShortcutBegins(a: Audit, proof: Octets)
    requires AuditChecks(a) && |proof| == 32
    ensures Run(Schema(), State(map[], map[]), Shortcut(a, proof)[..2]) == Solo(a.id, Stage(a, proof, 0), [a.id])
  {
    var es := Shortcut(a, proof);
    var start: State<Cell> := State(map[], map[]);
    RunPrefix(start, es, 0);
    RunPrefix(start, es, 1);
    assert Step(Schema(), start, es[0]) == State(map[], map[0 := Work(map[], [])]);
    SoloInserts(a.id, es[1].op, Stage(a, proof, 0));
  }

  lemma {:induction false} ShortcutRuns(a: Audit, proof: Octets, n: nat)
    requires AuditChecks(a) && |proof| == 32 && n <= 3
    ensures Run(Schema(), State(map[], map[]), Shortcut(a, proof)[..n + 2]) == Solo(a.id, Stage(a, proof, n), Queue(a.id, n))
  {
    if n == 0 {
      ShortcutBegins(a, proof);
    } else {
      ShortcutRuns(a, proof, n - 1);
      StageFollows(a, proof, n);
      SoloExecutes(a.id, Stage(a, proof, n - 1), Queue(a.id, n - 1), Shortcut(a, proof)[n + 1].op, Stage(a, proof, n));
      RunPrefix(State(map[], map[]), Shortcut(a, proof), n + 1);
    }
  }

  lemma RunPrefix(s: State<Cell>, es: seq<Event<Statement>>, k: nat)
    requires k < |es|
    ensures Run(Schema(), s, es[..0]) == s
    ensures Run(Schema(), s, es[..k + 1]) == Step(Schema(), Run(Schema(), s, es[..k]), es[k])
  {
    RunAppend(Schema(), s, es[..k], es[k]);
    assert es[..k + 1] == es[..k] + [es[k]] && es[..0] == [];
  }

  /**
   * From an empty table, every generation within its CHECKs can be inserted, orphaned, receipted and
   * confirmed in one transaction, and then it is committed without ever having had a payload.
   */
  lemma {:induction false} ConfirmedWithoutPayload(a: Audit, proof: Octets)
    requires AuditChecks(a) && |proof| == 32
    ensures LegacyTable(map[]) && Migrate(map[]).Some?
    ensures var end := History(map[], Shortcut(a, proof)).committed;
            a.id in end && Confirmed(end[a.id]) && Count(end[a.id].log, IS_PAYLOAD) == 0
  {
    assert Migrate(map[]).value == map[];
    ShortcutCommits(a, proof);
    LastStage(a, proof);
  }

  lemma {:induction false} ShortcutCommits(a: Audit, proof: Octets)
    requires AuditChecks(a) && |proof| == 32
    ensures Run(Schema(), State(map[], map[]), Shortcut(a, proof)).committed == map[a.id := Stage(a, proof, 3)]
  {
    var es := Shortcut(a, proof);
    ShortcutRuns(a, proof, 3);
    RunPrefix(State(map[], map[]), es, 5);
    assert es[..6] == es;
    LastStage(a, proof);
    SoloCommits(a.id, Stage(a, proof, 3), Queue(a.id, 3));
  }

  lemma LastStage(a: Audit, proof: Octets)
    ensures var c := Stage(a, proof, 3); Confirmed(c) && CheckPasses(c) && Count(c.log, IS_PAYLOAD) == 0
  {
    var c := Stage(a, proof, 3);
    assert a.owner in c.receipts;
    NoPayloadIn(c.log);
  }

  lemma {:induction false} NoPayloadIn(log: seq<Change>)
    requires forall i :: 0 <= i < |log| ==> !IS_PAYLOAD(log[i])
    ensures Count(log, IS_PAYLOAD) == 0
    decreases |log|
  {
    if log != [] { NoPayloadIn(log[..|log| - 1]); }
  }

  /** A database opened on the migrated table, in which the cleanup claim holds from then on. */
  method OpenMigrated(rows: map<string, Legacy>) returns (db: Option<Database<Cell, Statement>>)
    requires LegacyTable(rows)
    ensures db.None? <==> exists id :: id in rows && rows[id].generation.disposition.CleanupConfirmed?
    ensures db.Some? ==> db.value.Valid() && db.value.claim == Cleanup() && db.value.rules == Schema()
                         && Migrate(rows) == Some(db.value.base)
  {
    var base := Migrate(rows);
    if base.None? { return None; }
    SchemaKept();
    MigrationEstablishes(rows);
    var opened_ := new Database<Cell, Statement>(Schema(), base.value, Cleanup());
    return Some(opened_);
  }
}
