/**
 * The row of a browser run: its CHECK constraints, the trigger that guards every update, and what
 * holds over each accepted history of updates. SQL NULL is `None`.
 */
module BrowserRun {
  import opened Values

  datatype CaptureStatus = NotRequested | Prepared | Sent | Unknown | Validated | Promoted | CaptureFailed | Quarantined
  datatype Status = Running | WaitingUser | Completed | Failed | Cancelled
  datatype Phase = Queued | Acquiring | PhaseRunning | Verifying | PhaseWaiting
  datatype Effect = NotSent | Acknowledged | EffectUnknown
  datatype Verification = Verified | Mismatch | Incomplete | Unsupported
  datatype Cleanup = Pending | Released | Terminated | CleanupQuarantined | CleanupFailed

  /** The columns that identify the run and its authorized input. */
  datatype Input = Input(
    runId: string, taskId: string, tenant: string, user: string, session: string, targetSystem: string,
    binding: string, bindingRevision: int, evidenceVersion: string, authFingerprint: Octets, authExpiresAt: int,
    publication: Octets, inputRevision: int, inputDigest: Octets, cipherVersion: string, keyId: string,
    nonce: Octets, ciphertext: Octets, createdAt: int)

  datatype Provider = Provider(key: Option<string>, manifest: Option<Octets>, leaseEpoch: Option<int>)

  datatype Worker = Worker(id: Option<string>, deadline: Option<int>, epoch: int)

  datatype Result = Result(
    digest: Option<Octets>, cipherVersion: Option<string>, keyId: Option<string>, nonce: Option<Octets>,
    ciphertext: Option<Octets>)

  datatype Row = Row(
    input: Input, provider: Provider, generation: Option<string>, captureOperation: Option<string>,
    capture: CaptureStatus, worker: Worker, status: Status, phase: Option<Phase>, revision: int,
    cancelRequested: bool, cancelAcknowledged: bool, effect: Effect, verification: Option<Verification>,
    evidence: Option<Octets>, cleanup: Cleanup, error: Option<string>, dispatchFailure: Option<string>,
    terminalRevision: Option<int>, terminalEvent: Option<string>, result: Result, updatedAt: int)

  // ---------------------------------------------------------------- CHECKs

  predicate IsCode(s: string) {
    && 1 <= |s| <= 96 && 'a' <= s[0] <= 'z'
    && forall i :: 0 <= i < |s| ==> 'a' <= s[i] <= 'z' || '0' <= s[i] <= '9' || s[i] == '_'
  }

  predicate Active(s: Status) {
    s.Running? || s.WaitingUser?
  }

  predicate InputChecks(i: Input) {
    && IsName(i.runId) && i.targetSystem in {"oa", "u8", "hikvision_ivms"}
    && 1 <= i.bindingRevision <= MAX_REVISION && 1 <= i.inputRevision <= MAX_REVISION
    && i.evidenceVersion == "verified-session-v1" && i.cipherVersion == "aes256gcm-browser-input-v1"
    && |i.authFingerprint| == 32 && |i.publication| == 32 && |i.inputDigest| == 32
    && NotBlank(i.keyId) && |i.nonce| == 12 && |i.ciphertext| >= 16
  }

  predicate ProviderChecks(p: Provider) {
    || p == Provider(None, None, None)
    || (&& p.key.Some? && IsName(p.key.value) && p.manifest.Some? && |p.manifest.value| == 32
        && p.leaseEpoch.Some? && 1 <= p.leaseEpoch.value <= MAX_REVISION)
  }

  predicate WorkerChecks(w: Worker) {
    && 0 <= w.epoch <= MAX_REVISION
    && ((w.id.None? && w.deadline.None?) || (w.id.Some? && IsName(w.id.value) && w.deadline.Some? && w.epoch > 0))
  }

  predicate ResultChecks(r: Result) {
    || r == Result(None, None, None, None, None)
    || (&& r.digest.Some? && |r.digest.value| == 32 && r.cipherVersion == Some("aes256gcm-browser-result-v1")
        && r.keyId.Some? && NotBlank(r.keyId.value) && r.nonce.Some? && |r.nonce.value| == 12
        && r.ciphertext.Some? && |r.ciphertext.value| >= 16)
  }

  predicate CaptureChecks(r: Row) {
    && (r.captureOperation.Some? ==> IsName(r.captureOperation.value))
    && (r.capture.NotRequested? <==> r.captureOperation.None?)
    && (Active(r.status) || r.capture.NotRequested? || r.capture.Promoted? || r.capture.CaptureFailed? || r.capture.Quarantined?)
  }

  predicate PhaseChecks(r: Row) {
    && (if Active(r.status)
        then r.phase.Some? && r.terminalRevision.None? && r.terminalEvent.None?
        else r.phase.None? && r.terminalRevision.Some? && 1 <= r.terminalRevision.value <= r.revision
             && r.terminalEvent.Some?)
    && (Active(r.status) ==> (r.status.WaitingUser? <==> r.phase == Some(PhaseWaiting)))
  }

  predicate OutcomeChecks(r: Row) {
    && (r.error.Some? ==> IsCode(r.error.value))
    && (r.evidence.Some? ==> |r.evidence.value| == 32)
    && (r.cancelAcknowledged ==> r.cancelRequested)
    && (r.status.Cancelled? ==> r.cancelAcknowledged && r.error == Some("browser_cancelled"))
    && (r.status.Completed? ==> r.verification == Some(Verified))
    && (r.verification == Some(Verified) ==> r.evidence.Some? && r.result.digest.Some?)
    && (r.status.Completed? ==> r.error.None? && r.result.digest.Some? && r.evidence.Some?)
    && (r.status.Failed? ==> r.error.Some?)
    && (Active(r.status) || !r.effect.EffectUnknown? || r.status.Completed?
        || (r.status.Failed? && r.error == Some("browser_effect_unknown")))
  }

  predicate Checks(r: Row) {
    && InputChecks(r.input) && ProviderChecks(r.provider) && WorkerChecks(r.worker) && ResultChecks(r.result)
    && 0 <= r.revision <= MAX_REVISION
    && (r.generation.Some? ==> r.provider.leaseEpoch.Some?)
    && (r.dispatchFailure.Some? ==>
          r.dispatchFailure.value in {"unavailable", "overloaded", "invalid_request", "resource_not_found",
            "unsupported", "denied", "stale", "subject_mismatch", "invalid_response", "timeout", "cancelled",
            "effect_unknown", "quarantined"})
    && CaptureChecks(r) && PhaseChecks(r) && OutcomeChecks(r)
  }

  // ---------------------------------------------------------------- the update trigger

  predicate CaptureMoves(a: CaptureStatus, b: CaptureStatus) {
    match a
    case NotRequested => b.Prepared?
    case Prepared => b.Sent? || b.CaptureFailed? || b.Quarantined?
    case Sent => b.Unknown? || b.Validated? || b.CaptureFailed? || b.Quarantined?
    case Unknown => b.Validated? || b.CaptureFailed? || b.Quarantined?
    case Validated => b.Promoted? || b.CaptureFailed? || b.Quarantined?
    case _ => false
  }

  /** The row without the columns a terminal run may still change. */
  function Frozen(r: Row): Row {
    r.(cleanup := Pending, revision := 0, updatedAt := 0, worker := Worker(None, None, 0))
  }

  datatype Error =
    | DeleteForbidden | InputImmutable | OperationImmutable | CaptureInvalid | ResultImmutable
    | TerminalImmutable | RevisionInvalid | CancelNonmonotonic | CheckViolated

  /** The first guard an update breaks, in the trigger's order, or a violated CHECK. */
  function Guard(a: Row, b: Row): Option<Error> {
    if b.input != a.input then Some(InputImmutable)
    else if a.captureOperation.Some? && b.captureOperation != a.captureOperation then Some(OperationImmutable)
    else if b.capture != a.capture && !CaptureMoves(a.capture, b.capture) then Some(CaptureInvalid)
    else if a.verification == Some(Verified) &&
            (b.verification, b.evidence, b.result) != (a.verification, a.evidence, a.result)
    then Some(ResultImmutable)
    else if !Active(a.status) && Frozen(b) != Frozen(a) then Some(TerminalImmutable)
    else if b.revision != a.revision + 1 then Some(RevisionInvalid)
    else if (a.cancelRequested && !b.cancelRequested) || (a.cancelAcknowledged && !b.cancelAcknowledged)
    then Some(CancelNonmonotonic)
    else if !Checks(b) then Some(CheckViolated)
    else None
  }

  ghost predicate Accepts(a: Row, b: Row) {
    Guard(a, b).None?
  }

  // ---------------------------------------------------------------- histories

  /** How far a capture has come; the three ends are equally far. */
  function Rank(c: CaptureStatus): nat {
    match c
    case NotRequested => 0
    case Prepared => 1
    case Sent => 2
    case Unknown => 3
    case Validated => 4
    case _ => 5
  }

  /** Some path of capture moves leads from `a` to `b`. */
  ghost predicate Reaches(a: CaptureStatus, b: CaptureStatus) {
    exists path: seq<CaptureStatus> :: CapturePath(path) && path[0] == a && path[|path| - 1] == b
  }

  ghost predicate CapturePath(path: seq<CaptureStatus>) {
    |path| > 0 && forall i, j :: 0 <= i && j == i + 1 && j < |path| ==> CaptureMoves(path[i], path[j])
  }

  /** What a row that is `n` accepted updates later may differ in. */
  ghost predicate Evolves(a: Row, b: Row, n: nat) {
    && b.revision == a.revision + n
    && b.input == a.input
    && (a.cancelRequested ==> b.cancelRequested) && (a.cancelAcknowledged ==> b.cancelAcknowledged)
    && (a.captureOperation.Some? ==> b.captureOperation == a.captureOperation)
    && (a.capture == b.capture || Rank(a.capture) < Rank(b.capture))
    && (a.verification == Some(Verified) ==>
          b.verification == a.verification && b.evidence == a.evidence && b.result == a.result)
    && (!Active(a.status) ==> Frozen(b) == Frozen(a))
  }

  lemma StepEvolves(a: Row, b: Row)
    requires Accepts(a, b)
    ensures Evolves(a, b, 1)
  {
  }

  lemma EvolvesCompose(a: Row, b: Row, c: Row, m: nat, n: nat)
    requires Evolves(a, b, m) && Evolves(b, c, n)
    ensures Evolves(a, c, m + n)
  {
    if !Active(a.status) { assert Frozen(b).status == b.status && Frozen(a).status == a.status; }
  }

  /** A row inserted within its CHECKs, and the rows after each accepted update. */
  ghost predicate History(rows: seq<Row>) {
    && |rows| > 0 && Checks(rows[0])
    && forall i, j :: 0 <= i && j == i + 1 && j < |rows| ==> Accepts(rows[i], rows[j])
  }

  lemma {:induction false} ChecksAlways(rows: seq<Row>, i: nat)
    requires History(rows) && i < |rows|
    ensures Checks(rows[i])
  {
    if i > 0 { assert Accepts(rows[i - 1], rows[i]); }
  }

  /**
   * Over every accepted history: the revision counts the updates, the authorized input is fixed,
   * cancel flags only rise, the capture operation is fixed once set and its status only advances,
   * a verified result is frozen, and a terminal row keeps all but its cleanup and worker columns.
   */
  lemma {:induction false} HistoryEvolves(rows: seq<Row>, i: nat, j: nat)
    requires History(rows) && i <= j < |rows|
    ensures Evolves(rows[i], rows[j], j - i)
    decreases j - i
  {
    if i < j {
      HistoryEvolves(rows, i, j - 1);
      assert Accepts(rows[j - 1], rows[j]);
      StepEvolves(rows[j - 1], rows[j]);
      EvolvesCompose(rows[i], rows[j - 1], rows[j], j - 1 - i, 1);
    }
  }

  /** A completed run stays completed and verified, with its evidence, its result and no error. */
  lemma CompletedForever(rows: seq<Row>, i: nat, j: nat)
    requires History(rows) && i <= j < |rows| && rows[i].status.Completed?
    ensures rows[j].status.Completed? && rows[j].verification == Some(Verified) && rows[j].error.None?
    ensures rows[j].evidence.Some? && rows[j].evidence == rows[i].evidence
    ensures rows[j].result.digest.Some? && rows[j].result == rows[i].result
    ensures rows[j].terminalRevision == rows[i].terminalRevision && rows[j].capture == rows[i].capture
  {
    ChecksAlways(rows, i);
    HistoryEvolves(rows, i, j);
    FrozenFields(rows[i], rows[j]);
  }

  lemma FrozenFields(a: Row, b: Row)
    requires Frozen(a) == Frozen(b)
    ensures a.status == b.status && a.verification == b.verification && a.error == b.error
    ensures a.evidence == b.evidence && a.result == b.result && a.terminalRevision == b.terminalRevision
    ensures a.capture == b.capture && a.cancelRequested == b.cancelRequested
  {
    assert Frozen(a).status == a.status && Frozen(b).status == b.status;
  }

  /** A run that ends without success keeps its error for ever, and a cancelled one was asked to cancel. */
  lemma FailureForever(rows: seq<Row>, i: nat, j: nat)
    requires History(rows) && i <= j < |rows| && (rows[i].status.Failed? || rows[i].status.Cancelled?)
    ensures rows[j].status == rows[i].status && rows[j].error == rows[i].error && rows[j].error.Some?
    ensures rows[i].status.Cancelled? ==> rows[j].cancelRequested
  {
    ChecksAlways(rows, i);
    HistoryEvolves(rows, i, j);
    FrozenFields(rows[i], rows[j]);
  }

  function Captures(rows: seq<Row>): seq<CaptureStatus> {
    seq(|rows|, i requires 0 <= i < |rows| => rows[i].capture)
  }

  ghost predicate CaptureSteps(cs: seq<CaptureStatus>) {
    forall i, j :: 0 <= i && j == i + 1 && j < |cs| ==> cs[i] == cs[j] || CaptureMoves(cs[i], cs[j])
  }

  lemma CaptureStep(a: Row, b: Row)
    requires Accepts(a, b)
    ensures a.capture == b.capture || CaptureMoves(a.capture, b.capture)
  {
  }

  lemma HistoryCaptures(rows: seq<Row>)
    requires History(rows)
    ensures CaptureSteps(Captures(rows))
  {
    forall i, j | 0 <= i && j == i + 1 && j < |rows|
      ensures rows[i].capture == rows[j].capture || CaptureMoves(rows[i].capture, rows[j].capture)
    {
      CaptureStep(rows[i], rows[j]);
    }
  }

  lemma ExtendPath(a: CaptureStatus, b: CaptureStatus, c: CaptureStatus)
    requires Reaches(a, b) && CaptureMoves(b, c)
    ensures Reaches(a, c)
  {
    var path: seq<CaptureStatus> :| CapturePath(path) && path[0] == a && path[|path| - 1] == b;
    var longer := path + [c];
    assert CapturePath(longer) && longer[0] == a && longer[|longer| - 1] == c;
  }

  lemma {:induction false} StepsReach(cs: seq<CaptureStatus>, i: nat, j: nat)
    requires CaptureSteps(cs) && i <= j < |cs|
    ensures Reaches(cs[i], cs[j])
    decreases j - i
  {
    if i == j {
      var path := [cs[i]];
      assert CapturePath(path) && path[0] == cs[i] && path[|path| - 1] == cs[i];
    } else {
      StepsReach(cs, i, j - 1);
      assert cs[j - 1] == cs[j] || CaptureMoves(cs[j - 1], cs[j]);
      if cs[j - 1] != cs[j] { ExtendPath(cs[i], cs[j - 1], cs[j]); }
    }
  }

  /** Number of updates that changed the capture status. */
  function Changes(cs: seq<CaptureStatus>): nat {
    if |cs| < 2 then 0
    else
      var n := |cs| - 1;
      Changes(cs[..n]) + if cs[n] != cs[n - 1] then 1 else 0
  }

  lemma {:induction false} ChangesClimb(cs: seq<CaptureStatus>)
    requires CaptureSteps(cs) && |cs| > 0
    ensures Changes(cs) + Rank(cs[0]) <= Rank(cs[|cs| - 1])
    decreases |cs|
  {
    var n := |cs| - 1;
    if n > 0 {
      ChangesClimb(cs[..n]);
      assert cs[n - 1] == cs[n] || CaptureMoves(cs[n - 1], cs[n]);
    }
  }

  /** A capture moves only along the transition graph. */
  lemma {:induction false} CaptureFollowsGraph(rows: seq<Row>, i: nat, j: nat)
    requires History(rows) && i <= j < |rows|
    ensures Reaches(Captures(rows)[i], Captures(rows)[j])
  {
    HistoryCaptures(rows);
    StepsReach(Captures(rows), i, j);
  }

  /** A capture changes at most five times in the life of a run. */
  lemma {:induction false} CaptureChangesFewTimes(rows: seq<Row>)
    requires History(rows)
    ensures Changes(Captures(rows)) <= 5
  {
    HistoryCaptures(rows);
    ChangesClimb(Captures(rows));
  }

  // ---------------------------------------------------------------- the table row

  class BrowserRunRow {
    var row: Row
    ghost var history: seq<Row>

    ghost predicate Valid()
      reads this
    {
      History(history) && history[|history| - 1] == row
    }

    constructor (row: Row)
      requires Checks(row)
      ensures Valid() && this.row == row && history == [row]
    {
      this.row, history := row, [row];
    }

    /** An update is taken whole when no guard and no CHECK refuses it, and not at all otherwise. */
    method Update(new_: Row) returns (refusal: Option<Error>)
      requires Valid()
      modifies this
      ensures Valid() && refusal == Guard(old(row), new_)
      ensures if refusal.None? then row == new_ && history == old(history) + [new_] else row == old(row) && history == old(history)
    {
      refusal := Guard(row, new_);
      if refusal.None? {
        row, history := new_, history + [new_];
      }
    }

    method Delete() returns (refusal: Error)
      requires Valid()
      ensures refusal.DeleteForbidden? && Valid()
    {
      return DeleteForbidden;
    }
  }
}
