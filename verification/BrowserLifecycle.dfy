/**
 * Which rows a browser run can come to by updates of its row, and in how many, said of the columns of
 * the two rows and not of the trigger's guards; and when a run can be opened, completed, failed or cancelled.
 */
module BrowserLifecycle {
  import opened Values
  import opened BrowserRun

  // ---------------------------------------------------------------- captures

  /** A capture can come from `a` to `b` in at most `n` moves. */
  predicate Within(a: CaptureStatus, b: CaptureStatus, n: nat) {
    a == b ||
    match b
    case NotRequested => false
    case Prepared => a.NotRequested? && n >= 1
    case Sent => (a.Prepared? && n >= 1) || (a.NotRequested? && n >= 2)
    case Unknown => (a.Sent? && n >= 1) || (a.Prepared? && n >= 2) || (a.NotRequested? && n >= 3)
    case Validated => ((a.Sent? || a.Unknown?) && n >= 1) || (a.Prepared? && n >= 2) || (a.NotRequested? && n >= 3)
    case Promoted =>
      || (a.Validated? && n >= 1) || ((a.Sent? || a.Unknown?) && n >= 2)
      || (a.Prepared? && n >= 3) || (a.NotRequested? && n >= 4)
    case _ => ((a.Prepared? || a.Sent? || a.Unknown? || a.Validated?) && n >= 1) || (a.NotRequested? && n >= 2)
  }

  /** The next status on a shortest way. */
  function Toward(a: CaptureStatus, b: CaptureStatus): CaptureStatus {
    if a == b then b
    else if a.NotRequested? then Prepared
    else if a.Prepared? && !b.CaptureFailed? && !b.Quarantined? then Sent
    else if (a.Sent? || a.Unknown?) && b.Promoted? then Validated
    else b
  }

  lemma MoveIsWithin(a: CaptureStatus, b: CaptureStatus)
    ensures a == b || CaptureMoves(a, b) <==> Within(a, b, 1)
  {
  }

  lemma TowardIsNearer(a: CaptureStatus, b: CaptureStatus, n: nat)
    requires Within(a, b, n + 1)
    ensures var c := Toward(a, b); Within(a, c, 1) && Within(c, b, n)
  {
  }

  lemma WithinCompose(a: CaptureStatus, b: CaptureStatus, c: CaptureStatus, n: nat)
    requires Within(a, b, n) && Within(b, c, 1)
    ensures Within(a, c, n + 1)
  {
  }

  // ---------------------------------------------------------------- rows

  /** What `n` updates may make of a row, column by column. */
  ghost predicate Becomes(a: Row, b: Row, n: nat) {
    && b.revision == a.revision + n && b.input == a.input
    && (a.captureOperation == None || b.captureOperation == a.captureOperation)
    && Within(a.capture, b.capture, n)
    && (a.verification == Some(Verified) ==>
          b.verification == Some(Verified) && b.evidence == a.evidence && b.result == a.result)
    && (a.status in {Completed, Failed, Cancelled} ==>
          b == a.(cleanup := b.cleanup, revision := b.revision, updatedAt := b.updatedAt, worker := b.worker))
    && (a.cancelRequested ==> b.cancelRequested) && (a.cancelAcknowledged ==> b.cancelAcknowledged)
  }

  lemma FrozenIff(a: Row, b: Row)
    ensures Frozen(a) == Frozen(b) <==>
              b == a.(cleanup := b.cleanup, revision := b.revision, updatedAt := b.updatedAt, worker := b.worker)
  {
    var c := a.(cleanup := b.cleanup, revision := b.revision, updatedAt := b.updatedAt, worker := b.worker);
    if Frozen(a) == Frozen(b) {
      assert c == Frozen(a).(cleanup := b.cleanup, revision := b.revision, updatedAt := b.updatedAt, worker := b.worker);
      assert b == Frozen(b).(cleanup := b.cleanup, revision := b.revision, updatedAt := b.updatedAt, worker := b.worker);
    }
  }

  /** The exact condition of one update. */
  lemma AcceptsIff(a: Row, b: Row)
    ensures Accepts(a, b) <==> Becomes(a, b, 1) && Checks(b)
  {
    FrozenIff(a, b);
    MoveIsWithin(a.capture, b.capture);
  }

  /** What an update breaks when it is refused for this. */
  ghost predicate Breaks(a: Row, b: Row, e: Error) {
    match e
    case InputImmutable => b.input != a.input
    case OperationImmutable => a.captureOperation != None && b.captureOperation != a.captureOperation
    case CaptureInvalid => !Within(a.capture, b.capture, 1)
    case ResultImmutable =>
      && a.verification == Some(Verified)
      && !(b.verification == Some(Verified) && b.evidence == a.evidence && b.result == a.result)
    case TerminalImmutable =>
      && a.status in {Completed, Failed, Cancelled}
      && b != a.(cleanup := b.cleanup, revision := b.revision, updatedAt := b.updatedAt, worker := b.worker)
    case RevisionInvalid => b.revision != a.revision + 1
    case CancelNonmonotonic =>
      (a.cancelRequested && !b.cancelRequested) || (a.cancelAcknowledged && !b.cancelAcknowledged)
    case CheckViolated => !Checks(b)
    case DeleteForbidden => false
  }

  /** The order in which the trigger looks. */
  function Place(e: Error): nat {
    match e
    case DeleteForbidden => 0
    case InputImmutable => 1
    case OperationImmutable => 2
    case CaptureInvalid => 3
    case ResultImmutable => 4
    case TerminalImmutable => 5
    case RevisionInvalid => 6
    case CancelNonmonotonic => 7
    case CheckViolated => 8
  }

  ghost predicate FirstBroken(a: Row, b: Row, e: Error) {
    Breaks(a, b, e) && forall d: Error :: Place(d) < Place(e) ==> !Breaks(a, b, d)
  }

  lemma GuardIsFirst(a: Row, b: Row)
    ensures Guard(a, b).Some? ==> FirstBroken(a, b, Guard(a, b).value)
    ensures Guard(a, b).None? ==> forall e: Error :: !Breaks(a, b, e)
  {
    FrozenIff(a, b);
    MoveIsWithin(a.capture, b.capture);
  }

  /** A refused update is refused for the first thing it breaks. */
  lemma RefusedIff(a: Row, b: Row, e: Error)
    ensures Guard(a, b) == Some(e) <==> FirstBroken(a, b, e)
  {
    GuardIsFirst(a, b);
    if FirstBroken(a, b, e) {
      var d := Guard(a, b).value;
      assert !(Place(d) < Place(e)) && !(Place(e) < Place(d));
    }
  }

  lemma BecomesCompose(a: Row, b: Row, c: Row, n: nat)
    requires Becomes(a, b, n) && Becomes(b, c, 1)
    ensures Becomes(a, c, n + 1)
  {
    WithinCompose(a.capture, b.capture, c.capture, n);
  }

  ghost predicate Updates(rows: seq<Row>, a: Row, b: Row, n: nat) {
    && |rows| == n + 1 && rows[0] == a && rows[n] == b
    && forall i, j :: 0 <= i && j == i + 1 && j < |rows| ==> Accepts(rows[i], rows[j])
  }

  lemma {:induction false} UpdatedBecomes(rows: seq<Row>, a: Row, b: Row, n: nat)
    requires n > 0 && Updates(rows, a, b, n)
    ensures Becomes(a, b, n) && Checks(b)
    decreases n
  {
    AcceptsIff(rows[n - 1], rows[n]);
    if n > 1 {
      UpdatedBecomes(rows[..n], a, rows[n - 1], n - 1);
      BecomesCompose(a, rows[n - 1], b, n - 1);
    }
  }

  /** A first update on the way to `b`: only the capture moves. */
  ghost function FirstTo(a: Row, b: Row): Row {
    var capture := Toward(a.capture, b.capture);
    a.(revision := a.revision + 1, capture := capture,
       captureOperation := if capture.NotRequested? then None
                           else if a.captureOperation.Some? then a.captureOperation else b.captureOperation)
  }

  lemma {:induction false} FirstToChecks(a: Row, b: Row, n: nat)
    requires Checks(a) && Checks(b) && Becomes(a, b, n + 1) && n > 0
    ensures Checks(FirstTo(a, b))
  {
    var m := FirstTo(a, b);
    TowardIsNearer(a.capture, b.capture, n);
    assert CaptureChecks(m) by {
      if !m.capture.NotRequested? { assert !b.capture.NotRequested?; }
    }
    assert PhaseChecks(m) && OutcomeChecks(m);
  }

  lemma {:induction false} FirstToIsOnTheWay(a: Row, b: Row, n: nat)
    requires Checks(a) && Checks(b) && Becomes(a, b, n + 1) && n > 0
    ensures Becomes(a, FirstTo(a, b), 1) && Becomes(FirstTo(a, b), b, n)
  {
    TowardIsNearer(a.capture, b.capture, n);
  }

  lemma {:induction false} UpdateFirst(a: Row, m: Row, b: Row, n: nat, rest: seq<Row>)
    requires Accepts(a, m) && Updates(rest, m, b, n)
    ensures Updates([a] + rest, a, b, n + 1)
  {
    var rows := [a] + rest;
    forall i, j | 0 <= i && j == i + 1 && j < |rows| ensures Accepts(rows[i], rows[j]) {
      assert rows[j] == rest[j - 1] && (i > 0 ==> rows[i] == rest[i - 1]);
    }
  }

  lemma {:induction false} UpdatesFrom(a: Row, b: Row, n: nat) returns (rows: seq<Row>)
    requires Checks(a) && Checks(b) && Becomes(a, b, n) && n > 0
    ensures Updates(rows, a, b, n)
    decreases n
  {
    if n == 1 {
      AcceptsIff(a, b);
      rows := [a, b];
    } else {
      var m := FirstTo(a, b);
      FirstToChecks(a, b, n - 1);
      FirstToIsOnTheWay(a, b, n - 1);
      AcceptsIff(a, m);
      var rest := UpdatesFrom(m, b, n - 1);
      UpdateFirst(a, m, b, n - 1, rest);
      rows := [a] + rest;
    }
  }

  /** A row can come to another in `n` updates exactly when its columns allow it. */
  lemma {:induction false} ReachedIff(a: Row, b: Row, n: nat)
    requires Checks(a) && n > 0
    ensures (exists rows :: Updates(rows, a, b, n)) <==> Becomes(a, b, n) && Checks(b)
  {
    if rows :| Updates(rows, a, b, n) {
      UpdatedBecomes(rows, a, b, n);
    } else if Becomes(a, b, n) && Checks(b) {
      var rows := UpdatesFrom(a, b, n);
    }
  }

  // ---------------------------------------------------------------- the life of a run

  /** A row as it is inserted, with the defaults of its columns. */
  function Opened(input: Input, now: int): Row {
    Row(input, Provider(None, None, None), None, None, NotRequested, Worker(None, None, 0), Running, Some(Queued), 0,
        false, false, NotSent, None, None, Pending, None, None, None, None, Result(None, None, None, None, None), now)
  }

  predicate Letter(c: char) {
    'a' <= c <= 'z' || '0' <= c <= '9' || c == '_'
  }

  predicate Named(s: string) {
    0 < |s| < 97 && forall i :: 0 <= i < |s| ==> Letter(s[i]) || 'A' <= s[i] <= 'Z' || s[i] == '-'
  }

  predicate Spaces(s: string) {
    forall i :: 0 <= i < |s| ==> s[i] == ' '
  }

  /** A run can be opened for every well-formed authorized input, and for no other. */
  lemma OpensIff(input: Input, now: int)
    ensures Checks(Opened(input, now)) <==>
              && Named(input.runId)
              && (input.targetSystem == "oa" || input.targetSystem == "u8" || input.targetSystem == "hikvision_ivms")
              && 0 < input.bindingRevision < 9007199254740992 && 0 < input.inputRevision < 9007199254740992
              && input.evidenceVersion == "verified-session-v1" && input.cipherVersion == "aes256gcm-browser-input-v1"
              && |input.authFingerprint| == |input.publication| == |input.inputDigest| == 32
              && !Spaces(input.keyId) && |input.nonce| == 12 && |input.ciphertext| > 15
  {
  }

  /** A worker can take any run, ended or not. */
  lemma {:induction false} ClaimsIff(a: Row, id: string, deadline: int, epoch: int)
    requires Checks(a)
    ensures Accepts(a, a.(revision := a.revision + 1, worker := Worker(Some(id), Some(deadline), epoch))) <==>
              a.revision < 9007199254740991 && Named(id) && 0 < epoch < 9007199254740992
  {
    AcceptsIff(a, a.(revision := a.revision + 1, worker := Worker(Some(id), Some(deadline), epoch)));
  }

  lemma {:induction false} BindsIff(a: Row, key: string, manifest: Octets, lease: int)
    requires Checks(a) && a.status in {Running, WaitingUser}
    ensures Accepts(a, a.(revision := a.revision + 1, provider := Provider(Some(key), Some(manifest), Some(lease)))) <==>
              a.revision < 9007199254740991 && Named(key) && |manifest| == 32 && 0 < lease < 9007199254740992
  {
    AcceptsIff(a, a.(revision := a.revision + 1, provider := Provider(Some(key), Some(manifest), Some(lease))));
  }

  /** A capture is prepared once, under a name. */
  lemma {:induction false} PreparesIff(a: Row, operation: string)
    requires Checks(a) && a.status in {Running, WaitingUser}
    ensures Accepts(a, a.(revision := a.revision + 1, capture := Prepared, captureOperation := Some(operation))) <==>
              && a.revision < 9007199254740991 && Named(operation)
              && (a.capture.NotRequested? || (a.capture.Prepared? && a.captureOperation == Some(operation)))
  {
    AcceptsIff(a, a.(revision := a.revision + 1, capture := Prepared, captureOperation := Some(operation)));
  }

  /** A run is verified with evidence and a result together, and then keeps both. */
  lemma {:induction false} VerifiesIff(a: Row, evidence: Option<Octets>, result: Result)
    requires Checks(a) && a.status in {Running, WaitingUser}
    ensures Accepts(a, a.(revision := a.revision + 1, verification := Some(Verified), evidence := evidence, result := result)) <==>
              && a.revision < 9007199254740991 && evidence.Some? && |evidence.value| == 32
              && result.digest.Some? && ResultChecks(result)
              && (a.verification == Some(Verified) ==> evidence == a.evidence && result == a.result)
  {
    AcceptsIff(a, a.(revision := a.revision + 1, verification := Some(Verified), evidence := evidence, result := result));
  }

  /** An active run ended by one update; a capture under way fails with it. */
  function Ended(a: Row, status: Status): Row {
    a.(status := status, phase := None, revision := a.revision + 1, terminalRevision := Some(a.revision + 1),
       terminalEvent := Some(""),
       capture := if a.capture in {NotRequested, Promoted, Quarantined} then a.capture else CaptureFailed)
  }

  lemma {:induction false} EndedChecks(a: Row, b: Row, status: Status)
    requires Checks(a) && a.status in {Running, WaitingUser} && status in {Completed, Failed, Cancelled}
    requires b == Ended(a, status).(error := b.error, effect := b.effect, evidence := b.evidence,
                    verification := b.verification, result := b.result, cancelRequested := b.cancelRequested,
                    cancelAcknowledged := b.cancelAcknowledged)
    ensures CaptureChecks(b) && PhaseChecks(b)
    ensures Within(a.capture, b.capture, 1)
    ensures Checks(b) <==> a.revision < 9007199254740991 && ResultChecks(b.result) && OutcomeChecks(b)
  {
  }

  ghost predicate CompletesWith(a: Row, evidence: Octets, result: Result, b: Row) {
    Accepts(a, b) && b.status.Completed? && b.evidence == Some(evidence) && b.result == result
  }

  /** An active run can complete with any 32-byte evidence and any sealed result, unless others are verified already. */
  lemma {:induction false} CompletesIff(
    a: Row, evidence: Octets, digest: Octets, version: string, keyId: string, nonce: Octets, ciphertext: Octets)
    requires Checks(a) && a.status in {Running, WaitingUser}
    ensures var result := Result(Some(digest), Some(version), Some(keyId), Some(nonce), Some(ciphertext));
            (exists b :: CompletesWith(a, evidence, result, b)) <==>
              && a.revision < 9007199254740991 && |evidence| == 32 && |digest| == 32
              && version == "aes256gcm-browser-result-v1" && !Spaces(keyId) && |nonce| == 12 && |ciphertext| > 15
              && (a.verification == Some(Verified) ==> a.evidence == Some(evidence) && a.result == result)
  {
    var result := Result(Some(digest), Some(version), Some(keyId), Some(nonce), Some(ciphertext));
    var b := Ended(a, Completed).(error := None, evidence := Some(evidence), verification := Some(Verified), result := result);
    EndedChecks(a, b, Completed);
    AcceptsIff(a, b);
    if exists b' :: CompletesWith(a, evidence, result, b') {
      var b' :| CompletesWith(a, evidence, result, b');
      AcceptsIff(a, b');
    } else {
      assert !CompletesWith(a, evidence, result, b);
    }
  }

  ghost predicate FailsWith(a: Row, code: string, effect: Effect, b: Row) {
    Accepts(a, b) && b.status.Failed? && b.error == Some(code) && b.effect == effect
  }

  /** An active run can fail with any code; an effect that stays unknown has its own. */
  lemma {:induction false} FailsIff(a: Row, code: string, effect: Effect)
    requires Checks(a) && a.status in {Running, WaitingUser}
    ensures (exists b :: FailsWith(a, code, effect, b)) <==>
              && a.revision < 9007199254740991 && 1 <= |code| <= 96
              && (forall i :: 0 <= i < |code| ==> Letter(code[i])) && code[0] >= 'a'
              && (effect.EffectUnknown? ==> code == "browser_effect_unknown")
  {
    var b := Ended(a, Failed).(error := Some(code), effect := effect);
    EndedChecks(a, b, Failed);
    AcceptsIff(a, b);
    if exists b' :: FailsWith(a, code, effect, b') {
      var b' :| FailsWith(a, code, effect, b');
      AcceptsIff(a, b');
    } else {
      assert !FailsWith(a, code, effect, b);
    }
  }

  ghost predicate CancelsWith(a: Row, error: Option<string>, effect: Effect, b: Row) {
    Accepts(a, b) && b.status.Cancelled? && b.error == error && b.effect == effect
  }

  /** An active run can be cancelled as long as it does not claim an unknown effect. */
  lemma {:induction false} CancelsIff(a: Row, error: Option<string>, effect: Effect)
    requires Checks(a) && a.status in {Running, WaitingUser}
    ensures (exists b :: CancelsWith(a, error, effect, b)) <==>
              a.revision < 9007199254740991 && error == Some("browser_cancelled") && !effect.EffectUnknown?
    ensures forall b :: CancelsWith(a, error, effect, b) ==> b.cancelRequested && b.cancelAcknowledged
  {
    var b := Ended(a, Cancelled).(error := error, effect := effect, cancelRequested := true, cancelAcknowledged := true);
    EndedChecks(a, b, Cancelled);
    AcceptsIff(a, b);
    if exists b' :: CancelsWith(a, error, effect, b') {
      var b' :| CancelsWith(a, error, effect, b');
      AcceptsIff(a, b');
    } else {
      assert !CancelsWith(a, error, effect, b);
    }
  }
}
