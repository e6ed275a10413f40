/**
 * Synchronisation of the organization directory: the singleton state row, the lease, and any
 * number of schedulers that run the attempt protocol step by step. A scheduler can crash or be
 * cancelled between any two steps, and the outcome of a database write can be lost.
 * Times are database clock readings in microseconds.
 */
module DirectorySync {
  import opened Values

  const SECOND := 1_000_000
  const SYNC_INTERVAL := 86400 * SECOND
  const SYNC_RETRY := 3600 * SECOND
  const SOURCE_DEADLINE := 900 * SECOND

  datatype Status = Never | Running | Succeeded | Failed

  datatype Code =
    | SourceUnconfigured | SourceBindingUnavailable | SourceAuthenticationFailed | SourceTimeout
    | SourceUnavailable | SnapshotIncomplete | SnapshotInvalid | StorageUnavailable | SyncInterrupted

  /** The singleton row of the synchronisation state. */
  datatype Row = Row(
    version: int, source: Option<int>, success: Option<int>, started: Option<int>, finished: Option<int>,
    status: Status, error: Option<Code>)

  const INITIAL := Row(0, None, None, None, None, Never, None)

  // ---------------------------------------------------------------- row CHECKs

  predicate SuccessCheck(r: Row) {
    || (r.version == 0 && r.source.None? && r.success.None?)
    || (r.version > 0 && r.source.Some? && r.success.Some? && r.source.value <= r.success.value)
  }

  predicate AttemptCheck(r: Row) {
    match r.status
    case Never => r.version == 0 && r.started.None? && r.finished.None? && r.error.None?
    case Running => r.started.Some? && r.finished.None? && r.error.None?
    case Succeeded => r.started.Some? && r.finished.Some? && r.finished.value >= r.started.value && r.error.None?
    case Failed => r.started.Some? && r.finished.Some? && r.finished.value >= r.started.value && r.error.Some?
  }

  predicate SuccessAttemptCheck(r: Row) {
    r.status.Succeeded? ==> r.version > 0 && r.success.Some? && r.success == r.finished
  }

  predicate Checks(r: Row) {
    r.version >= 0 && SuccessCheck(r) && AttemptCheck(r) && SuccessAttemptCheck(r)
  }

  // ---------------------------------------------------------------- writes

  function StartAttempt(r: Row, now: int): Row {
    r.(started := Some(now), finished := None, status := Running, error := None)
  }

  function MarkFailed(r: Row, code: Code, now: int): Row {
    r.(status := Failed, error := Some(code), finished := Some(now))
  }

  function Publish(r: Row, fetched: int, now: int): Row {
    r.(version := r.version + 1, source := Some(fetched), success := Some(now), finished := Some(now),
       status := Succeeded, error := None)
  }

  /** When the next attempt may start, if the last one bounds it. */
  function DueAt(r: Row): Option<int> {
    match r.status
    case Failed => if r.finished.Some? then Some(r.finished.value + SYNC_RETRY) else None
    case Succeeded => if r.success.Some? then Some(r.success.value + SYNC_INTERVAL) else None
    case Never => None
    case Running => None
  }

  predicate Due(r: Row, now: int) {
    DueAt(r).None? || now >= DueAt(r).value
  }

  // ---------------------------------------------------------------- schedulers

  /** What an exception is to the attempt: an error with a code, any other error, or a cancellation. */
  datatype Thrown = Coded(code: Code) | Uncoded | Interrupt

  /** Where a scheduler stands in the protocol; closing the source remembers what is being raised. */
  datatype Pc =
    | Idle
    | Holding
    | Starting
    | Attempting
    | Checking(fetched: int)
    | Committing(fetched: int)
    | Closing(publishing: bool, thrown: Option<Thrown>)
    | Failing(code: Code)
    | Leaving

  /** What reading the source came to. */
  datatype Fetch = Threw(thrown: Thrown) | Snapshot(fetched: int, complete: bool, stop: bool)

  /** What the scheduler learns of its commit. */
  datatype Answer = Acknowledged | Lost | Cut

  datatype Event =
    | Acquire(p: nat, stop: bool)
    | Read(p: nat)
    | Start(p: nat, acknowledged: bool)
    | Source(p: nat, fetch: Fetch)
    | Validate(p: nat, refusal: Option<Thrown>)
    | Commit(p: nat, committed: bool, answer: Answer)
    | Close(p: nat, raised: Option<Thrown>)
    | Mark(p: nat)
    | Abandon(p: nat)
    | Release(p: nat)
    | Crash(p: nat)

  /** What was committed to the row, in order. */
  datatype Change = Started(at: int) | Ended(at: int, published: bool)

  datatype System = System(row: Row, clock: int, lease: Option<nat>, pcs: map<nat, Pc>, log: seq<Change>)

  function PcOf(s: System, p: nat): Pc {
    if p in s.pcs then s.pcs[p] else Idle
  }

  function At(s: System, p: nat, pc: Pc): System {
    s.(pcs := s.pcs[p := pc])
  }

  function Free(s: System, p: nat): System {
    s.(pcs := s.pcs[p := Idle], lease := if s.lease == Some(p) then None else s.lease)
  }

  function Written(s: System, row: Row, change: Change): System {
    s.(row := row, log := s.log + [change])
  }

  /** A snapshot that was read whole goes to publication unless the scheduler was asked to stop. */
  function AfterSource(fetch: Fetch): Pc {
    match fetch
    case Threw(thrown) => Closing(false, Some(thrown))
    case Snapshot(fetched, complete, stop) =>
      if !complete then Closing(false, Some(Coded(SnapshotIncomplete)))
      else if stop then Closing(false, Some(Coded(SyncInterrupted)))
      else Checking(fetched)
  }

  predicate Persistable(code: Code) {
    code.SnapshotIncomplete? || code.SnapshotInvalid?
  }

  /** Validation before publication: the store's own refusal, or a snapshot from a wrong time. */
  function AfterValidation(r: Row, fetched: int, refusal: Option<Thrown>, now: int): Pc {
    if refusal.Some? then Closing(true, refusal)
    else if fetched > now || (r.source.Some? && fetched <= r.source.value) then
      Closing(true, Some(Coded(SnapshotInvalid)))
    else Committing(fetched)
  }

  function AfterCommit(committed: bool, answer: Answer): Pc {
    if answer.Cut? then Closing(true, Some(Interrupt))
    else if committed && answer.Acknowledged? then Closing(true, None)
    else Closing(true, Some(Coded(StorageUnavailable)))
  }

  /** The attempt's handlers, once the source is closed: which failures are to be persisted. */
  function Handled(publishing: bool, thrown: Option<Thrown>): Pc {
    match thrown
    case None => Leaving
    case Some(Interrupt) => if publishing then Leaving else Failing(SyncInterrupted)
    case Some(Uncoded) => if publishing then Leaving else Failing(SourceUnavailable)
    case Some(Coded(code)) => if !publishing || Persistable(code) then Failing(code) else Leaving
  }

  /** One step of scheduler `e.p` at database time `now`; an event that does not apply does nothing. */
  function Act(s: System, e: Event, now: int): System {
    var pc := PcOf(s, e.p);
    match e
    case Acquire(p, stop) =>
      if pc.Idle? && s.lease.None? then At(s.(lease := Some(p)), p, if stop then Leaving else Holding) else s
    case Read(p) =>
      if !pc.Holding? then s
      else if s.row.status.Running? then At(s, p, Failing(SyncInterrupted))
      else At(s, p, if Due(s.row, now) then Starting else Leaving)
    case Start(p, acknowledged) =>
      if !pc.Starting? then s
      else At(Written(s, StartAttempt(s.row, now), Started(now)), p, if acknowledged then Attempting else Leaving)
    case Source(p, fetch) => if pc.Attempting? then At(s, p, AfterSource(fetch)) else s
    case Validate(p, refusal) =>
      if pc.Checking? then At(s, p, AfterValidation(s.row, pc.fetched, refusal, now)) else s
    case Commit(p, committed, answer) =>
      if !pc.Committing? then s
      else if !committed then At(s, p, AfterCommit(committed, answer))
      else At(Written(s, Publish(s.row, pc.fetched, now), Ended(now, true)), p, AfterCommit(committed, answer))
    case Close(p, raised) =>
      if !pc.Closing? then s else At(s, p, Handled(pc.publishing, if raised.Some? then raised else pc.thrown))
    case Mark(p) =>
      if !pc.Failing? then s
      else At(Written(s, MarkFailed(s.row, pc.code, now), Ended(now, false)), p, Leaving)
    case Abandon(p) => if pc.Idle? then s else At(s, p, Leaving)
    case Release(p) => if pc.Leaving? then Free(s, p) else s
    case Crash(p) => Free(s, p)
  }

  /** The database clock never runs backwards. */
  function Step(s: System, e: Event, now: int): System {
    if now < s.clock then s else Act(s.(clock := now), e, now)
  }

  datatype Timed = Timed(event: Event, now: int)

  function Run(s: System, es: seq<Timed>): System
    decreases |es|
  {
    if |es| == 0 then s else Run(Step(s, es[0].event, es[0].now), es[1..])
  }

  const START := System(INITIAL, 0, None, map[], [])

  // ---------------------------------------------------------------- invariant

  ghost predicate Past(t: Option<int>, now: int) {
    t.Some? ==> t.value <= now
  }

  /** An outcome follows its start; a start waits for the due time; a failure may overwrite a publication. */
  ghost predicate Follows(x: Change, y: Change) {
    match x
    case Started(at) => y.Ended? && y.at >= at
    case Ended(at, published) =>
      if y.Started? then y.at >= at + if published then SYNC_INTERVAL else SYNC_RETRY
      else published && !y.published && y.at >= at
  }

  ghost predicate Legal(log: seq<Change>) {
    && (|log| > 0 ==> log[0].Started?)
    && forall i, j :: 0 <= i && j == i + 1 && j < |log| ==> Follows(log[i], log[j])
  }

  function Publications(log: seq<Change>): nat {
    if |log| == 0 then 0
    else Publications(log[..|log| - 1]) + if Publishes(log[|log| - 1]) then 1 else 0
  }

  predicate Publishes(c: Change) {
    c.Ended? && c.published
  }

  /** The row shows the last logged change. */
  ghost predicate Shows(r: Row, log: seq<Change>) {
    if log == [] then r == INITIAL
    else
      match log[|log| - 1]
      case Started(at) => r.status.Running? && r.started == Some(at)
      case Ended(at, published) => r.finished == Some(at) && if published then r.status.Succeeded? else r.status.Failed?
  }

  ghost predicate RowOk(r: Row, log: seq<Change>, clock: int) {
    && Checks(r) && Shows(r, log) && Legal(log) && r.version == Publications(log)
    && Past(r.source, clock) && Past(r.success, clock) && Past(r.started, clock) && Past(r.finished, clock)
  }

  predicate Refuses(thrown: Option<Thrown>) {
    thrown.Some? && thrown.value.Coded? && Persistable(thrown.value.code)
  }

  /** What a scheduler may rely on at each point of the protocol. */
  ghost predicate PcOk(r: Row, clock: int, pc: Pc) {
    match pc
    case Starting => !r.status.Running? && Due(r, clock)
    case Attempting => r.status.Running?
    case Checking(_) => r.status.Running?
    case Committing(fetched) =>
      r.status.Running? && fetched <= clock && (r.source.Some? ==> r.source.value < fetched)
    case Closing(publishing, thrown) => r.status.Running? || (r.status.Succeeded? && publishing && !Refuses(thrown))
    case Failing(_) => r.status.Running? || r.status.Succeeded?
    case _ => true
  }

  ghost predicate PcsOk(s: System) {
    forall p: nat :: !PcOf(s, p).Idle? ==> s.lease == Some(p) && PcOk(s.row, s.clock, PcOf(s, p))
  }

  ghost predicate Inv(s: System) {
    RowOk(s.row, s.log, s.clock) && PcsOk(s)
  }

  // ---------------------------------------------------------------- every step keeps the invariant

  lemma Logged(log: seq<Change>, change: Change)
    requires Legal(log) && (log == [] ==> change.Started?)
    requires |log| > 0 ==> Follows(log[|log| - 1], change)
    ensures Legal(log + [change])
    ensures Publications(log + [change]) == Publications(log) + if Publishes(change) then 1 else 0
  {
    assert (log + [change])[..|log|] == log;
  }

  lemma StartKeepsRow(r: Row, log: seq<Change>, now: int)
    requires RowOk(r, log, now) && !r.status.Running? && Due(r, now)
    ensures RowOk(StartAttempt(r, now), log + [Started(now)], now)
  {
    Logged(log, Started(now));
  }

  lemma PublishKeepsRow(r: Row, log: seq<Change>, fetched: int, now: int)
    requires RowOk(r, log, now) && PcOk(r, now, Committing(fetched))
    ensures RowOk(Publish(r, fetched, now), log + [Ended(now, true)], now)
  {
    Logged(log, Ended(now, true));
  }

  lemma MarkKeepsRow(r: Row, log: seq<Change>, code: Code, now: int)
    requires RowOk(r, log, now) && (r.status.Running? || r.status.Succeeded?)
    ensures RowOk(MarkFailed(r, code, now), log + [Ended(now, false)], now)
  {
    Logged(log, Ended(now, false));
  }

  lemma {:induction false} ActKeepsRow(s: System, e: Event, now: int)
    requires Inv(s) && s.clock == now
    ensures var r := Act(s, e, now); RowOk(r.row, r.log, r.clock)
  {
    var pc := PcOf(s, e.p);
    if e.Start? && pc.Starting? {
      StartKeepsRow(s.row, s.log, now);
    } else if e.Commit? && pc.Committing? {
      PublishKeepsRow(s.row, s.log, pc.fetched, now);
    } else if e.Mark? && pc.Failing? {
      MarkKeepsRow(s.row, s.log, pc.code, now);
    }
  }

  /** The scheduler that acts holds the lease if it is past acquiring it, and so no other one does. */
  lemma ActKeepsPcs(s: System, e: Event, now: int)
    requires PcsOk(s) && s.clock == now
    ensures PcsOk(Act(s, e, now))
  {
    var r := Act(s, e, now);
    forall p: nat | !PcOf(r, p).Idle? ensures r.lease == Some(p) && PcOk(r.row, r.clock, PcOf(r, p)) {
      if p == e.p {
        ActorOk(s, e, now);
      } else {
        BystanderOk(s, e, now, p);
      }
    }
  }

  lemma BystanderOk(s: System, e: Event, now: int, p: nat)
    requires PcsOk(s) && s.clock == now && p != e.p && !PcOf(Act(s, e, now), p).Idle?
    ensures var r := Act(s, e, now); r.lease == Some(p) && PcOk(r.row, r.clock, PcOf(r, p))
  {
    assert PcOf(Act(s, e, now), p) == PcOf(s, p);
    assert PcOf(s, e.p).Idle?;
  }

  lemma ActorOk(s: System, e: Event, now: int)
    requires PcsOk(s) && s.clock == now && !PcOf(Act(s, e, now), e.p).Idle?
    ensures var r := Act(s, e, now); r.lease == Some(e.p) && PcOk(r.row, r.clock, PcOf(r, e.p))
  {
    assert PcOf(s, e.p).Idle? || s.lease == Some(e.p);
  }

  lemma ClockAdvances(s: System, now: int)
    requires Inv(s) && s.clock <= now
    ensures Inv(s.(clock := now))
  {
    var later := s.(clock := now);
    forall p: nat | !PcOf(later, p).Idle? ensures later.lease == Some(p) && PcOk(later.row, now, PcOf(later, p)) {
      assert !PcOf(s, p).Idle?;
    }
  }

  lemma StepGrows(s: System, e: Event, now: int)
    ensures s.log <= Step(s, e, now).log && |Step(s, e, now).log| <= |s.log| + 1
    ensures Step(s, e, now).row.version >= s.row.version && Step(s, e, now).clock >= s.clock
  {
  }

  /** Every step of every scheduler keeps the row CHECKs, the lease discipline and the protocol. */
  lemma StepKeeps(s: System, e: Event, now: int)
    requires Inv(s)
    ensures Inv(Step(s, e, now))
  {
    if now >= s.clock {
      var later := s.(clock := now);
      ClockAdvances(s, now);
      ActKeepsRow(later, e, now);
      ActKeepsPcs(later, e, now);
    }
  }

  lemma {:induction false} RunKeeps(s: System, es: seq<Timed>)
    requires Inv(s)
    ensures Inv(Run(s, es)) && s.log <= Run(s, es).log && Run(s, es).row.version >= s.row.version
    decreases |es|
  {
    if |es| > 0 {
      StepKeeps(s, es[0].event, es[0].now);
      StepGrows(s, es[0].event, es[0].now);
      RunKeeps(Step(s, es[0].event, es[0].now), es[1..]);
    }
  }

  lemma StartIsOk()
    ensures Inv(START)
  {
  }

  // ---------------------------------------------------------------- rows and spacing over every run

  /** The row CHECKs hold after every interleaving, and the version counts the publications. */
  lemma RowChecksHold(es: seq<Timed>)
    ensures Checks(Run(START, es).row) && Run(START, es).row.version == Publications(Run(START, es).log)
  {
    StartIsOk();
    RunKeeps(START, es);
  }

  /** The attempts that start after position `i` and up to position `j`. */
  function StartsIn(log: seq<Change>, i: nat, j: nat): nat
    requires j < |log|
  {
    if j <= i then 0 else StartsIn(log, i, j - 1) + if log[j].Started? then 1 else 0
  }

  /** Every start costs a retry interval: `n` starts later is at least `n` intervals later. */
  lemma {:induction false} StartsApart(log: seq<Change>, i: nat, j: nat)
    requires Legal(log) && i <= j < |log|
    ensures log[j].at >= log[i].at + StartsIn(log, i, j) * SYNC_RETRY
    decreases j
  {
    if i < j {
      StartsApart(log, i, j - 1);
      assert Follows(log[j - 1], log[j]);
    }
  }

  /**
   * Over every interleaving of schedulers, stops, cancellations, crashes, lost acknowledgements and
   * errors while closing the source, attempt starts are at least the retry interval apart.
   */
  lemma AttemptsAreSpaced(es: seq<Timed>, i: nat, j: nat)
    requires var log := Run(START, es).log; i < j < |log| && log[i].Started? && log[j].Started?
    ensures var log := Run(START, es).log;
            StartsIn(log, i, j) >= 1 && log[j].at >= log[i].at + StartsIn(log, i, j) * SYNC_RETRY
  {
    StartIsOk();
    RunKeeps(START, es);
    StartsApart(Run(START, es).log, i, j);
  }

  /** A failure was recorded on top of the publication at `i`. */
  ghost predicate Overwritten(log: seq<Change>, i: nat) {
    i + 1 < |log| && Publishes(log[i]) && log[i + 1].Ended?
  }

  /**
   * After a publication comes the next start, a full interval later, or one failure and then the next
   * start, a retry interval after that failure.
   */
  lemma AfterPublication(es: seq<Timed>, i: nat)
    requires var log := Run(START, es).log; i + 1 < |log| && Publishes(log[i])
    ensures var log := Run(START, es).log;
            if Overwritten(log, i) then
              && !log[i + 1].published && log[i + 1].at >= log[i].at
              && (i + 2 < |log| ==> log[i + 2].Started? && log[i + 2].at >= log[i + 1].at + SYNC_RETRY)
            else log[i + 1].Started? && log[i + 1].at >= log[i].at + SYNC_INTERVAL
  {
    StartIsOk();
    RunKeeps(START, es);
    var log := Run(START, es).log;
    assert Follows(log[i], log[i + 1]);
    if i + 2 < |log| { assert Follows(log[i + 1], log[i + 2]); }
  }

  /**
   * When the row's last outcome concerns the publication at `i`, a start is held back for the full
   * interval if and only if no failure was recorded on top, or only in the last retry interval of it.
   */
  lemma HeldBackIff(es: seq<Timed>, i: nat)
    requires var log := Run(START, es).log;
             i < |log| && Publishes(log[i]) && (|log| == i + 1 || (|log| == i + 2 && Overwritten(log, i)))
    ensures var s := Run(START, es);
            (forall now :: Due(s.row, now) ==> now >= s.log[i].at + SYNC_INTERVAL) <==>
              !Overwritten(s.log, i) || s.log[i + 1].at + SYNC_RETRY >= s.log[i].at + SYNC_INTERVAL
  {
    StartIsOk();
    RunKeeps(START, es);
    var s := Run(START, es);
    var due := DueAt(s.row).value;
    if |s.log| == i + 2 {
      assert Follows(s.log[i], s.log[i + 1]);
      assert Due(s.row, due);
    }
  }

  // ---------------------------------------------------------------- when a publication is overwritten

  lemma {:induction false} RunAppend(s: System, es: seq<Timed>, fs: seq<Timed>)
    ensures Run(s, es + fs) == Run(Run(s, es), fs)
    decreases |es|
  {
    if |es| == 0 {
      assert es + fs == fs;
    } else {
      assert (es + fs)[0] == es[0] && (es + fs)[1..] == es[1..] + fs;
      RunAppend(Step(s, es[0].event, es[0].now), es[1..], fs);
    }
  }

  /** The state before event `k` of a run. */
  ghost function StateAt(es: seq<Timed>, k: nat): System
    requires k <= |es|
  {
    Run(START, es[..k])
  }

  lemma StateZero(es: seq<Timed>)
    ensures StateAt(es, 0) == START
  {
    assert es[..0] == [];
  }

  lemma StateNext(es: seq<Timed>, k: nat)
    requires k < |es|
    ensures StateAt(es, k + 1) == Step(StateAt(es, k), es[k].event, es[k].now)
  {
    assert es[..k + 1] == es[..k] + [es[k]];
    RunAppend(START, es[..k], [es[k]]);
    assert [es[k]][1..] == [];
  }

  lemma StateIsOk(es: seq<Timed>, k: nat)
    requires k <= |es|
    ensures Inv(StateAt(es, k))
  {
    StartIsOk();
    RunKeeps(START, es[..k]);
  }

  lemma {:induction false} LogGrows(es: seq<Timed>, j: nat, k: nat)
    requires j <= k <= |es|
    ensures StateAt(es, j).log <= StateAt(es, k).log
    decreases k
  {
    if j < k {
      LogGrows(es, j, k - 1);
      StateNext(es, k - 1);
      StepGrows(StateAt(es, k - 1), es[k - 1].event, es[k - 1].now);
    }
  }

  /** Closing the source raises a refusal although the snapshot is already published. */
  ghost predicate LateRefusal(s: System, t: Timed) {
    && t.now >= s.clock && t.event.Close? && Refuses(t.event.raised)
    && PcOf(s, t.event.p).Closing? && s.row.status.Succeeded?
  }

  /** A failure to be marked is marked, given up or lost with its scheduler. */
  ghost predicate Settles(s: System, t: Timed, p: nat) {
    t.now >= s.clock && t.event.p == p && (t.event.Mark? || t.event.Abandon? || t.event.Crash?)
  }

  ghost predicate Doomed(s: System, p: nat) {
    PcOf(s, p).Failing? && s.row.status.Succeeded?
  }

  /** A published row comes to await a failure mark by a late refusal, and in no other way. */
  lemma CauseOfDoom(s: System, t: Timed, p: nat)
    requires Inv(s) && Doomed(Step(s, t.event, t.now), p)
    ensures Step(s, t.event, t.now).log == s.log
    ensures (LateRefusal(s, t) && t.event.p == p) || (Doomed(s, p) && !Settles(s, t, p))
  {
    var e := t.event;
    assert PcOf(s, p).Idle? || s.lease == Some(p);
    assert PcOf(s, e.p).Idle? || s.lease == Some(e.p);
  }

  lemma {:induction false} DoomLasts(s: System, t: Timed, p: nat)
    requires Inv(s) && Doomed(s, p) && !Settles(s, t, p)
    ensures Doomed(Step(s, t.event, t.now), p) && Step(s, t.event, t.now).log == s.log
  {
    var e := t.event;
    assert s.lease == Some(p);
    assert PcOf(s, e.p).Idle? || s.lease == Some(e.p);
  }

  lemma RefusalDooms(s: System, t: Timed)
    requires Inv(s) && LateRefusal(s, t)
    ensures Doomed(Step(s, t.event, t.now), t.event.p) && Step(s, t.event, t.now).log == s.log
  {
  }

  /** The refusal at `from` is still to be marked before event `k`. */
  ghost predicate Refused(es: seq<Timed>, from: nat, k: nat) {
    && from < k <= |es| && LateRefusal(StateAt(es, from), es[from])
    && forall j: nat :: from < j < k ==> !Settles(StateAt(es, j), es[j], es[from].event.p)
  }

  lemma {:induction false} RefusedIsDoomed(es: seq<Timed>, from: nat, k: nat)
    requires Refused(es, from, k)
    ensures Doomed(StateAt(es, k), es[from].event.p) && StateAt(es, k).log == StateAt(es, from).log
    decreases k
  {
    StateIsOk(es, k - 1);
    StateNext(es, k - 1);
    if k == from + 1 {
      RefusalDooms(StateAt(es, from), es[from]);
    } else {
      RefusedIsDoomed(es, from, k - 1);
      DoomLasts(StateAt(es, k - 1), es[k - 1], es[from].event.p);
    }
  }

  lemma {:induction false} DoomedWasRefused(es: seq<Timed>, k: nat, p: nat)
    requires k <= |es| && Doomed(StateAt(es, k), p)
    ensures exists from: nat :: Refused(es, from, k) && es[from].event.p == p && StateAt(es, from).log == StateAt(es, k).log
  {
    StateZero(es);
    if k > 0 {
      StateIsOk(es, k - 1);
      StateNext(es, k - 1);
      CauseOfDoom(StateAt(es, k - 1), es[k - 1], p);
      if LateRefusal(StateAt(es, k - 1), es[k - 1]) && es[k - 1].event.p == p {
        assert Refused(es, k - 1, k);
      } else {
        DoomedWasRefused(es, k - 1, p);
        var from: nat :| Refused(es, from, k - 1) && es[from].event.p == p && StateAt(es, from).log == StateAt(es, k - 1).log;
        assert Refused(es, from, k);
      }
    }
  }

  /** Event `k` wrote entry `n` of the log. */
  ghost predicate Writes(es: seq<Timed>, k: nat, n: nat) {
    k < |es| && |StateAt(es, k).log| == n && |StateAt(es, k + 1).log| == n + 1
  }

  lemma {:induction false} EntryWasWritten(es: seq<Timed>, m: nat, n: nat)
    requires m <= |es| && n < |StateAt(es, m).log|
    ensures exists k: nat :: k < m && Writes(es, k, n)
    decreases m
  {
    StateZero(es);
    if m > 0 {
      StateNext(es, m - 1);
      StepGrows(StateAt(es, m - 1), es[m - 1].event, es[m - 1].now);
      if n < |StateAt(es, m - 1).log| {
        EntryWasWritten(es, m - 1, n);
      } else {
        assert Writes(es, m - 1, n);
      }
    }
  }

  /** Over a row that shows a publication, only marking a failure adds an outcome. */
  lemma OnlyMarkOverwrites(s: System, t: Timed)
    requires Inv(s) && |s.log| > 0 && Publishes(s.log[|s.log| - 1])
    requires var r := Step(s, t.event, t.now); |r.log| == |s.log| + 1 && r.log[|s.log|].Ended?
    ensures t.event.Mark? && Doomed(s, t.event.p) && t.now >= s.clock
  {
    assert PcOf(s, t.event.p).Idle? || PcOk(s.row, s.clock, PcOf(s, t.event.p));
  }

  /** The refusal at `from` came late for the publication at `i`, and event `k` marked it. */
  ghost predicate MarkedLate(es: seq<Timed>, from: nat, k: nat, i: nat) {
    && k < |es| && Refused(es, from, k) && es[k].event == Mark(es[from].event.p)
    && es[k].now >= StateAt(es, k).clock && |StateAt(es, from).log| == i + 1
  }

  lemma MarkedLateOverwrites(es: seq<Timed>, i: nat, from: nat, k: nat)
    requires i < |Run(START, es).log| && Publishes(Run(START, es).log[i]) && MarkedLate(es, from, k, i)
    ensures Overwritten(Run(START, es).log, i)
  {
    assert es[..|es|] == es;
    RefusedIsDoomed(es, from, k);
    StateNext(es, k);
    LogGrows(es, k + 1, |es|);
    assert StateAt(es, k + 1).log[i + 1] == Ended(es[k].now, false);
  }

  lemma OverwrittenWasMarkedLate(es: seq<Timed>, i: nat)
    requires Overwritten(Run(START, es).log, i)
    ensures exists from: nat, k: nat :: MarkedLate(es, from, k, i)
  {
    assert es[..|es|] == es;
    EntryWasWritten(es, |es|, i + 1);
    var k: nat :| k < |es| && Writes(es, k, i + 1);
    LogGrows(es, k, |es|);
    LogGrows(es, k + 1, |es|);
    StateIsOk(es, k);
    StateNext(es, k);
    OnlyMarkOverwrites(StateAt(es, k), es[k]);
    DoomedWasRefused(es, k, es[k].event.p);
    var from: nat :| Refused(es, from, k) && es[from].event.p == es[k].event.p && StateAt(es, from).log == StateAt(es, k).log;
    assert MarkedLate(es, from, k, i);
  }

  /**
   * Over every run, a committed publication is recorded as failed if and only if closing the source
   * raised a refusal after the commit and that scheduler went on to mark it.
   */
  lemma OverwrittenIff(es: seq<Timed>, i: nat)
    requires i < |Run(START, es).log| && Publishes(Run(START, es).log[i])
    ensures Overwritten(Run(START, es).log, i) <==> exists from: nat, k: nat :: MarkedLate(es, from, k, i)
  {
    if Overwritten(Run(START, es).log, i) {
      OverwrittenWasMarkedLate(es, i);
    }
    forall from: nat, k: nat | MarkedLate(es, from, k, i) ensures Overwritten(Run(START, es).log, i) {
      MarkedLateOverwrites(es, i, from, k);
    }
  }

  /** Without a late refusal, what follows a publication is the next start, a full interval later. */
  lemma {:induction false} PublicationIsNeverFailed(es: seq<Timed>, i: nat)
    requires forall k: nat :: k < |es| ==> !LateRefusal(StateAt(es, k), es[k])
    requires i < |Run(START, es).log| && Publishes(Run(START, es).log[i])
    ensures var s := Run(START, es);
            if i + 1 < |s.log| then s.log[i + 1].Started? && s.log[i + 1].at >= s.log[i].at + SYNC_INTERVAL
            else s.row.status.Succeeded?
  {
    OverwrittenIff(es, i);
    StartIsOk();
    RunKeeps(START, es);
    if i + 1 < |Run(START, es).log| { AfterPublication(es, i); }
  }

  // ---------------------------------------------------------------- a run with a late refusal

  lemma RunTwo(s: System, x: Timed, y: Timed)
    ensures Run(s, [x, y]) == Step(Step(s, x.event, x.now), y.event, y.now)
  {
    assert [x, y][1..] == [y] && [y][1..] == [];
    assert Run(Step(s, x.event, x.now), [y]) == Run(Step(Step(s, x.event, x.now), y.event, y.now), []);
  }

  const AGAIN := 1 + SYNC_RETRY
  const OPENING := [Timed(Acquire(0, false), 1), Timed(Read(0), 1)]
  const FETCHING := [Timed(Start(0, true), 1), Timed(Source(0, Snapshot(1, true, false)), 1)]
  const PUBLISHING := [Timed(Validate(0, None), 1), Timed(Commit(0, true, Acknowledged), 1)]
  const REFUSING := [Timed(Close(0, Some(Coded(SnapshotInvalid))), 1), Timed(Mark(0), 1)]
  const REOPENING := [Timed(Release(0), 1), Timed(Acquire(0, false), AGAIN)]
  const RESTARTING := [Timed(Read(0), AGAIN), Timed(Start(0, true), AGAIN)]

  /** Scheduler 0 alone, at time `now`, holding the lease. */
  function Alone(row: Row, now: int, pc: Pc, log: seq<Change>): System {
    System(row, now, Some(0), map[0 := pc], log)
  }

  const RUNNING_ROW := StartAttempt(INITIAL, 1)
  const PUBLISHED_ROW := Publish(RUNNING_ROW, 1, 1)
  const FAILED_ROW := MarkFailed(PUBLISHED_ROW, SnapshotInvalid, 1)

  lemma Opens()
    ensures Run(START, OPENING) == Alone(INITIAL, 1, Starting, [])
  {
    RunTwo(START, OPENING[0], OPENING[1]);
    assert Step(START, OPENING[0].event, 1) == Alone(INITIAL, 1, Holding, []);
  }

  lemma Fetches(s: System)
    requires s == Alone(INITIAL, 1, Starting, [])
    ensures Run(s, FETCHING) == Alone(RUNNING_ROW, 1, Checking(1), [Started(1)])
  {
    RunTwo(s, FETCHING[0], FETCHING[1]);
    assert Step(s, FETCHING[0].event, 1) == Alone(RUNNING_ROW, 1, Attempting, [Started(1)]);
  }

  lemma PublishesIt(s: System)
    requires s == Alone(RUNNING_ROW, 1, Checking(1), [Started(1)])
    ensures Run(s, PUBLISHING) == Alone(PUBLISHED_ROW, 1, Closing(true, None), [Started(1), Ended(1, true)])
  {
    RunTwo(s, PUBLISHING[0], PUBLISHING[1]);
    assert Step(s, PUBLISHING[0].event, 1) == Alone(RUNNING_ROW, 1, Committing(1), [Started(1)]);
  }

  lemma RefusesIt(s: System)
    requires s == Alone(PUBLISHED_ROW, 1, Closing(true, None), [Started(1), Ended(1, true)])
    ensures Run(s, REFUSING) == Alone(FAILED_ROW, 1, Leaving, [Started(1), Ended(1, true), Ended(1, false)])
  {
    RunTwo(s, REFUSING[0], REFUSING[1]);
    assert Step(s, REFUSING[0].event, 1) == Alone(PUBLISHED_ROW, 1, Failing(SnapshotInvalid), [Started(1), Ended(1, true)]);
  }

  lemma Reopens(s: System)
    requires s == Alone(FAILED_ROW, 1, Leaving, [Started(1), Ended(1, true), Ended(1, false)])
    ensures Run(s, REOPENING) == Alone(FAILED_ROW, AGAIN, Holding, s.log)
  {
    RunTwo(s, REOPENING[0], REOPENING[1]);
    assert Step(s, REOPENING[0].event, 1) == System(FAILED_ROW, 1, None, map[0 := Idle], s.log);
  }

  lemma Restarts(s: System)
    requires s == Alone(FAILED_ROW, AGAIN, Holding, [Started(1), Ended(1, true), Ended(1, false)])
    ensures Run(s, RESTARTING).log == [Started(1), Ended(1, true), Ended(1, false), Started(AGAIN)]
  {
    RunTwo(s, RESTARTING[0], RESTARTING[1]);
    assert Step(s, RESTARTING[0].event, AGAIN) == Alone(FAILED_ROW, AGAIN, Starting, s.log);
  }

  lemma {:induction false} RunThree(s: System, a: seq<Timed>, b: seq<Timed>, c: seq<Timed>)
    ensures Run(s, a + b + c) == Run(Run(Run(s, a), b), c)
  {
    RunAppend(s, a, b);
    RunAppend(s, a + b, c);
  }

  const BEFORE_REFUSAL := OPENING + FETCHING + PUBLISHING
  const AFTER_REFUSAL := REFUSING + REOPENING + RESTARTING

  lemma {:induction false} FirstHalf()
    ensures Run(START, BEFORE_REFUSAL) == Alone(PUBLISHED_ROW, 1, Closing(true, None), [Started(1), Ended(1, true)])
  {
    RunThree(START, OPENING, FETCHING, PUBLISHING);
    Opens();
    Fetches(Run(START, OPENING));
    PublishesIt(Run(Run(START, OPENING), FETCHING));
  }

  lemma {:induction false} SecondHalf(s: System)
    requires s == Alone(PUBLISHED_ROW, 1, Closing(true, None), [Started(1), Ended(1, true)])
    ensures Run(s, AFTER_REFUSAL).log == [Started(1), Ended(1, true), Ended(1, false), Started(AGAIN)]
  {
    RunThree(s, REFUSING, REOPENING, RESTARTING);
    RefusesIt(s);
    Reopens(Run(s, REFUSING));
    Restarts(Run(Run(s, REFUSING), REOPENING));
  }

  /**
   * One scheduler, one whole snapshot, and a refusal raised while closing: the publication is recorded
   * as failed, and the next attempt starts one retry interval after it, not a full one.
   */
  lemma {:induction false} LateRefusalHappens()
    ensures Run(START, BEFORE_REFUSAL + AFTER_REFUSAL).log == [Started(1), Ended(1, true), Ended(1, false), Started(1 + SYNC_RETRY)]
  {
    RunAppend(START, BEFORE_REFUSAL, AFTER_REFUSAL);
    FirstHalf();
    SecondHalf(Run(START, BEFORE_REFUSAL));
  }

  // ---------------------------------------------------------------- what is published

  /** At event `j`, scheduler `p` read the source: a whole snapshot of time `f`, and no request to stop. */
  ghost predicate ReadWhole(es: seq<Timed>, j: nat, p: nat, f: int) {
    && j < |es| && es[j].event == Source(p, Snapshot(f, true, false))
    && PcOf(StateAt(es, j), p).Attempting? && es[j].now >= StateAt(es, j).clock
  }

  /** At event `v`, the store had nothing against the snapshot, which is newer than the last and not from the future. */
  ghost predicate Validated(es: seq<Timed>, v: nat, p: nat, f: int) {
    && v < |es| && es[v].event == Validate(p, None) && f <= es[v].now
    && (StateAt(es, v).row.source.Some? ==> StateAt(es, v).row.source.value < f)
  }

  ghost predicate CarriesSnapshot(pc: Pc, f: int) {
    pc == Checking(f) || pc == Committing(f)
  }

  /** A scheduler that carries a snapshot just read it, or carried it before, and nothing was written meanwhile. */
  lemma {:induction false} CarriedFrom(s: System, t: Timed, p: nat, f: int)
    requires Inv(s) && CarriesSnapshot(PcOf(Step(s, t.event, t.now), p), f)
    ensures Step(s, t.event, t.now).log == s.log && Step(s, t.event, t.now).row == s.row
    ensures || CarriesSnapshot(PcOf(s, p), f)
            || (t.event == Source(p, Snapshot(f, true, false)) && PcOf(s, p).Attempting? && t.now >= s.clock)
    ensures PcOf(Step(s, t.event, t.now), p).Committing? ==>
              || PcOf(s, p) == Committing(f)
              || (t.event == Validate(p, None) && f <= t.now && (s.row.source.Some? ==> s.row.source.value < f))
  {
    assert PcOf(s, t.event.p).Idle? || s.lease == Some(t.event.p);
    assert PcOf(s, p).Idle? || s.lease == Some(p);
  }

  ghost predicate ReadBefore(es: seq<Timed>, k: nat, p: nat, f: int, j: nat) {
    j < k <= |es| && ReadWhole(es, j, p, f) && StateAt(es, j).log == StateAt(es, k).log
  }

  lemma {:induction false} CarriedWasRead(es: seq<Timed>, k: nat, p: nat, f: int) returns (j: nat)
    requires k <= |es| && CarriesSnapshot(PcOf(StateAt(es, k), p), f)
    ensures ReadBefore(es, k, p, f, j)
  {
    StateZero(es);
    StateIsOk(es, k - 1);
    StateNext(es, k - 1);
    CarriedFrom(StateAt(es, k - 1), es[k - 1], p, f);
    if CarriesSnapshot(PcOf(StateAt(es, k - 1), p), f) {
      j := CarriedWasRead(es, k - 1, p, f);
    } else {
      j := k - 1;
    }
  }

  ghost predicate ValidatedBefore(es: seq<Timed>, k: nat, p: nat, f: int, v: nat) {
    v < k <= |es| && Validated(es, v, p, f) && StateAt(es, v).log == StateAt(es, k).log
  }

  lemma {:induction false} CommittedWasValidated(es: seq<Timed>, k: nat, p: nat, f: int) returns (v: nat)
    requires k <= |es| && PcOf(StateAt(es, k), p) == Committing(f)
    ensures ValidatedBefore(es, k, p, f, v)
  {
    StateZero(es);
    StateIsOk(es, k - 1);
    StateNext(es, k - 1);
    CarriedFrom(StateAt(es, k - 1), es[k - 1], p, f);
    if PcOf(StateAt(es, k - 1), p) == Committing(f) {
      v := CommittedWasValidated(es, k - 1, p, f);
    } else {
      v := k - 1;
    }
  }

  /** A publication is written by committing a snapshot that the scheduler carries. */
  lemma {:induction false} OnlyCommitPublishes(s: System, t: Timed)
    requires var r := Step(s, t.event, t.now); |r.log| == |s.log| + 1 && Publishes(r.log[|s.log|])
    ensures var r := Step(s, t.event, t.now);
            && t.event.Commit? && PcOf(s, t.event.p).Committing? && r.log == s.log + [Ended(t.now, true)]
            && r.row.source == Some(PcOf(s, t.event.p).fetched) && r.row.success == Some(t.now) && r.row.status.Succeeded?
  {
  }

  /** Entry `i` of the log was written by event `k`: the commit of the snapshot read at `j` and validated at `v`. */
  ghost predicate PublishedFrom(es: seq<Timed>, i: nat, j: nat, v: nat, k: nat, p: nat, f: int) {
    && Writes(es, k, i) && es[k].event.Commit? && es[k].event.p == p
    && ReadBefore(es, k, p, f, j) && ValidatedBefore(es, k, p, f, v)
    && StateAt(es, k + 1).row.source == Some(f) && StateAt(es, k + 1).row.success == Some(es[k].now)
  }

  /**
   * Over every run, what is published is a whole snapshot: the scheduler that committed it read it after
   * the last start, was not asked to stop, and found it newer than the one it replaces.
   */
  lemma {:induction false} PublishedWasRead(es: seq<Timed>, i: nat) returns (j: nat, v: nat, k: nat, p: nat, f: int)
    requires i < |Run(START, es).log| && Publishes(Run(START, es).log[i])
    ensures PublishedFrom(es, i, j, v, k, p, f)
    ensures i > 0 && Run(START, es).log[i - 1].Started?
  {
    assert es[..|es|] == es;
    EntryWasWritten(es, |es|, i);
    k :| k < |es| && Writes(es, k, i);
    StateNext(es, k);
    LogGrows(es, k + 1, |es|);
    OnlyCommitPublishes(StateAt(es, k), es[k]);
    p := es[k].event.p;
    f := PcOf(StateAt(es, k), p).fetched;
    j := CarriedWasRead(es, k, p, f);
    v := CommittedWasValidated(es, k, p, f);
    StartIsOk();
    RunKeeps(START, es);
    BeforePublication(Run(START, es).log, i);
  }

  lemma BeforePublication(log: seq<Change>, i: nat)
    requires Legal(log) && i < |log| && Publishes(log[i])
    ensures i > 0 && log[i - 1].Started?
  {
    if i > 0 { assert Follows(log[i - 1], log[i]); }
  }

  // ---------------------------------------------------------------- freshness

  datatype Freshness = Fresh | Missing | Stale | Unavailable

  function CheckFreshness(version: int, source: Option<int>, success: Option<int>, now: int, maxAge: int): Freshness {
    if version < 0 then Unavailable
    else if version == 0 then if source.Some? || success.Some? then Unavailable else Missing
    else if source.None? || success.None? || source.value > success.value || success.value > now then Unavailable
    else if now - source.value > maxAge || now - success.value > maxAge then Stale
    else Fresh
  }

  function FreshnessOf(r: Row, now: int, maxAge: int): Freshness {
    CheckFreshness(r.version, r.source, r.success, now, maxAge)
  }

  /** Whether the synchronisation is healthy: fresh, and succeeded or running within the deadline. */
  function Diagnostic(r: Row, now: int, maxAge: int): bool {
    FreshnessOf(r, now, maxAge).Fresh? &&
    (r.status.Succeeded? || (r.status.Running? && r.started.Some? && 0 <= now - r.started.value <= SOURCE_DEADLINE))
  }

  /**
   * For every reachable row read at a later time, freshness is a matter of the source's age alone,
   * and the row is never found unusable.
   */
  lemma FreshnessIsSourceAge(es: seq<Timed>, now: int, maxAge: int)
    requires now >= Run(START, es).clock
    ensures var s := Run(START, es);
            var f := FreshnessOf(s.row, now, maxAge);
            && !f.Unavailable? && (f.Missing? <==> Publications(s.log) == 0)
            && (f.Fresh? <==> s.row.version > 0 && s.row.source.Some? && now - s.row.source.value <= maxAge)
  {
    StartIsOk();
    RunKeeps(START, es);
  }

  /** The diagnostic reads the history right: the last thing written is a publication or a recent start. */
  lemma DiagnosticMeans(es: seq<Timed>, now: int, maxAge: int)
    requires now >= Run(START, es).clock
    ensures var s := Run(START, es);
            Diagnostic(s.row, now, maxAge) <==>
              && s.row.version > 0 && s.row.source.Some? && now - s.row.source.value <= maxAge
              && s.log != []
              && match s.log[|s.log| - 1]
                 case Started(at) => now - at <= SOURCE_DEADLINE
                 case Ended(_, published) => published
  {
    StartIsOk();
    RunKeeps(START, es);
    FreshnessIsSourceAge(es, now, maxAge);
  }

  /** A view checked again after `elapsed` on the monotonic clock. */
  function Recheck(r: Row, observed: int, elapsed: int, maxAge: int): Freshness {
    if elapsed < 0 then Unavailable else FreshnessOf(r, observed + elapsed, maxAge)
  }

  /**
   * A view that was fresh when read stays fresh up to some time and is stale from then on; it is
   * refused as unusable exactly when the clock seems to have run backwards.
   */
  lemma RecheckOnlyAges(r: Row, observed: int, maxAge: int, e: int, f: int)
    requires FreshnessOf(r, observed, maxAge).Fresh? && e <= f
    ensures Recheck(r, observed, e, maxAge).Unavailable? <==> e < 0
    ensures 0 <= e && Recheck(r, observed, f, maxAge).Fresh? ==> Recheck(r, observed, e, maxAge).Fresh?
    ensures Recheck(r, observed, e, maxAge).Stale? ==> Recheck(r, observed, f, maxAge).Stale?
    ensures Recheck(r, observed, e, maxAge).Fresh? <==> 0 <= e && r.source.Some? && observed + e - r.source.value <= maxAge
  {
  }

  // ---------------------------------------------------------------- one call of the scheduler

  /** What one call meets: stop requests, clock readings, lost writes and the source's answers. */
  datatype Env = Env(
    stop: bool, readAt: int, startAt: int, startLost: bool, startAcknowledged: bool, fetch: Fetch,
    refusal: Option<Thrown>, commitAt: int, committed: bool, answer: Answer, closing: Option<Thrown>, markAt: int,
    markLost: bool)

  ghost predicate Ordered(env: Env, clock: int) {
    clock <= env.readAt <= env.startAt <= env.commitAt <= env.markAt
  }

  /** The source gave a whole snapshot, and nobody asked to stop. */
  predicate Whole(env: Env) {
    env.fetch.Snapshot? && env.fetch.complete && !env.fetch.stop
  }

  /** The snapshot is newer than the published one and not from the future. */
  predicate InTime(env: Env, r: Row) {
    env.fetch.Snapshot? && env.fetch.fetched <= env.commitAt && (r.source.Some? ==> r.source.value < env.fetch.fetched)
  }

  predicate IsPublished(env: Env, r: Row) {
    Whole(env) && env.refusal.None? && InTime(env, r) && env.committed
  }

  /** What goes wrong in an attempt, if anything, before the source is closed. */
  function Trouble(env: Env, r: Row): Option<Thrown> {
    if env.fetch.Threw? then Some(env.fetch.thrown)
    else if !Whole(env) then Some(Coded(if env.fetch.complete then SyncInterrupted else SnapshotIncomplete))
    else if env.refusal.Some? then env.refusal
    else if !InTime(env, r) then Some(Coded(SnapshotInvalid))
    else if env.answer.Cut? then Some(Interrupt)
    else if env.committed && env.answer.Acknowledged? then None
    else Some(Coded(StorageUnavailable))
  }

  /** The code persisted for what is raised: any before publication, and then only two. */
  function Persisted(publishing: bool, raised: Option<Thrown>): Option<Code> {
    if raised.None? then None
    else if publishing then
      if raised.value in {Coded(SnapshotIncomplete), Coded(SnapshotInvalid)} then Some(raised.value.code) else None
    else
      match raised.value
      case Coded(code) => Some(code)
      case Uncoded => Some(SourceUnavailable)
      case Interrupt => Some(SyncInterrupted)
  }

  /** The code an attempt records, if any: that of an error while closing comes first. */
  function Recorded(env: Env, r: Row): Option<Code> {
    if env.markLost then None
    else Persisted(Whole(env), if env.closing.Some? then env.closing else Trouble(env, r))
  }

  /** The row that an attempt on the running row `r` leaves. */
  function RowAfter(env: Env, r: Row): Row {
    var published, code := IsPublished(env, r), Recorded(env, r);
    Row(if published then r.version + 1 else r.version,
        if published then Some(env.fetch.fetched) else r.source,
        if published then Some(env.commitAt) else r.success,
        r.started,
        if code.Some? then Some(env.markAt) else if published then Some(env.commitAt) else None,
        if code.Some? then Failed else if published then Succeeded else Running,
        code)
  }

  function LogAfter(env: Env, r: Row, log: seq<Change>): seq<Change> {
    log + (if IsPublished(env, r) then [Ended(env.commitAt, true)] else [])
        + (if Recorded(env, r).Some? then [Ended(env.markAt, false)] else [])
  }

  /** A row on which an attempt may start: not running, and its interval over. */
  predicate MayStart(r: Row, now: int) {
    && !r.status.Running?
    && (r.status.Failed? && r.finished.Some? ==> now - r.finished.value >= SYNC_RETRY)
    && (r.status.Succeeded? && r.success.Some? ==> now - r.success.value >= SYNC_INTERVAL)
  }

  function RunningSince(r: Row, at: int): Row {
    Row(r.version, r.source, r.success, Some(at), None, Running, None)
  }

  /** What a call that has the lease and is not stopped makes of the row and its history. */
  ghost predicate Called(env: Env, r: Row, log: seq<Change>, r': Row, log': seq<Change>) {
    var running, started := RunningSince(r, env.startAt), log + [Started(env.startAt)];
    if r.status.Running? && !env.markLost then
      && r' == r.(status := Failed, error := Some(SyncInterrupted), finished := Some(env.markAt))
      && log' == log + [Ended(env.markAt, false)]
    else if !MayStart(r, env.readAt) || env.startLost then r' == r && log' == log
    else if env.startAcknowledged then r' == RowAfter(env, running) && log' == LogAfter(env, running, started)
    else r' == running && log' == started
  }

  class SyncService {
    const p: nat
    var row: Row
    var clock: int
    var lease: Option<nat>
    var pcs: map<nat, Pc>
    var log: seq<Change>

    ghost function Now(): System
      reads this
    {
      System(row, clock, lease, pcs, log)
    }

    constructor (p: nat, s: System)
      ensures this.p == p && Now() == s
    {
      this.p, row, clock, lease, pcs, log := p, s.row, s.clock, s.lease, s.pcs, s.log;
    }

    function Here(): Pc
      reads this
    {
      PcOf(System(row, clock, lease, pcs, log), p)
    }

    /** One step at the store. */
    method Take(e: Event, now: int)
      requires Inv(Now())
      modifies this
      ensures Now() == Step(old(Now()), e, now) && Inv(Now())
    {
      StepKeeps(Now(), e, now);
      var s := Step(System(row, clock, lease, pcs, log), e, now);
      row, clock, lease, pcs, log := s.row, s.clock, s.lease, s.pcs, s.log;
    }

    /** Marks the attempt failed unless that write is lost. */
    method MarkUnlessLost(env: Env)
      requires Inv(Now()) && clock <= env.markAt && !Here().Idle?
      modifies this
      ensures Inv(Now()) && clock == env.markAt && Here().Leaving?
      ensures if old(Here()).Failing? && !env.markLost
              then log == old(log) + [Ended(env.markAt, false)] && row == MarkFailed(old(row), old(Here()).code, env.markAt)
              else log == old(log) && row == old(row)
    {
      if Here().Failing? && !env.markLost {
        Take(Mark(p), env.markAt);
      } else {
        Take(Abandon(p), env.markAt);
      }
    }

    /** Marks the attempt failed unless that write is lost, and gives the lease back. */
    method Leave(env: Env)
      requires Inv(Now()) && clock <= env.markAt && !Here().Idle?
      modifies this
      ensures Inv(Now()) && Here().Idle? && lease.None?
      ensures if old(Here()).Failing? && !env.markLost
              then log == old(log) + [Ended(env.markAt, false)] && row == MarkFailed(old(row), old(Here()).code, env.markAt)
              else log == old(log) && row == old(row)
    {
      MarkUnlessLost(env);
      HolderHasLease(Now(), p);
      Take(Release(p), env.markAt);
    }

    /** Validates the snapshot and commits it, whatever the scheduler then learns of the commit. */
    method PublishSnapshot(env: Env)
      requires Inv(Now()) && clock <= env.commitAt && Whole(env) && Here() == Checking(env.fetch.fetched)
      modifies this
      ensures Inv(Now()) && clock == env.commitAt && Here() == Closing(true, Trouble(env, old(row)))
      ensures if IsPublished(env, old(row))
              then && log == old(log) + [Ended(env.commitAt, true)]
                   && row == Row(old(row).version + 1, Some(env.fetch.fetched), Some(env.commitAt), old(row).started,
                                 Some(env.commitAt), Succeeded, None)
              else log == old(log) && row == old(row)
    {
      Take(Validate(p, env.refusal), env.commitAt);
      if Here().Committing? { Take(Commit(p, env.committed, env.answer), env.commitAt); }
    }

    /** Closes the source; an error in closing replaces what was raised before. */
    method CloseSource(env: Env)
      requires Inv(Now()) && Here().Closing?
      modifies this
      ensures Inv(Now()) && clock == old(clock) && row == old(row) && log == old(log)
      ensures var raised := if env.closing.Some? then env.closing else old(Here()).thrown;
              var code := Persisted(old(Here()).publishing, raised);
              Here() == if code.Some? then Failing(code.value) else Leaving
    {
      Take(Close(p, env.closing), clock);
    }

    /** Closes the source, marks the failure there is to record, and gives the lease back. */
    method CloseAndLeave(env: Env)
      requires Inv(Now()) && clock <= env.markAt && Here().Closing?
      modifies this
      ensures Inv(Now()) && Here().Idle? && lease.None?
      ensures var raised := if env.closing.Some? then env.closing else old(Here()).thrown;
              var code := if env.markLost then None else Persisted(old(Here()).publishing, raised);
              if code.Some?
              then && log == old(log) + [Ended(env.markAt, false)]
                   && row == old(row).(status := Failed, error := code, finished := Some(env.markAt))
              else log == old(log) && row == old(row)
    {
      CloseSource(env);
      Leave(env);
    }

    /** Reads the source: a whole snapshot to publish, or something to raise. */
    method Fetch(env: Env)
      requires Inv(Now()) && Here().Attempting?
      modifies this
      ensures Inv(Now()) && clock == old(clock) && row == old(row) && log == old(log)
      ensures Here() == if Whole(env) then Checking(env.fetch.fetched) else Closing(false, Trouble(env, row))
    {
      Take(Source(p, env.fetch), clock);
    }

    /** Reads the source, publishes what it gave, closes it and leaves. */
    method ReadSource(env: Env)
      requires Inv(Now()) && Here().Attempting? && clock <= env.commitAt <= env.markAt
      modifies this
      ensures Inv(Now()) && Here().Idle? && lease.None?
      ensures row == RowAfter(env, old(row)) && log == LogAfter(env, old(row), old(log))
    {
      PcIsOk(Now(), p);
      Fetch(env);
      if Here().Checking? { PublishSnapshot(env); }
      CloseAndLeave(env);
    }

    /** One persisted start, and what comes of it. */
    method Attempt(env: Env) returns (ran: bool)
      requires Inv(Now()) && Here().Starting? && Ordered(env, clock)
      modifies this
      ensures Inv(Now()) && Here().Idle? && lease.None? && ran == env.startAcknowledged
      ensures var running, started := RunningSince(old(row), env.startAt), old(log) + [Started(env.startAt)];
              if ran then row == RowAfter(env, running) && log == LogAfter(env, running, started)
              else row == running && log == started
    {
      Take(Start(p, env.startAcknowledged), env.startAt);
      if !env.startAcknowledged {
        Leave(env);
        return false;
      }
      ReadSource(env);
      return true;
    }

    /** Takes the free lease and reads the row: an attempt to recover, one to start, or nothing to do. */
    method LookUnderLease(env: Env)
      requires Inv(Now()) && Here().Idle? && lease.None? && clock <= env.readAt && !env.stop
      modifies this
      ensures Inv(Now()) && clock == env.readAt && row == old(row) && log == old(log)
      ensures Here() == if row.status.Running? then Failing(SyncInterrupted)
                        else if MayStart(row, env.readAt) then Starting else Leaving
    {
      Take(Acquire(p, env.stop), env.readAt);
      Take(Read(p), env.readAt);
    }

    /** The call under a free lease, when nobody asks to stop. */
    method RunUnderLease(env: Env) returns (ran: bool)
      requires Inv(Now()) && Here().Idle? && lease.None? && !env.stop && Ordered(env, clock)
      modifies this
      ensures Inv(Now()) && Here().Idle? && lease.None?
      ensures ran <==> MayStart(old(row), env.readAt) && !env.startLost && env.startAcknowledged
      ensures Called(env, old(row), old(log), row, log)
    {
      LookUnderLease(env);
      if !Here().Starting? || env.startLost {
        Leave(env);
        return false;
      }
      ran := Attempt(env);
    }

    /** One call: recovers an interrupted attempt, waits until the next is due, or makes one attempt. */
    method RunDue(env: Env) returns (ran: bool)
      requires Inv(Now()) && Here().Idle? && Ordered(env, clock)
      modifies this
      ensures Inv(Now()) && Here().Idle? && lease == old(lease)
      ensures ran <==> old(lease).None? && !env.stop && MayStart(old(row), env.readAt) && !env.startLost && env.startAcknowledged
      ensures if old(lease).Some? || env.stop then row == old(row) && log == old(log)
              else Called(env, old(row), old(log), row, log)
    {
      if lease.Some? { return false; }
      if env.stop {
        Take(Acquire(p, env.stop), env.readAt);
        Leave(env);
        return false;
      }
      ran := RunUnderLease(env);
    }
  }

  /** A call publishes exactly when everything goes right, and then it publishes what the source gave. */
  lemma PublishedIff(env: Env, r: Row)
    ensures RowAfter(env, r).version == r.version + 1 <==>
              && env.fetch.Snapshot? && env.fetch.complete && !env.fetch.stop && env.refusal.None?
              && env.fetch.fetched <= env.commitAt && (r.source.Some? ==> r.source.value < env.fetch.fetched) && env.committed
    ensures RowAfter(env, r).version != r.version ==> RowAfter(env, r).source == Some(env.fetch.fetched)
    ensures RowAfter(env, r).status.Failed? <==> RowAfter(env, r).error.Some?
  {
  }

  lemma PcIsOk(s: System, p: nat)
    requires Inv(s) && !PcOf(s, p).Idle?
    ensures PcOk(s.row, s.clock, PcOf(s, p))
  {
  }

  lemma HolderHasLease(s: System, p: nat)
    requires Inv(s) && !PcOf(s, p).Idle?
    ensures s.lease == Some(p)
  {
  }
}
