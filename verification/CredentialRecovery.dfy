/**
 * On-demand recovery of a user's OA Session: one relogin per call with the stored password,
 * a cooldown between logins, and suspension once this process's own Sessions keep being kicked.
 * What the store, the lock, the login and the clocks answer during a call is a parameter of it.
 */
module CredentialRecovery {
  import opened Values

  type Marker = Option<seq<int>>

  datatype UserKey = UserKey(tenant: string, user: string)

  datatype BindingState = Unbound | ActiveBinding | Unverified | OtherBinding(name: string)
  datatype PollStatus = Active | Retrying | Invalid | CaptchaNeeded | OtherPoll(name: string)

  /** The row state compared before and after a recovery. */
  datatype RecoveryState = RecoveryState(
    user: string, bindingId: string, binding: BindingState, poll: PollStatus, revoked: bool, hasPassword: bool,
    expiresAt: Option<int>, marker: Marker)

  datatype Verdict =
    | Unchanged | Recovered | RefreshedByOther | Backoff | Unavailable | BindingUnavailable
    | Rejected | CaptchaRequired | BrowserBound | Suspended | Raised

  function JudgeRecovery(observed: RecoveryState, current: Option<RecoveryState>, now: int): (v: Verdict)
    ensures !v.Recovered? && !v.Suspended? && !v.Raised? && !v.Unavailable?
    ensures v.Unchanged? ==> current.Some? && current.value.marker == observed.marker
    ensures v.RefreshedByOther? ==> current.Some? && current.value.marker != observed.marker
  {
    if || current.None? || !current.value.hasPassword || current.value.binding.Unbound?
       || current.value.bindingId != observed.bindingId
    then BindingUnavailable
    else
      var c := current.value;
      if c.revoked || c.poll.Invalid? then Rejected
      else if c.poll.CaptchaNeeded? then CaptchaRequired
      else if c.binding.ActiveBinding? then BrowserBound
      else if !c.binding.Unverified? then BindingUnavailable
      else if c.marker != observed.marker then
        if c.poll.Active? && c.expiresAt.Some? && c.expiresAt.value > now then RefreshedByOther
        else if c.poll.Retrying? then Backoff
        else BindingUnavailable
      else Unchanged
  }

  // ---------------------------------------------------------------- poll backoff

  datatype Policy = Policy(interval: nat, maximumBackoff: nat, cooldown: nat, wait: nat, kickWindow: nat)

  datatype Candidate = Candidate(failures: nat, updatedAt: int)

  /** The interval doubled `n` times. */
  function Doubled(interval: nat, n: nat): nat {
    if n == 0 then interval else 2 * Doubled(interval, n - 1)
  }

  function Delay(policy: Policy, failures: nat): nat {
    var scaled := Doubled(policy.interval, if failures < 20 then failures else 20);
    if policy.maximumBackoff < scaled then policy.maximumBackoff else scaled
  }

  predicate PollIsDue(policy: Policy, c: Candidate, now: int) {
    c.updatedAt + Delay(policy, c.failures) <= now
  }

  // ---------------------------------------------------------------- what a call meets

  datatype Lock = Acquired | Busy | LockStale | LockRaises
  /** Giving the lock back, which also ends the protected part, can itself fail. */
  datatype Release = Released | ReleaseStale | ReleaseRaises

  datatype Claim = Claimed | ClaimStale | ClaimRaises

  /** The login and the write that records it; a login that failed is recorded as a failure. */
  datatype Login = LoggedIn | LoginFailed | LoginStale | LoginAborted

  datatype Wait = Wait(tick: int, state: Option<RecoveryState>, now: int)

  datatype Locked = Locked(
    current: Option<RecoveryState>, currentAt: int, candidate: Option<Candidate>, dueAt: int, claim: Claim,
    loginAt: int, login: Login, final: Option<RecoveryState>, finalAt: int, recoveredAt: int)

  datatype Call = Call(
    key: UserKey, observed: RecoveryState, kickAt: int, cooldownAt: int, lock: Lock, locked: Locked,
    release: Release, waitFrom: int, waits: seq<Wait>, reread: Option<RecoveryState>, rereadAt: int)

  /** The monotonic clock does not run backwards during a call. */
  predicate Timely(c: Call) {
    c.kickAt <= c.cooldownAt <= c.locked.loginAt <= c.locked.recoveredAt
  }

  // ---------------------------------------------------------------- memory of one user

  /** What the process remembers of one user. */
  datatype Memory = Memory(attempted: Option<int>, recovered: Option<int>, marker: Marker, kicks: nat, suspended: bool)

  const FORGOTTEN := Memory(None, None, None, 0, false)

  /** What happened to a user: a login, a Session this process wrote, a failure of it that counts or is forgiven. */
  datatype Entry = Attempted(at: int) | Wrote(marker: Marker, at: int) | Blamed(marker: Marker, at: int) | Forgiven(at: int)

  function Advance(m: Memory, e: Entry): Memory {
    match e
    case Attempted(at) => m.(attempted := Some(at))
    case Wrote(marker, at) => m.(recovered := Some(at), marker := marker)
    case Blamed(_, _) => m.(kicks := m.kicks + 1, suspended := m.suspended || m.kicks + 1 >= 2)
    case Forgiven(_) => m.(kicks := 0)
  }

  /** One call's effect: the new memory, the outcome, and what to add to the user's history. */
  datatype Effect = Effect(memory: Memory, verdict: Verdict, entries: seq<Entry>)

  function OrElse(v: Verdict, other: Verdict): Verdict {
    if v.Unchanged? then other else v
  }

  /** What a stale write comes to: a reread tells. */
  function Reread(c: Call, otherwise: Verdict): (v: Verdict)
    requires !otherwise.Unchanged? && !otherwise.Recovered? && !otherwise.Suspended?
    ensures !v.Unchanged? && !v.Recovered? && !v.Suspended?
  {
    OrElse(JudgeRecovery(c.observed, c.reread, c.rereadAt), otherwise)
  }

  function FirstChange(observed: RecoveryState, waits: seq<Wait>, deadline: int): (v: Verdict)
    ensures !v.Unchanged? && !v.Recovered? && !v.Suspended?
  {
    if |waits| == 0 || waits[0].tick >= deadline then Unavailable
    else OrElse(JudgeRecovery(observed, waits[0].state, waits[0].now), FirstChange(observed, waits[1..], deadline))
  }

  /** The failure of a Session counts when this process wrote that Session within the window. */
  function Suspect(policy: Policy, m: Memory, c: Call): Effect {
    if m.recovered.None? || c.observed.marker != m.marker then Effect(m, Unchanged, [])
    else if c.kickAt - m.recovered.value > policy.kickWindow then
      Effect(Advance(m, Forgiven(c.kickAt)), Unchanged, [Forgiven(c.kickAt)])
    else
      var blamed := Blamed(c.observed.marker, c.kickAt);
      var after := Advance(m, blamed);
      Effect(after, if after.suspended then Suspended else Unchanged, [blamed])
  }

  /** Whether the locked part goes on to log in, or the outcome it stops with. */
  function BeforeLogin(policy: Policy, c: Call): Verdict {
    var k := c.locked;
    var verdict := JudgeRecovery(c.observed, k.current, k.currentAt);
    if !verdict.Unchanged? || k.current.None? then OrElse(verdict, Unavailable)
    else if k.candidate.None? then Backoff
    else if k.current.value.poll.Retrying? && !PollIsDue(policy, k.candidate.value, k.dueAt) then Backoff
    else if k.claim.ClaimStale? then Reread(c, Unavailable)
    else if k.claim.ClaimRaises? then Raised
    else Unchanged
  }

  function AfterLogin(m: Memory, c: Call): Effect {
    var k := c.locked;
    if k.login.LoginStale? then Effect(m, Reread(c, Unavailable), [])
    else if k.login.LoginAborted? then Effect(m, Raised, [])
    else
      var verdict := JudgeRecovery(c.observed, k.final, k.finalAt);
      if verdict.RefreshedByOther? && k.login.LoggedIn? then
        var wrote := Wrote(k.final.value.marker, k.recoveredAt);
        Effect(Advance(m, wrote), Recovered, [wrote])
      else Effect(m, OrElse(verdict, Unavailable), [])
  }

  function RecoverLocked(policy: Policy, m: Memory, c: Call): Effect {
    var stop := BeforeLogin(policy, c);
    if !stop.Unchanged? then Effect(m, stop, [])
    else
      var login := Attempted(c.locked.loginAt);
      var rest := AfterLogin(Advance(m, login), c);
      rest.(entries := [login] + rest.entries)
  }

  /** The outcome once the lock is given back; what was remembered stays remembered. */
  function AfterRelease(c: Call, v: Verdict): Verdict {
    match c.release
    case Released => v
    case ReleaseStale => Reread(c, Unavailable)
    case ReleaseRaises => Raised
  }

  function Recover(policy: Policy, m: Memory, c: Call): Effect {
    if m.attempted.Some? && c.cooldownAt - m.attempted.value < policy.cooldown then
      Effect(m, Reread(c, Backoff), [])
    else
      match c.lock
      case Acquired => var e := RecoverLocked(policy, m, c); e.(verdict := AfterRelease(c, e.verdict))
      case Busy => Effect(m, AfterRelease(c, FirstChange(c.observed, c.waits, c.waitFrom + policy.wait)), [])
      case LockStale => Effect(m, Reread(c, Unavailable), [])
      case LockRaises => Effect(m, Raised, [])
  }

  /** One whole call for a user. */
  function Serve(tenant: string, policy: Policy, m: Memory, c: Call): Effect {
    if c.key.tenant != tenant || c.observed.user != c.key.user then Effect(m, BindingUnavailable, [])
    else if m.suspended then Effect(m, Suspended, [])
    else Proceed(policy, Suspect(policy, m, c), c)
  }

  function Proceed(policy: Policy, first: Effect, c: Call): Effect {
    if first.verdict.Suspended? then first
    else
      var rest := Recover(policy, first.memory, c);
      rest.(entries := first.entries + rest.entries)
  }

  // ---------------------------------------------------------------- the recovery object

  class CredentialSessionRecovery {
    const tenant: string
    const policy: Policy
    var loginAttemptedAt: map<UserKey, int>
    var recoveredAt: map<UserKey, int>
    var recoveredMarker: map<UserKey, Marker>
    var kickCounts: map<UserKey, nat>
    var suspended: set<UserKey>

    /** What the five tables say about one user. */
    ghost function Of(key: UserKey): Memory
      reads this
    {
      Memory(
        if key in loginAttemptedAt then Some(loginAttemptedAt[key]) else None,
        if key in recoveredAt then Some(recoveredAt[key]) else None,
        if key in recoveredMarker then recoveredMarker[key] else None,
        if key in kickCounts then kickCounts[key] else 0,
        key in suspended)
    }

    constructor (tenant: string, policy: Policy)
      ensures this.tenant == tenant && this.policy == policy
      ensures forall key :: Of(key) == FORGOTTEN
    {
      this.tenant, this.policy := tenant, policy;
      loginAttemptedAt, recoveredAt, recoveredMarker, kickCounts, suspended := map[], map[], map[], map[], {};
    }

    method SuspectedKick(c: Call) returns (kicked: bool)
      modifies this
      requires c.key !in suspended
      ensures Of(c.key) == Suspect(policy, old(Of(c.key)), c).memory
      ensures kicked == Suspect(policy, old(Of(c.key)), c).verdict.Suspended?
      ensures forall k :: k != c.key ==> Of(k) == old(Of(k))
    {
      if c.key !in recoveredAt { return false; }
      var mine := if c.key in recoveredMarker then recoveredMarker[c.key] else None;
      if c.observed.marker != mine { return false; }
      var since := c.kickAt - recoveredAt[c.key];
      if since > policy.kickWindow {
        kickCounts := kickCounts - {c.key};
        return false;
      }
      var count := (if c.key in kickCounts then kickCounts[c.key] else 0) + 1;
      kickCounts := kickCounts[c.key := count];
      if count < 2 { return false; }
      suspended := suspended + {c.key};
      return true;
    }

    /** Rereads until the Session changes or the deadline passes. */
    method WaitForOtherWriter(c: Call) returns (v: Verdict)
      ensures v == FirstChange(c.observed, c.waits, c.waitFrom + policy.wait)
    {
      var deadline := c.waitFrom + policy.wait;
      var i := 0;
      while i < |c.waits| && c.waits[i].tick < deadline
        invariant i <= |c.waits|
        invariant FirstChange(c.observed, c.waits, deadline) == FirstChange(c.observed, c.waits[i..], deadline)
      {
        var verdict := JudgeRecovery(c.observed, c.waits[i].state, c.waits[i].now);
        assert c.waits[i..][1..] == c.waits[i + 1..];
        if !verdict.Unchanged? { return verdict; }
        i := i + 1;
      }
      return Unavailable;
    }

    method RecoverUnderLock(c: Call) returns (v: Verdict)
      modifies this
      ensures Of(c.key) == RecoverLocked(policy, old(Of(c.key)), c).memory
      ensures v == RecoverLocked(policy, old(Of(c.key)), c).verdict
      ensures forall k :: k != c.key ==> Of(k) == old(Of(k))
    {
      var k := c.locked;
      var verdict := JudgeRecovery(c.observed, k.current, k.currentAt);
      if !verdict.Unchanged? { return verdict; }
      if k.candidate.None? { return Backoff; }
      if k.current.value.poll.Retrying? && !PollIsDue(policy, k.candidate.value, k.dueAt) { return Backoff; }
      if k.claim.ClaimStale? { return Reread(c, Unavailable); }
      if k.claim.ClaimRaises? { return Raised; }
      loginAttemptedAt := loginAttemptedAt[c.key := k.loginAt];
      if k.login.LoginStale? { return Reread(c, Unavailable); }
      if k.login.LoginAborted? { return Raised; }
      verdict := JudgeRecovery(c.observed, k.final, k.finalAt);
      if verdict.RefreshedByOther? && k.login.LoggedIn? {
        recoveredAt := recoveredAt[c.key := k.recoveredAt];
        recoveredMarker := recoveredMarker[c.key := k.final.value.marker];
        return Recovered;
      }
      return OrElse(verdict, Unavailable);
    }

    /** One recovery request: this user's memory moves as `Serve` says, and no other user's does. */
    method RecoverSession(c: Call) returns (v: Verdict)
      modifies this
      ensures Of(c.key) == Serve(tenant, policy, old(Of(c.key)), c).memory
      ensures v == Serve(tenant, policy, old(Of(c.key)), c).verdict
      ensures forall k :: k != c.key ==> Of(k) == old(Of(k))
    {
      if c.key.tenant != tenant || c.observed.user != c.key.user { return BindingUnavailable; }
      if c.key in suspended { return Suspended; }
      var kicked := SuspectedKick(c);
      if kicked { return Suspended; }
      if c.key in loginAttemptedAt && c.cooldownAt - loginAttemptedAt[c.key] < policy.cooldown {
        return Reread(c, Backoff);
      }
      match c.lock {
        case Acquired =>
          v := RecoverUnderLock(c);
          v := AfterRelease(c, v);
        case Busy =>
          if c.release.Released? { v := WaitForOtherWriter(c); } else { v := AfterRelease(c, Unavailable); }
        case LockStale => v := Reread(c, Unavailable);
        case LockRaises => v := Raised;
      }
    }
  }

  // ---------------------------------------------------------------- legal histories

  function Remembered(log: seq<Entry>): Memory {
    if |log| == 0 then FORGOTTEN else Advance(Remembered(log[..|log| - 1]), log[|log| - 1])
  }

  /** When an entry may come next. After a suspension nothing may. */
  ghost predicate Allowed(policy: Policy, m: Memory, e: Entry) {
    !m.suspended &&
    match e
    case Attempted(at) => m.attempted.Some? ==> at >= m.attempted.value + policy.cooldown
    case Wrote(_, at) => m.attempted.Some? && at >= m.attempted.value
    case Blamed(marker, at) => m.recovered.Some? && marker == m.marker && at - m.recovered.value <= policy.kickWindow
    case Forgiven(at) => m.recovered.Some? && at - m.recovered.value > policy.kickWindow
  }

  ghost predicate Legal(policy: Policy, log: seq<Entry>) {
    forall i :: 0 <= i < |log| ==> Allowed(policy, Remembered(log[..i]), log[i])
  }

  lemma {:induction false} LegalNext(policy: Policy, log: seq<Entry>, e: Entry)
    requires Legal(policy, log) && Allowed(policy, Remembered(log), e)
    ensures Legal(policy, log + [e]) && Remembered(log + [e]) == Advance(Remembered(log), e)
  {
    assert (log + [e])[..|log|] == log;
    forall i | 0 <= i < |log| + 1 ensures Allowed(policy, Remembered((log + [e])[..i]), (log + [e])[i]) {
      if i < |log| { assert (log + [e])[..i] == log[..i]; }
    }
  }

  /** A user's memory is what its history says, and suspension is a count of two. */
  ghost predicate Consistent(policy: Policy, m: Memory, log: seq<Entry>) {
    && Legal(policy, log) && Remembered(log) == m
    && m.kicks <= 2 && (m.suspended <==> m.kicks == 2)
  }

  lemma {:induction false} SuspectKeeps(policy: Policy, m: Memory, c: Call, log: seq<Entry>)
    requires Consistent(policy, m, log) && !m.suspended
    ensures var e := Suspect(policy, m, c);
            Consistent(policy, e.memory, log + e.entries) && e.memory.attempted == m.attempted &&
            (e.verdict.Suspended? <==> e.memory.suspended)
  {
    var e := Suspect(policy, m, c);
    if |e.entries| == 0 {
      assert log + e.entries == log;
    } else {
      LegalNext(policy, log, e.entries[0]);
    }
  }

  /**
   * What the part after the kick test can add: nothing, a login after the cooldown, or that login and a
   * Session written by it; and it reports a recovery exactly for a written Session and a lock given back.
   */
  ghost predicate Shaped(policy: Policy, m: Memory, c: Call, e: Effect) {
    var login := Attempted(c.locked.loginAt);
    && |e.entries| <= 2
    && e.memory == (if e.entries == [] then m
                    else if |e.entries| == 1 then Advance(m, e.entries[0])
                    else Advance(Advance(m, e.entries[0]), e.entries[1]))
    && (|e.entries| > 0 ==> e.entries[0] == login && (m.attempted.Some? ==> c.cooldownAt >= m.attempted.value + policy.cooldown))
    && (|e.entries| > 1 ==> e.entries[1].Wrote? && e.entries[1].at == c.locked.recoveredAt && e.entries[1].marker != c.observed.marker)
    && (e.verdict.Recovered? <==> |e.entries| == 2 && c.release.Released?)
    && !e.verdict.Suspended?
  }

  lemma LockedIsShaped(policy: Policy, m: Memory, c: Call)
    requires m.attempted.Some? ==> c.cooldownAt >= m.attempted.value + policy.cooldown
    ensures var e := RecoverLocked(policy, m, c); Shaped(policy, m, c.(release := Released), e)
  {
  }

  lemma RecoverIsShaped(policy: Policy, m: Memory, c: Call)
    ensures Shaped(policy, m, c, Recover(policy, m, c))
  {
    if m.attempted.None? || c.cooldownAt >= m.attempted.value + policy.cooldown { LockedIsShaped(policy, m, c); }
  }

  lemma TwoKeep(policy: Policy, m: Memory, log: seq<Entry>, a: Entry, b: Entry)
    requires Consistent(policy, m, log) && !m.suspended && a.Attempted? && b.Wrote? && a.at <= b.at
    requires m.attempted.Some? ==> a.at >= m.attempted.value + policy.cooldown
    ensures Consistent(policy, Advance(Advance(m, a), b), log + [a, b]) && Consistent(policy, Advance(m, a), log + [a])
  {
    LegalNext(policy, log, a);
    LegalNext(policy, log + [a], b);
    assert log + [a, b] == log + [a] + [b];
  }

  lemma ShapedKeeps(policy: Policy, m: Memory, c: Call, e: Effect, log: seq<Entry>)
    requires Consistent(policy, m, log) && !m.suspended && Timely(c) && Shaped(policy, m, c, e)
    ensures Consistent(policy, e.memory, log + e.entries) && !e.memory.suspended
  {
    if |e.entries| == 0 {
      assert log + e.entries == log;
    } else if |e.entries| == 1 {
      LegalNext(policy, log, e.entries[0]);
      assert e.entries == [e.entries[0]];
    } else {
      TwoKeep(policy, m, log, e.entries[0], e.entries[1]);
      assert e.entries == [e.entries[0], e.entries[1]];
    }
  }

  lemma {:induction false} ProceedKeeps(policy: Policy, first: Effect, c: Call, log: seq<Entry>)
    requires Consistent(policy, first.memory, log + first.entries) && Timely(c)
    requires first.verdict.Suspended? <==> first.memory.suspended
    ensures var e := Proceed(policy, first, c); Consistent(policy, e.memory, log + e.entries)
  {
    if !first.verdict.Suspended? {
      var rest := Recover(policy, first.memory, c);
      RecoverIsShaped(policy, first.memory, c);
      ShapedKeeps(policy, first.memory, c, rest, log + first.entries);
      assert log + (first.entries + rest.entries) == log + first.entries + rest.entries;
    }
  }

  lemma {:induction false} ServeKeeps(tenant: string, policy: Policy, m: Memory, c: Call, log: seq<Entry>)
    requires Consistent(policy, m, log) && Timely(c)
    ensures var e := Serve(tenant, policy, m, c); Consistent(policy, e.memory, log + e.entries)
  {
    if c.key.tenant == tenant && c.observed.user == c.key.user && !m.suspended {
      SuspectKeeps(policy, m, c, log);
      ProceedKeeps(policy, Suspect(policy, m, c), c, log);
    } else {
      assert log + [] == log;
    }
  }

  // ---------------------------------------------------------------- histories of one user

  datatype Past = Past(memory: Memory, log: seq<Entry>)

  const UNSEEN := Past(FORGOTTEN, [])

  function History(tenant: string, policy: Policy, p: Past, calls: seq<Call>): Past
    decreases |calls|
  {
    if |calls| == 0 then p
    else
      var e := Serve(tenant, policy, p.memory, calls[0]);
      History(tenant, policy, Past(e.memory, p.log + e.entries), calls[1..])
  }

  lemma {:induction false} HistoryKeeps(tenant: string, policy: Policy, p: Past, calls: seq<Call>)
    requires Consistent(policy, p.memory, p.log) && forall i :: 0 <= i < |calls| ==> Timely(calls[i])
    ensures var q := History(tenant, policy, p, calls); Consistent(policy, q.memory, q.log) && p.log <= q.log
    decreases |calls|
  {
    if |calls| > 0 {
      var e := Serve(tenant, policy, p.memory, calls[0]);
      ServeKeeps(tenant, policy, p.memory, calls[0], p.log);
      HistoryKeeps(tenant, policy, Past(e.memory, p.log + e.entries), calls[1..]);
    }
  }

  /** The entries of a call: at most one verdict on the last Session, one login, and one Session written by it. */
  ghost predicate OneLogin(c: Call, es: seq<Entry>) {
    && |es| <= 3
    && (forall i, j :: 0 <= i < j < |es| ==> !(es[i].Attempted? && es[j].Attempted?))
    && (forall i, j :: 0 <= i && j == i + 1 && j < |es| && es[j].Wrote? ==> es[i].Attempted? && es[j].marker != c.observed.marker)
    && (|es| > 0 ==> !es[0].Wrote?)
  }

  ghost predicate Writes(es: seq<Entry>) {
    exists j :: 0 <= j < |es| && es[j].Wrote?
  }

  lemma ProceedsOnce(c: Call, first: seq<Entry>, rest: seq<Entry>)
    requires |first| <= 1 && |rest| <= 2 && (|first| > 0 ==> first[0].Blamed? || first[0].Forgiven?)
    requires (|rest| > 0 ==> rest[0].Attempted?) && (|rest| > 1 ==> rest[1].Wrote? && rest[1].marker != c.observed.marker)
    ensures OneLogin(c, first + rest) && (Writes(first + rest) <==> |rest| == 2)
  {
    var es := first + rest;
    if |rest| == 2 { assert es[|first| + 1].Wrote?; }
  }

  /**
   * A call logs in at most once and claims a Session as its own only right after that login; it reports
   * a recovery exactly when it wrote a Session and gave the lock back.
   */
  lemma {:induction false} OneLoginPerCall(tenant: string, policy: Policy, m: Memory, c: Call)
    ensures var e := Serve(tenant, policy, m, c);
            OneLogin(c, e.entries) && (e.verdict.Recovered? <==> Writes(e.entries) && c.release.Released?)
  {
    var first := Suspect(policy, m, c);
    var rest := Recover(policy, first.memory, c);
    RecoverIsShaped(policy, first.memory, c);
    ProceedsOnce(c, first.entries, rest.entries);
    ProceedsOnce(c, first.entries, []);
    assert first.entries + [] == first.entries;
    assert !Writes([]);
  }

  // ---------------------------------------------------------------- main results

  lemma {:induction false} LastLogin(policy: Policy, log: seq<Entry>, i: nat)
    requires Legal(policy, log) && i < |log| && log[i].Attempted?
    ensures Remembered(log).attempted.Some? && Remembered(log).attempted.value >= log[i].at
    decreases |log|
  {
    var n := |log| - 1;
    if i < n {
      LegalPrefix(policy, log, n);
      LastLogin(policy, log[..n], i);
      assert Allowed(policy, Remembered(log[..n]), log[n]);
    }
  }

  lemma LegalPrefix(policy: Policy, log: seq<Entry>, n: nat)
    requires Legal(policy, log) && n <= |log|
    ensures Legal(policy, log[..n])
  {
    forall i | 0 <= i < n ensures Allowed(policy, Remembered(log[..n][..i]), log[..n][i]) {
      assert log[..n][..i] == log[..i];
    }
  }

  /** Any two login attempts for a user are at least the cooldown apart. */
  lemma LoginsApart(tenant: string, policy: Policy, calls: seq<Call>, i: nat, j: nat)
    requires forall k :: 0 <= k < |calls| ==> Timely(calls[k])
    requires var log := History(tenant, policy, UNSEEN, calls).log;
             i < j < |log| && log[i].Attempted? && log[j].Attempted?
    ensures var log := History(tenant, policy, UNSEEN, calls).log; log[j].at >= log[i].at + policy.cooldown
  {
    HistoryKeeps(tenant, policy, UNSEEN, calls);
    var log := History(tenant, policy, UNSEEN, calls).log;
    LegalPrefix(policy, log, j);
    LastLogin(policy, log[..j], i);
    assert Allowed(policy, Remembered(log[..j]), log[j]);
  }

  /** Nothing happens to a user after the suspension: in particular no login. */
  lemma SuspensionIsFinal(tenant: string, policy: Policy, calls: seq<Call>, later: seq<Call>)
    requires forall k :: 0 <= k < |calls| ==> Timely(calls[k])
    ensures var p := History(tenant, policy, UNSEEN, calls);
            && (p.memory.suspended <==> p.memory.kicks == 2) && p.memory.kicks <= 2
            && (p.memory.suspended ==> History(tenant, policy, p, later) == p)
  {
    HistoryKeeps(tenant, policy, UNSEEN, calls);
    var p := History(tenant, policy, UNSEEN, calls);
    if p.memory.suspended { StaysSuspended(tenant, policy, p, later); }
  }

  lemma {:induction false} StaysSuspended(tenant: string, policy: Policy, p: Past, calls: seq<Call>)
    requires p.memory.suspended
    ensures History(tenant, policy, p, calls) == p
    decreases |calls|
  {
    if |calls| > 0 {
      assert p.log + [] == p.log;
      StaysSuspended(tenant, policy, p, calls[1..]);
    }
  }

  lemma RememberedNext(log: seq<Entry>, n: nat)
    requires n < |log|
    ensures Remembered(log[..n + 1]) == Advance(Remembered(log[..n]), log[n])
  {
    assert log[..n + 1][..n] == log[..n];
  }

  /** Entry `i` is the last Session written before entry `n`. */
  ghost predicate LastWritten(log: seq<Entry>, n: nat, i: nat) {
    && i < n <= |log| && log[i].Wrote?
    && forall k :: i < k < n ==> !log[k].Wrote?
  }

  lemma {:induction false} LastWrite(log: seq<Entry>, n: nat)
    requires n <= |log| && Remembered(log[..n]).recovered.Some?
    ensures var m := Remembered(log[..n]);
            exists i: nat :: LastWritten(log, n, i) && log[i].marker == m.marker && log[i].at == m.recovered.value
    decreases n
  {
    if n > 0 {
      RememberedNext(log, n - 1);
      if log[n - 1].Wrote? {
        assert LastWritten(log, n, n - 1);
      } else {
        LastWrite(log, n - 1);
        var m := Remembered(log[..n - 1]);
        var i: nat :| LastWritten(log, n - 1, i) && log[i].marker == m.marker && log[i].at == m.recovered.value;
        assert LastWritten(log, n, i);
      }
    }
  }

  /** A counted failure is one of the Session this process last wrote, within the window. */
  lemma BlameIsForOwnSession(tenant: string, policy: Policy, calls: seq<Call>, j: nat)
    requires forall k :: 0 <= k < |calls| ==> Timely(calls[k])
    requires var log := History(tenant, policy, UNSEEN, calls).log; j < |log| && log[j].Blamed?
    ensures var log := History(tenant, policy, UNSEEN, calls).log;
            exists i: nat :: LastWritten(log, j, i) && log[i].marker == log[j].marker
                             && log[j].at - log[i].at <= policy.kickWindow
  {
    HistoryKeeps(tenant, policy, UNSEEN, calls);
    var log := History(tenant, policy, UNSEEN, calls).log;
    assert Allowed(policy, Remembered(log[..j]), log[j]);
    LastWrite(log, j);
  }

  /** The counted failures since the last forgiveness. */
  function Blames(log: seq<Entry>): nat {
    if |log| == 0 then 0
    else
      var n := |log| - 1;
      if log[n].Forgiven? then 0 else Blames(log[..n]) + if log[n].Blamed? then 1 else 0
  }

  lemma {:induction false} KicksCountBlames(log: seq<Entry>)
    ensures Remembered(log).kicks == Blames(log)
    decreases |log|
  {
    if |log| > 0 { KicksCountBlames(log[..|log| - 1]); }
  }

  /** A user is suspended exactly when two failures of own Sessions were counted with none forgiven since. */
  lemma SuspendedIffTwoBlames(tenant: string, policy: Policy, calls: seq<Call>)
    requires forall k :: 0 <= k < |calls| ==> Timely(calls[k])
    ensures var p := History(tenant, policy, UNSEEN, calls);
            Blames(p.log) <= 2 && (p.memory.suspended <==> Blames(p.log) == 2)
  {
    HistoryKeeps(tenant, policy, UNSEEN, calls);
    KicksCountBlames(History(tenant, policy, UNSEEN, calls).log);
  }

  // ---------------------------------------------------------------- users together

  function Look(users: map<UserKey, Memory>, key: UserKey): Memory {
    if key in users then users[key] else FORGOTTEN
  }

  /** Calls for many users, in the order they take effect. */
  function ServeAll(tenant: string, policy: Policy, users: map<UserKey, Memory>, calls: seq<Call>): map<UserKey, Memory>
    decreases |calls|
  {
    if |calls| == 0 then users
    else
      var c := calls[0];
      var e := Serve(tenant, policy, Look(users, c.key), c);
      ServeAll(tenant, policy, users[c.key := e.memory], calls[1..])
  }

  function For(calls: seq<Call>, key: UserKey): seq<Call> {
    if |calls| == 0 then []
    else (if calls[0].key == key then [calls[0]] else []) + For(calls[1..], key)
  }

  /** What is remembered of a user depends on that user's calls alone. */
  lemma {:induction false} UsersAreIndependent(
    tenant: string, policy: Policy, users: map<UserKey, Memory>, calls: seq<Call>, key: UserKey, log: seq<Entry>)
    ensures Look(ServeAll(tenant, policy, users, calls), key)
         == History(tenant, policy, Past(Look(users, key), log), For(calls, key)).memory
    decreases |calls|
  {
    if |calls| > 0 {
      var c := calls[0];
      var e := Serve(tenant, policy, Look(users, c.key), c);
      var next := users[c.key := e.memory];
      if c.key == key {
        UsersAreIndependent(tenant, policy, next, calls[1..], key, log + e.entries);
        assert For(calls, key)[1..] == For(calls[1..], key);
      } else {
        UsersAreIndependent(tenant, policy, next, calls[1..], key, log);
        assert [] + For(calls[1..], key) == For(calls[1..], key);
      }
    }
  }
}
