/**
 * What one recovery request answers, remembers and does, said of what it meets and not of how it
 * decides (app/credential_polling.py, recover_session and the decision table it shares).
 */
module RecoveryMeaning {
  import opened Values
  import opened CredentialRecovery

  // ---------------------------------------------------------------- the decision table

  /** The row still belongs to the observed password binding. */
  predicate Usable(o: RecoveryState, current: Option<RecoveryState>) {
    && current.Some? && current.value.hasPassword && current.value.binding != Unbound
    && current.value.bindingId == o.bindingId
  }

  /** The row may be logged in for: not rejected, no captcha, and not bound by a browser. */
  predicate Eligible(o: RecoveryState, current: Option<RecoveryState>) {
    && Usable(o, current) && current.value.binding == Unverified && !current.value.revoked
    && current.value.poll !in {Invalid, CaptchaNeeded}
  }

  /** The row has another Session, active and not yet expired. */
  predicate Live(o: RecoveryState, current: Option<RecoveryState>, now: int) {
    && Eligible(o, current) && current.value.marker != o.marker
    && current.value.poll == Active && current.value.expiresAt.Some? && now < current.value.expiresAt.value
  }

  /** What each verdict on a row means. */
  predicate Stands(o: RecoveryState, current: Option<RecoveryState>, now: int, v: Verdict) {
    match v
    case Rejected => Usable(o, current) && (current.value.revoked || current.value.poll == Invalid)
    case CaptchaRequired => Usable(o, current) && !current.value.revoked && current.value.poll == CaptchaNeeded
    case BrowserBound =>
      && Usable(o, current) && !current.value.revoked && current.value.poll !in {Invalid, CaptchaNeeded}
      && current.value.binding == ActiveBinding
    case RefreshedByOther => Live(o, current, now)
    case Backoff => Eligible(o, current) && current.value.marker != o.marker && current.value.poll == Retrying
    case Unchanged => Eligible(o, current) && current.value.marker == o.marker
    case BindingUnavailable =>
      || !Usable(o, current)
      || (&& !current.value.revoked && current.value.poll !in {Invalid, CaptchaNeeded}
          && (|| current.value.binding.OtherBinding?
              || (&& Eligible(o, current) && current.value.marker != o.marker && current.value.poll != Retrying
                  && !Live(o, current, now))))
    case _ => false
  }

  lemma VerdictIff(o: RecoveryState, current: Option<RecoveryState>, now: int, v: Verdict)
    ensures JudgeRecovery(o, current, now) == v <==> Stands(o, current, now, v)
  {
  }

  // ---------------------------------------------------------------- backoff

  function Power(n: nat): nat {
    if n == 0 then 1 else 2 * Power(n - 1)
  }

  lemma {:induction false} DoubledIsScaled(interval: nat, n: nat)
    ensures Doubled(interval, n) == interval * Power(n)
  {
    if n > 0 { DoubledIsScaled(interval, n - 1); }
  }

  /** The last failure is the scaled interval ago, or the maximum: two to the failures, at most twenty. */
  predicate BackedOff(policy: Policy, c: Candidate, now: int) {
    var scale := Power(if c.failures <= 20 then c.failures else 20);
    now - c.updatedAt >= policy.maximumBackoff || now - c.updatedAt >= policy.interval * scale
  }

  lemma {:induction false} DueIff(policy: Policy, c: Candidate, now: int)
    ensures PollIsDue(policy, c, now) <==> BackedOff(policy, c, now)
  {
    DoubledIsScaled(policy.interval, if c.failures <= 20 then c.failures else 20);
  }

  // ---------------------------------------------------------------- what a call does

  /** The observed Session is the one this process wrote last for the user. */
  predicate OwnSession(m: Memory, c: Call) {
    m.recovered.Some? && c.observed.marker == m.marker
  }

  predicate Blames(policy: Policy, m: Memory, c: Call) {
    OwnSession(m, c) && c.kickAt - m.recovered.value <= policy.kickWindow
  }

  predicate Mine(tenant: string, c: Call) {
    c.key.tenant == tenant && c.key.user == c.observed.user
  }

  /** The user was suspended before, or this call counts the second failure. */
  predicate Kicked(policy: Policy, m: Memory, c: Call) {
    m.suspended || (Blames(policy, m, c) && m.kicks >= 1)
  }

  predicate Cooling(policy: Policy, m: Memory, c: Call) {
    m.attempted.Some? && c.cooldownAt < m.attempted.value + policy.cooldown
  }

  /** Nothing speaks against asking the store: the right user, not suspended, and the cooldown over. */
  predicate Goes(tenant: string, policy: Policy, m: Memory, c: Call) {
    Mine(tenant, c) && !Kicked(policy, m, c) && !Cooling(policy, m, c)
  }

  /** Under the lock the row is as observed and due, and the write is claimed. */
  predicate ClaimsLogin(policy: Policy, c: Call) {
    var k := c.locked;
    && Eligible(c.observed, k.current) && k.current.value.marker == c.observed.marker && k.candidate.Some?
    && (k.current.value.poll == Retrying ==> BackedOff(policy, k.candidate.value, k.dueAt)) && k.claim == Claimed
  }

  predicate LogsIn(tenant: string, policy: Policy, m: Memory, c: Call) {
    Goes(tenant, policy, m, c) && c.lock == Acquired && ClaimsLogin(policy, c)
  }

  /** The login succeeded and the row then shows another live Session. */
  predicate WritesSession(c: Call) {
    c.locked.login == LoggedIn && Live(c.observed, c.locked.final, c.locked.finalAt)
  }

  /** The entries of a call: a verdict on its own Session, then a login, then a Session. */
  function EntriesOf(tenant: string, policy: Policy, m: Memory, c: Call): seq<Entry> {
    (if !Mine(tenant, c) || m.suspended || !OwnSession(m, c) then []
     else if Blames(policy, m, c) then [Blamed(c.observed.marker, c.kickAt)] else [Forgiven(c.kickAt)])
    + (if LogsIn(tenant, policy, m, c) then [Attempted(c.locked.loginAt)] else [])
    + (if LogsIn(tenant, policy, m, c) && WritesSession(c)
       then [Wrote(c.locked.final.value.marker, c.locked.recoveredAt)] else [])
  }

  lemma {:induction false} LoginIff(policy: Policy, c: Call)
    ensures BeforeLogin(policy, c).Unchanged? <==> ClaimsLogin(policy, c)
  {
    VerdictIff(c.observed, c.locked.current, c.locked.currentAt, Unchanged);
    if c.locked.candidate.Some? { DueIff(policy, c.locked.candidate.value, c.locked.dueAt); }
  }

  /** What a call adds to the user's history is exactly that. */
  lemma {:induction false} EntriesAre(tenant: string, policy: Policy, m: Memory, c: Call)
    ensures Serve(tenant, policy, m, c).entries == EntriesOf(tenant, policy, m, c)
  {
    LoginIff(policy, c);
    VerdictIff(c.observed, c.locked.final, c.locked.finalAt, RefreshedByOther);
  }

  /** What a call leaves in memory follows from those entries. */
  lemma {:induction false} MemoryIs(tenant: string, policy: Policy, m: Memory, c: Call)
    ensures var logsIn := LogsIn(tenant, policy, m, c);
            var wrote := logsIn && WritesSession(c);
            var counted := Mine(tenant, c) && !m.suspended && OwnSession(m, c);
            Serve(tenant, policy, m, c).memory == Memory(
              if logsIn then Some(c.locked.loginAt) else m.attempted,
              if wrote then Some(c.locked.recoveredAt) else m.recovered,
              if wrote then c.locked.final.value.marker else m.marker,
              if !counted then m.kicks else if Blames(policy, m, c) then m.kicks + 1 else 0,
              m.suspended || (counted && Blames(policy, m, c) && m.kicks >= 1))
  {
    LoginIff(policy, c);
    VerdictIff(c.observed, c.locked.final, c.locked.finalAt, RefreshedByOther);
  }

  // ---------------------------------------------------------------- what a call answers

  /** A reread tells, and says `otherwise` if nothing has changed. */
  predicate RereadSays(c: Call, otherwise: Verdict, v: Verdict) {
    if Stands(c.observed, c.reread, c.rereadAt, Unchanged) then v == otherwise
    else Stands(c.observed, c.reread, c.rereadAt, v)
  }

  /** The wait before the deadline at which the row is first found changed. */
  ghost predicate FirstChanged(c: Call, deadline: int, i: nat) {
    && i < |c.waits| && !Stands(c.observed, c.waits[i].state, c.waits[i].now, Unchanged)
    && (forall k :: 0 <= k <= i ==> c.waits[k].tick < deadline)
    && (forall k :: 0 <= k < i ==> Stands(c.observed, c.waits[k].state, c.waits[k].now, Unchanged))
  }

  ghost predicate WaitSays(policy: Policy, c: Call, v: Verdict) {
    var deadline := c.waitFrom + policy.wait;
    || (exists i: nat :: FirstChanged(c, deadline, i) && Stands(c.observed, c.waits[i].state, c.waits[i].now, v))
    || ((forall i: nat :: !FirstChanged(c, deadline, i)) && v == Unavailable)
  }

  /** The verdict under the lock. */
  predicate LockedSays(policy: Policy, c: Call, v: Verdict) {
    var k := c.locked;
    if !Stands(c.observed, k.current, k.currentAt, Unchanged) then Stands(c.observed, k.current, k.currentAt, v)
    else if k.candidate.None? || (k.current.value.poll == Retrying && !BackedOff(policy, k.candidate.value, k.dueAt)) then
      v == Backoff
    else if k.claim == ClaimStale || (k.claim == Claimed && k.login == LoginStale) then RereadSays(c, Unavailable, v)
    else if k.claim == ClaimRaises || k.login == LoginAborted then v == Raised
    else if WritesSession(c) then v == Recovered
    else if Stands(c.observed, k.final, k.finalAt, Unchanged) then v == Unavailable
    else Stands(c.observed, k.final, k.finalAt, v)
  }

  ghost predicate Says(tenant: string, policy: Policy, m: Memory, c: Call, v: Verdict) {
    if !Mine(tenant, c) then v == BindingUnavailable
    else if Kicked(policy, m, c) then v == Suspended
    else if Cooling(policy, m, c) then RereadSays(c, Backoff, v)
    else StoreSays(policy, c, v)
  }

  /** The answer once the store is asked: the lock, its release, and what is found under it. */
  ghost predicate StoreSays(policy: Policy, c: Call, v: Verdict) {
    if c.lock == LockStale then RereadSays(c, Unavailable, v)
    else if c.lock == LockRaises then v == Raised
    else if c.release == ReleaseStale then RereadSays(c, Unavailable, v)
    else if c.release == ReleaseRaises then v == Raised
    else if c.lock == Busy then WaitSays(policy, c, v)
    else LockedSays(policy, c, v)
  }

  lemma {:induction false} RereadIs(c: Call, otherwise: Verdict)
    requires !otherwise.Unchanged? && !otherwise.Recovered? && !otherwise.Suspended?
    ensures RereadSays(c, otherwise, Reread(c, otherwise))
  {
    VerdictIff(c.observed, c.reread, c.rereadAt, Unchanged);
    VerdictIff(c.observed, c.reread, c.rereadAt, JudgeRecovery(c.observed, c.reread, c.rereadAt));
  }

  lemma {:induction false} LockedIs(policy: Policy, m: Memory, c: Call)
    ensures LockedSays(policy, c, RecoverLocked(policy, m, c).verdict)
  {
    var k := c.locked;
    LoginIff(policy, c);
    VerdictIff(c.observed, k.current, k.currentAt, Unchanged);
    VerdictIff(c.observed, k.current, k.currentAt, JudgeRecovery(c.observed, k.current, k.currentAt));
    VerdictIff(c.observed, k.final, k.finalAt, Unchanged);
    VerdictIff(c.observed, k.final, k.finalAt, JudgeRecovery(c.observed, k.final, k.finalAt));
    if k.candidate.Some? { DueIff(policy, k.candidate.value, k.dueAt); }
    RereadIs(c, Unavailable);
  }

  /** The wait of a call from the i-th reread on. */
  lemma {:induction false} WaitIs(c: Call, deadline: int, i: nat)
    requires i <= |c.waits|
    requires forall k :: 0 <= k < i ==>
               c.waits[k].tick < deadline && Stands(c.observed, c.waits[k].state, c.waits[k].now, Unchanged)
    ensures var v := FirstChange(c.observed, c.waits[i..], deadline);
            || (exists j: nat :: FirstChanged(c, deadline, j) && Stands(c.observed, c.waits[j].state, c.waits[j].now, v))
            || ((forall j: nat :: !FirstChanged(c, deadline, j)) && v == Unavailable)
    decreases |c.waits| - i
  {
    if i < |c.waits| && c.waits[i].tick < deadline {
      var w := c.waits[i];
      assert c.waits[i..][0] == w && c.waits[i..][1..] == c.waits[i + 1..];
      VerdictIff(c.observed, w.state, w.now, Unchanged);
      VerdictIff(c.observed, w.state, w.now, JudgeRecovery(c.observed, w.state, w.now));
      if Stands(c.observed, w.state, w.now, Unchanged) {
        WaitIs(c, deadline, i + 1);
      } else {
        assert FirstChanged(c, deadline, i);
      }
    } else {
      forall j: nat ensures !FirstChanged(c, deadline, j) { }
    }
  }

  lemma {:induction false} StoreIs(policy: Policy, m: Memory, c: Call)
    requires !Cooling(policy, m, c)
    ensures StoreSays(policy, c, Recover(policy, m, c).verdict)
  {
    RereadIs(c, Unavailable);
    if c.lock == Acquired {
      LockedIs(policy, m, c);
    } else if c.lock == Busy {
      assert c.waits[0..] == c.waits;
      WaitIs(c, c.waitFrom + policy.wait, 0);
    }
  }

  /** A request answers exactly what it should. */
  lemma {:induction false} ServeSays(tenant: string, policy: Policy, m: Memory, c: Call)
    ensures Says(tenant, policy, m, c, Serve(tenant, policy, m, c).verdict)
  {
    if Goes(tenant, policy, m, c) {
      StoreIs(policy, Suspect(policy, m, c).memory, c);
    } else {
      RereadIs(c, Backoff);
    }
  }

  /** A request reports a recovery exactly if it logged in, the login and the final row are good, and the lock came back. */
  lemma {:induction false} RecoveredIff(tenant: string, policy: Policy, m: Memory, c: Call)
    ensures Serve(tenant, policy, m, c).verdict == Recovered <==>
              LogsIn(tenant, policy, m, c) && WritesSession(c) && c.release == Released
  {
    LoginIff(policy, c);
    VerdictIff(c.observed, c.locked.final, c.locked.finalAt, RefreshedByOther);
  }
}
