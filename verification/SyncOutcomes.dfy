/** What the writes leave in a row, and what that means for the rest of a run. */
module SyncOutcomes {
  import opened Wrappers
  import opened CommonTypes
  import opened SyncTaskRows
  import opened SyncProtocol
  import opened SyncSafety
  import opened SyncServices

  /** What a task is for; only its creation sets it. */
  predicate SameTask(t: SyncTask, t': SyncTask) {
    && t'.source == t.source && t'.account == t.account && t'.provider == t.provider && t'.month == t.month
    && t'.trigger == t.trigger && t'.planned == t.planned
  }

  // ---------- a lease ----------

  /** A claim holds its row for exactly the lease time: until then nobody can claim or cancel it, from then on it can be
      cancelled, and claimed exactly when attempts are left and the executor would still run it. */
  lemma ClaimLastsItsLease(config: Config, env: Environment, before: Environment, t: SyncTask, i: InstanceId,
                           now: Instant, at: Instant)
    requires Claimable(config, before, t, now)
    ensures var t' := ClaimWrite(config, t, i, now);
            var expired := at >= now + config.leaseSeconds * 1000;
            && SameTask(t, t') && Owns(t', i) && t'.attemptCount == t.attemptCount + 1
            && t'.startedAt == Some(if t.startedAt.Some? then t.startedAt.value else now)
            && t'.finishedAt.None? && t'.lastAttemptAt == Some(now)
            && t'.lastErrorCategory == t.lastErrorCategory
            && (Claimable(config, env, t', at)
                <==> expired && t.attemptCount + 1 < config.maxAttempts && Blocker(env, t).None?)
            && (LeaseExpired(t', at) <==> expired)
            && !Executable(t'.status) && !RetryRequestable(t'.status) && !Cancelable(t'.status)
  {
    BlockerAgreesWithClaim(env, t);
  }

  // ---------- manual runs ----------

  /** Starting a manual run sets its start, clears its end and touches nothing else. */
  lemma StartIsAManualRun(t: SyncTask, read: Status, now: Instant)
    requires Executable(read)
    ensures var w := StartManualWrite(t, read, now);
            && (w.Some? <==> t.status == read && t.leaseOwner.None?)
            && (w.Some? ==>
                  && ManualRunning(w.value) && w.value.startedAt == Some(now) && w.value.finishedAt.None?
                  && w.value.(status := t.status, startedAt := t.startedAt, finishedAt := t.finishedAt) == t)
  {
  }

  /** The finish of a manual run leaves the row completed exactly when the adapter completed, and failed otherwise, with
      the reported category and the time; every other column stays. */
  lemma FinishSaysWhatTheAdapterSaid(t: SyncTask, completed: bool, category: Option<ErrorCategory>, now: Instant)
    requires ManualRunning(t)
    ensures var w := FinishManualWrite(t, completed, category, now);
            && w.Some?
            && (w.value.status.Completed? <==> completed) && (w.value.status.Failed? <==> !completed)
            && w.value.lastErrorCategory == category && w.value.finishedAt == Some(now)
            && w.value.(status := t.status, lastErrorCategory := t.lastErrorCategory, finishedAt := t.finishedAt) == t
  {
  }

  /** Over a run: after a reported completion the row never changes again; after a reported failure it stays failed
      until an administrator's write on it, and a retry or a new manual run is open to the administrator. */
  lemma ManualFinishDecides(config: Config, s: State, e: Event, more: seq<Event>)
    requires Reachable(config, s) && Enabled(config, true, s, e) && e.FinishManual?
    requires ValidRun(config, true, Apply(config, s, e), more)
    ensures var k := s.requests[e.r].row;
            var s1, s2 := Apply(config, s, e), After(config, true, Apply(config, s, e), more);
            && k < |s1.tasks| && k < |s2.tasks|
            && (if e.completed then s1.tasks[k].status.Completed? && s2.tasks[k] == s1.tasks[k]
                else
                  && s1.tasks[k].status.Failed? && s1.tasks[k].lastErrorCategory == e.outcome
                  && Executable(s1.tasks[k].status) && RetryRequestable(s1.tasks[k].status)
                  && (!AdministratorWrites(config, s1, more, k) ==> s2.tasks[k] == s1.tasks[k]))
  {
    hide ValidRun, After, Claimable, ClaimWrite, SuccessWrite, FailureWrite, StartManualWrite, RetryRequestWrite,
         CancelWrite;
    ReachableIsOk(config, s);
    var k := s.requests[e.r].row;
    assert RequestOk(s.tasks, s.requests[e.r]);
    FinishSaysWhatTheAdapterSaid(s.tasks[k], e.completed, e.outcome, e.now);
    StepKeepsInvariant(config, s, e);
    if e.completed {
      TerminalRowsNeverChange(config, Apply(config, s, e), more, k);
    } else {
      if !AdministratorWrites(config, Apply(config, s, e), more, k) {
        FailedRowsWaitForAnAdministrator(config, Apply(config, s, e), more, k);
      } else {
        RowsKeepTheirTask(config, Apply(config, s, e), more, k);
      }
    }
  }

  // ---------- failed rows ----------

  /** An administrator's request on row k writes. */
  predicate AdministratorWritesRow(s: State, e: Event, k: TaskId) {
    (e.StartManual? || e.WriteRetry? || e.WriteCancel?) && e.r in s.requests && s.requests[e.r].row == k
  }

  predicate AdministratorWrites(config: Config, s: State, run: seq<Event>, k: TaskId)
    requires ValidRun(config, true, s, run)
    decreases |run|
  {
    run != [] &&
    (AdministratorWritesRow(s, run[0], k) || AdministratorWrites(config, Apply(config, s, run[0]), run[1..], k))
  }

  lemma FailedRowStep(config: Config, s: State, e: Event, k: TaskId)
    requires Inv(config, s) && Enabled(config, true, s, e) && k < |s.tasks| && s.tasks[k].status.Failed?
    requires !AdministratorWritesRow(s, e, k)
    ensures TasksAfter(config, s, e)[k] == s.tasks[k]
  {
  }

  /** No automatic write ever touches a failed row, although claims, retries and late finishes go on around it: it waits
      for an administrator. */
  lemma {:induction false} FailedRowsWaitForAnAdministrator(config: Config, s: State, run: seq<Event>, k: TaskId)
    requires Inv(config, s) && ValidRun(config, true, s, run) && k < |s.tasks| && s.tasks[k].status.Failed?
    requires !AdministratorWrites(config, s, run, k)
    ensures var s' := After(config, true, s, run); k < |s'.tasks| && s'.tasks[k] == s.tasks[k]
    decreases |run|
  {
    if run != [] {
      RowStep(config, s, run[0], k);
      FailedRowStep(config, s, run[0], k);
      StepKeepsInvariant(config, s, run[0]);
      FailedRowsWaitForAnAdministrator(config, Apply(config, s, run[0]), run[1..], k);
    }
  }

  // ---------- what no step changes ----------

  lemma TaskStep(config: Config, s: State, e: Event, k: TaskId)
    requires Enabled(config, true, s, e) && k < |s.tasks|
    ensures k < |TasksAfter(config, s, e)| && SameTask(s.tasks[k], TasksAfter(config, s, e)[k])
  {
  }

  /** Rows are never removed, and what a task is for never changes. */
  lemma {:induction false} RowsKeepTheirTask(config: Config, s: State, run: seq<Event>, k: TaskId)
    requires ValidRun(config, true, s, run) && k < |s.tasks|
    ensures var s' := After(config, true, s, run); k < |s'.tasks| && SameTask(s.tasks[k], s'.tasks[k])
    decreases |run|
  {
    if run != [] {
      TaskStep(config, s, run[0], k);
      RowsKeepTheirTask(config, Apply(config, s, run[0]), run[1..], k);
    }
  }

  lemma UnscheduledStep(config: Config, s: State, e: Event, k: TaskId)
    requires Inv(config, s) && Enabled(config, true, s, e) && k < |s.tasks|
    requires !s.tasks[k].trigger.Scheduled? || !s.tasks[k].planned
    ensures !ClaimsRow(e, k) && k < |Apply(config, s, e).tasks|
    ensures var t, t' := s.tasks[k], Apply(config, s, e).tasks[k];
            && t'.trigger == t.trigger && t'.planned == t.planned && t'.attemptCount == t.attemptCount
            && (t.leaseOwner.None? ==> t'.leaseOwner.None?)
  {
    hide Inv, TasksAfter;
    RowStep(config, s, e, k);
    TaskStep(config, s, e, k);
  }

  /** A task that was not planned by the scheduler is never claimed by the executor: it gets no lease and no attempt in
      any run. */
  lemma {:induction false} OnlyScheduledTasksAreClaimed(config: Config, s: State, run: seq<Event>, k: TaskId)
    requires Inv(config, s) && ValidRun(config, true, s, run) && k < |s.tasks|
    requires !s.tasks[k].trigger.Scheduled? || !s.tasks[k].planned
    ensures var s' := After(config, true, s, run);
            && k < |s'.tasks| && s'.tasks[k].attemptCount == s.tasks[k].attemptCount && ClaimsOf(run, k) == 0
            && (s.tasks[k].leaseOwner.None? ==> s'.tasks[k].leaseOwner.None?)
    decreases |run|
  {
    hide Inv, Enabled, Apply;
    if run != [] {
      SingleFlightRestricts(config, s, run[0]);
      UnscheduledStep(config, s, run[0], k);
      StepKeepsInvariant(config, s, run[0]);
      OnlyScheduledTasksAreClaimed(config, Apply(config, s, run[0]), run[1..], k);
    }
  }

  // ---------- administrators' writes ----------

  /** An accepted retry puts a failed or waiting row back to pending, ready to be claimed at once, with its attempts and
      its last error kept. */
  lemma RetryLeavesPending(t: SyncTask)
    ensures var w := RetryRequestWrite(t);
            && (w.Some? <==> t.status.Failed? || t.status.RetryWait?)
            && (w.Some? ==>
                  && w.value.status.Pending? && w.value.nextAttemptAt.None? && w.value.finishedAt.None?
                  && w.value.leaseOwner.None? && w.value.leaseExpiresAt.None?
                  && w.value.attemptCount == t.attemptCount && w.value.lastErrorCategory == t.lastErrorCategory
                  && SameTask(t, w.value) && w.value.startedAt == t.startedAt)
  {
  }

  /** So a scheduled task is claimable right after a retry exactly when attempts are left and nothing blocks it, without
      waiting out its delay; and an administrator can run or cancel it as well. */
  lemma RetriedRowsAreClaimable(config: Config, env: Environment, t: SyncTask, now: Instant)
    requires RetryRequestWrite(t).Some?
    ensures var t' := RetryRequestWrite(t).value;
            && (Claimable(config, env, t', now)
                <==> && t.trigger.Scheduled? && t.planned && t.attemptCount < config.maxAttempts
                     && Blocker(env, t).None?)
            && t'.status.Pending? && Executable(t'.status) && Cancelable(t'.status)
  {
    BlockerAgreesWithClaim(env, t);
  }

  /** An accepted cancellation leaves the row cancelled for good, without lease or retry instant. It finds pending,
      waiting and failed rows, and running ones only when the request saw their lease expire and it still has. */
  lemma CancelLeavesCancelled(t: SyncTask, expiredRun: bool, now: Instant)
    ensures var w := CancelWrite(t, expiredRun, now);
            && (w.Some? <==>
                  if expiredRun then t.status.Running? && t.leaseExpiresAt.Some? && t.leaseExpiresAt.value <= now
                  else t.status.Pending? || t.status.RetryWait? || t.status.Failed?)
            && (w.Some? ==>
                  && w.value.status.Cancelled? && Terminal(w.value) && w.value.finishedAt == Some(now)
                  && w.value.leaseOwner.None? && w.value.leaseExpiresAt.None? && w.value.nextAttemptAt.None?
                  && w.value.attemptCount == t.attemptCount && SameTask(t, w.value))
  {
  }

  /** Over a run: a cancellation that takes effect leaves the row cancelled, without lease, for good. */
  lemma CancellationIsFinal(config: Config, s: State, e: Event, more: seq<Event>)
    requires Reachable(config, s) && Enabled(config, true, s, e) && e.WriteCancel?
    requires ValidRun(config, true, Apply(config, s, e), more)
    ensures var q := s.requests[e.r];
            var s2 := After(config, true, Apply(config, s, e), more);
            && q.row < |s2.tasks|
            && (CancelWrite(s.tasks[q.row], q.expiredRun, q.now).Some? ==>
                  s2.tasks[q.row].status.Cancelled? && s2.tasks[q.row].leaseOwner.None?)
  {
    hide ValidRun, After, Claimable, ClaimWrite, SuccessWrite, FailureWrite, StartManualWrite, FinishManualWrite,
         RetryRequestWrite, CancelWrite;
    ReachableIsOk(config, s);
    StepKeepsInvariant(config, s, e);
    var q := s.requests[e.r];
    CancelLeavesCancelled(s.tasks[q.row], q.expiredRun, q.now);
    RowsKeepTheirTask(config, Apply(config, s, e), more, q.row);
    if CancelWrite(s.tasks[q.row], q.expiredRun, q.now).Some? {
      TerminalRowsNeverChange(config, Apply(config, s, e), more, q.row);
    }
  }

  // ---------- which error is recorded ----------

  /** Why the check before the adapter refuses: a locked month before everything else; then an account that is missing
      or disabled, an unknown platform, a missing credential; for cards a missing provider, then a missing
      credential. */
  lemma BlockersNameTheFirstObstacle(env: Environment, t: SyncTask)
    ensures var b := Blocker(env, t);
            var affiliate := t.source.AffiliateIncome?;
            var known := t.account.Some? && t.account.value in env.accounts;
            && (b == Some(MonthLocked) <==> t.month in env.lockedMonths)
            && (b == Some(BusinessRejected) <==>
                  t.month !in env.lockedMonths && affiliate && !(known && env.accounts[t.account.value].active))
            && (b == Some(UnsupportedPlatform) <==>
                  && t.month !in env.lockedMonths && affiliate && known && env.accounts[t.account.value].active
                  && env.accounts[t.account.value].platform !in {Everflow, Cake})
            && (b == Some(UnsupportedProvider) <==>
                  t.month !in env.lockedMonths && !affiliate && t.provider.None?)
            && (b == Some(CredentialMissing) <==>
                  && t.month !in env.lockedMonths && !HasCredential(env, t)
                  && if affiliate then known && env.accounts[t.account.value].active && HasAdapter(env, t)
                     else t.provider.Some?)
            && (b.Some? ==> b.value in {MonthLocked, BusinessRejected, UnsupportedPlatform, UnsupportedProvider,
                                        CredentialMissing})
  {
    if t.account.Some? && t.account.value in env.accounts {
      var p := env.accounts[t.account.value].platform;
      assert p in {Everflow, Cake} <==> !p.OtherPlatform?;
    }
  }

  /** What an attempt is recorded with: the adapter's own category, BUSINESS_REJECTED when it gives none, and for an
      exception TEMPORARY_DATABASE_ERROR when the database was briefly unavailable and VALIDATION_ERROR otherwise. */
  lemma FailuresKeepTheirCategory(config: Config, env: Environment, t: SyncTask, attempt: nat, outcome: Outcome,
                                  now: Instant, t': SyncTask)
    requires Settled(config, env, t, attempt, outcome, now, t')
    ensures outcome.Raised? ==>
              t'.lastErrorCategory
              == Some(if outcome.transientDatabase then TemporaryDatabaseError else ValidationError)
    ensures outcome.AdapterFailed? && Blocker(env, t).None? ==>
              t'.lastErrorCategory == Some(if outcome.category.Some? then outcome.category.value else BusinessRejected)
    ensures !outcome.Raised? && Blocker(env, t).Some? ==>
              t'.lastErrorCategory == Blocker(env, t) && t'.status.Failed?
    ensures t'.status.RetryWait? <==>
              && attempt < config.maxAttempts && t'.lastErrorCategory.Some?
              && match t'.lastErrorCategory.value
                 case NetworkError | Timeout | RateLimited | Provider5xx | TemporaryDatabaseError => true
                 case _ => false
  {
    BlockerAgreesWithClaim(env, t);
  }
}
