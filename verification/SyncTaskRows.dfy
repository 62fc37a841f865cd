/** The rows of sync_tasks, and every conditional statement that changes one of them.

    One SQL statement, or one `updateMany` with its `where` clause, is one function here:
    it returns `None` when the `where` clause matches no row and the changed row otherwise.
    Counters, messages and payloads of a row are not modelled. */
module SyncTaskRows {
  import opened Wrappers
  import opened CommonTypes

  type TaskId = nat
  type InstanceId = nat
  type AccountId = nat

  datatype Platform = Everflow | Cake | OtherPlatform
  datatype SourceType = AffiliateIncome | CardSpend
  datatype Trigger = Manual | Scheduled
  datatype Status = NotImplemented | Pending | RetryWait | Running | Completed | Failed | Cancelled
  datatype ErrorCategory =
    | NetworkError | Timeout | RateLimited | Provider5xx | TemporaryDatabaseError
    | CredentialMissing | CredentialInvalid | MonthLocked | UnsupportedPlatform | UnsupportedProvider
    | InvalidConfiguration | ValidationError | PermissionError | BusinessRejected

  datatype SyncTask = SyncTask(
    source: SourceType,
    account: Option<AccountId>,
    provider: Option<Provider>,
    month: Month,
    trigger: Trigger,
    planned: bool,                      // planning_key IS NOT NULL
    status: Status,
    attemptCount: nat,
    nextAttemptAt: Option<Instant>,
    leaseOwner: Option<InstanceId>,
    leaseExpiresAt: Option<Instant>,
    lastAttemptAt: Option<Instant>,
    lastErrorCategory: Option<ErrorCategory>,
    startedAt: Option<Instant>,
    finishedAt: Option<Instant>)

  // ---------- configuration ----------

  datatype Settings = Settings(
    enabled: bool, pollSeconds: int, batchSize: int, maxAttempts: int, leaseSeconds: int, retryBaseSeconds: int)

  /** What `readSyncAutoExecutionConfig` accepts; it throws on every other combination. */
  predicate Accepted(c: Settings) {
    && 1 <= c.pollSeconds <= 3600
    && 1 <= c.batchSize <= 10
    && 1 <= c.maxAttempts <= 5
    && 2 <= c.leaseSeconds <= 86400
    && 1 <= c.retryBaseSeconds <= 86400
    && c.pollSeconds < c.leaseSeconds
  }

  type Config = c: Settings | Accepted(c) witness Settings(false, 60, 2, 3, 900, 300)

  // ---------- backoff ----------

  const MAX_DELAY_SECONDS := 86400

  function Pow2(n: nat): (r: nat)
    ensures r >= 1
  {
    if n == 0 then 1 else 2 * Pow2(n - 1)
  }

  function RetryDelaySeconds(baseSeconds: nat, attemptCount: int): nat {
    var delay := baseSeconds * Pow2(if attemptCount - 1 > 0 then attemptCount - 1 else 0);
    if delay < MAX_DELAY_SECONDS then delay else MAX_DELAY_SECONDS
  }

  /** The waiting times after attempts 1 to `retries` added up. */
  function TotalDelay(baseSeconds: nat, retries: nat): nat {
    if retries == 0 then 0 else TotalDelay(baseSeconds, retries - 1) + RetryDelaySeconds(baseSeconds, retries)
  }

  lemma {:induction false} DelaysNeverShrink(baseSeconds: nat, m: int, n: int)
    requires m <= n
    ensures RetryDelaySeconds(baseSeconds, m) <= RetryDelaySeconds(baseSeconds, n) <= MAX_DELAY_SECONDS
    decreases n - m
  {
    if m < n {
      DelaysNeverShrink(baseSeconds, m, n - 1);
      if n > 1 {
        DoublingStep(baseSeconds, n);
      }
    }
  }

  /** The waiting of a whole life is at most base * (2^k - 1) seconds after k retries, with equality
      as long as no single delay is capped. */
  lemma {:induction false} TotalDelayBound(baseSeconds: nat, retries: nat)
    ensures TotalDelay(baseSeconds, retries) <= baseSeconds * (Pow2(retries) - 1)
    ensures TotalDelay(baseSeconds, retries) <= retries * MAX_DELAY_SECONDS
    ensures retries > 0 && baseSeconds * Pow2(retries - 1) <= 24 * 60 * 60
            ==> TotalDelay(baseSeconds, retries) == baseSeconds * (Pow2(retries) - 1)
  {
    if retries > 0 {
      TotalDelayBound(baseSeconds, retries - 1);
      DoublingStep(baseSeconds, retries);
    }
  }

  lemma DoublingStep(baseSeconds: nat, n: nat)
    requires n > 0
    ensures baseSeconds * (Pow2(n) - 1) == baseSeconds * (Pow2(n - 1) - 1) + baseSeconds * Pow2(n - 1)
    ensures n > 1 ==> baseSeconds * Pow2(n - 1) == 2 * (baseSeconds * Pow2(n - 2))
  {
    var p := Pow2(n - 1);
    assert baseSeconds * (2 * p - 1) == baseSeconds * ((p - 1) + p) == baseSeconds * (p - 1) + baseSeconds * p;
  }

  // ---------- eligibility ----------

  datatype Account = Account(active: bool, platform: Platform)

  /** Everything outside sync_tasks that the executor looks at. Other services change it at will. */
  datatype Environment = Environment(
    lockedMonths: set<Month>,
    accounts: map<AccountId, Account>,
    accountCredentials: set<AccountId>,      // accounts with an active credential
    providerCredentials: set<Provider>)      // providers with an active credential

  /** The source-type part of the claim query's `where` clause. */
  predicate SourceReady(env: Environment, t: SyncTask) {
    || (&& t.source.AffiliateIncome?
        && t.account.Some? && t.account.value in env.accounts
        && env.accounts[t.account.value].active
        && env.accounts[t.account.value].platform in {Everflow, Cake}
        && t.account.value in env.accountCredentials)
    || (t.source.CardSpend? && t.provider.Some? && t.provider.value in env.providerCredentials)
  }

  /** SQL comparison with a column that may be NULL: NULL <= now is not true. */
  predicate AtOrBefore(column: Option<Instant>, now: Instant) {
    column.Some? && column.value <= now
  }

  predicate Claimable(config: Config, env: Environment, t: SyncTask, now: Instant) {
    && t.trigger.Scheduled?
    && t.planned
    && t.attemptCount < config.maxAttempts
    && (|| t.status.Pending?
        || (t.status.RetryWait? && (t.nextAttemptAt.None? || AtOrBefore(t.nextAttemptAt, now)))
        || (t.status.Running? && AtOrBefore(t.leaseExpiresAt, now)))
    && t.month !in env.lockedMonths
    && SourceReady(env, t)
  }

  /** `preExecutionBlocker`: the check repeated on the claimed row just before the adapter runs. */
  function Blocker(env: Environment, t: SyncTask): Option<ErrorCategory> {
    if t.month in env.lockedMonths then Some(MonthLocked)
    else if t.source.AffiliateIncome? then
      if t.account.None? || t.account.value !in env.accounts || !env.accounts[t.account.value].active then
        Some(BusinessRejected)
      else if env.accounts[t.account.value].platform.OtherPlatform? then Some(UnsupportedPlatform)
      else if t.account.value in env.accountCredentials then None
      else Some(CredentialMissing)
    else if t.provider.None? then Some(UnsupportedProvider)
    else if t.provider.value in env.providerCredentials then None
    else Some(CredentialMissing)
  }

  const RETRYABLE := {NetworkError, Timeout, RateLimited, Provider5xx, TemporaryDatabaseError}

  /** The two eligibility checks agree: the claim query admits exactly the rows that the check before
      execution lets through, and a blocked row is never retried automatically. */
  lemma BlockerAgreesWithClaim(env: Environment, t: SyncTask)
    ensures Blocker(env, t).None? <==> t.month !in env.lockedMonths && SourceReady(env, t)
    ensures Blocker(env, t).Some? ==> Blocker(env, t).value !in RETRYABLE
  {
    if t.account.Some? && t.account.value in env.accounts {
      var p := env.accounts[t.account.value].platform;
      assert p in {Everflow, Cake} <==> !p.OtherPlatform?;
    }
  }

  // ---------- the writes of the automatic executor ----------

  function ClaimWrite(config: Config, t: SyncTask, owner: InstanceId, now: Instant): SyncTask {
    t.(status := Running,
       leaseOwner := Some(owner),
       leaseExpiresAt := Some(now + config.leaseSeconds * 1000),
       attemptCount := t.attemptCount + 1,
       lastAttemptAt := Some(now),
       nextAttemptAt := None,
       startedAt := if t.startedAt.Some? then t.startedAt else Some(now),
       finishedAt := None)
  }

  predicate Owns(t: SyncTask, owner: InstanceId) {
    t.status.Running? && t.leaseOwner == Some(owner)
  }

  /** The `where` clause of a finish write. Without the owner test it would ask only for a running row. */
  predicate FinishFinds(t: SyncTask, owner: InstanceId, ownerTest: bool) {
    t.status.Running? && (ownerTest ==> t.leaseOwner == Some(owner))
  }

  function SuccessWrite(t: SyncTask, owner: InstanceId, now: Instant, ownerTest: bool := true): Option<SyncTask> {
    if FinishFinds(t, owner, ownerTest) then
      Some(t.(status := Completed, leaseOwner := None, leaseExpiresAt := None, nextAttemptAt := None,
              lastErrorCategory := None, finishedAt := Some(now)))
    else None
  }

  predicate WillRetry(config: Config, attempt: nat, category: ErrorCategory) {
    category in RETRYABLE && attempt < config.maxAttempts
  }

  function FailureWrite(config: Config, t: SyncTask, owner: InstanceId, attempt: nat, category: ErrorCategory,
                        now: Instant, ownerTest: bool := true): Option<SyncTask>
  {
    var retry := WillRetry(config, attempt, category);
    if FinishFinds(t, owner, ownerTest) then
      Some(t.(status := if retry then RetryWait else Failed,
              leaseOwner := None, leaseExpiresAt := None,
              nextAttemptAt := if retry then Some(now + RetryDelaySeconds(config.retryBaseSeconds, attempt) * 1000)
                               else None,
              lastErrorCategory := Some(category),
              finishedAt := if retry then None else Some(now)))
    else None
  }

  // ---------- the writes of an administrator ----------

  predicate Executable(status: Status) {
    !status.Running? && !status.Completed? && !status.Cancelled?
  }

  function StartManualWrite(t: SyncTask, statusRead: Status, now: Instant): Option<SyncTask> {
    if t.status == statusRead && t.leaseOwner.None? then
      Some(t.(status := Running, startedAt := Some(now), finishedAt := None))
    else None
  }

  function FinishManualWrite(t: SyncTask, completed: bool, category: Option<ErrorCategory>, now: Instant)
    : Option<SyncTask>
  {
    if t.status.Running? && t.leaseOwner.None? then
      Some(t.(status := if completed then Completed else Failed, finishedAt := Some(now),
              lastErrorCategory := category))
    else None
  }

  predicate RetryRequestable(status: Status) {
    status.Failed? || status.RetryWait?
  }

  function RetryRequestWrite(t: SyncTask): Option<SyncTask> {
    if RetryRequestable(t.status) then
      Some(t.(status := Pending, nextAttemptAt := None, leaseOwner := None, leaseExpiresAt := None,
              finishedAt := None))
    else None
  }

  predicate Cancelable(status: Status) {
    status.Pending? || status.RetryWait? || status.Failed?
  }

  predicate LeaseExpired(t: SyncTask, now: Instant) {
    t.status.Running? && AtOrBefore(t.leaseExpiresAt, now)
  }

  function CancelWrite(t: SyncTask, expiredRun: bool, now: Instant): Option<SyncTask> {
    if (if expiredRun then LeaseExpired(t, now) else Cancelable(t.status)) then
      Some(t.(status := Cancelled, leaseOwner := None, leaseExpiresAt := None, nextAttemptAt := None,
              finishedAt := Some(now)))
    else None
  }

  // ---------- what every write keeps ----------

  /** The invariant of a single row. */
  predicate RowOk(config: Config, t: SyncTask) {
    && (t.leaseOwner.None? <==> t.leaseExpiresAt.None?)
    && (t.leaseOwner.Some? ==> t.status.Running? && t.attemptCount >= 1)
    && t.attemptCount <= config.maxAttempts
    && (t.status.RetryWait? ==>
          && t.nextAttemptAt.Some?
          && t.lastErrorCategory.Some? && t.lastErrorCategory.value in RETRYABLE
          && 1 <= t.attemptCount < config.maxAttempts)
  }

  predicate Terminal(t: SyncTask) {
    t.status.Completed? || t.status.Cancelled?
  }

  predicate ManualRunning(t: SyncTask) {
    t.status.Running? && t.leaseOwner.None?
  }
}
