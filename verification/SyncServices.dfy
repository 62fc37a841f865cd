/** The services that act on the sync-task table, as objects with the fields they keep.
    Each call here runs alone; SyncProtocol interleaves the same writes. */
module SyncServices {
  import opened Wrappers
  import opened CommonTypes
  import opened SyncTaskRows
  import opened SyncProtocol

  class SyncTaskTable {
    var rows: seq<SyncTask>

    constructor (rows: seq<SyncTask>)
      ensures this.rows == rows
    {
      this.rows := rows;
    }
  }

  /** What the adapter call ends in; `Raised` is an exception, from the adapter or from any read before it. */
  datatype Outcome = AdapterCompleted | AdapterFailed(category: Option<ErrorCategory>) | Raised(transientDatabase: bool)

  /** The error category of an outcome that is not a completion. */
  function CategoryOf(outcome: Outcome): ErrorCategory {
    match outcome
    case AdapterFailed(Some(category)) => category
    case Raised(true) => TemporaryDatabaseError
    case Raised(false) => ValidationError
    case _ => BusinessRejected
  }

  /** What becomes of a write: it commits, it commits although its answer is an error, or it is rolled back. */
  datatype Fate = Commits | CommitsUnheard(transientDatabase: bool) | RollsBack(transientDatabase: bool)

  /** The outcome an attempt is recorded with when its first write has this fate. */
  function RecordedOutcome(outcome: Outcome, first: Fate): Outcome {
    if first.RollsBack? && !outcome.Raised? then Raised(first.transientDatabase) else outcome
  }

  /** Neither the result nor, in its place, the failure of its write was recorded. */
  predicate NothingRecorded(outcome: Outcome, first: Fate, second: Fate) {
    (outcome.Raised? || first.RollsBack?) && second.RollsBack?
  }

  lemma ClaimedRowsAreOwned(config: Config, t: SyncTask, id: InstanceId, now: Instant)
    ensures Owns(ClaimWrite(config, t, id, now), id)
  {
  }

  /** Of the rows before k the first free claimable ones are claimed, as far as the batch goes; nothing else changed. */
  ghost predicate BatchSoFar(config: Config, env: Environment, owner: InstanceId, now: Instant, locked: set<TaskId>,
                             before: seq<SyncTask>, after: seq<SyncTask>, claims: seq<Claim>, k: nat)
  {
    && k <= |after| == |before| && |claims| <= config.batchSize
    && (forall a, b :: 0 <= a < b < |claims| ==> claims[a].row < claims[b].row)
    && (forall c :: c in claims ==>
          && c.row < k && c.row !in locked && Claimable(config, env, before[c.row], now)
          && c.attempt == before[c.row].attemptCount + 1
          && after[c.row] == ClaimWrite(config, before[c.row], owner, now))
    && forall j :: 0 <= j < |before| && (forall c :: c in claims ==> c.row != j) ==>
         && after[j] == before[j]
         && (j < k && j !in locked && Claimable(config, env, before[j], now) ==>
               |claims| == config.batchSize && forall c :: c in claims ==> c.row < j)
  }

  lemma OneMoreClaim(config: Config, env: Environment, owner: InstanceId, now: Instant, locked: set<TaskId>,
                     before: seq<SyncTask>, after: seq<SyncTask>, claims: seq<Claim>, k: nat)
    requires BatchSoFar(config, env, owner, now, locked, before, after, claims, k)
    requires k < |after| && |claims| < config.batchSize && k !in locked && Claimable(config, env, after[k], now)
    ensures after[k] == before[k]
    ensures BatchSoFar(config, env, owner, now, locked, before, after[k := ClaimWrite(config, after[k], owner, now)],
                       claims + [Claim(k, after[k].attemptCount + 1)], k + 1)
  {
    hide Claimable, ClaimWrite;
  }

  /** `executeClaim` went through to the end of a claim of row t, and this is the row it leaves. */
  predicate Settled(config: Config, env: Environment, t: SyncTask, attempt: nat, outcome: Outcome, now: Instant,
                    t': SyncTask)
  {
    var category := if outcome.Raised? || Blocker(env, t).None? then CategoryOf(outcome) else Blocker(env, t).value;
    && t'.leaseOwner.None? && t'.leaseExpiresAt.None?
    && t'.finishedAt == (if t'.status.RetryWait? then None else Some(now))
    && t'.(status := t.status, leaseOwner := t.leaseOwner, leaseExpiresAt := t.leaseExpiresAt,
           nextAttemptAt := t.nextAttemptAt, lastErrorCategory := t.lastErrorCategory, finishedAt := t.finishedAt) == t
    && (t'.status.Completed? <==> Blocker(env, t).None? && outcome.AdapterCompleted?)
    && (t'.status.Completed? ==> t'.lastErrorCategory.None? && t'.nextAttemptAt.None?)
    && (!t'.status.Completed? ==>
          && t'.lastErrorCategory == Some(category)
          && (t'.status.RetryWait? || t'.status.Failed?)
          && (t'.status.RetryWait? <==> category in RETRYABLE && attempt < config.maxAttempts)
          && t'.nextAttemptAt == if t'.status.RetryWait?
                                 then Some(RetryInstant(config, now, attempt)) else None)
  }

  lemma FailureSettles(config: Config, env: Environment, t: SyncTask, owner: InstanceId, attempt: nat, outcome: Outcome,
                       category: ErrorCategory, now: Instant)
    requires Owns(t, owner) && (outcome.AdapterCompleted? ==> Blocker(env, t).Some?)
    requires category == if outcome.Raised? || Blocker(env, t).None? then CategoryOf(outcome) else Blocker(env, t).value
    ensures var w := FailureWrite(config, t, owner, attempt, category, now);
            w.Some? && Settled(config, env, t, attempt, outcome, now, w.value) && !Owns(w.value, owner)
  {
    hide Blocker, CategoryOf;
  }

  lemma SuccessSettles(config: Config, env: Environment, t: SyncTask, owner: InstanceId, attempt: nat, now: Instant)
    requires Owns(t, owner) && Blocker(env, t).None?
    ensures var w := SuccessWrite(t, owner, now);
            w.Some? && Settled(config, env, t, attempt, AdapterCompleted, now, w.value) && !Owns(w.value, owner)
  {
    hide Blocker, CategoryOf;
  }

  lemma OnlyTheOwnerFinishes(config: Config, t: SyncTask, owner: InstanceId, attempt: nat, category: ErrorCategory,
                             now: Instant)
    requires !Owns(t, owner)
    ensures FailureWrite(config, t, owner, attempt, category, now).None? && SuccessWrite(t, owner, now).None?
  {
  }

  class SyncAutoExecutionService {
    const instanceId: InstanceId
    const config: Config
    const table: SyncTaskTable
    var lastPollAt: Option<Instant>
    var lastClaimAt: Option<Instant>

    constructor (instanceId: InstanceId, config: Config, table: SyncTaskTable)
      ensures this.instanceId == instanceId && this.config == config && this.table == table
      ensures lastPollAt.None? && lastClaimAt.None?
    {
      this.instanceId, this.config, this.table := instanceId, config, table;
      lastPollAt, lastClaimAt := None, None;
    }

    /** The claim query. Rows are in creation order; `locked` are the rows other transactions hold,
        which SKIP LOCKED passes over. The batch is the oldest claimable rows that are free. */
    method ClaimBatch(env: Environment, now: Instant, locked: set<TaskId>) returns (claims: seq<Claim>)
      modifies table
      ensures |claims| <= config.batchSize
      ensures forall a, b :: 0 <= a < b < |claims| ==> claims[a].row < claims[b].row
      ensures |table.rows| == |old(table.rows)|
      ensures forall c :: c in claims ==>
                && c.row < |table.rows| && c.row !in locked
                && Claimable(config, env, old(table.rows)[c.row], now)
                && c.attempt == old(table.rows)[c.row].attemptCount + 1
                && table.rows[c.row] == ClaimWrite(config, old(table.rows)[c.row], instanceId, now)
      ensures forall k :: 0 <= k < |table.rows| && (forall c :: c in claims ==> c.row != k) ==>
                && table.rows[k] == old(table.rows)[k]
                && (k !in locked && Claimable(config, env, old(table.rows)[k], now) ==>
                      |claims| == config.batchSize && forall c :: c in claims ==> c.row < k)
    {
      hide Claimable, ClaimWrite;
      ghost var before := table.rows;
      claims := [];
      var k := 0;
      while k < |table.rows|
        invariant BatchSoFar(config, env, instanceId, now, locked, before, table.rows, claims, k)
      {
        if |claims| < config.batchSize && k !in locked && Claimable(config, env, table.rows[k], now) {
          OneMoreClaim(config, env, instanceId, now, locked, before, table.rows, claims, k);
          var attempt := table.rows[k].attemptCount + 1;
          table.rows := table.rows[k := ClaimWrite(config, table.rows[k], instanceId, now)];
          claims := claims + [Claim(k, attempt)];
        }
        k := k + 1;
      }
    }

    /** The error of a write that fails, or None. A write that rolls back leaves the table as it was. */
    method FinishSuccess(claim: Claim, now: Instant, fate: Fate) returns (error: Option<Outcome>)
      requires claim.row < |table.rows|
      modifies table
      ensures error == if fate.Commits? then None else Some(Raised(fate.transientDatabase))
      ensures table.rows == if fate.RollsBack? then old(table.rows)
                            else PutRow(old(table.rows),
                                        Some((claim.row, SuccessWrite(old(table.rows)[claim.row], instanceId, now))))
    {
      error := if fate.Commits? then None else Some(Raised(fate.transientDatabase));
      if fate.RollsBack? {
        return;
      }
      var t := table.rows[claim.row];
      if t.status.Running? && t.leaseOwner == Some(instanceId) {
        t := t.(status := Completed, leaseOwner := None, leaseExpiresAt := None, nextAttemptAt := None);
        t := t.(lastErrorCategory := None, finishedAt := Some(now));
        table.rows := table.rows[claim.row := t];
      }
    }

    method FinishFailure(claim: Claim, category: ErrorCategory, now: Instant, fate: Fate)
      returns (error: Option<Outcome>)
      requires claim.row < |table.rows|
      modifies table
      ensures error == if fate.Commits? then None else Some(Raised(fate.transientDatabase))
      ensures table.rows == if fate.RollsBack? then old(table.rows)
                            else PutRow(old(table.rows),
                                        Some((claim.row, FailureWrite(config, old(table.rows)[claim.row], instanceId,
                                                                      claim.attempt, category, now))))
    {
      error := if fate.Commits? then None else Some(Raised(fate.transientDatabase));
      if fate.RollsBack? {
        return;
      }
      var retry := category in RETRYABLE && claim.attempt < config.maxAttempts;
      var nextAttemptAt := None;
      if retry {
        nextAttemptAt := Some(now + RetryDelaySeconds(config.retryBaseSeconds, claim.attempt) * 1000);
      }
      var t := table.rows[claim.row];
      if t.status.Running? && t.leaseOwner == Some(instanceId) {
        t := t.(leaseOwner := None, leaseExpiresAt := None, nextAttemptAt := nextAttemptAt);
        t := t.(lastErrorCategory := Some(category));
        if retry {
          t := t.(status := RetryWait, finishedAt := None);
        } else {
          t := t.(status := Failed, finishedAt := Some(now));
        }
        table.rows := table.rows[claim.row := t];
      }
    }

    /** `executeClaim`: read the row again, check it again, run the adapter, write the result. Any error on the way,
        also of the first write, leads to a second write that records a failure, and its error is swallowed. A result
        that is in the table stays; only when nothing could be recorded does the row keep its lease. */
    method ExecuteClaim(claim: Claim, env: Environment, outcome: Outcome, first: Fate, second: Fate, now: Instant)
      requires claim.row < |table.rows|
      modifies table
      ensures |table.rows| == |old(table.rows)|
      ensures forall k :: 0 <= k < |table.rows| && k != claim.row ==> table.rows[k] == old(table.rows)[k]
      ensures !Owns(old(table.rows)[claim.row], instanceId) ==> table.rows == old(table.rows)
      ensures NothingRecorded(outcome, first, second) ==> table.rows == old(table.rows)
      ensures Owns(old(table.rows)[claim.row], instanceId) && !NothingRecorded(outcome, first, second) ==>
                Settled(config, env, old(table.rows)[claim.row], claim.attempt, RecordedOutcome(outcome, first), now,
                        table.rows[claim.row])
    {
      hide Settled, Blocker, CategoryOf, SuccessWrite, FailureWrite;
      var t := table.rows[claim.row];
      var error := Some(outcome);
      if !outcome.Raised? {
        if !t.status.Running? || t.leaseOwner != Some(instanceId) {
          return;
        }
        var blocker := Blocker(env, t);
        if blocker.Some? {
          FailureSettles(config, env, t, instanceId, claim.attempt, outcome, blocker.value, now);
          error := FinishFailure(claim, blocker.value, now, first);
        } else if outcome.AdapterCompleted? {
          SuccessSettles(config, env, t, instanceId, claim.attempt, now);
          error := FinishSuccess(claim, now, first);
        } else {
          FailureSettles(config, env, t, instanceId, claim.attempt, outcome, CategoryOf(outcome), now);
          error := FinishFailure(claim, CategoryOf(outcome), now, first);
        }
      }
      if error.Some? {
        if Owns(table.rows[claim.row], instanceId) {
          FailureSettles(config, env, t, instanceId, claim.attempt, error.value, CategoryOf(error.value), now);
        } else {
          OnlyTheOwnerFinishes(config, table.rows[claim.row], instanceId, claim.attempt, CategoryOf(error.value), now);
        }
        var _ := FinishFailure(claim, CategoryOf(error.value), now, second);
      }
    }

    /** One undisturbed poll: every row it claims is settled in it, no lease stays behind, and no other
        row changes. */
    method Poll(env: Environment, now: Instant, locked: set<TaskId>, outcomes: TaskId -> Outcome, later: Instant)
      returns (claims: seq<Claim>)
      modifies this`lastPollAt, this`lastClaimAt, table
      ensures lastPollAt == Some(now)
      ensures lastClaimAt == if claims == [] then old(lastClaimAt) else Some(now)
      ensures !config.enabled ==> claims == [] && table.rows == old(table.rows)
      ensures |table.rows| == |old(table.rows)|
      ensures forall k :: 0 <= k < |table.rows| && (forall c :: c in claims ==> c.row != k) ==>
                table.rows[k] == old(table.rows)[k]
      ensures forall c :: c in claims ==>
                && c.row < |table.rows| && Claimable(config, env, old(table.rows)[c.row], now)
                && Settled(config, env, ClaimWrite(config, old(table.rows)[c.row], instanceId, now),
                           old(table.rows)[c.row].attemptCount + 1, outcomes(c.row), later, table.rows[c.row])
    {
      hide Claimable, ClaimWrite, Settled;
      lastPollAt := Some(now);
      if !config.enabled {
        return [];
      }
      claims := ClaimBatch(env, now, locked);
      if |claims| > 0 {
        lastClaimAt := Some(now);
      }
      ghost var claimed := table.rows;
      for n := 0 to |claims|
        invariant lastPollAt == Some(now) && (claims != [] ==> lastClaimAt == Some(now))
        invariant claims == [] ==> lastClaimAt == old(lastClaimAt)
        invariant |table.rows| == |claimed|
        invariant forall k :: 0 <= k < |claimed| && (forall m :: 0 <= m < n ==> claims[m].row != k) ==>
                    table.rows[k] == claimed[k]
        invariant forall m :: 0 <= m < n ==>
                    Settled(config, env, claimed[claims[m].row], claims[m].attempt, outcomes(claims[m].row), later,
                            table.rows[claims[m].row])
      {
        assert claims[n] in claims;
        ClaimedRowsAreOwned(config, old(table.rows)[claims[n].row], instanceId, now);
        ExecuteClaim(claims[n], env, outcomes(claims[n].row), Commits, Commits, later);
      }
    }
  }

  /** The scheduler's fields: is a poll in flight, has shutdown begun. */
  datatype SchedulerFields = SchedulerFields(inFlight: bool, stopping: bool)

  /** What reaches the scheduler: its timer, the end of a poll, the shutdown hook. */
  datatype Signal = Tick | PollEnds | ShutdownHook

  const IDLE := SchedulerFields(false, false)

  predicate Starts(f: SchedulerFields, g: Signal) {
    g.Tick? && !f.inFlight && !f.stopping
  }

  function Signalled(f: SchedulerFields, g: Signal): SchedulerFields {
    match g
    case Tick => f.(inFlight := f.inFlight || Starts(f, g))
    case PollEnds => f.(inFlight := false)
    case ShutdownHook => f.(stopping := true)
  }

  class SyncAutoExecutorScheduler {
    var inFlight: bool
    var stopping: bool

    constructor ()
      ensures Fields() == IDLE
    {
      inFlight, stopping := false, false;
    }

    function Fields(): SchedulerFields
      reads this
    {
      SchedulerFields(inFlight, stopping)
    }

    method Run() returns (started: bool)
      modifies this`inFlight
      ensures started <==> Starts(old(Fields()), Tick)
      ensures Fields() == Signalled(old(Fields()), Tick)
    {
      if stopping || inFlight {
        return false;
      }
      inFlight := true;
      return true;
    }

    method PollSettled()
      modifies this`inFlight
      ensures Fields() == Signalled(old(Fields()), PollEnds)
    {
      inFlight := false;
    }

    method OnModuleDestroy()
      modifies this`stopping
      ensures Fields() == Signalled(old(Fields()), ShutdownHook)
    {
      stopping := true;
    }
  }

  // ---------- sequences of signals ----------

  function FieldsAfter(gs: seq<Signal>): SchedulerFields {
    if gs == [] then IDLE else Signalled(FieldsAfter(gs[..|gs| - 1]), gs[|gs| - 1])
  }

  function PollsStarted(gs: seq<Signal>): nat {
    if gs == [] then 0 else
      PollsStarted(gs[..|gs| - 1]) + if Starts(FieldsAfter(gs[..|gs| - 1]), gs[|gs| - 1]) then 1 else 0
  }

  function PollsEnded(gs: seq<Signal>): nat {
    if gs == [] then 0 else PollsEnded(gs[..|gs| - 1]) + if gs[|gs| - 1].PollEnds? then 1 else 0
  }

  /** Only a poll that was started ends. */
  predicate Paired(gs: seq<Signal>) {
    gs == [] || (Paired(gs[..|gs| - 1]) && PollsEnded(gs) <= PollsStarted(gs))
  }

  /** In every order of ticks, poll ends and shutdown hooks at most one poll runs at a time: the flag says whether one
      does. */
  lemma {:induction false} NeverTwoPolls(gs: seq<Signal>)
    requires Paired(gs)
    ensures PollsStarted(gs) == PollsEnded(gs) + if FieldsAfter(gs).inFlight then 1 else 0
  {
    if gs != [] {
      NeverTwoPolls(gs[..|gs| - 1]);
    }
  }

  /** Once the shutdown hook has run, no poll is started again, whatever ticks or ends. */
  lemma {:induction false} NoPollAfterShutdown(gs: seq<Signal>, more: seq<Signal>)
    requires ShutdownHook in gs
    ensures PollsStarted(gs + more) == PollsStarted(gs) && FieldsAfter(gs + more).stopping
    decreases |gs| + |more|
  {
    var n := |gs| - 1;
    if more != [] {
      assert (gs + more)[..|gs + more| - 1] == gs + more[..|more| - 1];
      NoPollAfterShutdown(gs, more[..|more| - 1]);
    } else {
      assert gs + more == gs;
      if !gs[n].ShutdownHook? {
        NoPollAfterShutdown(gs[..n], []);
        assert gs[..n] + [] == gs[..n];
      }
    }
  }

  // ---------- the scheduler in the protocol ----------

  function SignalOf(e: Event, i: InstanceId): seq<Signal> {
    match e
    case StartPoll(j) => if j == i then [Tick] else []
    case EndPoll(j) => if j == i then [PollEnds] else []
    case Shutdown(j) => if j == i then [ShutdownHook] else []
    case _ => []
  }

  /** What a run of the protocol signals to the scheduler of instance i. */
  function SignalsTo(run: seq<Event>, i: InstanceId): seq<Signal> {
    if run == [] then [] else SignalOf(run[0], i) + SignalsTo(run[1..], i)
  }

  function StartsOf(run: seq<Event>, i: InstanceId): nat {
    if run == [] then 0 else (if run[0] == StartPoll(i) then 1 else 0) + StartsOf(run[1..], i)
  }

  /** The scheduler of an instance after these signals is where the protocol has the instance. */
  predicate InStep(s: State, i: InstanceId, gs: seq<Signal>) {
    i in s.instances && FieldsAfter(gs) == SchedulerFields(s.instances[i].inFlight, s.instances[i].stopping)
  }

  lemma StepStaysInStep(config: Config, s: State, e: Event, i: InstanceId, gs: seq<Signal>)
    requires Enabled(config, true, s, e) && InStep(s, i, gs) && e != Crash(i)
    ensures InStep(Apply(config, s, e), i, gs + SignalOf(e, i))
    ensures PollsStarted(gs + SignalOf(e, i)) == PollsStarted(gs) + if e == StartPoll(i) then 1 else 0
  {
    hide TasksAfter, RequestsAfter, Claimable, FinishTakesEffect, Taken, HasRow, Executable, RetryRequestable,
         Cancelable, LeaseExpired, Fresh;
    if SignalOf(e, i) == [] {
      assert gs + SignalOf(e, i) == gs;
    } else {
      assert (gs + SignalOf(e, i))[..|gs|] == gs;
    }
  }

  lemma SingleFlightRestricts(config: Config, s: State, e: Event)
    ensures Enabled(config, true, s, e) ==> Enabled(config, false, s, e)
  {
  }

  lemma TicksStartPolls(config: Config, s: State, i: InstanceId, gs: seq<Signal>)
    requires InStep(s, i, gs)
    ensures Starts(FieldsAfter(gs), Tick) <==> Enabled(config, true, s, StartPoll(i))
  {
  }

  /** Single flight in the protocol is what the scheduler's fields enforce: as long as an instance lives, its scheduler
      stays in step with it, a tick starts a poll exactly when StartPoll is enabled, and every StartPoll of a run is a
      tick that starts one. */
  lemma {:induction false} SchedulerKeepsSingleFlight(config: Config, s: State, run: seq<Event>, i: InstanceId,
                                                      gs: seq<Signal>)
    requires ValidRun(config, true, s, run) && InStep(s, i, gs) && Crash(i) !in run
    ensures var s', all := After(config, true, s, run), gs + SignalsTo(run, i);
            && InStep(s', i, all)
            && (Starts(FieldsAfter(all), Tick) <==> Enabled(config, true, s', StartPoll(i)))
            && PollsStarted(all) == PollsStarted(gs) + StartsOf(run, i)
    decreases |run|
  {
    hide Apply, Enabled, FieldsAfter, PollsStarted, InStep, Starts, SignalOf;
    if run == [] {
      assert gs + SignalsTo(run, i) == gs;
      TicksStartPolls(config, s, i, gs);
    } else {
      assert run[0] in run;
      SingleFlightRestricts(config, s, run[0]);
      StepStaysInStep(config, s, run[0], i, gs);
      SchedulerKeepsSingleFlight(config, Apply(config, s, run[0]), run[1..], i, gs + SignalOf(run[0], i));
      assert gs + SignalOf(run[0], i) + SignalsTo(run[1..], i) == gs + SignalsTo(run, i);
    }
  }

  datatype RequestError = NotFound | Conflict | LockedMonth | NoCredential | NoAdapter

  /** The administrator's three requests. Reading and writing are separate calls. */
  class SyncTaskAdministration {
    const table: SyncTaskTable

    constructor (table: SyncTaskTable)
      ensures this.table == table
    {
      this.table := table;
    }

    /** `execute` up to the start write. */
    method ReadToExecute(k: TaskId, env: Environment) returns (r: Result<Request, RequestError>)
      ensures r.Success? <==> k < |table.rows| && Executable(table.rows[k].status)
                              && table.rows[k].month !in env.lockedMonths && HasCredential(env, table.rows[k])
                              && HasAdapter(env, table.rows[k])
      ensures r.Success? ==> r.value == Executing(k, table.rows[k].status)
      ensures r == Failure(NotFound) <==> k >= |table.rows|
      ensures r == Failure(Conflict) <==> k < |table.rows| && !Executable(table.rows[k].status)
      ensures r == Failure(LockedMonth) <==> k < |table.rows| && Executable(table.rows[k].status)
                                             && table.rows[k].month in env.lockedMonths
      ensures r == Failure(NoAdapter) <==> k < |table.rows| && Executable(table.rows[k].status)
                                           && table.rows[k].month !in env.lockedMonths
                                           && HasCredential(env, table.rows[k]) && !HasAdapter(env, table.rows[k])
    {
      if k >= |table.rows| {
        return Failure(NotFound);
      }
      var t := table.rows[k];
      if t.status.Running? || t.status.Completed? || t.status.Cancelled? {
        return Failure(Conflict);
      }
      if t.month in env.lockedMonths {
        return Failure(LockedMonth);
      }
      if !HasCredential(env, t) {
        return Failure(NoCredential);
      }
      if !HasAdapter(env, t) {
        return Failure(NoAdapter);
      }
      return Success(Executing(k, t.status));
    }

    method StartManual(q: Request, now: Instant) returns (r: Result<Request, RequestError>)
      requires q.Executing? && q.row < |table.rows|
      modifies table
      ensures r.Success? <==> old(table.rows)[q.row].status == q.statusRead && old(table.rows)[q.row].leaseOwner.None?
      ensures r == Success(ManualRun(q.row)) || r == Failure(Conflict)
      ensures table.rows == PutRow(old(table.rows),
                                   Some((q.row, StartManualWrite(old(table.rows)[q.row], q.statusRead, now))))
      ensures r.Success? ==> ManualRunning(table.rows[q.row]) && table.rows[q.row].startedAt == Some(now)
    {
      var t := table.rows[q.row];
      if t.status != q.statusRead || t.leaseOwner.Some? {
        return Failure(Conflict);
      }
      table.rows := table.rows[q.row := t.(status := Running, startedAt := Some(now), finishedAt := None)];
      return Success(ManualRun(q.row));
    }

    method FinishManual(q: Request, completed: bool, category: Option<ErrorCategory>, now: Instant)
      returns (found: bool)
      requires q.ManualRun? && q.row < |table.rows|
      modifies table
      ensures found <==> ManualRunning(old(table.rows)[q.row])
      ensures table.rows == PutRow(old(table.rows),
                                   Some((q.row, FinishManualWrite(old(table.rows)[q.row], completed, category, now))))
      ensures found ==>
                && (table.rows[q.row].status.Completed? <==> completed)
                && (table.rows[q.row].status.Failed? <==> !completed)
                && table.rows[q.row].lastErrorCategory == category && table.rows[q.row].finishedAt == Some(now)
      ensures !found ==> table.rows == old(table.rows)
    {
      var t := table.rows[q.row];
      found := t.status.Running? && t.leaseOwner.None?;
      if found {
        t := t.(finishedAt := Some(now), lastErrorCategory := category);
        t := if completed then t.(status := Completed) else t.(status := Failed);
        table.rows := table.rows[q.row := t];
      }
    }

    /** `requestRetry`, read and write without a break between them. */
    method RequestRetry(k: TaskId, env: Environment) returns (r: Result<TaskId, RequestError>)
      modifies table
      ensures r.Success? <==> k < |old(table.rows)| && RetryRequestable(old(table.rows)[k].status)
                              && old(table.rows)[k].month !in env.lockedMonths && HasCredential(env, old(table.rows)[k])
      ensures r == Failure(NotFound) <==> k >= |old(table.rows)|
      ensures r == Failure(Conflict) <==> k < |old(table.rows)| && !RetryRequestable(old(table.rows)[k].status)
      ensures r == Failure(LockedMonth) <==> k < |old(table.rows)| && RetryRequestable(old(table.rows)[k].status)
                                             && old(table.rows)[k].month in env.lockedMonths
      ensures table.rows == if r.Success? then PutRow(old(table.rows), Some((k, RetryRequestWrite(old(table.rows)[k]))))
                            else old(table.rows)
      ensures r.Success? ==>
                && table.rows[k].status.Pending? && table.rows[k].nextAttemptAt.None?
                && table.rows[k].attemptCount == old(table.rows)[k].attemptCount
    {
      if k >= |table.rows| {
        return Failure(NotFound);
      }
      var t := table.rows[k];
      if !t.status.Failed? && !t.status.RetryWait? {
        return Failure(Conflict);
      }
      if t.month in env.lockedMonths {
        return Failure(LockedMonth);
      }
      if !HasCredential(env, t) {
        return Failure(NoCredential);
      }
      t := t.(status := Pending, nextAttemptAt := None, finishedAt := None);
      t := t.(leaseOwner := None, leaseExpiresAt := None);
      table.rows := table.rows[k := t];
      return Success(k);
    }

    /** `cancel`, read and write without a break between them: a running row only once its lease has
        expired, never a manual run. */
    method Cancel(k: TaskId, now: Instant) returns (r: Result<TaskId, RequestError>)
      modifies table
      ensures r.Success? <==> k < |old(table.rows)|
                              && (Cancelable(old(table.rows)[k].status) || LeaseExpired(old(table.rows)[k], now))
      ensures r.Failure? ==> r.error == if k >= |old(table.rows)| then NotFound else Conflict
      ensures table.rows == if r.Success? then
                              PutRow(old(table.rows),
                                     Some((k, CancelWrite(old(table.rows)[k],
                                                          LeaseExpired(old(table.rows)[k], now), now))))
                            else old(table.rows)
      ensures r.Success? ==> table.rows[k].status.Cancelled? && table.rows[k].leaseOwner.None?
    {
      if k >= |table.rows| {
        return Failure(NotFound);
      }
      var t := table.rows[k];
      if t.status.Completed? || t.status.Cancelled? {
        return Failure(Conflict);
      }
      var canCancelRunning := t.status.Running? && t.leaseExpiresAt.Some? && t.leaseExpiresAt.value <= now;
      if t.status.Running? && !canCancelRunning {
        return Failure(Conflict);
      }
      if !Cancelable(t.status) && !canCancelRunning {
        return Failure(Conflict);
      }
      t := t.(leaseOwner := None, leaseExpiresAt := None, nextAttemptAt := None);
      table.rows := table.rows[k := t.(status := Cancelled, finishedAt := Some(now))];
      return Success(k);
    }
  }

  /** `adapters.resolve` finds an adapter: it knows two platforms, asks for the account's current one, and knows both
      card providers. */
  predicate HasAdapter(env: Environment, t: SyncTask) {
    if t.source.AffiliateIncome? then
      t.account.Some? && t.account.value in env.accounts && !env.accounts[t.account.value].platform.OtherPlatform?
    else t.provider.Some?
  }

  /** What the executor lets through could also be executed by an administrator, but not the other way round: an
      administrator may run the tasks of a disabled account. */
  lemma AdministratorsMayRunMore(env: Environment, t: SyncTask)
    ensures SourceReady(env, t)
            <==> HasCredential(env, t) && HasAdapter(env, t)
                 && (t.source.AffiliateIncome? ==> env.accounts[t.account.value].active)
  {
    if t.account.Some? && t.account.value in env.accounts {
      var p := env.accounts[t.account.value].platform;
      assert p in {Everflow, Cake} <==> !p.OtherPlatform?;
    }
  }

  /** `assertHasActiveCredential`: unlike the executor's check it does not ask whether the account is active. */
  predicate HasCredential(env: Environment, t: SyncTask) {
    if t.source.AffiliateIncome? then t.account.Some? && t.account.value in env.accountCredentials
    else t.provider.Some? && t.provider.value in env.providerCredentials
  }
}
