/** What the lease protocol guarantees over whole runs. */
module SyncSafety {
  import opened Wrappers
  import opened CommonTypes
  import opened SyncTaskRows
  import opened SyncProtocol

  /** A state some run of the protocol leads to. */
  ghost predicate Reachable(config: Config, s: State) {
    exists s0, run :: Init(s0) && ValidRun(config, true, s0, run) && s == After(config, true, s0, run)
  }

  lemma ReachableIsOk(config: Config, s: State)
    requires Reachable(config, s)
    ensures Inv(config, s)
  {
    var s0, run :| Init(s0) && ValidRun(config, true, s0, run) && s == After(config, true, s0, run);
    InitIsOk(config, s0);
    RunKeepsInvariant(config, s0, run);
  }

  // ---------- fencing ----------

  /** A finish write that takes effect is of the row's newest attempt, that attempt has no effective
      finish yet, and no other claim held by anyone could take effect on the row. */
  lemma FinishIsFenced(config: Config, s: State, e: Event)
    requires Reachable(config, s) && Enabled(config, true, s, e) && FinishTakesEffect(s, e)
    ensures e.claim.attempt == s.tasks[e.claim.row].attemptCount
    ensures e.claim !in s.finishes
    ensures forall i, c | i in s.instances && c in s.instances[i].held && c.row == e.claim.row ::
              Owns(s.tasks[c.row], i) ==> i == e.i && c == e.claim
  {
    ReachableIsOk(config, s);
    assert HeldOk(s.tasks, e.i, e.claim);
    forall i, c | i in s.instances && c in s.instances[i].held && c.row == e.claim.row && Owns(s.tasks[c.row], i)
      ensures i == e.i && c == e.claim
    {
      assert HeldOk(s.tasks, i, c);
    }
  }

  lemma {:induction false} FinishesAreRemembered(config: Config, s: State, run: seq<Event>, c: Claim)
    requires ValidRun(config, true, s, run) && c in s.finishes
    ensures c in After(config, true, s, run).finishes
    decreases |run|
  {
    if run != [] {
      FinishesAreRemembered(config, Apply(config, s, run[0]), run[1..], c);
    }
  }

  /** Over a whole run, at most one finish write of an attempt takes effect. */
  lemma OneEffectiveFinishPerAttempt(config: Config, s: State, first: Event, between: seq<Event>, second: Event)
    requires Reachable(config, s) && Enabled(config, true, s, first) && FinishTakesEffect(s, first)
    requires ValidRun(config, true, Apply(config, s, first), between)
    requires var s' := After(config, true, Apply(config, s, first), between);
             Enabled(config, true, s', second) && FinishTakesEffect(s', second)
    ensures second.claim != first.claim
  {
    var s1 := Apply(config, s, first);
    var s2 := After(config, true, s1, between);
    ReachableIsOk(config, s);
    StepKeepsInvariant(config, s, first);
    RunKeepsInvariant(config, s1, between);
    FinishesAreRemembered(config, s1, between, first.claim);
    assert FinishOk(s2.tasks, first.claim);
    assert HeldOk(s2.tasks, second.i, second.claim);
  }

  // ---------- why the guards are needed ----------

  const SAMPLE_CONFIG: Config := Settings(true, 60, 2, 3, 900, 300)
  const SAMPLE_ROW := SyncTask(CardSpend, None, Some(Airwallex), 0, Scheduled, true, Pending, 0,
                               None, None, None, None, None, None, None)
  const SAMPLE_STATE := State([SAMPLE_ROW], Environment({}, map[], {}, {Airwallex}), map[], {}, map[], map[])

  lemma {:induction false} Extend(config: Config, singleFlight: bool, ownerTest: bool, s: State, run: seq<Event>,
                                  e: Event)
    requires ValidRun(config, singleFlight, s, run, ownerTest)
    requires Enabled(config, singleFlight, After(config, singleFlight, s, run, ownerTest), e)
    ensures ValidRun(config, singleFlight, s, run + [e], ownerTest)
    ensures After(config, singleFlight, s, run + [e], ownerTest)
            == Apply(config, After(config, singleFlight, s, run, ownerTest), e, ownerTest)
    decreases |run|
  {
    if run == [] {
      assert run + [e] == [e] && [e][1..] == [];
    } else {
      assert (run + [e])[1..] == run[1..] + [e];
      Extend(config, singleFlight, ownerTest, Apply(config, s, run[0], ownerTest), run[1..], e);
    }
  }

  const POLLING := SAMPLE_STATE.(instances := map[0 := Instance(false, true, true, {})])
  const CLAIMED := SAMPLE_STATE.(tasks := [ClaimWrite(SAMPLE_CONFIG, SAMPLE_ROW, 0, 0)],
                                 instances := map[0 := Instance(false, true, false, {Claim(0, 1)})])

  lemma FirstClaimStep(singleFlight: bool, ownerTest: bool)
    ensures Enabled(SAMPLE_CONFIG, singleFlight, POLLING, ClaimRows(0, 0, {0}, true))
    ensures Apply(SAMPLE_CONFIG, POLLING, ClaimRows(0, 0, {0}, true), ownerTest) == CLAIMED
  {
    var e := ClaimRows(0, 0, {0}, true);
    assert TasksAfter(SAMPLE_CONFIG, POLLING, e, ownerTest) == CLAIMED.tasks;
    assert {} + Taken(POLLING, {0}) == {Claim(0, 1)};
    assert InstancesAfter(POLLING, e) == CLAIMED.instances;
  }

  /** Instance 0 boots, polls and claims the sample row. */
  lemma FirstClaim(singleFlight: bool, ownerTest: bool)
    returns (run: seq<Event>)
    ensures Init(SAMPLE_STATE) && ValidRun(SAMPLE_CONFIG, singleFlight, SAMPLE_STATE, run, ownerTest)
    ensures After(SAMPLE_CONFIG, singleFlight, SAMPLE_STATE, run, ownerTest) == CLAIMED
  {
    Extend(SAMPLE_CONFIG, singleFlight, ownerTest, SAMPLE_STATE, [], Boot(0));
    run := [] + [Boot(0)];
    assert After(SAMPLE_CONFIG, singleFlight, SAMPLE_STATE, run, ownerTest)
        == SAMPLE_STATE.(instances := map[0 := Instance(false, false, false, {})]);
    Extend(SAMPLE_CONFIG, singleFlight, ownerTest, SAMPLE_STATE, run, StartPoll(0));
    run := run + [StartPoll(0)];
    assert After(SAMPLE_CONFIG, singleFlight, SAMPLE_STATE, run, ownerTest) == POLLING;
    FirstClaimStep(singleFlight, ownerTest);
    Extend(SAMPLE_CONFIG, singleFlight, ownerTest, SAMPLE_STATE, run, ClaimRows(0, 0, {0}, true));
    run := run + [ClaimRows(0, 0, {0}, true)];
  }

  /** Instance i polls and claims the sample row again once the first lease has run out. */
  lemma ClaimAgain(singleFlight: bool, ownerTest: bool, run: seq<Event>, i: InstanceId)
    returns (longer: seq<Event>)
    requires ValidRun(SAMPLE_CONFIG, singleFlight, SAMPLE_STATE, run, ownerTest)
    requires var s := After(SAMPLE_CONFIG, singleFlight, SAMPLE_STATE, run, ownerTest);
             && s.tasks == [ClaimWrite(SAMPLE_CONFIG, SAMPLE_ROW, 0, 0)] && s.env == SAMPLE_STATE.env
             && i in s.instances && Enabled(SAMPLE_CONFIG, singleFlight, s, StartPoll(i))
    ensures ValidRun(SAMPLE_CONFIG, singleFlight, SAMPLE_STATE, longer, ownerTest)
    ensures var s, s' := After(SAMPLE_CONFIG, singleFlight, SAMPLE_STATE, run, ownerTest),
                         After(SAMPLE_CONFIG, singleFlight, SAMPLE_STATE, longer, ownerTest);
            && |s'.tasks| == 1 && Owns(s'.tasks[0], i) && s'.tasks[0].attemptCount == 2
            && s.instances.Keys == s'.instances.Keys
            && forall j :: j in s.instances ==> s.instances[j].held <= s'.instances[j].held
  {
    Extend(SAMPLE_CONFIG, singleFlight, ownerTest, SAMPLE_STATE, run, StartPoll(i));
    longer := run + [StartPoll(i)];
    Extend(SAMPLE_CONFIG, singleFlight, ownerTest, SAMPLE_STATE, longer, ClaimRows(i, 900000, {0}, true));
    longer := longer + [ClaimRows(i, 900000, {0}, true)];
  }

  /** Without the scheduler's single-flight flag, the owner test does not fence: one instance claims the
      same row twice, and the finish of its first attempt takes effect on the second. */
  lemma SingleFlightIsNeeded()
    returns (run: seq<Event>, e: Event)
    ensures Init(SAMPLE_STATE) && ValidRun(SAMPLE_CONFIG, false, SAMPLE_STATE, run)
    ensures var s := After(SAMPLE_CONFIG, false, SAMPLE_STATE, run);
            Enabled(SAMPLE_CONFIG, false, s, e) && FinishTakesEffect(s, e)
            && e.claim.attempt < s.tasks[e.claim.row].attemptCount
  {
    run := FirstClaim(false, true);
    run := ClaimAgain(false, true, run, 0);
    e := FinishSuccess(0, Claim(0, 1), 900001);
  }

  /** And without the owner test, single flight does not fence: instance 0 finishes its attempt 1 of a row that
      instance 1 has claimed since, the write takes effect, and the row is completed under attempt 2. */
  lemma OwnerTestIsNeeded()
    returns (run: seq<Event>, e: Event)
    ensures Init(SAMPLE_STATE) && ValidRun(SAMPLE_CONFIG, true, SAMPLE_STATE, run, false)
    ensures var s := After(SAMPLE_CONFIG, true, SAMPLE_STATE, run, false);
            && Enabled(SAMPLE_CONFIG, true, s, e) && FinishTakesEffect(s, e, false)
            && e.claim.attempt < s.tasks[e.claim.row].attemptCount && Owns(s.tasks[e.claim.row], 1) && e.i == 0
            && Terminal(Apply(SAMPLE_CONFIG, s, e, false).tasks[e.claim.row])
  {
    run := FirstClaim(true, false);
    Extend(SAMPLE_CONFIG, true, false, SAMPLE_STATE, run, Boot(1));
    run := run + [Boot(1)];
    run := ClaimAgain(true, false, run, 1);
    e := FinishSuccess(0, Claim(0, 1), 900001);
  }

  // ---------- bounded automatic work ----------

  /** How often a run claims row k automatically. */
  function ClaimsOf(run: seq<Event>, k: TaskId): nat {
    if run == [] then 0 else (if ClaimsRow(run[0], k) then 1 else 0) + ClaimsOf(run[1..], k)
  }

  /** How many automatic claims a run makes in all. */
  function AutomaticClaims(run: seq<Event>): nat {
    if run == [] then 0 else (if run[0].ClaimRows? then |run[0].chosen| else 0) + AutomaticClaims(run[1..])
  }

  function TotalAttempts(tasks: seq<SyncTask>): nat {
    if tasks == [] then 0 else TotalAttempts(tasks[..|tasks| - 1]) + tasks[|tasks| - 1].attemptCount
  }

  /** The attempt counter counts automatic claims exactly, whatever happens in between, and a run never
      claims one row more often than the limit. */
  lemma {:induction false} AttemptCountIsClaimCount(config: Config, s: State, run: seq<Event>, k: TaskId)
    requires Inv(config, s) && ValidRun(config, true, s, run) && k < |s.tasks|
    ensures var s' := After(config, true, s, run);
            && k < |s'.tasks|
            && s'.tasks[k].attemptCount == s.tasks[k].attemptCount + ClaimsOf(run, k)
            && s.tasks[k].attemptCount + ClaimsOf(run, k) <= config.maxAttempts
    decreases |run|
  {
    if run != [] {
      RowStep(config, s, run[0], k);
      StepKeepsInvariant(config, s, run[0]);
      AttemptCountIsClaimCount(config, Apply(config, s, run[0]), run[1..], k);
    }
  }

  lemma {:induction false} ClaimAddsUp(before: seq<SyncTask>, after: seq<SyncTask>, chosen: set<TaskId>)
    requires |before| == |after|
    requires forall k :: k in chosen ==> k < |before|
    requires forall k :: 0 <= k < |before| ==>
               after[k].attemptCount == before[k].attemptCount + (if k in chosen then 1 else 0)
    ensures TotalAttempts(after) == TotalAttempts(before) + |chosen|
    decreases |before|
  {
    if before == [] {
      assert chosen == {};
    } else {
      var last := |before| - 1;
      ClaimAddsUp(before[..last], after[..last], chosen - {last});
    }
  }

  lemma {:induction false} TotalIsBounded(tasks: seq<SyncTask>, limit: nat)
    requires forall k :: 0 <= k < |tasks| ==> tasks[k].attemptCount <= limit
    ensures TotalAttempts(tasks) <= limit * |tasks|
  {
    if tasks != [] {
      var last := |tasks| - 1;
      TotalIsBounded(tasks[..last], limit);
      assert limit * |tasks| == limit * last + limit;
    }
  }

  lemma TotalAfterStep(config: Config, s: State, e: Event)
    requires Inv(config, s) && Enabled(config, true, s, e)
    ensures TotalAttempts(Apply(config, s, e).tasks)
            == TotalAttempts(s.tasks) + if e.ClaimRows? then |e.chosen| else 0
  {
    var tasks' := TasksAfter(config, s, e);
    forall k | 0 <= k < |s.tasks|
      ensures tasks'[k].attemptCount == s.tasks[k].attemptCount + (if ClaimsRow(e, k) then 1 else 0)
    {
      RowStep(config, s, e, k);
    }
    if e.CreateRow? {
      assert tasks'[..|s.tasks|] == s.tasks;
    } else {
      ClaimAddsUp(s.tasks, tasks', if e.ClaimRows? then e.chosen else {});
    }
  }

  /** Automatic work is finite: however long a run is, its claims are exactly the attempts it adds, and
      from the deployed table they number at most maxAttempts for each row there is. */
  lemma AutomaticWorkIsBounded(config: Config, s0: State, run: seq<Event>)
    requires Init(s0) && ValidRun(config, true, s0, run)
    ensures AutomaticClaims(run) <= config.maxAttempts * |After(config, true, s0, run).tasks|
  {
    InitIsOk(config, s0);
    TotalIsBounded(s0.tasks, 0);
    ClaimsAreAttempts(config, s0, run);
    RunKeepsInvariant(config, s0, run);
    TotalIsBounded(After(config, true, s0, run).tasks, config.maxAttempts);
  }

  lemma {:induction false} ClaimsAreAttempts(config: Config, s: State, run: seq<Event>)
    requires Inv(config, s) && ValidRun(config, true, s, run)
    ensures TotalAttempts(After(config, true, s, run).tasks) == TotalAttempts(s.tasks) + AutomaticClaims(run)
    decreases |run|
  {
    if run != [] {
      TotalAfterStep(config, s, run[0]);
      StepKeepsInvariant(config, s, run[0]);
      ClaimsAreAttempts(config, Apply(config, s, run[0]), run[1..]);
    }
  }

  // ---------- terminal rows and manual runs ----------

  /** A completed or cancelled row never changes again, in any column, although every administrator's
      write relies on a stale read. */
  lemma {:induction false} TerminalRowsNeverChange(config: Config, s: State, run: seq<Event>, k: TaskId)
    requires Inv(config, s) && ValidRun(config, true, s, run) && k < |s.tasks| && Terminal(s.tasks[k])
    ensures var s' := After(config, true, s, run); k < |s'.tasks| && s'.tasks[k] == s.tasks[k]
    decreases |run|
  {
    if run != [] {
      RowStep(config, s, run[0], k);
      StepKeepsInvariant(config, s, run[0]);
      TerminalRowsNeverChange(config, Apply(config, s, run[0]), run[1..], k);
    }
  }

  /** Some step of the run is the finish of a manual run of row k. */
  predicate ManualFinishIn(config: Config, s: State, run: seq<Event>, k: TaskId)
    requires ValidRun(config, true, s, run)
    decreases |run|
  {
    run != [] && (FinishesManualRunOf(s, run[0], k) || ManualFinishIn(config, Apply(config, s, run[0]), run[1..], k))
  }

  /** Only its own finish ends a manual run: until then no step of a run changes the row. */
  lemma {:induction false} ManualRunIsLeftAlone(config: Config, s: State, run: seq<Event>, k: TaskId)
    requires Inv(config, s) && ValidRun(config, true, s, run) && k < |s.tasks| && ManualRunning(s.tasks[k])
    requires !ManualFinishIn(config, s, run, k)
    ensures var s' := After(config, true, s, run); k < |s'.tasks| && s'.tasks[k] == s.tasks[k]
    decreases |run|
  {
    if run != [] {
      RowStep(config, s, run[0], k);
      StepKeepsInvariant(config, s, run[0]);
      ManualRunIsLeftAlone(config, Apply(config, s, run[0]), run[1..], k);
    }
  }

  /** A manual run cannot be claimed, cancelled, retried or started again at any time, and its finish write
      always finds the row: only one request runs it. */
  lemma ManualRunIsExclusive(config: Config, s: State, r: RequestId, env: Environment, now: Instant)
    requires Reachable(config, s) && r in s.requests && s.requests[r].ManualRun?
    ensures var k := s.requests[r].row;
            && k < |s.tasks|
            && !Claimable(config, env, s.tasks[k], now)
            && !Executable(s.tasks[k].status) && !RetryRequestable(s.tasks[k].status)
            && !Cancelable(s.tasks[k].status) && !LeaseExpired(s.tasks[k], now)
            && (forall completed, category :: FinishManualWrite(s.tasks[k], completed, category, now).Some?)
            && (forall q | q in s.requests && q != r && s.requests[q].row == k ::
                  match s.requests[q]
                  case Executing(_, read) => StartManualWrite(s.tasks[k], read, now).None?
                  case ManualRun(_) => false
                  case Retrying(_) => RetryRequestWrite(s.tasks[k]).None?
                  case Cancelling(_, expired, at) => CancelWrite(s.tasks[k], expired, at).None?)
  {
    ReachableIsOk(config, s);
    assert RequestOk(s.tasks, s.requests[r]);
    var k := s.requests[r].row;
    assert RowOk(config, s.tasks[k]);
    forall q | q in s.requests && q != r && s.requests[q].row == k ensures RequestOk(s.tasks, s.requests[q]) {
    }
  }

  // ---------- backoff ----------

  /** In every reachable state a row in retry_wait has a retry instant, a retryable category and attempts left,
      so the NULL branch of the claim query is dead; and no automatic claim takes it before its newest
      finish plus the capped exponential delay, whatever the claiming clock. */
  lemma RetryWaitsOutItsDelay(config: Config, s: State, k: TaskId, env: Environment, now: Instant)
    requires Reachable(config, s) && k < |s.tasks| && s.tasks[k].status.RetryWait?
    ensures var t := s.tasks[k];
            && t.nextAttemptAt.Some?
            && t.lastErrorCategory.Some? && t.lastErrorCategory.value in RETRYABLE
            && t.attemptCount < config.maxAttempts
            && Claim(k, t.attemptCount) in s.finishes
            && (Claimable(config, env, t, now) ==>
                  now >= s.finishes[Claim(k, t.attemptCount)]
                         + RetryDelaySeconds(config.retryBaseSeconds, t.attemptCount) * 1000)
  {
    ReachableIsOk(config, s);
    assert BackoffOk(config, s, k);
  }

  /** The waiting one step imposes on row k: the delay of a failure write that takes effect and schedules a retry. */
  function WaitImposed(config: Config, s: State, e: Event, k: TaskId): nat {
    if e.FinishFailure? && FinishTakesEffect(s, e) && e.claim.row == k && WillRetry(config, e.claim.attempt, e.category)
    then RetryDelaySeconds(config.retryBaseSeconds, e.claim.attempt)
    else 0
  }

  /** The waiting a run imposes on row k in all. */
  function Waited(config: Config, s: State, run: seq<Event>, k: TaskId): nat
    requires ValidRun(config, true, s, run)
    decreases |run|
  {
    if run == [] then 0
    else WaitImposed(config, s, run[0], k) + Waited(config, Apply(config, s, run[0]), run[1..], k)
  }

  /** How many of the row's retryable attempts are over. */
  function Over(config: Config, s: State, k: TaskId): nat {
    if !HasRow(s, k) then 0 else
      var ended := s.tasks[k].attemptCount - if s.tasks[k].leaseOwner.Some? then 1 else 0;
      if ended < 0 then 0 else if ended < config.maxAttempts then ended else config.maxAttempts - 1
  }

  lemma {:induction false} DelaysAddUp(baseSeconds: nat, m: nat, n: nat)
    requires m <= n
    ensures TotalDelay(baseSeconds, m) <= TotalDelay(baseSeconds, n)
    decreases n - m
  {
    if m < n {
      DelaysAddUp(baseSeconds, m, n - 1);
    }
  }

  /** The wait a step imposes is one of the delays of the attempts it ends. */
  lemma WaitIsOfAnEndedAttempt(config: Config, s: State, e: Event, k: TaskId)
    requires Inv(config, s) && Enabled(config, true, s, e)
    ensures var base := config.retryBaseSeconds;
            WaitImposed(config, s, e, k) + TotalDelay(base, Over(config, s, k))
            <= TotalDelay(base, Over(config, Apply(config, s, e), k))
  {
    var base, s' := config.retryBaseSeconds, Apply(config, s, e);
    if HasRow(s, k) {
      assert RowOk(config, s.tasks[k]);
      RowStep(config, s, e, k);
      if WaitImposed(config, s, e, k) > 0 {
        assert HeldOk(s.tasks, e.i, e.claim);
        assert Over(config, s', k) == Over(config, s, k) + 1 == e.claim.attempt;
      } else {
        DelaysAddUp(base, Over(config, s, k), Over(config, s', k));
      }
    }
  }

  lemma {:induction false} WaitsAreOfEndedAttempts(config: Config, s: State, run: seq<Event>, k: TaskId)
    requires Inv(config, s) && ValidRun(config, true, s, run)
    ensures var base := config.retryBaseSeconds;
            Waited(config, s, run, k) + TotalDelay(base, Over(config, s, k))
            <= TotalDelay(base, Over(config, After(config, true, s, run), k))
    decreases |run|
  {
    if run != [] {
      var s' := Apply(config, s, run[0]);
      WaitIsOfAnEndedAttempt(config, s, run[0], k);
      StepKeepsInvariant(config, s, run[0]);
      WaitsAreOfEndedAttempts(config, s', run[1..], k);
    }
  }

  /** All the waiting any run from the deployed table imposes on a row, whatever the row goes through and whoever
      finishes its attempts, is at most base * (2^(maxAttempts - 1) - 1) seconds, and maxAttempts - 1 days. */
  lemma LifelongDelayIsBounded(config: Config, s0: State, run: seq<Event>, k: TaskId)
    requires Init(s0) && ValidRun(config, true, s0, run)
    ensures Waited(config, s0, run, k) <= config.retryBaseSeconds * (Pow2(config.maxAttempts - 1) - 1)
    ensures Waited(config, s0, run, k) <= (config.maxAttempts - 1) * MAX_DELAY_SECONDS
  {
    var base, limit := config.retryBaseSeconds, config.maxAttempts - 1;
    InitIsOk(config, s0);
    WaitsAreOfEndedAttempts(config, s0, run, k);
    DelaysAddUp(base, Over(config, After(config, true, s0, run), k), limit);
    TotalDelayBound(base, limit);
  }
}
