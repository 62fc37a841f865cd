/** The sync-task lease protocol as a transition system.

    Any number of executor instances and administrators act on the same rows. An event is one atomic
    step: one SQL statement or conditional write, one read of a row, or one change of an instance's
    own memory. Clocks are arguments of the events and need not agree with anything. */
module SyncProtocol {
  import opened Wrappers
  import opened CommonTypes
  import opened SyncTaskRows

  type RequestId = nat

  /** A claim as the instance remembers it: the row and the attempt number the claim returned. */
  datatype Claim = Claim(row: TaskId, attempt: nat)

  /** `inFlight` is the scheduler's flag; `claiming` says that the poll has not sent its claim query yet;
      `held` are the claims whose `executeClaim` has not ended. */
  datatype Instance = Instance(stopping: bool, inFlight: bool, claiming: bool, held: set<Claim>)

  /** An administrator's request between its read and its write, with what it keeps of the read. */
  datatype Request =
    | Executing(row: TaskId, statusRead: Status)
    | ManualRun(row: TaskId)
    | Retrying(row: TaskId)
    | Cancelling(row: TaskId, expiredRun: bool, now: Instant)

  /** `finishes` is history: the instant of the finish write that took effect, for each attempt. */
  datatype State = State(
    tasks: seq<SyncTask>,
    env: Environment,
    instances: map<InstanceId, Instance>,
    retired: set<InstanceId>,
    requests: map<RequestId, Request>,
    finishes: map<Claim, Instant>)

  datatype Event =
    | CreateRow(row: SyncTask)
    | ChangeEnvironment(env: Environment)
    | Boot(i: InstanceId)
    | Crash(i: InstanceId)
    | Shutdown(i: InstanceId)
    | StartPoll(i: InstanceId)
    | ClaimRows(i: InstanceId, now: Instant, chosen: set<TaskId>, reported: bool)
    | FinishSuccess(i: InstanceId, claim: Claim, now: Instant)
    | FinishFailure(i: InstanceId, claim: Claim, category: ErrorCategory, now: Instant)
    | LetGo(i: InstanceId, claim: Claim)
    | EndPoll(i: InstanceId)
    | ReadToExecute(r: RequestId, target: TaskId)
    | StartManual(r: RequestId, now: Instant)
    | FinishManual(r: RequestId, completed: bool, outcome: Option<ErrorCategory>, now: Instant)
    | ReadToRetry(r: RequestId, target: TaskId)
    | WriteRetry(r: RequestId)
    | ReadToCancel(r: RequestId, target: TaskId, now: Instant)
    | WriteCancel(r: RequestId)
    | AbandonRequest(r: RequestId)

  // ---------- steps ----------

  /** A row as the create services insert it. */
  predicate Fresh(t: SyncTask) {
    t.status.Pending? && Untouched(t)
  }

  /** A row no executor has ever touched, as the migration that added the lease columns left it. */
  predicate Untouched(t: SyncTask) {
    && !t.status.RetryWait? && t.attemptCount == 0
    && t.nextAttemptAt.None? && t.leaseOwner.None? && t.leaseExpiresAt.None?
  }

  predicate HasRow(s: State, k: TaskId) {
    k < |s.tasks|
  }

  /** With `singleFlight` false the scheduler would start a poll while another is running. */
  predicate Enabled(config: Config, singleFlight: bool, s: State, e: Event) {
    match e
    case CreateRow(row) => Fresh(row)
    case ChangeEnvironment(_) => true
    case Boot(i) => i !in s.instances && i !in s.retired
    case Crash(i) => i in s.instances
    case Shutdown(i) => i in s.instances
    case StartPoll(i) =>
      i in s.instances && !s.instances[i].stopping && (singleFlight ==> !s.instances[i].inFlight)
    case ClaimRows(i, now, chosen, _) =>
      && i in s.instances && s.instances[i].claiming
      && |chosen| <= config.batchSize
      && (forall k :: k in chosen ==> HasRow(s, k) && Claimable(config, s.env, s.tasks[k], now))
    case FinishSuccess(i, c, _) => i in s.instances && c in s.instances[i].held && HasRow(s, c.row)
    case FinishFailure(i, c, _, _) => i in s.instances && c in s.instances[i].held && HasRow(s, c.row)
    case LetGo(i, c) => i in s.instances && c in s.instances[i].held
    case EndPoll(i) => i in s.instances && s.instances[i].held == {} && !s.instances[i].claiming
    case ReadToExecute(r, k) => r !in s.requests && HasRow(s, k) && Executable(s.tasks[k].status)
    case StartManual(r, _) => r in s.requests && s.requests[r].Executing? && HasRow(s, s.requests[r].row)
    case FinishManual(r, _, _, _) => r in s.requests && s.requests[r].ManualRun? && HasRow(s, s.requests[r].row)
    case ReadToRetry(r, k) => r !in s.requests && HasRow(s, k) && RetryRequestable(s.tasks[k].status)
    case WriteRetry(r) => r in s.requests && s.requests[r].Retrying? && HasRow(s, s.requests[r].row)
    case ReadToCancel(r, k, now) =>
      r !in s.requests && HasRow(s, k) && (Cancelable(s.tasks[k].status) || LeaseExpired(s.tasks[k], now))
    case WriteCancel(r) => r in s.requests && s.requests[r].Cancelling? && HasRow(s, s.requests[r].row)
    case AbandonRequest(r) => r in s.requests
  }

  function PutRow(tasks: seq<SyncTask>, w: Option<(TaskId, Option<SyncTask>)>): seq<SyncTask>
    requires w.Some? ==> w.value.0 < |tasks|
  {
    match w
    case Some((k, Some(row))) => tasks[k := row]
    case _ => tasks
  }

  /** The single-row write of an event other than the claim, if it has one: the row and the result. */
  function RowWrite(config: Config, s: State, e: Event, ownerTest: bool): (w: Option<(TaskId, Option<SyncTask>)>)
    requires Enabled(config, false, s, e)
    ensures w.Some? ==> HasRow(s, w.value.0)
  {
    match e
    case FinishSuccess(i, c, now) => Some((c.row, SuccessWrite(s.tasks[c.row], i, now, ownerTest)))
    case FinishFailure(i, c, category, now) =>
      Some((c.row, FailureWrite(config, s.tasks[c.row], i, c.attempt, category, now, ownerTest)))
    case StartManual(r, now) =>
      var q := s.requests[r];
      Some((q.row, StartManualWrite(s.tasks[q.row], q.statusRead, now)))
    case FinishManual(r, completed, category, now) =>
      var q := s.requests[r];
      Some((q.row, FinishManualWrite(s.tasks[q.row], completed, category, now)))
    case WriteRetry(r) =>
      var q := s.requests[r];
      Some((q.row, RetryRequestWrite(s.tasks[q.row])))
    case WriteCancel(r) =>
      var q := s.requests[r];
      Some((q.row, CancelWrite(s.tasks[q.row], q.expiredRun, q.now)))
    case _ => None
  }

  function TasksAfter(config: Config, s: State, e: Event, ownerTest: bool := true): seq<SyncTask>
    requires Enabled(config, false, s, e)
  {
    match e
    case CreateRow(row) => s.tasks + [row]
    case ClaimRows(i, now, chosen, _) =>
      seq(|s.tasks|, k requires 0 <= k < |s.tasks| =>
        if k in chosen then ClaimWrite(config, s.tasks[k], i, now) else s.tasks[k])
    case _ =>
      PutRow(s.tasks, RowWrite(config, s, e, ownerTest))
  }

  /** The claims the claim query returns. A poll whose claim commits but whose answer is lost
      (`reported` is false) leaves the rows leased without holding them. */
  function Taken(s: State, chosen: set<TaskId>): set<Claim> {
    set k | k in chosen && HasRow(s, k) :: Claim(k, s.tasks[k].attemptCount + 1)
  }

  function InstancesAfter(s: State, e: Event): map<InstanceId, Instance>
    requires (e.Crash? || e.Shutdown? || e.StartPoll? || e.ClaimRows? || e.LetGo? || e.EndPoll?) ==> e.i in s.instances
  {
    match e
    case Boot(i) => s.instances[i := Instance(false, false, false, {})]
    case Crash(i) => s.instances - {i}
    case Shutdown(i) => s.instances[i := s.instances[i].(stopping := true)]
    case StartPoll(i) => s.instances[i := s.instances[i].(inFlight := true, claiming := true)]
    case ClaimRows(i, now, chosen, reported) =>
      s.instances[i := s.instances[i].(claiming := false,
                                       held := if reported then s.instances[i].held + Taken(s, chosen)
                                               else s.instances[i].held)]
    case LetGo(i, c) => s.instances[i := s.instances[i].(held := s.instances[i].held - {c})]
    case EndPoll(i) => s.instances[i := s.instances[i].(inFlight := false)]
    case _ => s.instances
  }

  function RequestsAfter(s: State, e: Event): map<RequestId, Request>
    requires e.StartManual? ==> e.r in s.requests && s.requests[e.r].Executing? && HasRow(s, s.requests[e.r].row)
    requires e.ReadToExecute? || e.ReadToCancel? ==> HasRow(s, e.target)
  {
    match e
    case ReadToExecute(r, k) => s.requests[r := Executing(k, s.tasks[k].status)]
    case ReadToRetry(r, k) => s.requests[r := Retrying(k)]
    case ReadToCancel(r, k, now) => s.requests[r := Cancelling(k, LeaseExpired(s.tasks[k], now), now)]
    case StartManual(r, now) =>
      var q := s.requests[r];
      if StartManualWrite(s.tasks[q.row], q.statusRead, now).Some? then s.requests[r := ManualRun(q.row)]
      else s.requests - {r}
    case FinishManual(r, _, _, _) => s.requests - {r}
    case WriteRetry(r) => s.requests - {r}
    case WriteCancel(r) => s.requests - {r}
    case AbandonRequest(r) => s.requests - {r}
    case _ => s.requests
  }

  /** The event is a finish write of the automatic executor whose `where` clause matches its row. */
  predicate FinishTakesEffect(s: State, e: Event, ownerTest: bool := true) {
    && (e.FinishSuccess? || e.FinishFailure?)
    && HasRow(s, e.claim.row) && FinishFinds(s.tasks[e.claim.row], e.i, ownerTest)
  }

  function Apply(config: Config, s: State, e: Event, ownerTest: bool := true): State
    requires Enabled(config, false, s, e)
  {
    State(TasksAfter(config, s, e, ownerTest),
          if e.ChangeEnvironment? then e.env else s.env,
          InstancesAfter(s, e),
          if e.Crash? then s.retired + {e.i} else s.retired,
          RequestsAfter(s, e),
          if FinishTakesEffect(s, e, ownerTest) then s.finishes[e.claim := e.now] else s.finishes)
  }

  /** The table as deployed: rows nobody has claimed, no instance, no request. */
  predicate Init(s: State) {
    && (forall k :: 0 <= k < |s.tasks| ==> Untouched(s.tasks[k]))
    && s.instances == map[] && s.requests == map[] && s.finishes == map[]
  }

  /** Only two lemmas about what each guard is for run the protocol without one of them. */
  predicate ValidRun(config: Config, singleFlight: bool, s: State, run: seq<Event>, ownerTest: bool := true)
    decreases |run|
  {
    run == [] ||
    (&& Enabled(config, singleFlight, s, run[0])
     && ValidRun(config, singleFlight, Apply(config, s, run[0], ownerTest), run[1..], ownerTest))
  }

  function After(config: Config, singleFlight: bool, s: State, run: seq<Event>, ownerTest: bool := true): State
    requires ValidRun(config, singleFlight, s, run, ownerTest)
    decreases |run|
  {
    if run == [] then s
    else After(config, singleFlight, Apply(config, s, run[0], ownerTest), run[1..], ownerTest)
  }

  // ---------- the invariant ----------

  /** A claim an instance holds is of an attempt that happened; and while the row's lease is this
      instance's, it is of the newest attempt. */
  predicate HeldOk(tasks: seq<SyncTask>, i: InstanceId, c: Claim) {
    && c.row < |tasks|
    && 1 <= c.attempt <= tasks[c.row].attemptCount
    && (Owns(tasks[c.row], i) ==> tasks[c.row].attemptCount == c.attempt)
  }

  predicate InstanceOk(tasks: seq<SyncTask>, i: InstanceId, instance: Instance) {
    && (!instance.inFlight ==> !instance.claiming && instance.held == {})
    && (instance.claiming ==> instance.held == {})
    && forall c :: c in instance.held ==> HeldOk(tasks, i, c)
  }

  predicate RequestOk(tasks: seq<SyncTask>, q: Request) {
    && q.row < |tasks|
    && (q.Executing? ==> Executable(q.statusRead))
    && (q.ManualRun? ==> ManualRunning(tasks[q.row]))
  }

  predicate OneManualRunPerRow(requests: map<RequestId, Request>) {
    forall a, b | a in requests && b in requests && requests[a].ManualRun? && requests[b].ManualRun? ::
      requests[a].row == requests[b].row ==> a == b
  }

  /** A finished attempt is over: the row has no lease until a newer attempt claims it. */
  predicate FinishOk(tasks: seq<SyncTask>, c: Claim) {
    && c.row < |tasks|
    && c.attempt <= tasks[c.row].attemptCount
    && (c.attempt == tasks[c.row].attemptCount ==> tasks[c.row].leaseOwner.None?)
  }

  /** A row waiting for a retry waits exactly the backoff delay of its newest attempt. */
  predicate BackoffOk(config: Config, s: State, k: TaskId)
    requires k < |s.tasks|
  {
    var t := s.tasks[k];
    var c := Claim(k, t.attemptCount);
    t.status.RetryWait? ==>
      c in s.finishes && t.nextAttemptAt == Some(RetryInstant(config, s.finishes[c], t.attemptCount))
  }

  function RetryInstant(config: Config, finishedAt: Instant, attempt: nat): Instant {
    finishedAt + RetryDelaySeconds(config.retryBaseSeconds, attempt) * 1000
  }

  predicate Inv(config: Config, s: State) {
    && (forall k :: 0 <= k < |s.tasks| ==> RowOk(config, s.tasks[k]))
    && (forall i :: i in s.instances ==> InstanceOk(s.tasks, i, s.instances[i]))
    && (forall r :: r in s.requests ==> RequestOk(s.tasks, s.requests[r]))
    && OneManualRunPerRow(s.requests)
    && (forall c :: c in s.finishes ==> FinishOk(s.tasks, c))
    && (forall k :: 0 <= k < |s.tasks| ==> BackoffOk(config, s, k))
  }

  // ---------- one row across one step ----------

  predicate ClaimsRow(e: Event, k: TaskId) {
    e.ClaimRows? && k in e.chosen
  }

  predicate FinishesManualRunOf(s: State, e: Event, k: TaskId) {
    e.FinishManual? && e.r in s.requests && s.requests[e.r].row == k
  }

  /** What one step can do to one existing row. */
  lemma RowStep(config: Config, s: State, e: Event, k: TaskId)
    requires Enabled(config, false, s, e) && Inv(config, s) && k < |s.tasks|
    ensures |TasksAfter(config, s, e)| >= |s.tasks|
    ensures var t, t' := s.tasks[k], TasksAfter(config, s, e)[k];
            && RowOk(config, t')
            && t'.attemptCount == t.attemptCount + (if ClaimsRow(e, k) then 1 else 0)
            && (Terminal(t) ==> t' == t)
            && (ManualRunning(t) ==> t' == t || FinishesManualRunOf(s, e, k))
            && (t.leaseOwner.None? && !ClaimsRow(e, k) ==> t'.leaseOwner.None?)
            && (t'.leaseOwner.Some? ==>
                  if ClaimsRow(e, k) then t'.leaseOwner == Some(e.i)
                  else t'.leaseOwner == t.leaseOwner && t.status.Running?)
            && (t'.status.RetryWait? ==>
                  t' == t || (FinishTakesEffect(s, e) && e.FinishFailure? && e.claim.row == k
                              && t'.nextAttemptAt == Some(RetryInstant(config, e.now, e.claim.attempt))))
            && (FinishTakesEffect(s, e) && e.claim.row == k ==> t'.leaseOwner.None?)
  {
    var w := RowWrite(config, s, e, true);
    if w.Some? && w.value.0 == k && e.FinishFailure? && FinishTakesEffect(s, e) {
      assert HeldOk(s.tasks, e.i, e.claim);
    }
  }

  lemma InitIsOk(config: Config, s: State)
    requires Init(s)
    ensures Inv(config, s)
  {
  }

  lemma InstancesStayOk(config: Config, s: State, e: Event)
    requires Inv(config, s) && Enabled(config, true, s, e)
    ensures var s' := Apply(config, s, e); forall i :: i in s'.instances ==> InstanceOk(s'.tasks, i, s'.instances[i])
  {
    hide Claimable, SuccessWrite, FailureWrite, StartManualWrite, FinishManualWrite, RetryRequestWrite, CancelWrite,
         RequestsAfter, BackoffOk, FinishOk, RequestOk;
    var s' := Apply(config, s, e);
    forall i | i in s'.instances ensures InstanceOk(s'.tasks, i, s'.instances[i]) {
      forall c | c in s'.instances[i].held ensures HeldOk(s'.tasks, i, c) {
        if i in s.instances && c in s.instances[i].held {
          assert HeldOk(s.tasks, i, c);
        }
        RowStep(config, s, e, c.row);
      }
    }
  }

  lemma RequestsStayOk(config: Config, s: State, e: Event)
    requires Inv(config, s) && Enabled(config, true, s, e)
    ensures var s' := Apply(config, s, e);
            (forall r :: r in s'.requests ==> RequestOk(s'.tasks, s'.requests[r])) && OneManualRunPerRow(s'.requests)
  {
    hide Claimable, ClaimWrite, SuccessWrite, FailureWrite, FinishManualWrite, RetryRequestWrite, CancelWrite,
         InstancesAfter, BackoffOk, FinishOk, InstanceOk;
    var s' := Apply(config, s, e);
    forall r | r in s'.requests ensures RequestOk(s'.tasks, s'.requests[r]) {
      if r in s.requests {
        RowStep(config, s, e, s.requests[r].row);
      }
    }
  }

  lemma HistoryStaysOk(config: Config, s: State, e: Event)
    requires Inv(config, s) && Enabled(config, true, s, e)
    ensures var s' := Apply(config, s, e);
            && (forall c :: c in s'.finishes ==> FinishOk(s'.tasks, c))
            && (forall k :: 0 <= k < |s'.tasks| ==> RowOk(config, s'.tasks[k]) && BackoffOk(config, s', k))
  {
    hide Claimable, StartManualWrite, FinishManualWrite, RetryRequestWrite, CancelWrite, RequestsAfter, InstancesAfter,
         RequestOk;
    var s' := Apply(config, s, e);
    if FinishTakesEffect(s, e) {
      assert HeldOk(s.tasks, e.i, e.claim);
    }
    forall c | c in s'.finishes ensures FinishOk(s'.tasks, c) {
      RowStep(config, s, e, c.row);
    }
    forall k | 0 <= k < |s'.tasks| ensures RowOk(config, s'.tasks[k]) && BackoffOk(config, s', k) {
      if k < |s.tasks| {
        RowStep(config, s, e, k);
        assert BackoffOk(config, s, k);
      }
    }
  }

  /** Every step of the protocol keeps the invariant. */
  lemma StepKeepsInvariant(config: Config, s: State, e: Event)
    requires Inv(config, s) && Enabled(config, true, s, e)
    ensures Inv(config, Apply(config, s, e))
  {
    InstancesStayOk(config, s, e);
    RequestsStayOk(config, s, e);
    HistoryStaysOk(config, s, e);
  }

  lemma {:induction false} RunKeepsInvariant(config: Config, s: State, run: seq<Event>)
    requires Inv(config, s) && ValidRun(config, true, s, run)
    ensures Inv(config, After(config, true, s, run))
    decreases |run|
  {
    if run != [] {
      StepKeepsInvariant(config, s, run[0]);
      RunKeepsInvariant(config, Apply(config, s, run[0]), run[1..]);
    }
  }
}
