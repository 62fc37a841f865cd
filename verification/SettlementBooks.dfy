/** Monthly settlements and the historical negative profits that locking rolls into the next month.
    Months are numbered consecutively. Generating, confirming and locking are one atomic step each. */
module SettlementBooks {
  import opened Wrappers
  import opened CommonTypes
  import opened Postings
  import opened SettlementCalculator

  /** The reason text of a historical row. Text that happens to read like a generated reason is one. */
  datatype Reason = RollForwardFrom(month: Month) | OtherText

  datatype HistoricalRow = HistoricalRow(month: Month, employee: EmployeeId, amountUsd: real, reason: Reason,
                                         status: CommonStatus)

  /** What later steps read of a settlement detail and its snapshot. */
  datatype Detail = Detail(employee: EmployeeId, commissionProfitUsd: real, remainingNegativeProfitUsd: real)

  datatype Settlement = Settlement(status: SettlementStatus, details: seq<Detail>)

  datatype Books = Books(settlements: map<Month, Settlement>, rows: seq<HistoricalRow>)

  datatype BookError =
    SettlementNotFound | MonthIsLocked | StatusConflict | NoDetails | PrecheckFailed(error: PrecheckError)

  // ---------- generation ----------

  function HistoricalsOf(rows: seq<HistoricalRow>, month: Month): seq<HistoricalNegative> {
    if rows == [] then [] else
      var r := rows[|rows| - 1];
      HistoricalsOf(rows[..|rows| - 1], month)
      + if r.month == month && Live(r.status) then [HistoricalNegative(r.employee, r.amountUsd, r.status)] else []
  }

  /** The month's records as the generation reads them, with the live historical rows of the month. */
  function InputFor(records: CalculationInput, rows: seq<HistoricalRow>, month: Month): CalculationInput {
    records.(historicals := HistoricalsOf(rows, month))
  }

  function DetailOf(r: EmployeeResult): Detail {
    Detail(r.employee, r.carryover.commissionProfitUsd, r.carryover.remainingNegativeProfitUsd)
  }

  function DetailsOf(results: seq<EmployeeResult>): seq<Detail> {
    seq(|results|, i requires 0 <= i < |results| => DetailOf(results[i]))
  }

  function Generate(b: Books, month: Month, records: CalculationInput): Result<Books, BookError> {
    var input := InputFor(records, b.rows, month);
    if month in b.settlements && b.settlements[month].status.Locked? then Failure(MonthIsLocked)
    else if FirstFailure(input).Some? then Failure(PrecheckFailed(FirstFailure(input).value))
    else
      var status := if month in b.settlements then b.settlements[month].status else SettlementStatus.Draft;
      Success(b.(settlements := b.settlements[month := Settlement(status, DetailsOf(ResultsOf(input)))]))
  }

  function Confirm(b: Books, month: Month): Result<Books, BookError> {
    if month !in b.settlements then Failure(SettlementNotFound)
    else if !b.settlements[month].status.Draft? then Failure(StatusConflict)
    else if b.settlements[month].details == [] then Failure(NoDetails)
    else Success(b.(settlements := b.settlements[month := b.settlements[month].(status := SettlementStatus.Confirmed)]))
  }

  // ---------- roll-forward ----------

  /** A row `rollForwardNegativeProfits` of the month would find for the employee. */
  predicate IsRollForward(r: HistoricalRow, month: Month, e: EmployeeId) {
    r.month == month + 1 && r.employee == e && r.reason == RollForwardFrom(month) && Live(r.status)
  }

  function FindRollForward(rows: seq<HistoricalRow>, month: Month, e: EmployeeId): (found: Option<nat>)
    ensures match found
            case Some(i) => i < |rows| && IsRollForward(rows[i], month, e)
                            && forall j :: 0 <= j < i ==> !IsRollForward(rows[j], month, e)
            case None => forall j :: 0 <= j < |rows| ==> !IsRollForward(rows[j], month, e)
  {
    if rows == [] then None else
      match FindRollForward(rows[..|rows| - 1], month, e)
      case Some(i) => Some(i)
      case None => if IsRollForward(rows[|rows| - 1], month, e) then Some(|rows| - 1) else None
  }

  function RollOne(rows: seq<HistoricalRow>, month: Month, d: Detail): seq<HistoricalRow> {
    if d.remainingNegativeProfitUsd <= 0.0 then rows else
      match FindRollForward(rows, month, d.employee)
      case Some(i) => rows[i := rows[i].(amountUsd := d.remainingNegativeProfitUsd)]
      case None => rows + [HistoricalRow(month + 1, d.employee, d.remainingNegativeProfitUsd, RollForwardFrom(month),
                                         CommonStatus.Active)]
  }

  function RollForward(rows: seq<HistoricalRow>, month: Month, details: seq<Detail>): seq<HistoricalRow> {
    if details == [] then rows
    else RollOne(RollForward(rows, month, details[..|details| - 1]), month, details[|details| - 1])
  }

  function Lock(b: Books, month: Month): Result<Books, BookError> {
    if month !in b.settlements then Failure(SettlementNotFound)
    else if !b.settlements[month].status.Confirmed? then Failure(StatusConflict)
    else if b.settlements[month].details == [] then Failure(NoDetails)
    else
      var s := b.settlements[month];
      Success(Books(b.settlements[month := s.(status := SettlementStatus.Locked)],
                    RollForward(b.rows, month, s.details)))
  }

  /** The details with something to roll forward. */
  function OwingDetails(details: seq<Detail>): seq<Detail> {
    if details == [] then [] else
      var d := details[|details| - 1];
      OwingDetails(details[..|details| - 1]) + if d.remainingNegativeProfitUsd > 0.0 then [d] else []
  }

  // ---------- locked months ----------

  datatype Operation =
    | GenerateMonth(month: Month, records: CalculationInput)
    | ConfirmMonth(month: Month)
    | LockMonth(month: Month)

  function Perform(b: Books, op: Operation): Books {
    var r := match op
      case GenerateMonth(m, records) => Generate(b, m, records)
      case ConfirmMonth(m) => Confirm(b, m)
      case LockMonth(m) => Lock(b, m);
    if r.Success? then r.value else b
  }

  function PerformAll(b: Books, ops: seq<Operation>): Books {
    if ops == [] then b else Perform(PerformAll(b, ops[..|ops| - 1]), ops[|ops| - 1])
  }

  function StatusOf(b: Books, month: Month): Option<SettlementStatus> {
    if month in b.settlements then Some(b.settlements[month].status) else None
  }

  /** One operation moves the status of a month by at most one stage, and only the operation for that stage and month
      does; only a generation of the month changes its details. */
  lemma StatusMovesOneStage(b: Books, op: Operation, month: Month)
    ensures var after := Perform(b, op);
            && (StatusOf(after, month) != StatusOf(b, month) ==>
                  && op.month == month
                  && match op
                     case GenerateMonth(_, _) =>
                       StatusOf(b, month).None? && StatusOf(after, month) == Some(SettlementStatus.Draft)
                     case ConfirmMonth(_) =>
                       && StatusOf(b, month) == Some(SettlementStatus.Draft)
                       && StatusOf(after, month) == Some(SettlementStatus.Confirmed)
                     case LockMonth(_) =>
                       && StatusOf(b, month) == Some(SettlementStatus.Confirmed)
                       && StatusOf(after, month) == Some(SettlementStatus.Locked))
            && (!(op.GenerateMonth? && op.month == month) && month in b.settlements ==>
                  month in after.settlements && after.settlements[month].details == b.settlements[month].details)
  {
  }

  /** Only a draft with details is confirmed and only a confirmed settlement with details is locked. A regeneration may
      leave a confirmed month without details; then it cannot be locked. */
  lemma StagesNeedDetails(b: Books, month: Month)
    ensures Confirm(b, month).Success? <==>
              StatusOf(b, month) == Some(SettlementStatus.Draft) && |b.settlements[month].details| > 0
    ensures Lock(b, month).Success? <==>
              StatusOf(b, month) == Some(SettlementStatus.Confirmed) && |b.settlements[month].details| > 0
  {
  }

  /** So after every run a locked month has details. */
  lemma {:induction false} LockedMonthsHaveDetails(b: Books, ops: seq<Operation>, month: Month)
    requires month !in b.settlements
    ensures StatusOf(PerformAll(b, ops), month) == Some(SettlementStatus.Locked) ==>
              |PerformAll(b, ops).settlements[month].details| > 0
  {
    hide Perform;
    if ops != [] {
      var n := |ops| - 1;
      LockedMonthsHaveDetails(b, ops[..n], month);
      StatusMovesOneStage(PerformAll(b, ops[..n]), ops[n], month);
      LockingNeedsDetails(PerformAll(b, ops[..n]), ops[n], month);
    }
  }

  lemma LockingNeedsDetails(b: Books, op: Operation, month: Month)
    ensures StatusOf(Perform(b, op), month) == Some(SettlementStatus.Locked) ==>
              || (op == LockMonth(month) && |Perform(b, op).settlements[month].details| > 0)
              || (StatusOf(b, month) == Some(SettlementStatus.Locked)
                  && Perform(b, op).settlements[month] == b.settlements[month])
  {
  }

  predicate GeneratesAt(ops: seq<Operation>, i: nat, month: Month) {
    i < |ops| && ops[i].GenerateMonth? && ops[i].month == month
  }

  predicate ConfirmsAt(ops: seq<Operation>, i: nat, month: Month) {
    i < |ops| && ops[i] == ConfirmMonth(month)
  }

  predicate LocksAt(ops: seq<Operation>, i: nat, month: Month) {
    i < |ops| && ops[i] == LockMonth(month)
  }

  /** A month has a settlement only after it was generated, a confirmed one only after it was then confirmed, and a
      locked one only after it was then locked. */
  lemma {:induction false} StagesFollowEachOther(b: Books, ops: seq<Operation>, month: Month)
    requires month !in b.settlements
    ensures var status := StatusOf(PerformAll(b, ops), month);
            && (status.Some? ==> exists i: nat :: GeneratesAt(ops, i, month))
            && (status.Some? && !status.value.Draft? ==>
                  exists i: nat, j: nat :: i < j && GeneratesAt(ops, i, month) && ConfirmsAt(ops, j, month))
            && (status == Some(SettlementStatus.Locked) ==>
                  exists i: nat, j: nat, k: nat ::
                    i < j < k && GeneratesAt(ops, i, month) && ConfirmsAt(ops, j, month) && LocksAt(ops, k, month))
  {
    hide Perform;
    if ops != [] {
      var n := |ops| - 1;
      var before, status := PerformAll(b, ops[..n]), StatusOf(PerformAll(b, ops), month);
      StagesFollowEachOther(b, ops[..n], month);
      StatusMovesOneStage(before, ops[n], month);
      if status.Some? {
        if StatusOf(before, month).None? {
          assert GeneratesAt(ops, n, month);
        } else {
          var i: nat :| GeneratesAt(ops[..n], i, month);
          assert GeneratesAt(ops, i, month);
          if status.value.Confirmed? && StatusOf(before, month) != status {
            assert ConfirmsAt(ops, n, month);
          } else if !status.value.Draft? {
            var i: nat, j: nat :| i < j && GeneratesAt(ops[..n], i, month) && ConfirmsAt(ops[..n], j, month);
            assert GeneratesAt(ops, i, month) && ConfirmsAt(ops, j, month);
            if status.value.Locked? {
              if StatusOf(before, month) != status {
                assert LocksAt(ops, n, month);
              } else {
                var i: nat, j: nat, k: nat :| i < j < k && GeneratesAt(ops[..n], i, month)
                                              && ConfirmsAt(ops[..n], j, month) && LocksAt(ops[..n], k, month);
                assert GeneratesAt(ops, i, month) && ConfirmsAt(ops, j, month) && LocksAt(ops, k, month);
              }
            }
          }
        }
      }
    }
  }

  /** Once locked, a settlement keeps its status and its details through every further operation. */
  lemma {:induction false} LockedMonthsNeverChange(b: Books, ops: seq<Operation>, month: Month)
    requires month in b.settlements && b.settlements[month].status.Locked?
    ensures month in PerformAll(b, ops).settlements
    ensures PerformAll(b, ops).settlements[month] == b.settlements[month]
  {
    if ops != [] {
      LockedMonthsNeverChange(b, ops[..|ops| - 1], month);
    }
  }
}
