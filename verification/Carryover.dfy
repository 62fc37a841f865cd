/** Negative profit carried from month to month, over any number of settled months. */
module Carryover {
  import opened Wrappers
  import opened CommonTypes
  import opened Postings
  import opened SettlementCalculator
  import opened SettlementLaws
  import opened SettlementBooks

  // ---------- what the rows of a month hold against an employee ----------

  function RowPosting(month: Month): HistoricalRow -> Option<Posting> {
    (r: HistoricalRow) =>
      if r.month == month && Live(r.status) then Some(Posting(r.employee, r.amountUsd)) else None
  }

  function LiveTotal(rows: seq<HistoricalRow>, month: Month, e: EmployeeId): real {
    TotalFor(rows, RowPosting(month), e)
  }

  lemma {:induction false} GenerationReadsLiveTotals(rows: seq<HistoricalRow>, month: Month, e: EmployeeId)
    ensures TotalFor(HistoricalsOf(rows, month), HistoricalPosting, e) == LiveTotal(rows, month, e)
  {
    if rows != [] {
      var front, r := rows[..|rows| - 1], rows[|rows| - 1];
      GenerationReadsLiveTotals(front, month, e);
      if r.month == month && Live(r.status) {
        var h := HistoricalNegative(r.employee, r.amountUsd, r.status);
        Appended(HistoricalsOf(front, month), h, HistoricalPosting, e);
      } else {
        assert HistoricalsOf(rows, month) == HistoricalsOf(front, month);
      }
    }
  }

  // ---------- rolling forward ----------

  function DetailKey(d: Detail): Key {
    d.employee
  }

  function OwedOf(d: Detail): real {
    if d.remainingNegativeProfitUsd > 0.0 then d.remainingNegativeProfitUsd else 0.0
  }

  function CommissionOf(d: Detail): real {
    d.commissionProfitUsd
  }

  /** Every owing employee has a roll-forward row, and the first such row has the owed amount. */
  predicate RolledForward(rows: seq<HistoricalRow>, month: Month, details: seq<Detail>) {
    forall d :: d in details && d.remainingNegativeProfitUsd > 0.0 ==>
      var found := FindRollForward(rows, month, d.employee);
      found.Some? && rows[found.value].amountUsd == d.remainingNegativeProfitUsd
  }

  lemma FoundFirst(rows: seq<HistoricalRow>, month: Month, e: EmployeeId, i: nat)
    requires i < |rows| && IsRollForward(rows[i], month, e)
    requires forall j :: 0 <= j < i ==> !IsRollForward(rows[j], month, e)
    ensures FindRollForward(rows, month, e) == Some(i)
  {
  }

  /** One step finds or creates the employee's row, and leaves every other employee's first row alone. */
  lemma RollOneSettles(rows: seq<HistoricalRow>, month: Month, d: Detail, other: Detail)
    requires other == d || other.employee != d.employee
    requires other == d || RolledForward(rows, month, [other])
    ensures RolledForward(RollOne(rows, month, d), month, [other])
  {
    if other.remainingNegativeProfitUsd > 0.0 {
      var after := RollOne(rows, month, d);
      assert other in [other];
      match FindRollForward(rows, month, other.employee)
      case Some(i) => FoundFirst(after, month, other.employee, i);
      case None => FoundFirst(after, month, other.employee, |rows|);
    }
  }

  lemma {:induction false} RollForwardSettles(rows: seq<HistoricalRow>, month: Month, details: seq<Detail>)
    requires DistinctKeys(details, DetailKey)
    ensures RolledForward(RollForward(rows, month, details), month, details)
  {
    if details != [] {
      var n := |details| - 1;
      var before := RollForward(rows, month, details[..n]);
      RollForwardSettles(rows, month, details[..n]);
      forall d | d in details ensures RolledForward(RollOne(before, month, details[n]), month, [d]) {
        if d != details[n] {
          assert d in details[..n];
        }
        RollOneSettles(before, month, details[n], d);
      }
      assert forall d :: d in details ==> d in [d];
    }
  }

  lemma {:induction false} NothingLeftToRoll(rows: seq<HistoricalRow>, month: Month, details: seq<Detail>)
    requires RolledForward(rows, month, details)
    ensures RollForward(rows, month, details) == rows
  {
    if details != [] {
      var n := |details| - 1;
      NothingLeftToRoll(rows, month, details[..n]);
      assert details[n] in details;
    }
  }

  /** Rolling the same details forward again leaves the same rows. */
  lemma RollingAgainChangesNothing(rows: seq<HistoricalRow>, month: Month, details: seq<Detail>)
    requires DistinctKeys(details, DetailKey)
    ensures RollForward(RollForward(rows, month, details), month, details) == RollForward(rows, month, details)
  {
    RollForwardSettles(rows, month, details);
    NothingLeftToRoll(RollForward(rows, month, details), month, details);
  }

  predicate NotYetRolled(rows: seq<HistoricalRow>, month: Month) {
    forall r :: r in rows ==> !IsRollForward(r, month, r.employee)
  }

  lemma {:induction false} NewRowsAreOfThisMonth(rows: seq<HistoricalRow>, month: Month, details: seq<Detail>, m: Month,
                                                  e: EmployeeId)
    requires m != month || forall d :: d in details ==> d.employee != e
    requires forall r :: r in rows ==> !IsRollForward(r, m, e)
    ensures forall r :: r in RollForward(rows, month, details) ==> !IsRollForward(r, m, e)
  {
    if details != [] {
      assert details[|details| - 1] in details;
      NewRowsAreOfThisMonth(rows, month, details[..|details| - 1], m, e);
    }
  }

  /** A first roll-forward adds to the next month exactly what each employee still owes, and nothing elsewhere. */
  lemma {:induction false} RollForwardTotals(rows: seq<HistoricalRow>, month: Month, details: seq<Detail>, k: Month,
                                              e: EmployeeId)
    requires DistinctKeys(details, DetailKey) && NotYetRolled(rows, month)
    ensures LiveTotal(RollForward(rows, month, details), k, e)
            == LiveTotal(rows, k, e) + if k == month + 1 then TotalFor(details, By(DetailKey, OwedOf), e) else 0.0
  {
    if details != [] {
      var n := |details| - 1;
      var before, d := RollForward(rows, month, details[..n]), details[n];
      RollForwardTotals(rows, month, details[..n], k, e);
      NewRowsAreOfThisMonth(rows, month, details[..n], month, d.employee);
      assert FindRollForward(before, month, d.employee).None?;
      Appended(before, HistoricalRow(month + 1, d.employee, d.remainingNegativeProfitUsd, RollForwardFrom(month),
                                     CommonStatus.Active), RowPosting(k), e);
    }
  }

  // ---------- one month ----------

  /** A month generated from its records, confirmed and locked. */
  function SettleMonth(b: Books, month: Month, records: CalculationInput): Result<Books, BookError> {
    match Generate(b, month, records)
    case Failure(error) => Failure(error)
    case Success(generated) =>
      match Confirm(generated, month)
      case Failure(error) => Failure(error)
      case Success(confirmed) => Lock(confirmed, month)
  }

  lemma GeneratedBooks(b: Books, month: Month, records: CalculationInput)
    requires Generate(b, month, records).Success?
    ensures var after := Generate(b, month, records).value;
            && after.rows == b.rows && month in after.settlements
            && after.settlements == b.settlements[month := after.settlements[month]]
            && after.settlements[month].details == DetailsOf(ResultsOf(InputFor(records, b.rows, month)))
  {
    hide InputFor, FirstFailure, ResultsOf, DetailsOf;
  }

  lemma ClosedBooks(b: Books, month: Month)
    requires Confirm(b, month).Success? && Lock(Confirm(b, month).value, month).Success?
    ensures var after := Lock(Confirm(b, month).value, month).value;
            && month in b.settlements
            && after.settlements
               == b.settlements[month := Settlement(SettlementStatus.Locked, b.settlements[month].details)]
            && after.rows == RollForward(b.rows, month, b.settlements[month].details)
  {
    hide RollForward;
  }

  lemma SettledMonth(b: Books, month: Month, records: CalculationInput)
    requires SettleMonth(b, month, records).Success?
    ensures var after := SettleMonth(b, month, records).value;
            var details := DetailsOf(ResultsOf(InputFor(records, b.rows, month)));
            && after.settlements == b.settlements[month := Settlement(SettlementStatus.Locked, details)]
            && after.rows == RollForward(b.rows, month, details)
  {
    hide Generate, Confirm, Lock, RollForward, ResultsOf, DetailsOf, InputFor, FirstFailure, ResultFor, EmployeeSet;
    var generated := Generate(b, month, records).value;
    GeneratedBooks(b, month, records);
    ClosedBooks(generated, month);
    WrittenTwice(b.settlements, month, generated.settlements[month],
                 Settlement(SettlementStatus.Locked, generated.settlements[month].details));
  }

  lemma WrittenTwice<K, V>(m: map<K, V>, k: K, v: V, w: V)
    ensures m[k := v][k := w] == m[k := w]
  {
  }

  lemma DetailsAreDistinct(input: CalculationInput)
    ensures DistinctKeys(DetailsOf(ResultsOf(input)), DetailKey)
  {
    hide ResultFor, EmployeeSet;
    var ids, ds := Ascending(EmployeeSet(input)), DetailsOf(ResultsOf(input));
    forall i, j | 0 <= i < j < |ds| ensures DetailKey(ds[i]) != DetailKey(ds[j]) {
      ResultIsFor(input, ids[i]);
      ResultIsFor(input, ids[j]);
    }
  }

  lemma ResultIsFor(input: CalculationInput, e: EmployeeId)
    ensures ResultFor(input, e).employee == e
    ensures ResultFor(input, e).carryover == ApplyNegativeCarryover(AllocatedTo(input, e), HistoricalOf(input, e))
  {
    hide TotalFor, AllocatedTo, HistoricalOf, ProfitOf;
  }

  lemma DetailOfEmployee(input: CalculationInput, amount: Detail -> real, e: EmployeeId)
    ensures TotalFor(DetailsOf(ResultsOf(input)), By(DetailKey, amount), e)
            == if e in EmployeeSet(input) then amount(DetailOf(ResultFor(input, e))) else 0.0
  {
    hide ResultFor, EmployeeSet, TotalFor, LastFor;
    var ids, ds := Ascending(EmployeeSet(input)), DetailsOf(ResultsOf(input));
    DetailsAreDistinct(input);
    DistinctTotals(ds, DetailKey, amount, e);
    LastForIsTheOnlyOne(ds, DetailKey, e);
    if e in EmployeeSet(input) {
      var i :| 0 <= i < |ids| && ids[i] == e;
      ResultIsFor(input, e);
      assert ds[i] in ds && DetailKey(ds[i]) == e;
    } else {
      forall d | d in ds ensures DetailKey(d) != e {
        var i :| 0 <= i < |ds| && ds[i] == d;
        ResultIsFor(input, ids[i]);
        assert ids[i] in ids;
      }
    }
  }

  function Max(x: real, y: real): real {
    if x >= y then x else y
  }

  /** What one settled month does to the books of an employee: a share above what was held against them is
      commission profit, the rest of a larger holding moves on to the next month. */
  lemma MonthMovesTheDeficit(b: Books, month: Month, records: CalculationInput, e: EmployeeId)
    requires SettleMonth(b, month, records).Success? && NotYetRolled(b.rows, month)
    ensures var after := SettleMonth(b, month, records).value;
            var deficit := LiveTotal(b.rows, month, e) - AllocatedTo(records, e);
            && month in after.settlements
            && TotalFor(after.settlements[month].details, By(DetailKey, CommissionOf), e) == Max(0.0, -deficit)
            && TotalFor(after.settlements[month].details, By(DetailKey, OwedOf), e) == Max(0.0, deficit)
            && forall k :: LiveTotal(after.rows, k, e)
                           == LiveTotal(b.rows, k, e) + if k == month + 1 then Max(0.0, deficit) else 0.0
  {
    hide SettleMonth, ResultFor, EmployeeSet, TotalFor, AllocatedTo, ResultsOf, NotYetRolled, RollForward;
    var input := InputFor(records, b.rows, month);
    var details := DetailsOf(ResultsOf(input));
    SettledMonth(b, month, records);
    DetailsAreDistinct(input);
    DetailOfEmployee(input, OwedOf, e);
    DetailOfEmployee(input, CommissionOf, e);
    ResultIsFor(input, e);
    IdleAllocation(records, input, e);
    GenerationReadsLiveTotals(b.rows, month, e);
    if e !in EmployeeSet(input) {
      AbsentEmployee(input, e);
    }
    forall k ensures LiveTotal(RollForward(b.rows, month, details), k, e)
                     == LiveTotal(b.rows, k, e)
                        + if k == month + 1 then TotalFor(details, By(DetailKey, OwedOf), e) else 0.0
    {
      RollForwardTotals(b.rows, month, details, k, e);
    }
  }

  lemma OtherMonthsStayUnrolled(b: Books, month: Month, records: CalculationInput, m: Month)
    requires SettleMonth(b, month, records).Success? && m != month && NotYetRolled(b.rows, m)
    ensures NotYetRolled(SettleMonth(b, month, records).value.rows, m)
  {
    hide SettleMonth, ResultsOf, RollForward;
    SettledMonth(b, month, records);
    var details := DetailsOf(ResultsOf(InputFor(records, b.rows, month)));
    forall r | r in RollForward(b.rows, month, details) ensures !IsRollForward(r, m, r.employee) {
      NewRowsAreOfThisMonth(b.rows, month, details, m, r.employee);
    }
  }

  // ---------- any number of months ----------

  function SettleMonths(b: Books, first: Month, records: seq<CalculationInput>): Result<Books, BookError>
    decreases |records|
  {
    if records == [] then Success(b) else
      var n := |records| - 1;
      match SettleMonths(b, first, records[..n])
      case Failure(error) => Failure(error)
      case Success(before) => SettleMonth(before, first + n, records[n])
  }

  lemma NoMonths(b: Books, first: Month)
    ensures SettleMonths(b, first, []) == Success(b)
  {
    hide SettleMonth;
  }

  lemma LastMonth(b: Books, first: Month, records: seq<CalculationInput>)
    requires records != [] && SettleMonths(b, first, records).Success?
    ensures var n := |records| - 1; var before := SettleMonths(b, first, records[..n]);
            before.Success? && SettleMonth(before.value, first + n, records[n]) == SettleMonths(b, first, records)
  {
    hide SettleMonth;
  }

  function Sum(xs: seq<real>): real {
    if xs == [] then 0.0 else Sum(xs[..|xs| - 1]) + xs[|xs| - 1]
  }

  /** What is still owed after deficits (negative: surpluses) in this order, nothing being credited in advance. */
  function StillOwed(deficits: seq<real>): real {
    if deficits == [] then 0.0 else Max(0.0, StillOwed(deficits[..|deficits| - 1]) + deficits[|deficits| - 1])
  }

  /** The holdings entered for the months themselves, without what the months before roll into them. */
  function Entered(rows: seq<HistoricalRow>, first: Month, n: nat, e: EmployeeId): seq<real> {
    seq(n, i => LiveTotal(rows, first + i, e))
  }

  function Allocated(records: seq<CalculationInput>, e: EmployeeId): seq<real> {
    seq(|records|, i requires 0 <= i < |records| => AllocatedTo(records[i], e))
  }

  function Deficits(rows: seq<HistoricalRow>, first: Month, records: seq<CalculationInput>, e: EmployeeId)
    : (ds: seq<real>)
    ensures |ds| == |records|
  {
    seq(|records|, i requires 0 <= i < |records| => LiveTotal(rows, first + i, e) - AllocatedTo(records[i], e))
  }

  function CommissionOver(settlements: map<Month, Settlement>, first: Month, n: nat, e: EmployeeId): real
    requires forall m :: first <= m < first + n ==> m in settlements
  {
    if n == 0 then 0.0 else
      CommissionOver(settlements, first, n - 1, e)
      + CommissionIn(settlements[first + n - 1], e)
  }

  lemma {:induction false} SuffixesNeverExceed(ds: seq<real>, j: nat)
    requires j <= |ds|
    ensures Sum(ds[j..]) <= StillOwed(ds)
  {
    if j < |ds| {
      var n := |ds| - 1;
      SuffixesNeverExceed(ds[..n], j);
      assert ds[j..][..|ds[j..]| - 1] == ds[..n][j..];
    }
  }

  lemma {:induction false} SomeSuffixIsOwed(ds: seq<real>) returns (j: nat)
    ensures j <= |ds| && Sum(ds[j..]) == StillOwed(ds)
  {
    j := |ds|;
    if ds != [] && StillOwed(ds) > 0.0 {
      var n := |ds| - 1;
      j := SomeSuffixIsOwed(ds[..n]);
      assert ds[j..][..|ds[j..]| - 1] == ds[..n][j..];
    }
  }

  /** The amount owed is the largest deficit over all final stretches of months, the empty one included. */
  lemma OwedIsTheWorstStretch(ds: seq<real>, owed: real)
    ensures owed == StillOwed(ds)
            <==> (forall j :: 0 <= j <= |ds| ==> Sum(ds[j..]) <= owed)
                 && exists j :: 0 <= j <= |ds| && Sum(ds[j..]) == owed
  {
    var j := SomeSuffixIsOwed(ds);
    forall j | 0 <= j <= |ds| ensures Sum(ds[j..]) <= StillOwed(ds) {
      SuffixesNeverExceed(ds, j);
    }
  }

  ghost predicate Unrolled(rows: seq<HistoricalRow>, first: Month, n: nat) {
    forall m :: first <= m < first + n ==> NotYetRolled(rows, m)
  }

  lemma DeficitsOfPrefix(rows: seq<HistoricalRow>, first: Month, records: seq<CalculationInput>, e: EmployeeId)
    requires records != []
    ensures var n := |records| - 1;
            && Deficits(rows, first, records, e)[..n] == Deficits(rows, first, records[..n], e)
            && Entered(rows, first, |records|, e)[..n] == Entered(rows, first, n, e)
            && Allocated(records, e)[..n] == Allocated(records[..n], e)
  {
  }

  lemma {:induction false} LaterMonthsStayUnrolled(b: Books, first: Month, records: seq<CalculationInput>, m: Month)
    requires SettleMonths(b, first, records).Success? && m >= first + |records| && NotYetRolled(b.rows, m)
    ensures NotYetRolled(SettleMonths(b, first, records).value.rows, m)
    decreases |records|
  {
    hide SettleMonth, NotYetRolled;
    if records != [] {
      var n := |records| - 1;
      LaterMonthsStayUnrolled(b, first, records[..n], m);
      OtherMonthsStayUnrolled(SettleMonths(b, first, records[..n]).value, first + n, records[n], m);
    }
  }

  /** After any number of months settled in order, what a month finds rolled into it is what is still owed of all
      deficits since the first month, and no other month is touched. */
  lemma {:induction false} CarriedOver(b: Books, first: Month, records: seq<CalculationInput>, e: EmployeeId, k: Month)
    requires SettleMonths(b, first, records).Success? && Unrolled(b.rows, first, |records|)
    ensures LiveTotal(SettleMonths(b, first, records).value.rows, k, e)
            == LiveTotal(b.rows, k, e)
               + if first < k <= first + |records| then StillOwed(Deficits(b.rows, first, records, e)[..k - first])
                 else 0.0
    decreases |records|
  {
    hide SettleMonth, SettleMonths, LiveTotal, AllocatedTo, NotYetRolled, TotalFor;
    if records == [] {
      NoMonths(b, first);
    } else {
      var n := |records| - 1;
      var ds := Deficits(b.rows, first, records, e);
      LastMonth(b, first, records);
      CarriedOver(b, first, records[..n], e, k);
      CarriedOver(b, first, records[..n], e, first + n);
      LaterMonthsStayUnrolled(b, first, records[..n], first + n);
      MonthMovesTheDeficit(SettleMonths(b, first, records[..n]).value, first + n, records[n], e);
      DeficitsOfPrefix(b.rows, first, records, e);
      assert 0 <= k - first <= n ==> ds[..n][..k - first] == ds[..k - first];
      assert ds[..n][..n] == ds[..n] && ds[..n + 1] == ds;
    }
  }

  lemma {:induction false} SameCommission(a: map<Month, Settlement>, b: map<Month, Settlement>, first: Month, n: nat,
                                           e: EmployeeId)
    requires forall m :: first <= m < first + n ==> m in a && m in b && a[m] == b[m]
    ensures CommissionOver(a, first, n, e) == CommissionOver(b, first, n, e)
  {
    if n > 0 {
      SameCommission(a, b, first, n - 1, e);
    }
  }

  /** Every settled month is locked, and settling the last one leaves the others as they were. */
  lemma {:induction false} SettledMonthsAreLocked(b: Books, first: Month, records: seq<CalculationInput>)
    requires SettleMonths(b, first, records).Success?
    ensures forall m :: first <= m < first + |records| ==>
              var after := SettleMonths(b, first, records).value.settlements;
              && m in after && after[m].status.Locked?
              && (m < first + |records| - 1 ==>
                    var before := SettleMonths(b, first, records[..|records| - 1]).value.settlements;
                    m in before && after[m] == before[m])
    decreases |records|
  {
    hide *;
    if records != [] {
      var n := |records| - 1;
      LastMonth(b, first, records);
      SettledMonthsAreLocked(b, first, records[..n]);
      SettledMonth(SettleMonths(b, first, records[..n]).value, first + n, records[n]);
    }
  }

  function CommissionIn(s: Settlement, e: EmployeeId): real {
    TotalFor(s.details, By(DetailKey, CommissionOf), e)
  }

  /** Commission over all the months telescopes: all that was allocated, less all that was entered as historical,
      plus what is still owed at the end. */
  lemma {:induction false} CommissionTelescopes(b: Books, first: Month, records: seq<CalculationInput>, e: EmployeeId)
    requires SettleMonths(b, first, records).Success? && Unrolled(b.rows, first, |records|)
    ensures var after := SettleMonths(b, first, records).value;
            && (forall m :: first <= m < first + |records| ==>
                  m in after.settlements && after.settlements[m].status.Locked?)
            && CommissionOver(after.settlements, first, |records|, e)
               == Sum(Allocated(records, e)) - Sum(Entered(b.rows, first, |records|, e))
                  + StillOwed(Deficits(b.rows, first, records, e))
    decreases |records|
  {
    hide SettleMonth, SettleMonths, LiveTotal, AllocatedTo, NotYetRolled, TotalFor;
    SettledMonthsAreLocked(b, first, records);
    if records != [] {
      hide SettleMonths, StillOwed;
      var n := |records| - 1;
      LastMonth(b, first, records);
      CommissionTelescopes(b, first, records[..n], e);
      DeficitsOfPrefix(b.rows, first, records, e);
      FoundByTheLastMonth(b, first, records, e);
      MonthMovesTheDeficit(SettleMonths(b, first, records[..n]).value, first + n, records[n], e);
      SameCommission(SettleMonths(b, first, records[..n]).value.settlements,
                     SettleMonths(b, first, records).value.settlements, first, n, e);
      OwedAfterOneMore(Deficits(b.rows, first, records, e));
    }
  }

  lemma FoundByTheLastMonth(b: Books, first: Month, records: seq<CalculationInput>, e: EmployeeId)
    requires records != [] && SettleMonths(b, first, records).Success? && Unrolled(b.rows, first, |records|)
    ensures var n := |records| - 1; var before := SettleMonths(b, first, records[..n]);
            && before.Success? && NotYetRolled(before.value.rows, first + n)
            && LiveTotal(before.value.rows, first + n, e)
               == LiveTotal(b.rows, first + n, e) + StillOwed(Deficits(b.rows, first, records, e)[..n])
  {
    hide SettleMonth, SettleMonths, LiveTotal, AllocatedTo, NotYetRolled, TotalFor;
    var n := |records| - 1;
    LastMonth(b, first, records);
    CarriedOver(b, first, records[..n], e, first + n);
    DeficitsOfPrefix(b.rows, first, records, e);
    var ds := Deficits(b.rows, first, records[..n], e);
    assert ds[..n] == ds;
    assert n == 0 ==> StillOwed(ds) == 0.0;
    LaterMonthsStayUnrolled(b, first, records[..n], first + n);
  }

  lemma OwedAfterOneMore(ds: seq<real>)
    requires ds != []
    ensures StillOwed(ds) == Max(0.0, StillOwed(ds[..|ds| - 1]) + ds[|ds| - 1])
  {
  }

  /** What the settled months of the books leave owed in a month. */
  function OwedIn(books: Books, month: Month, e: EmployeeId): real {
    if month in books.settlements then TotalFor(books.settlements[month].details, By(DetailKey, OwedOf), e) else 0.0
  }

  /** What the last locked month leaves owed is the largest deficit over all final stretches of the months, or
      nothing. */
  lemma RemainderIsTheWorstStretch(b: Books, first: Month, records: seq<CalculationInput>, e: EmployeeId, owed: real)
    requires records != [] && SettleMonths(b, first, records).Success? && Unrolled(b.rows, first, |records|)
    ensures var ds := Deficits(b.rows, first, records, e);
            OwedIn(SettleMonths(b, first, records).value, first + |records| - 1, e) == owed
            <==> (forall j :: 0 <= j <= |ds| ==> Sum(ds[j..]) <= owed)
                 && exists j :: 0 <= j <= |ds| && Sum(ds[j..]) == owed
  {
    hide SettleMonth, SettleMonths, StillOwed, NotYetRolled, LiveTotal, AllocatedTo, TotalFor, Sum;
    var n := |records| - 1;
    var ds := Deficits(b.rows, first, records, e);
    LastMonth(b, first, records);
    FoundByTheLastMonth(b, first, records, e);
    MonthMovesTheDeficit(SettleMonths(b, first, records[..n]).value, first + n, records[n], e);
    OwedAfterOneMore(ds);
    OwedIsTheWorstStretch(ds, owed);
  }
}
