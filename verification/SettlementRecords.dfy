/** What one record of each kind changes in a month's results, said about the records themselves, and what a salary is
    made of. */
module SettlementRecords {
  import opened Wrappers
  import opened CommonTypes
  import opened Postings
  import opened SettlementCalculator
  import opened SettlementLaws

  // ---------- salary items ----------

  /** What an item is worth to an employee. */
  function ItemEffect(item: ManualItem, e: EmployeeId): real {
    if item.employee != e || !(item.status.Active? || item.status.Confirmed?) then 0.0
    else match item.itemType
      case Addition => item.amountRmb
      case Deduction => -item.amountRmb
  }

  function ItemsNet(items: seq<ManualItem>, e: EmployeeId): real {
    if items == [] then 0.0 else ItemsNet(items[..|items| - 1], e) + ItemEffect(items[|items| - 1], e)
  }

  lemma {:induction false} ItemsNetIsAdditionsLessDeductions(items: seq<ManualItem>, e: EmployeeId)
    ensures TotalFor(items, AdditionPosting, e) - TotalFor(items, DeductionPosting, e) == ItemsNet(items, e)
  {
    if items != [] {
      ItemsNetIsAdditionsLessDeductions(items[..|items| - 1], e);
    }
  }

  /** One more active or confirmed deduction lowers the final salary of its employee by exactly its amount, an addition
      raises it by as much, an item of another status changes nothing, and nobody else's result changes. */
  lemma ItemsMoveTheFinalSalary(a: CalculationInput, item: ManualItem, e: EmployeeId)
    ensures var b := a.(manualItems := a.manualItems + [item]);
            && FirstFailure(b) == FirstFailure(a)
            && ResultFor(b, e).finalSalaryRmb == ResultFor(a, e).finalSalaryRmb + ItemEffect(item, e)
            && ResultFor(b, e) == ResultFor(a, e).(additionRmb := ResultFor(b, e).additionRmb,
                                                   deductionRmb := ResultFor(b, e).deductionRmb,
                                                   finalSalaryRmb := ResultFor(b, e).finalSalaryRmb)
            && (item.employee != e || !(item.status.Active? || item.status.Confirmed?) ==>
                  ResultFor(b, e) == ResultFor(a, e))
  {
    hide TotalFor, BuildResult, FirstFailure;
    var b := a.(manualItems := a.manualItems + [item]);
    Appended(a.manualItems, item, AdditionPosting, e);
    Appended(a.manualItems, item, DeductionPosting, e);
    SameRecordsSameAllocation(a, b, e);
    SameFailure(a, b);
    ItemsOnly(a, b, e);
  }

  lemma SameFailure(a: CalculationInput, b: CalculationInput)
    requires b == a.(manualItems := b.manualItems)
    ensures FirstFailure(b) == FirstFailure(a)
  {
  }

  lemma SameRecordsSameAllocation(a: CalculationInput, b: CalculationInput, e: EmployeeId)
    requires b == a.(manualItems := b.manualItems, historicals := b.historicals)
    ensures ProfitOf(b, e) == ProfitOf(a, e) && AllocatedTo(b, e) == AllocatedTo(a, e)
  {
    hide GroupTotal, MemberOf, TotalFor;
    forall m: GroupMember ensures ProfitPosting(a)(m) == ProfitPosting(b)(m) {
    }
    match MemberOf(a.members, e)
    case None =>
    case Some(m) => SameGroupTotals(a, b, m.group);
  }

  lemma SameGroupTotals(a: CalculationInput, b: CalculationInput, g: GroupId)
    requires b.members == a.members && forall m :: ProfitPosting(a)(m) == ProfitPosting(b)(m)
    ensures GroupTotal(b, g) == GroupTotal(a, g)
  {
    SamePostings(a.members, ProfitPosting(a), ProfitPosting(b), g);
  }

  lemma ItemsOnly(a: CalculationInput, b: CalculationInput, e: EmployeeId)
    requires b == a.(manualItems := b.manualItems)
    requires ProfitOf(b, e) == ProfitOf(a, e) && AllocatedTo(b, e) == AllocatedTo(a, e)
    ensures ResultFor(b, e)
            == ResultFor(a, e).(additionRmb := TotalFor(b.manualItems, AdditionPosting, e),
                                deductionRmb := TotalFor(b.manualItems, DeductionPosting, e),
                                finalSalaryRmb := ResultFor(b, e).finalSalaryRmb)
    ensures ResultFor(b, e).finalSalaryRmb - ResultFor(a, e).finalSalaryRmb
            == TotalFor(b.manualItems, AdditionPosting, e) - TotalFor(a.manualItems, AdditionPosting, e)
               - (TotalFor(b.manualItems, DeductionPosting, e) - TotalFor(a.manualItems, DeductionPosting, e))
  {
    hide ProfitOf, AllocatedTo, TotalFor, MemberOf, CalculateSalaryTier;
  }

  // ---------- income, spend, historical amounts ----------

  /** A confirmed income record of an employee raises exactly that employee's revenue and profit. */
  lemma IncomeMovesItsEmployee(a: CalculationInput, r: IncomeRecord, e: EmployeeId)
    ensures var b, p := a.(incomeRecords := a.incomeRecords + [r]), ProfitOf(a, e);
            ProfitOf(b, e)
            == if r.status.Confirmed? && r.employee == Some(e) then
                 p.(revenueUsd := p.revenueUsd + r.incomeUsd, originalUsd := p.originalUsd + r.incomeUsd)
               else p
  {
    hide TotalFor;
    Appended(a.incomeRecords, r, IncomePosting, e);
  }

  /** A confirmed card spend lowers exactly its employee's profit, by the amount and the fee at the provider's rate. */
  lemma SpendMovesItsEmployee(a: CalculationInput, s: SpendEvent, e: EmployeeId)
    ensures var b, p := a.(spendEvents := a.spendEvents + [s]), ProfitOf(a, e);
            var fee := s.spendUsd * RateOf(a.feeRates, s.provider);
            ProfitOf(b, e)
            == if s.status.Confirmed? && s.employee == Some(e) then
                 p.(apiSpendUsd := p.apiSpendUsd + s.spendUsd, apiFeeUsd := p.apiFeeUsd + fee,
                    finalSpendUsd := p.finalSpendUsd + s.spendUsd + fee,
                    originalUsd := p.originalUsd - s.spendUsd - fee)
               else p
  {
    hide TotalFor, RateOf;
    Appended(a.spendEvents, s, SpendPosting, e);
    Appended(a.spendEvents, s, FeePosting(a.feeRates), e);
  }

  /** A confirmed manual spend lowers exactly its employee's profit. */
  lemma ManualSpendMovesItsEmployee(a: CalculationInput, m: ManualSpend, e: EmployeeId)
    ensures var b, p := a.(manualSpends := a.manualSpends + [m]), ProfitOf(a, e);
            ProfitOf(b, e)
            == if m.status.Confirmed? && m.employee == e then
                 p.(manualSpendUsd := p.manualSpendUsd + m.actualSpendUsd,
                    finalSpendUsd := p.finalSpendUsd + m.actualSpendUsd,
                    originalUsd := p.originalUsd - m.actualSpendUsd)
               else p
  {
    hide TotalFor;
    Appended(a.manualSpends, m, ManualSpendPosting, e);
  }

  /** An active or confirmed historical amount is charged to exactly its employee, after the shares are handed out. */
  lemma HistoricalsChargeTheirEmployee(a: CalculationInput, h: HistoricalNegative, e: EmployeeId)
    ensures var b := a.(historicals := a.historicals + [h]);
            var r, s := ResultFor(a, e), ResultFor(b, e);
            var charged := if (h.status.Active? || h.status.Confirmed?) && h.employee == e then h.amountUsd else 0.0;
            && s.profit == r.profit && s.allocatedProfitUsd == r.allocatedProfitUsd
            && s.historicalNegativeProfitUsd == r.historicalNegativeProfitUsd + charged
            && s.carryover.commissionProfitUsd - s.carryover.remainingNegativeProfitUsd
               == r.carryover.commissionProfitUsd - r.carryover.remainingNegativeProfitUsd - charged
            && (charged == 0.0 ==> s == r)
  {
    hide TotalFor, ProfitOf, AllocatedTo, MemberOf, CalculateSalaryTier, HistoricalOf;
    var b := a.(historicals := a.historicals + [h]);
    SameRecordsSameAllocation(a, b, e);
    HistoricalGrows(a, h, e);
  }

  lemma HistoricalGrows(a: CalculationInput, h: HistoricalNegative, e: EmployeeId)
    ensures HistoricalOf(a.(historicals := a.historicals + [h]), e)
            == HistoricalOf(a, e)
               + if (h.status.Active? || h.status.Confirmed?) && h.employee == e then h.amountUsd else 0.0
  {
    hide TotalFor;
    Appended(a.historicals, h, HistoricalPosting, e);
  }

  // ---------- what a salary is made of ----------

  /** A row of the pay table: from this commission profit on. */
  datatype Band = Band(from: real, baseRmb: real, allowanceRmb: real, ratePercent: real)

  const TOP_BANDS := [Band(5000.0, 3000.0, 500.0, 6.0), Band(15000.0, 3000.0, 1000.0, 8.0),
                      Band(30000.0, 3000.0, 2000.0, 10.0), Band(50000.0, 3000.0, 3000.0, 14.0),
                      Band(100000.0, 3000.0, 4000.0, 18.0)]
  const SINGLE_BANDS := [Band(0.0, 2500.0, 0.0, 0.0), Band(3000.0, 3000.0, 300.0, 4.0)] + TOP_BANDS
  const GROUP_BANDS := [Band(0.0, 2500.0, 0.0, 0.0), Band(3000.0, 3000.0, 0.0, 0.0)] + TOP_BANDS

  /** The band a profit falls in: from its start, before the start of the next one. */
  predicate FallsIn(bands: seq<Band>, k: nat, profit: real) {
    k < |bands| && bands[k].from <= profit && (k + 1 < |bands| ==> profit < bands[k + 1].from)
  }

  lemma OneBandEach(single: bool, profit: real) returns (k: nat)
    requires profit >= 0.0
    ensures var bands := if single then SINGLE_BANDS else GROUP_BANDS;
            FallsIn(bands, k, profit) && forall j :: FallsIn(bands, j, profit) ==> j == k
  {
    k := if profit < 3000.0 then 0 else if profit < 5000.0 then 1 else if profit < 15000.0 then 2
         else if profit < 30000.0 then 3 else if profit < 50000.0 then 4 else if profit < 100000.0 then 5 else 6;
  }

  /** Every final salary is what the one band of the commission profit pays, in the table of the members of a group or
      of all others, converted at the exchange rate, with 500 for full attendance, additions less deductions. */
  lemma SalaryIsWhatTheTablePays(input: CalculationInput, e: EmployeeId) returns (k: nat)
    ensures var r := ResultFor(input, e);
            var grouped := exists m :: m in input.members && m.employee == e;
            var bands := if grouped then GROUP_BANDS else SINGLE_BANDS;
            && (r.mode.Group? <==> grouped)
            && FallsIn(bands, k, r.carryover.commissionProfitUsd)
            && r.finalSalaryRmb
               == bands[k].baseRmb + bands[k].allowanceRmb
                  + r.carryover.commissionProfitUsd * (bands[k].ratePercent / 100.0) * input.exchangeRate
                  + (if e !in input.attendance || input.attendance[e].FullAttendance? then 500.0 else 0.0)
                  + ItemsNet(input.manualItems, e)
  {
    hide ProfitOf, AllocatedTo, HistoricalOf, TotalFor, LastFor, PayAt, CalculateSalaryTier, FallsIn;
    var profit := CommissionProfit(input, e);
    assert ResultFor(input, e).carryover.commissionProfitUsd == profit;
    ItemsNetIsAdditionsLessDeductions(input.manualItems, e);
    LastForHasKey(input.members, MemberKey, e);
    FinalSalaryIsPayPlusRest(input, e);
    var grouped := exists m :: m in input.members && m.employee == e;
    assert MemberOf(input.members, e).Some? <==> grouped;
    k := OneBandEach(!grouped, profit);
    BandPays(!grouped, profit, input.exchangeRate, k);
  }

  lemma BandPays(single: bool, profit: real, exchangeRate: real, k: nat)
    requires profit >= 0.0 && FallsIn(if single then SINGLE_BANDS else GROUP_BANDS, k, profit)
    ensures var bands := if single then SINGLE_BANDS else GROUP_BANDS;
            && FallsIn(bands, k, profit)
            && PayAt(profit, if single then Single else Group, exchangeRate)
               == bands[k].baseRmb + bands[k].allowanceRmb + profit * (bands[k].ratePercent / 100.0) * exchangeRate
  {
    var bands := if single then SINGLE_BANDS else GROUP_BANDS;
    var tier := CalculateSalaryTier(profit, if single then Single else Group);
    assert tier == Tier(bands[k].baseRmb, bands[k].allowanceRmb, bands[k].ratePercent / 100.0);
  }
}
