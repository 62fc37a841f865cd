/** What the settlement calculation guarantees for every input. */
module SettlementLaws {
  import opened Wrappers
  import opened CommonTypes
  import opened Postings
  import opened SettlementCalculator

  // ---------- conservation of profit ----------

  function Original(input: CalculationInput): Key -> real {
    (e: Key) => ProfitOf(input, e).originalUsd
  }

  function Allocation(input: CalculationInput): Key -> real {
    (e: Key) => AllocatedTo(input, e)
  }

  /** Commission profit minus remaining negative profit, added up over all results. */
  function NetProfit(results: seq<EmployeeResult>): real {
    if results == [] then 0.0 else
      var r := results[|results| - 1];
      NetProfit(results[..|results| - 1]) + (r.carryover.commissionProfitUsd - r.carryover.remainingNegativeProfitUsd)
  }

  /** What the records of a month say was earned, spent and owed. */
  function BookedProfit(input: CalculationInput): real {
    Total(input.incomeRecords, IncomePosting)
    - Total(input.spendEvents, SpendPosting)
    - Total(input.spendEvents, FeePosting(input.feeRates))
    - Total(input.manualSpends, ManualSpendPosting)
    - Total(input.historicals, HistoricalPosting)
  }

  lemma {:induction false} OriginalsSplit(input: CalculationInput, ids: seq<EmployeeId>)
    ensures SumOver(ids, Original(input))
            == SumOver(ids, Balance(input.incomeRecords, IncomePosting))
               - SumOver(ids, Balance(input.spendEvents, SpendPosting))
               - SumOver(ids, Balance(input.spendEvents, FeePosting(input.feeRates)))
               - SumOver(ids, Balance(input.manualSpends, ManualSpendPosting))
  {
    if ids != [] {
      OriginalsSplit(input, ids[..|ids| - 1]);
    }
  }

  predicate Covers(input: CalculationInput, ids: seq<EmployeeId>) {
    NoDuplicates(ids) && forall e :: e in EmployeeSet(input) ==> e in ids
  }

  lemma OriginalsAddUp(input: CalculationInput, ids: seq<EmployeeId>)
    requires Covers(input, ids)
    ensures SumOver(ids, Original(input))
            == BookedProfit(input) + Total(input.historicals, HistoricalPosting)
  {
    OriginalsSplit(input, ids);
    TotalIsSumOverKeys(input.incomeRecords, IncomePosting, ids);
    TotalIsSumOverKeys(input.spendEvents, SpendPosting, ids);
    SameKeys(input.spendEvents, SpendPosting, FeePosting(input.feeRates));
    TotalIsSumOverKeys(input.spendEvents, FeePosting(input.feeRates), ids);
    TotalIsSumOverKeys(input.manualSpends, ManualSpendPosting, ids);
  }

  /** What grouping adds to a member's own profit. */
  function Gap(input: CalculationInput): GroupMember -> real {
    (m: GroupMember) => GroupTotal(input, m.group) * m.ratio - ProfitOf(input, m.employee).originalUsd
  }

  function GapPosting(input: CalculationInput): GroupMember -> Option<Posting> {
    By(MemberKey, Gap(input))
  }

  lemma GapOfMember(input: CalculationInput, m: GroupMember, e: EmployeeId)
    requires m.employee == e
    ensures Gap(input)(m) == GroupTotal(input, m.group) * m.ratio - ProfitOf(input, e).originalUsd
  {
  }

  lemma AllocationIsOriginalPlus(input: CalculationInput, e: EmployeeId, gap: real)
    requires gap == match MemberOf(input.members, e) case Some(m) => Gap(input)(m) case None => 0.0
    ensures AllocatedTo(input, e) == ProfitOf(input, e).originalUsd + gap
  {
    hide ProfitOf, GroupTotal, MemberOf;
    MemberOfIsMember(input.members, e);
    match MemberOf(input.members, e)
    case None =>
    case Some(m) => GapOfMember(input, m, e);
  }

  lemma MemberOfIsMember(ms: seq<GroupMember>, e: EmployeeId)
    ensures MemberOf(ms, e).Some? ==> MemberOf(ms, e).value in ms && MemberOf(ms, e).value.employee == e
  {
    LastForHasKey(ms, MemberKey, e);
  }

  lemma {:induction false} AllocationsSplit(input: CalculationInput, ids: seq<EmployeeId>)
    requires OneGroupEach(input.members)
    ensures SumOver(ids, Allocation(input))
            == SumOver(ids, Original(input)) + SumOver(ids, Balance(input.members, GapPosting(input)))
  {
    if ids != [] {
      AllocationsSplit(input, ids[..|ids| - 1]);
      var e := ids[|ids| - 1];
      DistinctTotals(input.members, MemberKey, Gap(input), e);
      AllocationIsOriginalPlus(input, e, TotalFor(input.members, GapPosting(input), e));
    }
  }

  function TotalOfGroup(input: CalculationInput): Key -> real {
    (g: Key) => GroupTotal(input, g)
  }

  lemma {:induction false} GapsSplit(input: CalculationInput, ms: seq<GroupMember>)
    ensures Total(ms, GapPosting(input))
            == Weighted(ms, RatioPosting, TotalOfGroup(input)) - Total(ms, ProfitPosting(input))
  {
    hide ProfitOf, GroupTotal, TotalFor;
    if ms != [] {
      GapsSplit(input, ms[..|ms| - 1]);
    }
  }

  /** Each group hands out exactly what its members made. */
  lemma GroupAllocationsAddUp(input: CalculationInput, g: GroupId)
    requires RatiosSumToOne(input.members) && g in KeysOf(input.members, RatioPosting)
    ensures TotalFor(input.members, AllocationPosting(input), g) == GroupTotal(input, g)
  {
    AllocationsScale(input, input.members, g);
  }

  function AllocationPosting(input: CalculationInput): GroupMember -> Option<Posting> {
    (m: GroupMember) => Some(Posting(m.group, GroupTotal(input, m.group) * m.ratio))
  }

  lemma {:induction false} AllocationsScale(input: CalculationInput, ms: seq<GroupMember>, g: GroupId)
    ensures TotalFor(ms, AllocationPosting(input), g) == GroupTotal(input, g) * TotalFor(ms, RatioPosting, g)
  {
    hide ProfitOf, GroupTotal;
    if ms != [] {
      AllocationsScale(input, ms[..|ms| - 1], g);
      var total, ratios, last := GroupTotal(input, g), TotalFor(ms[..|ms| - 1], RatioPosting, g), ms[|ms| - 1];
      assert total * (ratios + last.ratio) == total * ratios + total * last.ratio;
    }
  }

  /** The group totals weighted with the ratios are the group totals, because the ratios of a group sum to 1. */
  lemma WeightedTotalsAddUp(input: CalculationInput)
    requires RatiosSumToOne(input.members)
    ensures Weighted(input.members, RatioPosting, TotalOfGroup(input)) == Total(input.members, ProfitPosting(input))
  {
    var ms, groups := input.members, Ascending(KeysOf(input.members, RatioPosting));
    var scaled, balance := Scaled(ms, RatioPosting, TotalOfGroup(input)), Balance(ms, ProfitPosting(input));
    forall g | g in groups ensures scaled(g) == balance(g) {
      assert TotalFor(ms, RatioPosting, g) == 1.0;
    }
    hide ProfitOf, TotalFor, Weighted, Total, SumOver;
    WeightedIsSumOverKeys(ms, RatioPosting, TotalOfGroup(input), groups);
    SameSummands(groups, scaled, balance);
    SameKeys(ms, RatioPosting, ProfitPosting(input));
    TotalIsSumOverKeys(ms, ProfitPosting(input), groups);
  }

  lemma AllocationsAddUp(input: CalculationInput, ids: seq<EmployeeId>)
    requires OneGroupEach(input.members) && RatiosSumToOne(input.members) && Covers(input, ids)
    ensures SumOver(ids, Allocation(input)) == SumOver(ids, Original(input))
  {
    hide ProfitOf, GroupTotal, TotalFor, Weighted, Total, SumOver;
    var ms, gap := input.members, GapPosting(input);
    AllocationsSplit(input, ids);
    SameKeys(ms, MemberPosting, gap);
    TotalIsSumOverKeys(ms, gap, ids);
    GapsSplit(input, ms);
    WeightedTotalsAddUp(input);
  }

  lemma {:induction false} NetSplits(input: CalculationInput, ids: seq<EmployeeId>, results: seq<EmployeeResult>)
    requires |results| == |ids| && forall i :: 0 <= i < |ids| ==> results[i] == ResultFor(input, ids[i])
    ensures NetProfit(results)
            == SumOver(ids, Allocation(input)) - SumOver(ids, Balance(input.historicals, HistoricalPosting))
  {
    if ids != [] {
      var n := |ids| - 1;
      NetSplits(input, ids[..n], results[..n]);
      var c := results[n].carryover;
      assert c == ApplyNegativeCarryover(AllocatedTo(input, ids[n]), HistoricalOf(input, ids[n]));
    }
  }

  /** Through the whole calculation no profit appears or disappears: what the results credit, less what they
      carry forward as owed, is what the records of the month booked. */
  lemma ProfitIsConserved(input: CalculationInput)
    requires FirstFailure(input).None?
    ensures NetProfit(ResultsOf(input)) == BookedProfit(input)
  {
    hide SumOver, Total, TotalFor, KeysOf, NetProfit;
    var ids := Ascending(EmployeeSet(input));
    NetSplits(input, ids, ResultsOf(input));
    AllocationsAddUp(input, ids);
    OriginalsAddUp(input, ids);
    TotalIsSumOverKeys(input.historicals, HistoricalPosting, ids);
  }

  // ---------- monotonicity ----------

  function PayAt(profit: real, mode: SalaryMode, exchangeRate: real): real {
    var t := CalculateSalaryTier(profit, mode);
    t.baseSalaryRmb + t.starAllowanceRmb + profit * t.commissionRate * exchangeRate
  }

  lemma ProductsGrow(a: real, b: real, c: real, d: real)
    requires 0.0 <= a <= b && 0.0 <= c <= d
    ensures 0.0 <= a * c <= b * d
  {
    assert a * c <= b * c <= b * d;
  }

  /** More commission profit never pays less, although rates and allowances jump between tiers. */
  lemma PayGrowsWithProfit(p: real, q: real, mode: SalaryMode, exchangeRate: real)
    requires 0.0 <= p <= q && exchangeRate >= 0.0
    ensures PayAt(p, mode, exchangeRate) <= PayAt(q, mode, exchangeRate)
  {
    var r, s := CalculateSalaryTier(p, mode).commissionRate, CalculateSalaryTier(q, mode).commissionRate;
    ProductsGrow(p, q, r, s);
    ProductsGrow(p * r, q * s, exchangeRate, exchangeRate);
  }

  /** At the same commission profit a single employee is paid at least what a group member is. */
  lemma SinglePaysAtLeastGroup(profit: real, exchangeRate: real)
    requires profit >= 0.0 && exchangeRate >= 0.0
    ensures PayAt(profit, Group, exchangeRate) <= PayAt(profit, Single, exchangeRate)
  {
    var r, s := CalculateSalaryTier(profit, Group).commissionRate, CalculateSalaryTier(profit, Single).commissionRate;
    ProductsGrow(profit, profit, r, s);
    ProductsGrow(profit * r, profit * s, exchangeRate, exchangeRate);
  }

  /** Two months that differ only in income and spend, the second at least as good for everyone. */
  ghost predicate AtLeastAsGood(a: CalculationInput, b: CalculationInput) {
    && b == a.(incomeRecords := b.incomeRecords, spendEvents := b.spendEvents, manualSpends := b.manualSpends)
    && forall e :: ProfitOf(a, e).originalUsd <= ProfitOf(b, e).originalUsd
  }

  predicate SoundRates(input: CalculationInput) {
    && input.exchangeRate >= 0.0
    && (forall m :: m in input.members ==> m.ratio >= 0.0)
    && (forall r :: r in input.feeRates ==> r.feeRate >= 0.0)
  }

  lemma {:induction false} GroupTotalsGrow(a: CalculationInput, b: CalculationInput, ms: seq<GroupMember>, g: GroupId)
    requires AtLeastAsGood(a, b)
    ensures TotalFor(ms, ProfitPosting(a), g) <= TotalFor(ms, ProfitPosting(b), g)
  {
    if ms != [] {
      GroupTotalsGrow(a, b, ms[..|ms| - 1], g);
    }
  }

  lemma SharesGrow(a: CalculationInput, b: CalculationInput, m: GroupMember)
    requires AtLeastAsGood(a, b) && m.ratio >= 0.0
    ensures GroupTotal(a, m.group) * m.ratio <= GroupTotal(b, m.group) * m.ratio
  {
    GroupTotalsGrow(a, b, a.members, m.group);
    var x, y := GroupTotal(a, m.group), GroupTotal(b, m.group);
    assert x * m.ratio <= y * m.ratio;
  }

  lemma AllocationFollowsProfit(a: CalculationInput, b: CalculationInput, e: EmployeeId)
    requires AtLeastAsGood(a, b) && SoundRates(a)
    ensures AllocatedTo(a, e) <= AllocatedTo(b, e)
  {
    hide ProfitOf, GroupTotal, MemberOf;
    assert a.members == b.members;
    MemberOfIsMember(a.members, e);
    match MemberOf(a.members, e)
    case None =>
    case Some(m) => SharesGrow(a, b, m);
  }

  function CommissionProfit(input: CalculationInput, e: EmployeeId): real {
    ApplyNegativeCarryover(AllocatedTo(input, e), HistoricalOf(input, e)).commissionProfitUsd
  }

  /** A final salary is the pay for the commission profit and what does not depend on profit. */
  lemma FinalSalaryIsPayPlusRest(input: CalculationInput, e: EmployeeId)
    ensures ResultFor(input, e).finalSalaryRmb
            == PayAt(CommissionProfit(input, e), if MemberOf(input.members, e).Some? then Group else Single,
                     input.exchangeRate)
               + (if AttendanceOf(input, e).FullAttendance? then 500.0 else 0.0)
               + TotalFor(input.manualItems, AdditionPosting, e) - TotalFor(input.manualItems, DeductionPosting, e)
  {
  }

  /** Profit is shared, carried, tiered and converted, and through all of it nobody's salary falls. */
  lemma SalaryFollowsProfit(a: CalculationInput, b: CalculationInput, e: EmployeeId)
    requires AtLeastAsGood(a, b) && SoundRates(a)
    ensures ResultFor(a, e).finalSalaryRmb <= ResultFor(b, e).finalSalaryRmb
  {
    AllocationFollowsProfit(a, b, e);
    PayGrowsWithProfit(CommissionProfit(a, e), CommissionProfit(b, e),
                       if MemberOf(a.members, e).Some? then Group else Single, a.exchangeRate);
    FinalSalaryIsPayPlusRest(a, e);
    FinalSalaryIsPayPlusRest(b, e);
  }

  /** One more income record, for anyone, lowers nobody's final salary. */
  lemma MoreIncomeLowersNobody(a: CalculationInput, r: IncomeRecord, e: EmployeeId)
    requires SoundRates(a) && r.incomeUsd >= 0.0
    ensures var b := a.(incomeRecords := a.incomeRecords + [r]);
            ResultFor(a, e).finalSalaryRmb <= ResultFor(b, e).finalSalaryRmb
  {
    var b := a.(incomeRecords := a.incomeRecords + [r]);
    forall k ensures ProfitOf(a, k).originalUsd <= ProfitOf(b, k).originalUsd {
      Appended(a.incomeRecords, r, IncomePosting, k);
    }
    SalaryFollowsProfit(a, b, e);
  }

  lemma RatesAreNotNegative(rates: seq<FeeRate>, p: Provider)
    requires forall r :: r in rates ==> r.feeRate >= 0.0
    ensures RateOf(rates, p) >= 0.0
  {
    LastForHasKey(rates, RateKey, ProviderKey(p));
  }

  /** One more card spend, with its fee, raises nobody's final salary. */
  lemma MoreSpendRaisesNobody(a: CalculationInput, event: SpendEvent, e: EmployeeId)
    requires SoundRates(a) && event.spendUsd >= 0.0
    ensures var b := a.(spendEvents := a.spendEvents + [event]);
            ResultFor(b, e).finalSalaryRmb <= ResultFor(a, e).finalSalaryRmb
  {
    var b := a.(spendEvents := a.spendEvents + [event]);
    hide RateOf, TotalFor;
    RatesAreNotNegative(a.feeRates, event.provider);
    ProductsGrow(0.0, event.spendUsd, 0.0, RateOf(a.feeRates, event.provider));
    forall k ensures ProfitOf(b, k).originalUsd <= ProfitOf(a, k).originalUsd {
      Appended(a.spendEvents, event, SpendPosting, k);
      Appended(a.spendEvents, event, FeePosting(a.feeRates), k);
    }
    SalaryFollowsProfit(b, a, e);
  }

  /** One more manual spend entry raises nobody's final salary. */
  lemma MoreManualSpendRaisesNobody(a: CalculationInput, entry: ManualSpend, e: EmployeeId)
    requires SoundRates(a) && entry.actualSpendUsd >= 0.0
    ensures var b := a.(manualSpends := a.manualSpends + [entry]);
            ResultFor(b, e).finalSalaryRmb <= ResultFor(a, e).finalSalaryRmb
  {
    var b := a.(manualSpends := a.manualSpends + [entry]);
    forall k ensures ProfitOf(b, k).originalUsd <= ProfitOf(a, k).originalUsd {
      Appended(a.manualSpends, entry, ManualSpendPosting, k);
    }
    SalaryFollowsProfit(b, a, e);
  }

  // ---------- order of the records ----------

  /** Repeated rates of a provider agree. The table has a unique key on month and provider, so what it holds does. */
  predicate RatesAgree(rates: seq<FeeRate>) {
    forall r, q :: r in rates && q in rates && r.provider == q.provider ==> r.feeRate == q.feeRate
  }

  /** The same records in any order. */
  predicate Reordered(a: CalculationInput, b: CalculationInput) {
    && a.exchangeRate == b.exchangeRate && a.attendance == b.attendance
    && multiset(a.employeeIds) == multiset(b.employeeIds)
    && multiset(a.incomeRecords) == multiset(b.incomeRecords)
    && multiset(a.spendEvents) == multiset(b.spendEvents)
    && multiset(a.feeRates) == multiset(b.feeRates) && RatesAgree(a.feeRates)
    && multiset(a.manualSpends) == multiset(b.manualSpends)
    && multiset(a.members) == multiset(b.members)
    && multiset(a.historicals) == multiset(b.historicals)
    && multiset(a.manualItems) == multiset(b.manualItems)
  }

  lemma SameMembers<R>(a: seq<R>, b: seq<R>)
    requires multiset(a) == multiset(b)
    ensures forall r :: r in a <==> r in b
  {
    assert forall r :: r in a <==> r in multiset(a);
    assert forall r :: r in b <==> r in multiset(b);
  }

  lemma SameEmployees(a: CalculationInput, b: CalculationInput)
    requires Reordered(a, b)
    ensures EmployeeSet(a) == EmployeeSet(b)
  {
    SameMembers(a.employeeIds, b.employeeIds);
    PermutedKeys(a.incomeRecords, b.incomeRecords, IncomePosting);
    PermutedKeys(a.spendEvents, b.spendEvents, SpendPosting);
    PermutedKeys(a.manualSpends, b.manualSpends, ManualSpendPosting);
    PermutedKeys(a.members, b.members, MemberPosting);
    PermutedKeys(a.historicals, b.historicals, HistoricalPosting);
    PermutedKeys(a.manualItems, b.manualItems, ItemPosting);
  }

  lemma AgreeingRatesCommute(a: seq<FeeRate>, b: seq<FeeRate>, p: Provider)
    requires multiset(a) == multiset(b) && RatesAgree(a)
    ensures RateOf(a, p) == RateOf(b, p)
  {
    SameMembers(a, b);
    LastForHasKey(a, RateKey, ProviderKey(p));
    LastForHasKey(b, RateKey, ProviderKey(p));
  }

  lemma SameProfits(a: CalculationInput, b: CalculationInput, e: EmployeeId)
    requires Reordered(a, b)
    ensures ProfitOf(a, e) == ProfitOf(b, e)
  {
    PermutedTotals(a.incomeRecords, b.incomeRecords, IncomePosting, e);
    PermutedTotals(a.spendEvents, b.spendEvents, SpendPosting, e);
    PermutedTotals(a.spendEvents, b.spendEvents, FeePosting(a.feeRates), e);
    forall r ensures FeePosting(a.feeRates)(r) == FeePosting(b.feeRates)(r) {
      AgreeingRatesCommute(a.feeRates, b.feeRates, r.provider);
    }
    SamePostings(b.spendEvents, FeePosting(a.feeRates), FeePosting(b.feeRates), e);
    PermutedTotals(a.manualSpends, b.manualSpends, ManualSpendPosting, e);
  }

  lemma SameGroupTotal(a: CalculationInput, b: CalculationInput, g: GroupId)
    requires Reordered(a, b)
    ensures GroupTotal(a, g) == GroupTotal(b, g)
  {
    hide ProfitOf;
    PermutedTotals(a.members, b.members, ProfitPosting(a), g);
    forall m ensures ProfitPosting(a)(m) == ProfitPosting(b)(m) {
      SameProfits(a, b, m.employee);
    }
    SamePostings(b.members, ProfitPosting(a), ProfitPosting(b), g);
  }

  lemma SameAllocation(a: CalculationInput, b: CalculationInput, e: EmployeeId)
    requires Reordered(a, b) && OneGroupEach(a.members)
    ensures MemberOf(a.members, e) == MemberOf(b.members, e)
    ensures AllocatedTo(a, e) == AllocatedTo(b, e)
  {
    hide ProfitOf, GroupTotal, LastFor;
    PermutedLookup(a.members, b.members, MemberKey);
    SameProfits(a, b, e);
    if MemberOf(a.members, e).Some? {
      SameGroupTotal(a, b, MemberOf(a.members, e).value.group);
    }
  }

  lemma SameResult(a: CalculationInput, b: CalculationInput, e: EmployeeId)
    requires Reordered(a, b) && OneGroupEach(a.members)
    ensures ResultFor(a, e) == ResultFor(b, e)
  {
    SameProfits(a, b, e);
    SameAllocation(a, b, e);
    PermutedTotals(a.historicals, b.historicals, HistoricalPosting, e);
    PermutedTotals(a.manualItems, b.manualItems, AdditionPosting, e);
    PermutedTotals(a.manualItems, b.manualItems, DeductionPosting, e);
  }

  lemma SameRatioSums(a: seq<GroupMember>, b: seq<GroupMember>)
    requires multiset(a) == multiset(b)
    ensures RatiosSumToOne(a) <==> RatiosSumToOne(b)
    ensures OneGroupEach(a) <==> OneGroupEach(b)
  {
    PermutedKeys(a, b, RatioPosting);
    forall g ensures TotalFor(a, RatioPosting, g) == TotalFor(b, RatioPosting, g) {
      PermutedTotals(a, b, RatioPosting, g);
    }
    if OneGroupEach(a) {
      PermutedLookup(a, b, MemberKey);
    } else if OneGroupEach(b) {
      PermutedLookup(b, a, MemberKey);
    }
  }

  /** The order of the records changes neither which precheck fails nor any employee's result. */
  lemma OrderDoesNotMatter(a: CalculationInput, b: CalculationInput)
    requires Reordered(a, b)
    ensures FirstFailure(a) == FirstFailure(b)
    ensures FirstFailure(a).None? ==> ResultsOf(a) == ResultsOf(b)
  {
    SameMembers(a.incomeRecords, b.incomeRecords);
    SameMembers(a.spendEvents, b.spendEvents);
    SameMembers(a.feeRates, b.feeRates);
    SameRatioSums(a.members, b.members);
    assert RatesConfigured(a) <==> RatesConfigured(b);
    if FirstFailure(a).None? {
      SameEmployees(a, b);
      forall e ensures ResultFor(a, e) == ResultFor(b, e) {
        SameResult(a, b, e);
      }
    }
  }

  /** Whatever else the records are, reordering these rates changes nobody's result. */
  ghost predicate RateOrderIsFree(rates: seq<FeeRate>) {
    forall a: CalculationInput, other: seq<FeeRate> | a.feeRates == rates && multiset(other) == multiset(rates) ::
      SameResults(a, a.(feeRates := other))
  }

  ghost predicate SameResults(a: CalculationInput, b: CalculationInput) {
    forall e :: ResultFor(a, e) == ResultFor(b, e)
  }

  lemma {:induction false} LastRateCounts(rates: seq<FeeRate>, r: FeeRate)
    ensures RateOf(rates + [r], r.provider) == r.feeRate
  {
    assert (rates + [r])[..|rates|] == rates;
  }

  lemma MovedToTheEnd(rates: seq<FeeRate>, r: FeeRate) returns (other: seq<FeeRate>)
    requires r in rates
    ensures multiset(other) == multiset(rates) && RateOf(other, r.provider) == r.feeRate
  {
    var j :| 0 <= j < |rates| && rates[j] == r;
    other := rates[..j] + rates[j + 1..] + [r];
    assert rates == rates[..j] + [r] + rates[j + 1..];
    LastRateCounts(rates[..j] + rates[j + 1..], r);
  }

  const SAMPLE_EMPLOYEE: EmployeeId := 1

  /** The records of one employee with a single spend of 100 dollars. */
  function OneSpend(p: Provider, rates: seq<FeeRate>): CalculationInput {
    CalculationInput(7.0, [], [], [SpendEvent(Some(SAMPLE_EMPLOYEE), p, 100.0, CommonStatus.Confirmed)], rates,
                     [], [], [], [], map[])
  }

  lemma FeeOfOneSpend(p: Provider, rates: seq<FeeRate>)
    ensures ResultFor(OneSpend(p, rates), SAMPLE_EMPLOYEE).profit.apiFeeUsd == 100.0 * RateOf(rates, p)
  {
    hide RateOf;
    var es := OneSpend(p, rates).spendEvents;
    assert es[..0] == [];
    assert TotalFor(es, FeePosting(rates), SAMPLE_EMPLOYEE) == 100.0 * RateOf(rates, p);
  }

  /** The last rate of a provider counts. So the order of the rates never matters exactly when repeated rates of a
      provider agree; otherwise even a single spend tells two orders apart. */
  lemma RateOrderIsFreeExactlyWhen(rates: seq<FeeRate>)
    ensures RateOrderIsFree(rates) <==> RatesAgree(rates)
  {
    hide ResultFor, RateOf;
    if RatesAgree(rates) {
      forall a: CalculationInput, other: seq<FeeRate> | a.feeRates == rates && multiset(other) == multiset(rates)
        ensures SameResults(a, a.(feeRates := other))
      {
        forall e ensures ResultFor(a, e) == ResultFor(a.(feeRates := other), e) {
          SameRatesSameResult(a, other, e);
        }
      }
    } else {
      var r, q :| r in rates && q in rates && r.provider == q.provider && r.feeRate != q.feeRate;
      var p := r.provider;
      var a := OneSpend(p, rates);
      var endingWithR := MovedToTheEnd(rates, r);
      var endingWithQ := MovedToTheEnd(rates, q);
      FeeOfOneSpend(p, rates);
      FeeOfOneSpend(p, endingWithR);
      FeeOfOneSpend(p, endingWithQ);
      assert a.(feeRates := endingWithR) == OneSpend(p, endingWithR);
      assert a.(feeRates := endingWithQ) == OneSpend(p, endingWithQ);
      assert !SameResults(a, OneSpend(p, endingWithR)) || !SameResults(a, OneSpend(p, endingWithQ));
    }
  }

  lemma SameRatesSameResult(a: CalculationInput, other: seq<FeeRate>, e: EmployeeId)
    requires RatesAgree(a.feeRates) && multiset(other) == multiset(a.feeRates)
    ensures ResultFor(a, e) == ResultFor(a.(feeRates := other), e)
  {
    hide ProfitOf, BuildResult, TotalFor, LastFor, RatesAgree;
    var b := a.(feeRates := other);
    assert Reordered(a, b);
    forall k ensures ProfitOf(a, k) == ProfitOf(b, k) {
      SameProfits(a, b, k);
    }
    if MemberOf(a.members, e).Some? {
      var g := MemberOf(a.members, e).value.group;
      SamePostings(a.members, ProfitPosting(a), ProfitPosting(b), g);
      assert b.members == a.members && GroupTotal(a, g) == GroupTotal(b, g);
    }
    assert AllocatedTo(a, e) == AllocatedTo(b, e);
    assert HistoricalOf(a, e) == HistoricalOf(b, e) && AttendanceOf(a, e) == AttendanceOf(b, e);
  }

  /** An employee id without any record changes no other result, and is due the base salary and the
      attendance bonus. */
  lemma IdleEmployeeChangesNothing(a: CalculationInput, e: EmployeeId)
    requires e !in EmployeeSet(a)
    ensures var b := a.(employeeIds := a.employeeIds + [e]);
            && FirstFailure(b) == FirstFailure(a)
            && EmployeeSet(b) == EmployeeSet(a) + {e}
            && (forall k :: ResultFor(b, k) == ResultFor(a, k))
            && ResultFor(b, e).finalSalaryRmb == 2500.0 + if AttendanceOf(a, e).FullAttendance? then 500.0 else 0.0
  {
    hide ResultFor, TotalFor, KeysOf;
    var b := a.(employeeIds := a.employeeIds + [e]);
    IdlePay(a, e);
    forall k ensures ResultFor(b, k) == ResultFor(a, k) {
      IdleResult(a, b, k);
    }
  }

  lemma AbsentEmployee(a: CalculationInput, e: EmployeeId)
    requires e !in EmployeeSet(a)
    ensures MemberOf(a.members, e).None? && ProfitOf(a, e).originalUsd == 0.0
    ensures AllocatedTo(a, e) == 0.0 && HistoricalOf(a, e) == 0.0
  {
    AbsentKeyHasNoTotal(a.incomeRecords, IncomePosting, e);
    AbsentKeyHasNoTotal(a.spendEvents, SpendPosting, e);
    SameKeys(a.spendEvents, SpendPosting, FeePosting(a.feeRates));
    AbsentKeyHasNoTotal(a.spendEvents, FeePosting(a.feeRates), e);
    AbsentKeyHasNoTotal(a.manualSpends, ManualSpendPosting, e);
    AbsentKeyHasNoTotal(a.historicals, HistoricalPosting, e);
    NoMembership(a.members, e);
  }

  lemma IdlePay(a: CalculationInput, e: EmployeeId)
    requires e !in EmployeeSet(a)
    ensures ResultFor(a, e).finalSalaryRmb == 2500.0 + if AttendanceOf(a, e).FullAttendance? then 500.0 else 0.0
  {
    AbsentEmployee(a, e);
    ItemTotalsVanish(a.manualItems, e);
    hide ProfitOf, AllocatedTo, HistoricalOf, TotalFor, KeysOf;
  }

  lemma {:induction false} ItemTotalsVanish(items: seq<ManualItem>, e: EmployeeId)
    requires e !in KeysOf(items, ItemPosting)
    ensures TotalFor(items, AdditionPosting, e) == 0.0 && TotalFor(items, DeductionPosting, e) == 0.0
  {
    if items != [] {
      ItemTotalsVanish(items[..|items| - 1], e);
    }
  }

  lemma {:induction false} NoMembership(ms: seq<GroupMember>, e: EmployeeId)
    requires e !in KeysOf(ms, MemberPosting)
    ensures MemberOf(ms, e).None?
  {
    if ms != [] {
      NoMembership(ms[..|ms| - 1], e);
    }
  }

  lemma IdleProfit(a: CalculationInput, b: CalculationInput, k: EmployeeId)
    requires b == a.(employeeIds := b.employeeIds, historicals := b.historicals)
    ensures ProfitOf(b, k) == ProfitOf(a, k)
  {
  }

  lemma IdleGroupTotal(a: CalculationInput, b: CalculationInput, g: GroupId)
    requires b == a.(employeeIds := b.employeeIds, historicals := b.historicals)
    ensures GroupTotal(b, g) == GroupTotal(a, g)
  {
    hide ProfitOf;
    forall m ensures ProfitPosting(a)(m) == ProfitPosting(b)(m) {
      IdleProfit(a, b, m.employee);
    }
    SamePostings(a.members, ProfitPosting(a), ProfitPosting(b), g);
  }

  /** What an employee is allocated depends neither on historical amounts nor on further employee ids. */
  lemma IdleAllocation(a: CalculationInput, b: CalculationInput, k: EmployeeId)
    requires b == a.(employeeIds := b.employeeIds, historicals := b.historicals)
    ensures AllocatedTo(b, k) == AllocatedTo(a, k)
  {
    hide ProfitOf, GroupTotal, TotalFor;
    IdleProfit(a, b, k);
    if MemberOf(a.members, k).Some? {
      IdleGroupTotal(a, b, MemberOf(a.members, k).value.group);
    }
  }

  lemma IdleResult(a: CalculationInput, b: CalculationInput, k: EmployeeId)
    requires b == a.(employeeIds := b.employeeIds)
    ensures ResultFor(b, k) == ResultFor(a, k)
  {
    hide ProfitOf, GroupTotal, TotalFor, BuildResult, AllocatedTo;
    IdleProfit(a, b, k);
    IdleAllocation(a, b, k);
  }
}
