/** The monthly settlement calculation. Money is exact `real` arithmetic.

    `ResultFor` says what one employee is due in terms of totals over the record lists; `Calculate` is the
    calculation with its maps and loops, and returns exactly these results. */
module SettlementCalculator {
  import opened Wrappers
  import opened CommonTypes
  import opened Postings

  type EmployeeId = Key
  type GroupId = Key

  datatype IncomeRecord = IncomeRecord(employee: Option<EmployeeId>, incomeUsd: real, status: CommonStatus)
  datatype SpendEvent = SpendEvent(employee: Option<EmployeeId>, provider: Provider, spendUsd: real,
                                   status: CommonStatus)
  datatype ManualSpend = ManualSpend(employee: EmployeeId, actualSpendUsd: real, status: SettlementStatus)
  datatype FeeRate = FeeRate(provider: Provider, feeRate: real)
  datatype GroupMember = GroupMember(group: GroupId, employee: EmployeeId, ratio: real)
  datatype HistoricalNegative = HistoricalNegative(employee: EmployeeId, amountUsd: real, status: CommonStatus)
  datatype ItemType = Addition | Deduction
  datatype ManualItem = ManualItem(employee: EmployeeId, amountRmb: real, status: CommonStatus, itemType: ItemType)
  datatype Attendance = FullAttendance | SickLeave | PersonalLeave | Absent | OtherAttendance

  datatype CalculationInput = CalculationInput(
    exchangeRate: real,
    employeeIds: seq<EmployeeId>,
    incomeRecords: seq<IncomeRecord>,
    spendEvents: seq<SpendEvent>,
    feeRates: seq<FeeRate>,
    manualSpends: seq<ManualSpend>,
    members: seq<GroupMember>,
    historicals: seq<HistoricalNegative>,
    manualItems: seq<ManualItem>,
    attendance: map<EmployeeId, Attendance>)

  datatype SalaryMode = Single | Group
  datatype Tier = Tier(baseSalaryRmb: real, starAllowanceRmb: real, commissionRate: real)
  datatype Carryover = Carryover(commissionProfitUsd: real, remainingNegativeProfitUsd: real)
  datatype Profit = Profit(revenueUsd: real, apiSpendUsd: real, apiFeeUsd: real, manualSpendUsd: real,
                           finalSpendUsd: real, originalUsd: real)

  datatype EmployeeResult = EmployeeResult(
    employee: EmployeeId,
    mode: SalaryMode,
    profit: Profit,
    member: Option<GroupMember>,
    allocatedProfitUsd: real,
    historicalNegativeProfitUsd: real,
    carryover: Carryover,
    tier: Tier,
    commissionUsd: real,
    commissionRmb: real,
    attendance: Attendance,
    attendanceBonusRmb: real,
    additionRmb: real,
    deductionRmb: real,
    finalSalaryRmb: real)

  // ---------- which records count, and for whom ----------

  predicate Live(status: CommonStatus) {
    status.Active? || status.Confirmed?
  }

  function IncomePosting(r: IncomeRecord): Option<Posting> {
    if r.status.Confirmed? && r.employee.Some? then Some(Posting(r.employee.value, r.incomeUsd)) else None
  }

  function SpendPosting(e: SpendEvent): Option<Posting> {
    if e.status.Confirmed? && e.employee.Some? then Some(Posting(e.employee.value, e.spendUsd)) else None
  }

  function ProviderKey(p: Provider): Key {
    match p case Airwallex => 0 case Photonpay => 1
  }

  function RateKey(r: FeeRate): Key {
    ProviderKey(r.provider)
  }

  function RateOf(rates: seq<FeeRate>, p: Provider): real {
    match LastFor(rates, RateKey, ProviderKey(p)) case Some(r) => r.feeRate case None => 0.0
  }

  lemma RateIsLast(rates: seq<FeeRate>, p: Provider)
    ensures RateOf(rates, p) == match LastFor(rates, RateKey, ProviderKey(p)) case Some(r) => r.feeRate case None => 0.0
  {
  }

  function FeeOf(e: SpendEvent, rate: real): Option<Posting> {
    if e.status.Confirmed? && e.employee.Some? then Some(Posting(e.employee.value, e.spendUsd * rate)) else None
  }

  function FeePosting(rates: seq<FeeRate>): SpendEvent -> Option<Posting> {
    (e: SpendEvent) => FeeOf(e, RateOf(rates, e.provider))
  }

  function ManualSpendPosting(m: ManualSpend): Option<Posting> {
    if m.status.Confirmed? then Some(Posting(m.employee, m.actualSpendUsd)) else None
  }

  function HistoricalPosting(h: HistoricalNegative): Option<Posting> {
    if Live(h.status) then Some(Posting(h.employee, h.amountUsd)) else None
  }

  function ItemPosting(i: ManualItem): Option<Posting> {
    if Live(i.status) then Some(Posting(i.employee, i.amountRmb)) else None
  }

  function AdditionPosting(i: ManualItem): Option<Posting> {
    if i.itemType.Addition? then ItemPosting(i) else None
  }

  function DeductionPosting(i: ManualItem): Option<Posting> {
    if i.itemType.Addition? then None else ItemPosting(i)
  }

  function RatioPosting(m: GroupMember): Option<Posting> {
    Some(Posting(m.group, m.ratio))
  }

  function MemberPosting(m: GroupMember): Option<Posting> {
    Some(Posting(m.employee, m.ratio))
  }

  function MemberKey(m: GroupMember): Key {
    m.employee
  }

  function MemberOf(members: seq<GroupMember>, e: EmployeeId): Option<GroupMember> {
    LastFor(members, MemberKey, e)
  }

  function EmployeeSet(input: CalculationInput): set<EmployeeId> {
    (set e | e in input.employeeIds)
    + KeysOf(input.incomeRecords, IncomePosting)
    + KeysOf(input.spendEvents, SpendPosting)
    + KeysOf(input.manualSpends, ManualSpendPosting)
    + KeysOf(input.members, MemberPosting)
    + KeysOf(input.historicals, HistoricalPosting)
    + KeysOf(input.manualItems, ItemPosting)
  }

  // ---------- what an employee is due ----------

  function CalculateSalaryTier(profit: real, mode: SalaryMode): Tier {
    if profit < 3000.0 then Tier(2500.0, 0.0, 0.0)
    else if profit < 5000.0 then
      Tier(3000.0, if mode.Single? then 300.0 else 0.0, if mode.Single? then 0.04 else 0.0)
    else if profit < 15000.0 then Tier(3000.0, 500.0, 0.06)
    else if profit < 30000.0 then Tier(3000.0, 1000.0, 0.08)
    else if profit < 50000.0 then Tier(3000.0, 2000.0, 0.10)
    else if profit < 100000.0 then Tier(3000.0, 3000.0, 0.14)
    else Tier(3000.0, 4000.0, 0.18)
  }

  function ApplyNegativeCarryover(share: real, historical: real): (c: Carryover)
    ensures c.commissionProfitUsd - c.remainingNegativeProfitUsd == share - historical
    ensures c.commissionProfitUsd >= 0.0 && c.remainingNegativeProfitUsd >= 0.0
    ensures c.commissionProfitUsd == 0.0 || c.remainingNegativeProfitUsd == 0.0
  {
    var profit := share - historical;
    if profit >= 0.0 then Carryover(profit, 0.0) else Carryover(0.0, -profit)
  }

  function ProfitOf(input: CalculationInput, e: EmployeeId): Profit {
    var revenue := TotalFor(input.incomeRecords, IncomePosting, e);
    var spend := TotalFor(input.spendEvents, SpendPosting, e);
    var fee := TotalFor(input.spendEvents, FeePosting(input.feeRates), e);
    var manual := TotalFor(input.manualSpends, ManualSpendPosting, e);
    Profit(revenue, spend, fee, manual, spend + fee + manual, revenue - (spend + fee + manual))
  }

  function ProfitPosting(input: CalculationInput): GroupMember -> Option<Posting> {
    (m: GroupMember) => Some(Posting(m.group, ProfitOf(input, m.employee).originalUsd))
  }

  function GroupTotal(input: CalculationInput, g: GroupId): real {
    TotalFor(input.members, ProfitPosting(input), g)
  }

  function AllocatedTo(input: CalculationInput, e: EmployeeId): real {
    match MemberOf(input.members, e)
    case Some(m) => GroupTotal(input, m.group) * m.ratio
    case None => ProfitOf(input, e).originalUsd
  }

  function HistoricalOf(input: CalculationInput, e: EmployeeId): real {
    TotalFor(input.historicals, HistoricalPosting, e)
  }

  function BuildResult(e: EmployeeId, profit: Profit, member: Option<GroupMember>, share: real, historical: real,
                       addition: real, deduction: real, attendance: Attendance, exchangeRate: real): EmployeeResult
  {
    var mode := if member.Some? then Group else Single;
    var carryover := ApplyNegativeCarryover(share, historical);
    var tier := CalculateSalaryTier(carryover.commissionProfitUsd, mode);
    var commissionUsd := carryover.commissionProfitUsd * tier.commissionRate;
    var commissionRmb := commissionUsd * exchangeRate;
    var bonus := if attendance.FullAttendance? then 500.0 else 0.0;
    EmployeeResult(e, mode, profit, member, share, historical, carryover, tier, commissionUsd, commissionRmb,
                   attendance, bonus, addition, deduction,
                   tier.baseSalaryRmb + tier.starAllowanceRmb + bonus + commissionRmb + addition - deduction)
  }

  function AttendanceOf(input: CalculationInput, e: EmployeeId): Attendance {
    if e in input.attendance then input.attendance[e] else FullAttendance
  }

  function ResultFor(input: CalculationInput, e: EmployeeId): EmployeeResult {
    BuildResult(e, ProfitOf(input, e), MemberOf(input.members, e), AllocatedTo(input, e), HistoricalOf(input, e),
                TotalFor(input.manualItems, AdditionPosting, e), TotalFor(input.manualItems, DeductionPosting, e),
                AttendanceOf(input, e), input.exchangeRate)
  }

  /** The results in the order the calculation returns them: ascending employee ids, each once. */
  function ResultsOf(input: CalculationInput): (rs: seq<EmployeeResult>)
    ensures |rs| == |Ascending(EmployeeSet(input))|
    ensures forall i :: 0 <= i < |rs| ==> rs[i] == ResultFor(input, Ascending(EmployeeSet(input))[i])
  {
    var ids := Ascending(EmployeeSet(input));
    seq(|ids|, i requires 0 <= i < |ids| => ResultFor(input, ids[i]))
  }

  // ---------- precheck ----------

  datatype PrecheckError = UnassignedIncome | UnassignedSpend | MissingFeeRate | EmployeeInTwoGroups | RatioSumNotOne

  predicate IncomeAssigned(input: CalculationInput) {
    forall r :: r in input.incomeRecords && r.status.Confirmed? ==> r.employee.Some?
  }

  predicate SpendAssigned(input: CalculationInput) {
    forall e :: e in input.spendEvents && e.status.Confirmed? ==> e.employee.Some?
  }

  predicate RatesConfigured(input: CalculationInput) {
    forall e :: e in input.spendEvents && e.status.Confirmed? ==>
      exists r :: r in input.feeRates && r.provider == e.provider
  }

  predicate OneGroupEach(members: seq<GroupMember>) {
    DistinctKeys(members, MemberKey)
  }

  predicate RatiosSumToOne(members: seq<GroupMember>) {
    forall g :: g in KeysOf(members, RatioPosting) ==> TotalFor(members, RatioPosting, g) == 1.0
  }

  /** The check that fails first, if one does. */
  function FirstFailure(input: CalculationInput): Option<PrecheckError> {
    if !IncomeAssigned(input) then Some(UnassignedIncome)
    else if !SpendAssigned(input) then Some(UnassignedSpend)
    else if !RatesConfigured(input) then Some(MissingFeeRate)
    else if !OneGroupEach(input.members) then Some(EmployeeInTwoGroups)
    else if !RatiosSumToOne(input.members) then Some(RatioSumNotOne)
    else None
  }

  // ---------- the calculation with its loops ----------

  method CheckOneGroupEach(members: seq<GroupMember>) returns (ok: bool)
    ensures ok == OneGroupEach(members)
  {
    var seen: set<EmployeeId> := {};
    for i := 0 to |members|
      invariant seen == set m | m in members[..i] :: m.employee
      invariant OneGroupEach(members[..i])
    {
      var m := members[i];
      assert forall x :: x in members[..i + 1] <==> x in members[..i] || x == m;
      if m.employee in seen {
        return false;
      }
      assert forall j :: 0 <= j < i ==> members[j] in members[..i];
      seen := seen + {m.employee};
    }
    assert members[..|members|] == members;
    return true;
  }

  method Precheck(input: CalculationInput) returns (error: Option<PrecheckError>)
    ensures error == FirstFailure(input)
  {
    if exists r :: r in input.incomeRecords && r.status.Confirmed? && r.employee.None? {
      return Some(UnassignedIncome);
    }
    if exists e :: e in input.spendEvents && e.status.Confirmed? && e.employee.None? {
      return Some(UnassignedSpend);
    }
    var configured := set r | r in input.feeRates :: r.provider;
    var used := set e | e in input.spendEvents && e.status.Confirmed? :: e.provider;
    if !(used <= configured) {
      var p :| p in used && p !in configured;
      return Some(MissingFeeRate);
    }
    assert RatesConfigured(input) by {
      forall e | e in input.spendEvents && e.status.Confirmed?
        ensures exists r :: r in input.feeRates && r.provider == e.provider
      {
        assert e.provider in used;
      }
    }
    var distinct := CheckOneGroupEach(input.members);
    if !distinct {
      return Some(EmployeeInTwoGroups);
    }
    var ratios := Accumulate(input.members, RatioPosting);
    if g :| g in ratios && ratios[g] != 1.0 {
      assert TotalFor(input.members, RatioPosting, g) == Get(ratios, g);
      return Some(RatioSumNotOne);
    }
    forall g | g in KeysOf(input.members, RatioPosting) ensures TotalFor(input.members, RatioPosting, g) == 1.0 {
      assert Get(ratios, g) == TotalFor(input.members, RatioPosting, g);
    }
    return None;
  }

  method IndexLast<R>(rs: seq<R>, key: R -> Key) returns (m: map<Key, R>)
    ensures forall k :: LastFor(rs, key, k) == if k in m then Some(m[k]) else None
  {
    m := map[];
    for i := 0 to |rs|
      invariant forall k :: LastFor(rs[..i], key, k) == if k in m then Some(m[k]) else None
    {
      assert rs[..i + 1][..i] == rs[..i];
      m := m[key(rs[i]) := rs[i]];
    }
    assert rs[..|rs|] == rs;
  }

  method CollectIds<R>(ids: set<EmployeeId>, rs: seq<R>, post: R -> Option<Posting>) returns (ids': set<EmployeeId>)
    ensures ids' == ids + KeysOf(rs, post)
  {
    ids' := ids;
    for i := 0 to |rs|
      invariant ids' == ids + KeysOf(rs[..i], post)
    {
      assert rs[..i + 1][..i] == rs[..i];
      var p := post(rs[i]);
      if p.Some? {
        ids' := ids' + {p.value.key};
      }
    }
    assert rs[..|rs|] == rs;
  }

  method CollectEmployeeIds(input: CalculationInput) returns (ids: set<EmployeeId>)
    ensures ids == EmployeeSet(input)
  {
    ids := set e | e in input.employeeIds;
    ids := CollectIds(ids, input.incomeRecords, IncomePosting);
    ids := CollectIds(ids, input.spendEvents, SpendPosting);
    ids := CollectIds(ids, input.manualSpends, ManualSpendPosting);
    ids := CollectIds(ids, input.members, MemberPosting);
    ids := CollectIds(ids, input.historicals, HistoricalPosting);
    ids := CollectIds(ids, input.manualItems, ItemPosting);
  }

  method SumSpendAndFees(es: seq<SpendEvent>, feeRates: seq<FeeRate>)
    returns (spend: map<EmployeeId, real>, fee: map<EmployeeId, real>)
    ensures forall k :: Get(spend, k) == TotalFor(es, SpendPosting, k)
    ensures forall k :: Get(fee, k) == TotalFor(es, FeePosting(feeRates), k)
  {
    hide RateOf, LastFor;
    var rates := IndexLast(feeRates, RateKey);
    spend, fee := map[], map[];
    for i := 0 to |es|
      invariant forall k :: Get(spend, k) == TotalFor(es[..i], SpendPosting, k)
      invariant forall k :: Get(fee, k) == TotalFor(es[..i], FeePosting(feeRates), k)
    {
      TotalsStep(es, SpendPosting, i);
      TotalsStep(es, FeePosting(feeRates), i);
      if es[i].status.Confirmed? && es[i].employee.Some? {
        var e, p := es[i].employee.value, ProviderKey(es[i].provider);
        var rate := if p in rates then rates[p].feeRate else 0.0;
        assert rate == RateOf(feeRates, es[i].provider) by {
          RateIsLast(feeRates, es[i].provider);
          assert LastFor(feeRates, RateKey, p) == if p in rates then Some(rates[p]) else None;
        }
        spend := spend[e := Get(spend, e) + es[i].spendUsd];
        fee := fee[e := Get(fee, e) + es[i].spendUsd * rate];
      }
    }
    assert es[..|es|] == es;
  }

  method CalculateEmployeeProfits(input: CalculationInput, ids: set<EmployeeId>)
    returns (profits: map<EmployeeId, Profit>)
    ensures profits.Keys == ids
    ensures forall e :: e in ids ==> profits[e] == ProfitOf(input, e)
  {
    hide TotalFor, FeePosting;
    var revenue := Accumulate(input.incomeRecords, IncomePosting);
    var spend, fee := SumSpendAndFees(input.spendEvents, input.feeRates);
    var manual := Accumulate(input.manualSpends, ManualSpendPosting);
    profits := map e | e in ids ::
      var final := Get(spend, e) + Get(fee, e) + Get(manual, e);
      Profit(Get(revenue, e), Get(spend, e), Get(fee, e), Get(manual, e), final, Get(revenue, e) - final);
  }

  method CalculateGroupTotals(input: CalculationInput, profits: map<EmployeeId, Profit>)
    returns (totals: map<GroupId, real>)
    requires forall e :: e in KeysOf(input.members, MemberPosting) ==> e in profits
    requires forall e :: e in profits ==> profits[e] == ProfitOf(input, e)
    ensures forall g :: Get(totals, g) == GroupTotal(input, g)
  {
    totals := map[];
    var ms := input.members;
    var post := ProfitPosting(input);
    for i := 0 to |ms|
      invariant forall g :: Get(totals, g) == TotalFor(ms[..i], post, g)
    {
      assert ms[..i + 1][..i] == ms[..i];
      KeysAreKeysOfMembers(ms, MemberPosting, ms[i].employee);
      assert ms[i] in ms && MemberPosting(ms[i]).Some?;
      var original := if ms[i].employee in profits then profits[ms[i].employee].originalUsd else 0.0;
      totals := totals[ms[i].group := Get(totals, ms[i].group) + original];
    }
    assert ms[..|ms|] == ms;
  }

  method SumManualSalaryItems(items: seq<ManualItem>) returns (sums: map<EmployeeId, (real, real)>)
    ensures forall e :: (if e in sums then sums[e] else (0.0, 0.0))
                        == (TotalFor(items, AdditionPosting, e), TotalFor(items, DeductionPosting, e))
  {
    sums := map[];
    for i := 0 to |items|
      invariant forall e :: (if e in sums then sums[e] else (0.0, 0.0))
                            == (TotalFor(items[..i], AdditionPosting, e), TotalFor(items[..i], DeductionPosting, e))
    {
      assert items[..i + 1][..i] == items[..i];
      var item := items[i];
      if item.status.Active? || item.status.Confirmed? {
        var current := if item.employee in sums then sums[item.employee] else (0.0, 0.0);
        if item.itemType.Addition? {
          current := (current.0 + item.amountRmb, current.1);
        } else {
          current := (current.0, current.1 + item.amountRmb);
        }
        sums := sums[item.employee := current];
      }
    }
    assert items[..|items|] == items;
  }

  /** The maps `calculate` builds before it looks at single employees. */
  datatype Tables = Tables(
    profits: map<EmployeeId, Profit>,
    memberOf: map<EmployeeId, GroupMember>,
    groupTotals: map<GroupId, real>,
    historicals: map<EmployeeId, real>,
    items: map<EmployeeId, (real, real)>)

  ghost predicate Tabulated(input: CalculationInput, t: Tables) {
    && t.profits.Keys == EmployeeSet(input)
    && (forall e :: e in t.profits ==> t.profits[e] == ProfitOf(input, e))
    && (forall e :: MemberOf(input.members, e) == if e in t.memberOf then Some(t.memberOf[e]) else None)
    && (forall g :: Get(t.groupTotals, g) == GroupTotal(input, g))
    && (forall e :: Get(t.historicals, e) == HistoricalOf(input, e))
    && (forall e :: (if e in t.items then t.items[e] else (0.0, 0.0))
                    == (TotalFor(input.manualItems, AdditionPosting, e),
                        TotalFor(input.manualItems, DeductionPosting, e)))
  }

  method Tabulate(input: CalculationInput) returns (t: Tables)
    ensures Tabulated(input, t) && t.profits.Keys == EmployeeSet(input)
  {
    var ids := CollectEmployeeIds(input);
    var profits := CalculateEmployeeProfits(input, ids);
    var memberOf := IndexLast(input.members, MemberKey);
    var groupTotals := CalculateGroupTotals(input, profits);
    var historicals := Accumulate(input.historicals, HistoricalPosting);
    var items := SumManualSalaryItems(input.manualItems);
    t := Tables(profits, memberOf, groupTotals, historicals, items);
  }

  method CalculateEmployee(input: CalculationInput, t: Tables, e: EmployeeId) returns (r: EmployeeResult)
    requires Tabulated(input, t) && e in t.profits
    ensures r == ResultFor(input, e)
  {
    var member := if e in t.memberOf then Some(t.memberOf[e]) else None;
    var share := t.profits[e].originalUsd;
    if member.Some? {
      share := Get(t.groupTotals, member.value.group) * member.value.ratio;
    }
    var item := if e in t.items then t.items[e] else (0.0, 0.0);
    var attendance := if e in input.attendance then input.attendance[e] else FullAttendance;
    assert share == AllocatedTo(input, e);
    r := BuildResult(e, t.profits[e], member, share, Get(t.historicals, e), item.0, item.1, attendance,
                     input.exchangeRate);
  }

  /** `calculate`: fails exactly when a precheck fails, and otherwise returns what each employee is due. */
  method Calculate(input: CalculationInput) returns (r: Result<seq<EmployeeResult>, PrecheckError>)
    ensures match FirstFailure(input)
            case Some(error) => r == Failure(error)
            case None => r == Success(ResultsOf(input))
  {
    hide *;
    var error := Precheck(input);
    if error.Some? {
      return Failure(error.value);
    }
    var t := Tabulate(input);
    var order := Ascending(t.profits.Keys);
    ghost var all := ResultsOf(input);
    var results := [];
    for i := 0 to |order|
      invariant results == all[..i]
    {
      assert order[i] in t.profits.Keys;
      var result := CalculateEmployee(input, t, order[i]);
      assert result == all[i];
      results := results + [result];
    }
    assert all[..|all|] == all;
    return Success(results);
  }
}
