/** The settlement service: generating, confirming and locking a month, and the roll-forward loop of the lock. */
module SettlementServices {
  import opened Wrappers
  import opened CommonTypes
  import opened Postings
  import opened SettlementCalculator
  import opened SettlementLaws
  import opened SettlementBooks
  import opened Carryover

  /** Commission profit minus remaining negative profit, added up over the details. */
  function NetOf(details: seq<Detail>): real {
    if details == [] then 0.0 else
      var d := details[|details| - 1];
      NetOf(details[..|details| - 1]) + d.commissionProfitUsd - d.remainingNegativeProfitUsd
  }

  lemma {:induction false} DetailsNetToResults(results: seq<EmployeeResult>)
    ensures NetOf(DetailsOf(results)) == NetProfit(results)
  {
    if results != [] {
      var n := |results| - 1;
      DetailsNetToResults(results[..n]);
      assert DetailsOf(results)[..n] == DetailsOf(results[..n]);
    }
  }

  /** A locked month is as it was. */
  predicate LocksHold(before: map<Month, Settlement>, after: map<Month, Settlement>) {
    forall m :: m in before && before[m].status.Locked? ==> m in after && after[m] == before[m]
  }

  class SettlementService {
    var settlements: map<Month, Settlement>
    var rows: seq<HistoricalRow>

    function State(): Books
      reads this
    {
      Books(settlements, rows)
    }

    constructor (books: Books)
      ensures State() == books
    {
      settlements, rows := books.settlements, books.rows;
    }

    method GenerateSettlement(month: Month, records: CalculationInput) returns (r: Result<nat, BookError>)
      modifies this
      ensures match Generate(old(State()), month, records)
              case Success(b) => r == Success(|b.settlements[month].details|) && State() == b
              case Failure(error) => r == Failure(error) && State() == old(State())
      ensures LocksHold(old(settlements), settlements) && rows == old(rows)
      ensures r.Success? ==> NetOf(settlements[month].details) == BookedProfit(InputFor(records, rows, month))
      ensures r.Success? ==> DistinctKeys(settlements[month].details, DetailKey)
      ensures r.Success? ==>
                settlements[month].status == if month in old(settlements) then old(settlements)[month].status
                                             else SettlementStatus.Draft
    {
      if month in settlements && settlements[month].status.Locked? {
        return Failure(MonthIsLocked);
      }
      var input := InputFor(records, rows, month);
      var calculated := Calculate(input);
      if calculated.Failure? {
        return Failure(PrecheckFailed(calculated.error));
      }
      DetailsNetToResults(ResultsOf(input));
      ProfitIsConserved(input);
      DetailsAreDistinct(input);
      var status := SettlementStatus.Draft;
      if month in settlements {
        status := settlements[month].status;
      }
      settlements := settlements[month := Settlement(status, DetailsOf(calculated.value))];
      return Success(|calculated.value|);
    }

    method ConfirmSettlement(month: Month) returns (r: Result<Settlement, BookError>)
      modifies this`settlements
      ensures match Confirm(old(State()), month)
              case Success(b) => r == Success(b.settlements[month]) && State() == b
              case Failure(error) => r == Failure(error) && State() == old(State())
      ensures LocksHold(old(settlements), settlements)
      ensures r.Success? ==> settlements[month].details == old(settlements)[month].details
      ensures r.Success? ==>
                && month in old(settlements) && old(settlements)[month].status.Draft?
                && settlements[month].status.Confirmed? && |settlements[month].details| > 0
    {
      if month !in settlements {
        return Failure(SettlementNotFound);
      }
      var s := settlements[month];
      if !s.status.Draft? {
        return Failure(StatusConflict);
      }
      if |s.details| == 0 {
        return Failure(NoDetails);
      }
      settlements := settlements[month := s.(status := SettlementStatus.Confirmed)];
      return Success(settlements[month]);
    }

    /** The roll-forward loop and its counters. */
    method RollForwardNegativeProfits(month: Month, details: seq<Detail>) returns (created: nat, updated: nat)
      modifies this`rows
      ensures rows == RollForward(old(rows), month, details)
      ensures created == |rows| - |old(rows)|
      ensures created + updated == |OwingDetails(details)|
      ensures DistinctKeys(details, DetailKey) ==> RolledForward(rows, month, details)
      ensures DistinctKeys(details, DetailKey) && NotYetRolled(old(rows), month) ==>
                forall k, e :: LiveTotal(rows, k, e)
                               == LiveTotal(old(rows), k, e)
                                  + if k == month + 1 then TotalFor(details, By(DetailKey, OwedOf), e) else 0.0
    {
      created, updated := 0, 0;
      for n := 0 to |details|
        invariant rows == RollForward(old(rows), month, details[..n])
        invariant created == |rows| - |old(rows)|
        invariant created + updated == |OwingDetails(details[..n])|
      {
        assert details[..n + 1][..n] == details[..n];
        var d := details[n];
        if d.remainingNegativeProfitUsd <= 0.0 {
          continue;
        }
        var existing := FindRollForward(rows, month, d.employee);
        if existing.Some? {
          var i := existing.value;
          rows := rows[i := rows[i].(amountUsd := d.remainingNegativeProfitUsd)];
          updated := updated + 1;
        } else {
          rows := rows + [HistoricalRow(month + 1, d.employee, d.remainingNegativeProfitUsd, RollForwardFrom(month),
                                        CommonStatus.Active)];
          created := created + 1;
        }
      }
      assert details[..|details|] == details;
      if DistinctKeys(details, DetailKey) {
        RollForwardSettles(old(rows), month, details);
        if NotYetRolled(old(rows), month) {
          forall k, e ensures LiveTotal(rows, k, e)
                              == LiveTotal(old(rows), k, e)
                                 + if k == month + 1 then TotalFor(details, By(DetailKey, OwedOf), e) else 0.0
          {
            RollForwardTotals(old(rows), month, details, k, e);
          }
        }
      }
    }

    method LockSettlement(month: Month) returns (r: Result<(nat, nat), BookError>)
      modifies this
      ensures match Lock(old(State()), month)
              case Success(b) =>
                && r.Success? && State() == b
                && r.value.0 == |b.rows| - |old(rows)|
                && r.value.0 + r.value.1 == |OwingDetails(b.settlements[month].details)|
              case Failure(error) => r == Failure(error) && State() == old(State())
      ensures LocksHold(old(settlements), settlements)
      ensures r.Success? ==>
                && month in old(settlements) && old(settlements)[month].status.Confirmed?
                && settlements[month].status.Locked? && settlements[month].details == old(settlements)[month].details
                && |settlements[month].details| > 0
      ensures r.Success? && DistinctKeys(settlements[month].details, DetailKey) ==>
                RolledForward(rows, month, settlements[month].details)
    {
      if month !in settlements {
        return Failure(SettlementNotFound);
      }
      var s := settlements[month];
      if !s.status.Confirmed? {
        return Failure(StatusConflict);
      }
      if |s.details| == 0 {
        return Failure(NoDetails);
      }
      settlements := settlements[month := s.(status := SettlementStatus.Locked)];
      var created, updated := RollForwardNegativeProfits(month, s.details);
      return Success((created, updated));
    }
  }
}
