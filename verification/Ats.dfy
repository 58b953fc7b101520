/**
 The treasury service over its in-memory store. Each method is one step: the source takes no
 lock between its reads and its writes.
 */
module Ats {
  import opened Prelude
  import opened AtsTypes
  import opened ResourceLedger
  import opened MonetaryLedger
  import RP = ResourceLedgerProofs
  import MP = MonetaryLedgerProofs

  class InMemoryAtsStore {
    var monetaryBudgets: map<Id, MonetaryBudget>
    var monetaryReservations: map<Id, MonetaryReservation>
    var resourceBudgets: map<Id, ResourceBudget>
    var resourceQuotas: map<Id, ResourceQuota>
    var resourceReservations: map<Id, ResourceReservation>

    /** The resource side of the store. */
    function Resources(): Ledger
      reads this`resourceBudgets, this`resourceQuotas, this`resourceReservations
    {
      Ledger(resourceBudgets, resourceQuotas, resourceReservations)
    }

    /** The monetary side of the store. */
    function Funds(): Money
      reads this`monetaryBudgets, this`monetaryReservations
    {
      Money(monetaryBudgets, monetaryReservations)
    }

    constructor (m: Money, l: Ledger)
      ensures Funds() == m && Resources() == l
    {
      monetaryBudgets, monetaryReservations := m.budgets, m.holds;
      resourceBudgets, resourceQuotas, resourceReservations := l.budgets, l.quotas, l.holds;
    }

    method PutMonetaryBudget(budget: MonetaryBudget)
      modifies this`monetaryBudgets
      ensures monetaryBudgets == old(monetaryBudgets)[budget.budgetId := budget]
    {
      monetaryBudgets := monetaryBudgets[budget.budgetId := budget];
    }

    method PutMonetaryReservation(reservation: MonetaryReservation)
      modifies this`monetaryReservations
      ensures monetaryReservations == old(monetaryReservations)[reservation.reservationId := reservation]
    {
      monetaryReservations := monetaryReservations[reservation.reservationId := reservation];
    }

    method PutResourceBudget(budget: ResourceBudget)
      modifies this`resourceBudgets
      ensures resourceBudgets == old(resourceBudgets)[budget.budgetId := budget]
    {
      resourceBudgets := resourceBudgets[budget.budgetId := budget];
    }

    method PutResourceQuota(quota: ResourceQuota)
      modifies this`resourceQuotas
      ensures resourceQuotas == old(resourceQuotas)[quota.quotaId := quota]
    {
      resourceQuotas := resourceQuotas[quota.quotaId := quota];
    }

    method PutResourceReservation(reservation: ResourceReservation)
      modifies this`resourceReservations
      ensures resourceReservations == old(resourceReservations)[reservation.reservationId := reservation]
    {
      resourceReservations := resourceReservations[reservation.reservationId := reservation];
    }
  }

  class InMemoryAtsService {
    const store: InMemoryAtsStore

    constructor (store: InMemoryAtsStore)
      ensures this.store == store
    {
      this.store := store;
    }

    /** The outcome of a call: the new ledger, or the unchanged one when it throws. */
    ghost predicate Outcome(before: Ledger, expected: Result<Ledger, AtsError>, error: Option<AtsError>)
      reads store
    {
      match expected
      case Ok(l) => error == None && store.Resources() == l
      case Err(e) => error == Some(e) && store.Resources() == before
    }

    ghost predicate MoneyOutcome(before: Money, expected: Result<Money, AtsError>, error: Option<AtsError>)
      reads store
    {
      match expected
      case Ok(m) => error == None && store.Funds() == m
      case Err(e) => error == Some(e) && store.Funds() == before
    }

    /** The two writes that end every call on a hold against a monetary budget. */
    method WriteMoney(reservation: MonetaryReservation, budget: MonetaryBudget)
      modifies store`monetaryBudgets, store`monetaryReservations
      ensures store.Funds() == old(store.Funds()).Put(reservation, budget)
    {
      store.PutMonetaryReservation(reservation);
      store.PutMonetaryBudget(budget);
    }

    method ReserveMonetaryBudget(args: ReserveMoneyArgs) returns (error: Option<AtsError>)
      modifies store`monetaryBudgets, store`monetaryReservations
      ensures MoneyOutcome(old(store.Funds()), ReserveMoney(old(store.Funds()), args), error)
      ensures MP.Exact(old(store.Funds())) && MP.Proper(old(store.Funds()), MP.ReserveCall(args)) && MP.WholeCents(args.amount) ==>
                MP.Exact(store.Funds())
    {
      hide MP.Exact, MP.Proper, MP.WholeCents, FromMoney, OrZero, ClampZero;
      if MP.Exact(store.Funds()) && MP.Proper(store.Funds(), MP.ReserveCall(args)) && MP.WholeCents(args.amount) {
        MP.StepExact(store.Funds(), MP.ReserveCall(args));
      }
      if args.budgetRef !in store.monetaryBudgets {
        return Some(UnknownBudget(args.budgetRef));
      }
      var budget := store.monetaryBudgets[args.budgetRef];
      var nextReserved := OrZero(budget.reservedAmount) + args.amount;
      var nextAvailable := budget.limitAmount - budget.consumedAmount - nextReserved;
      if nextAvailable < 0.0 {
        return Some(BudgetExceeded(args.budgetRef));
      }
      WriteMoney(
        NewMoneyHold(args),
        budget.(reservedAmount := Some(FromMoney(nextReserved)), availableAmount := FromMoney(nextAvailable),
                status := if nextAvailable == 0.0 then Exhausted else budget.status, updatedAt := args.createdAt));
      return None;
    }

    method SettleMonetaryReservation(ref: Id, at: Timestamp) returns (error: Option<AtsError>)
      modifies store`monetaryBudgets, store`monetaryReservations
      ensures MoneyOutcome(old(store.Funds()), SettleMoney(old(store.Funds()), ref, at), error)
      ensures MP.Exact(old(store.Funds())) ==>
                && MP.Exact(store.Funds())
                && forall b :: b in old(store.Funds()).budgets ==>
                     && b in store.monetaryBudgets
                     && store.monetaryBudgets[b].consumedAmount ==
                        old(store.monetaryBudgets[b].consumedAmount) + MP.Settling(old(store.Funds()), MP.SettleCall(ref, at), b)
    {
      hide MP.Exact, MP.Settling, FromMoney, OrZero, ClampZero;
      if MP.Exact(store.Funds()) {
        MP.StepExact(store.Funds(), MP.SettleCall(ref, at));
      }
      var found := LookupMoney(store.Funds(), ref);
      if found.Err? {
        return Some(found.error);
      }
      var (reservation, budget) := found.value;
      var nextReserved := OrZero(budget.reservedAmount) - reservation.amount;
      var nextConsumed := budget.consumedAmount + reservation.amount;
      var nextAvailable := budget.limitAmount - nextConsumed - nextReserved;
      WriteMoney(
        reservation.(status := Settled, settledAt := Some(at), updatedAt := at),
        budget.(consumedAmount := FromMoney(nextConsumed), reservedAmount := Some(FromMoney(ClampZero(nextReserved))),
                availableAmount := FromMoney(ClampZero(nextAvailable)),
                status := if nextAvailable == 0.0 then Exhausted else budget.status, updatedAt := at));
      return None;
    }

    method ReleaseMonetaryReservation(ref: Id, at: Timestamp, reason: Option<string>) returns (error: Option<AtsError>)
      modifies store`monetaryBudgets, store`monetaryReservations
      ensures MoneyOutcome(old(store.Funds()), ReleaseMoney(old(store.Funds()), ref, at, reason), error)
      ensures MP.Exact(old(store.Funds())) ==> MP.Exact(store.Funds())
    {
      hide MP.Exact, FromMoney, OrZero, ClampZero;
      if MP.Exact(store.Funds()) {
        MP.StepExact(store.Funds(), MP.ReleaseCall(ref, at, reason));
      }
      var found := LookupMoney(store.Funds(), ref);
      if found.Err? {
        return Some(found.error);
      }
      var (reservation, budget) := found.value;
      var nextReserved := OrZero(budget.reservedAmount) - reservation.amount;
      var nextAvailable := budget.limitAmount - budget.consumedAmount - nextReserved;
      WriteMoney(
        reservation.(status := Released, releasedAt := Some(at), releaseReasonCode := reason, updatedAt := at),
        budget.(reservedAmount := Some(FromMoney(ClampZero(nextReserved))),
                availableAmount := FromMoney(ClampZero(nextAvailable)), status := Active, updatedAt := at));
      return None;
    }

    /** The three writes that end every call on resource capacity. */
    method WriteResources(reservation: ResourceReservation, budget: ResourceBudget, quota: ResourceQuota)
      modifies store`resourceBudgets, store`resourceQuotas, store`resourceReservations
      ensures store.Resources() == old(store.Resources()).Put(reservation, budget, quota)
    {
      store.PutResourceReservation(reservation);
      store.PutResourceBudget(budget);
      store.PutResourceQuota(quota);
    }

    method ReserveResourceCapacity(args: ReserveArgs) returns (error: Option<AtsError>)
      modifies store`resourceBudgets, store`resourceQuotas, store`resourceReservations
      ensures Outcome(old(store.Resources()), Reserve(old(store.Resources()), args), error)
      ensures RP.Consistent(old(store.Resources())) ==>
                (error.None? <==> RP.BudgetFits(old(store.Resources()), args.budgetRef, args.quantity) &&
                                  RP.QuotaFits(old(store.Resources()), args.quotaRef, args.quantity))
      ensures RP.Consistent(old(store.Resources())) && args.quantity > 0.0 ==>
                (RP.Consistent(store.Resources()) <==> error.Some? || !old(store.Resources()).IsActive(args.reservationId))
    {
      hide RP.Consistent, RP.BudgetFits, RP.QuotaFits, RP.ReservedExactly, OrZero, ClampZero;
      if RP.Consistent(store.Resources()) {
        RP.ReserveAccepts(store.Resources(), args);
      }
      if RP.Consistent(store.Resources()) && args.quantity > 0.0 && Reserve(store.Resources(), args).Ok? {
        RP.ReserveConsistent(store.Resources(), args);
      }
      if args.budgetRef !in store.resourceBudgets {
        return Some(UnknownBudget(args.budgetRef));
      }
      var budget := store.resourceBudgets[args.budgetRef];
      if args.quotaRef !in store.resourceQuotas {
        return Some(UnknownQuota(args.quotaRef));
      }
      var quota := store.resourceQuotas[args.quotaRef];
      var nextBudgetReserved := OrZero(budget.reservedQuantity) + args.quantity;
      var nextBudgetAvailable := budget.limitQuantity - budget.consumedQuantity - nextBudgetReserved;
      if nextBudgetAvailable < 0.0 {
        return Some(BudgetExceeded(args.budgetRef));
      }
      var nextQuotaReserved := OrZero(quota.reservedQuantity) + args.quantity;
      var nextQuotaAvailable := quota.maxQuantity - quota.usedQuantity - nextQuotaReserved;
      if nextQuotaAvailable < 0.0 {
        return Some(QuotaExceeded(args.quotaRef));
      }
      WriteResources(
        NewHold(args),
        budget.(reservedQuantity := Some(nextBudgetReserved), availableQuantity := nextBudgetAvailable,
                status := if nextBudgetAvailable == 0.0 then Exhausted else budget.status,
                updatedAt := args.createdAt),
        quota.(reservedQuantity := Some(nextQuotaReserved),
               status := if nextQuotaAvailable == 0.0 then Exhausted else quota.status,
               updatedAt := args.createdAt));
      return None;
    }

    method SettleResourceReservation(ref: Id, at: Timestamp) returns (error: Option<AtsError>)
      modifies store`resourceBudgets, store`resourceQuotas, store`resourceReservations
      ensures Outcome(old(store.Resources()), Settle(old(store.Resources()), ref, at), error)
      ensures RP.Consistent(old(store.Resources())) ==>
                && RP.Consistent(store.Resources())
                && (error.None? <==> old(store.Resources()).IsActive(ref))
                && (error.None? ==> RP.SettledExactly(old(store.Resources()), ref, store.Resources()))
    {
      hide RP.Consistent, RP.SettledExactly, OrZero, ClampZero;
      if RP.Consistent(store.Resources()) {
        RP.SettleIsExact(store.Resources(), ref, at);
        if Settle(store.Resources(), ref, at).Ok? {
          RP.SettleConsistent(store.Resources(), ref, at);
        }
      }
      var found := Lookup(store.Resources(), ref);
      if found.Err? {
        return Some(found.error);
      }
      var (reservation, budget, quota) := found.value;
      var nextBudgetReserved := OrZero(budget.reservedQuantity) - reservation.quantity;
      var nextBudgetConsumed := budget.consumedQuantity + reservation.quantity;
      var nextBudgetAvailable := budget.limitQuantity - nextBudgetConsumed - nextBudgetReserved;
      var nextQuotaReserved := OrZero(quota.reservedQuantity) - reservation.quantity;
      var nextQuotaUsed := quota.usedQuantity + reservation.quantity;
      var nextQuotaAvailable := quota.maxQuantity - nextQuotaUsed - nextQuotaReserved;
      WriteResources(
        reservation.(status := Settled, settledAt := Some(at), updatedAt := at),
        budget.(consumedQuantity := nextBudgetConsumed, reservedQuantity := Some(ClampZero(nextBudgetReserved)),
                availableQuantity := ClampZero(nextBudgetAvailable),
                status := if nextBudgetAvailable == 0.0 then Exhausted else budget.status, updatedAt := at),
        quota.(usedQuantity := nextQuotaUsed, reservedQuantity := Some(ClampZero(nextQuotaReserved)),
               status := if nextQuotaAvailable == 0.0 then Exhausted else quota.status, updatedAt := at));
      return None;
    }

    method ReleaseResourceReservation(ref: Id, at: Timestamp, reason: Option<string>) returns (error: Option<AtsError>)
      modifies store`resourceBudgets, store`resourceQuotas, store`resourceReservations
      ensures Outcome(old(store.Resources()), Release(old(store.Resources()), ref, at, reason), error)
      ensures RP.Consistent(old(store.Resources())) ==>
                && RP.Consistent(store.Resources())
                && (error.None? <==> old(store.Resources()).IsActive(ref))
                && (error.None? ==> RP.ReleasedExactly(old(store.Resources()), ref, store.Resources()))
    {
      hide RP.Consistent, RP.ReleasedExactly, OrZero, ClampZero;
      if RP.Consistent(store.Resources()) {
        RP.ReleaseIsExact(store.Resources(), ref, at, reason);
        if Release(store.Resources(), ref, at, reason).Ok? {
          RP.ReleaseConsistent(store.Resources(), ref, at, reason);
        }
      }
      var found := Lookup(store.Resources(), ref);
      if found.Err? {
        return Some(found.error);
      }
      var (reservation, budget, quota) := found.value;
      var nextBudgetReserved := OrZero(budget.reservedQuantity) - reservation.quantity;
      var nextBudgetAvailable := budget.limitQuantity - budget.consumedQuantity - nextBudgetReserved;
      var nextQuotaReserved := OrZero(quota.reservedQuantity) - reservation.quantity;
      WriteResources(
        reservation.(status := Released, releasedAt := Some(at), releaseReasonCode := reason, updatedAt := at),
        budget.(reservedQuantity := Some(ClampZero(nextBudgetReserved)),
                availableQuantity := ClampZero(nextBudgetAvailable), status := Active, updatedAt := at),
        quota.(reservedQuantity := Some(ClampZero(nextQuotaReserved)), status := Active, updatedAt := at));
      return None;
    }
  }
}
