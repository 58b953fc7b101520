/**
 Resource capacity in the treasury ledger: holds against a resource budget and a resource quota
 together. Quantities are exact numbers, which covers the integers the service is used with.
 */
module ResourceLedger {
  import opened Prelude
  import opened AtsTypes

  datatype ResourceBudget = ResourceBudget(
    budgetId: Id,
    limitQuantity: real,
    consumedQuantity: real,
    reservedQuantity: Option<real>,
    availableQuantity: real,
    status: BudgetStatus,
    updatedAt: Timestamp)

  datatype ResourceQuota = ResourceQuota(
    quotaId: Id,
    maxQuantity: real,
    usedQuantity: real,
    reservedQuantity: Option<real>,
    status: BudgetStatus,
    updatedAt: Timestamp)

  datatype ResourceReservation = ResourceReservation(
    reservationId: Id,
    budgetRef: Id,
    quotaRef: Id,
    accountRef: Id,
    actionRef: Id,
    quantity: real,
    status: HoldStatus,
    createdAt: Timestamp,
    updatedAt: Timestamp,
    settledAt: Option<Timestamp>,
    releasedAt: Option<Timestamp>,
    releaseReasonCode: Option<string>)

  /** What reserve takes; `createdAt` is the given or the current time. */
  datatype ReserveArgs = ReserveArgs(
    reservationId: Id,
    budgetRef: Id,
    quotaRef: Id,
    accountRef: Id,
    actionRef: Id,
    quantity: real,
    createdAt: Timestamp)

  datatype Ledger = Ledger(
    budgets: map<Id, ResourceBudget>,
    quotas: map<Id, ResourceQuota>,
    holds: map<Id, ResourceReservation>)
  {
    function Put(h: ResourceReservation, b: ResourceBudget, q: ResourceQuota): Ledger {
      Ledger(budgets[b.budgetId := b], quotas[q.quotaId := q], holds[h.reservationId := h])
    }

    predicate IsActive(id: Id) {
      id in holds && holds[id].status == Reserved
    }
  }

  function NewHold(args: ReserveArgs): ResourceReservation {
    ResourceReservation(args.reservationId, args.budgetRef, args.quotaRef, args.accountRef, args.actionRef,
                        args.quantity, Reserved, args.createdAt, args.createdAt, None, None, None)
  }

  // ---- the three operations; an Err is a throw, before anything was written ----

  function Reserve(l: Ledger, args: ReserveArgs): Result<Ledger, AtsError> {
    if args.budgetRef !in l.budgets then Err(UnknownBudget(args.budgetRef))
    else if args.quotaRef !in l.quotas then Err(UnknownQuota(args.quotaRef))
    else
      var b, q := l.budgets[args.budgetRef], l.quotas[args.quotaRef];
      var bReserved := OrZero(b.reservedQuantity) + args.quantity;
      var bAvailable := b.limitQuantity - b.consumedQuantity - bReserved;
      var qReserved := OrZero(q.reservedQuantity) + args.quantity;
      var qAvailable := q.maxQuantity - q.usedQuantity - qReserved;
      if bAvailable < 0.0 then Err(BudgetExceeded(args.budgetRef))
      else if qAvailable < 0.0 then Err(QuotaExceeded(args.quotaRef))
      else
        Ok(l.Put(NewHold(args),
                 b.(reservedQuantity := Some(bReserved), availableQuantity := bAvailable,
                    status := if bAvailable == 0.0 then Exhausted else b.status, updatedAt := args.createdAt),
                 q.(reservedQuantity := Some(qReserved),
                    status := if qAvailable == 0.0 then Exhausted else q.status, updatedAt := args.createdAt)))
  }

  /** The hold, budget and quota that settle and release look up, in the source's order. */
  function Lookup(l: Ledger, ref: Id): Result<(ResourceReservation, ResourceBudget, ResourceQuota), AtsError> {
    if ref !in l.holds then Err(UnknownReservation(ref))
    else
      var h := l.holds[ref];
      if h.status != Reserved then Err(NotActive(ref))
      else if h.budgetRef !in l.budgets then Err(UnknownBudget(h.budgetRef))
      else if h.quotaRef !in l.quotas then Err(UnknownQuota(h.quotaRef))
      else Ok((h, l.budgets[h.budgetRef], l.quotas[h.quotaRef]))
  }

  function Settle(l: Ledger, ref: Id, at: Timestamp): Result<Ledger, AtsError> {
    match Lookup(l, ref)
    case Err(e) => Err(e)
    case Ok((h, b, q)) =>
      var bReserved, bConsumed := OrZero(b.reservedQuantity) - h.quantity, b.consumedQuantity + h.quantity;
      var bAvailable := b.limitQuantity - bConsumed - bReserved;
      var qReserved, qUsed := OrZero(q.reservedQuantity) - h.quantity, q.usedQuantity + h.quantity;
      var qAvailable := q.maxQuantity - qUsed - qReserved;
      Ok(l.Put(h.(status := Settled, settledAt := Some(at), updatedAt := at),
               b.(consumedQuantity := bConsumed, reservedQuantity := Some(ClampZero(bReserved)),
                  availableQuantity := ClampZero(bAvailable),
                  status := if bAvailable == 0.0 then Exhausted else b.status, updatedAt := at),
               q.(usedQuantity := qUsed, reservedQuantity := Some(ClampZero(qReserved)),
                  status := if qAvailable == 0.0 then Exhausted else q.status, updatedAt := at)))
  }

  function Release(l: Ledger, ref: Id, at: Timestamp, reason: Option<string>): Result<Ledger, AtsError> {
    match Lookup(l, ref)
    case Err(e) => Err(e)
    case Ok((h, b, q)) =>
      var bReserved := OrZero(b.reservedQuantity) - h.quantity;
      var qReserved := OrZero(q.reservedQuantity) - h.quantity;
      Ok(l.Put(h.(status := Released, releasedAt := Some(at), releaseReasonCode := reason, updatedAt := at),
               b.(reservedQuantity := Some(ClampZero(bReserved)),
                  availableQuantity := ClampZero(b.limitQuantity - b.consumedQuantity - bReserved),
                  status := Active, updatedAt := at),
               q.(reservedQuantity := Some(ClampZero(qReserved)), status := Active, updatedAt := at)))
  }
}
