/**
 Money in the treasury ledger: holds against a monetary budget. Amounts are exact numbers, and
 what the ledger stores about a budget is rounded to cents at every step.
 */
module MonetaryLedger {
  import opened Prelude
  import opened AtsTypes

  datatype MonetaryBudget = MonetaryBudget(
    budgetId: Id,
    limitAmount: real,
    consumedAmount: real,
    reservedAmount: Option<real>,
    availableAmount: real,
    status: BudgetStatus,
    updatedAt: Timestamp)

  datatype MonetaryReservation = MonetaryReservation(
    reservationId: Id,
    budgetRef: Id,
    accountRef: Id,
    actionRef: Id,
    amount: real,
    status: HoldStatus,
    createdAt: Timestamp,
    updatedAt: Timestamp,
    settledAt: Option<Timestamp>,
    releasedAt: Option<Timestamp>,
    releaseReasonCode: Option<string>)

  datatype ReserveMoneyArgs = ReserveMoneyArgs(
    reservationId: Id,
    budgetRef: Id,
    accountRef: Id,
    actionRef: Id,
    amount: real,
    createdAt: Timestamp)

  datatype Money = Money(budgets: map<Id, MonetaryBudget>, holds: map<Id, MonetaryReservation>) {
    function Put(h: MonetaryReservation, b: MonetaryBudget): Money {
      Money(budgets[b.budgetId := b], holds[h.reservationId := h])
    }

    predicate IsActive(id: Id) {
      id in holds && holds[id].status == Reserved
    }
  }

  /** The nearest whole number of cents, ties away from zero. */
  function Cents(x: real): int {
    if x >= 0.0 then (x * 100.0 + 0.5).Floor else -(-x * 100.0 + 0.5).Floor
  }

  /** `toFixed(2)`, read back as a number. */
  function FromMoney(x: real): real {
    Cents(x) as real / 100.0
  }

  function NewMoneyHold(args: ReserveMoneyArgs): MonetaryReservation {
    MonetaryReservation(args.reservationId, args.budgetRef, args.accountRef, args.actionRef, args.amount,
                        Reserved, args.createdAt, args.createdAt, None, None, None)
  }

  function ReserveMoney(m: Money, args: ReserveMoneyArgs): Result<Money, AtsError> {
    if args.budgetRef !in m.budgets then Err(UnknownBudget(args.budgetRef))
    else
      var b := m.budgets[args.budgetRef];
      var reserved := OrZero(b.reservedAmount) + args.amount;
      var available := b.limitAmount - b.consumedAmount - reserved;
      if available < 0.0 then Err(BudgetExceeded(args.budgetRef))
      else
        Ok(m.Put(NewMoneyHold(args),
                 b.(reservedAmount := Some(FromMoney(reserved)), availableAmount := FromMoney(available),
                    status := if available == 0.0 then Exhausted else b.status, updatedAt := args.createdAt)))
  }

  function LookupMoney(m: Money, ref: Id): Result<(MonetaryReservation, MonetaryBudget), AtsError> {
    if ref !in m.holds then Err(UnknownReservation(ref))
    else
      var h := m.holds[ref];
      if h.status != Reserved then Err(NotActive(ref))
      else if h.budgetRef !in m.budgets then Err(UnknownBudget(h.budgetRef))
      else Ok((h, m.budgets[h.budgetRef]))
  }

  function SettleMoney(m: Money, ref: Id, at: Timestamp): Result<Money, AtsError> {
    match LookupMoney(m, ref)
    case Err(e) => Err(e)
    case Ok((h, b)) =>
      var reserved, consumed := OrZero(b.reservedAmount) - h.amount, b.consumedAmount + h.amount;
      var available := b.limitAmount - consumed - reserved;
      Ok(m.Put(h.(status := Settled, settledAt := Some(at), updatedAt := at),
               b.(consumedAmount := FromMoney(consumed), reservedAmount := Some(FromMoney(ClampZero(reserved))),
                  availableAmount := FromMoney(ClampZero(available)),
                  status := if available == 0.0 then Exhausted else b.status, updatedAt := at)))
  }

  function ReleaseMoney(m: Money, ref: Id, at: Timestamp, reason: Option<string>): Result<Money, AtsError> {
    match LookupMoney(m, ref)
    case Err(e) => Err(e)
    case Ok((h, b)) =>
      var reserved := OrZero(b.reservedAmount) - h.amount;
      var available := b.limitAmount - b.consumedAmount - reserved;
      Ok(m.Put(h.(status := Released, releasedAt := Some(at), releaseReasonCode := reason, updatedAt := at),
               b.(reservedAmount := Some(FromMoney(ClampZero(reserved))),
                  availableAmount := FromMoney(ClampZero(available)), status := Active, updatedAt := at)))
  }
}
