/** Identifiers, statuses and errors of the treasury ledger. */
module AtsTypes {
  import opened Prelude

  type Id = string
  type Timestamp = string

  datatype BudgetStatus = Active | Restricted | Exhausted | Revoked

  datatype HoldStatus = Reserved | Settled | Released

  datatype AtsError =
    | UnknownBudget(ref: Id)
    | UnknownQuota(ref: Id)
    | UnknownReservation(ref: Id)
    | BudgetExceeded(ref: Id)
    | QuotaExceeded(ref: Id)
    | NotActive(ref: Id)

  function OrZero(quantity: Option<real>): real {
    if quantity.Some? then quantity.value else 0.0
  }

  function ClampZero(x: real): real {
    if x < 0.0 then 0.0 else x
  }
}
