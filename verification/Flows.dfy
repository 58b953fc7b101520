/**
 The payment and resource flows: reserve, authorize, execute, then settle or release. Everything
 outside the ledger and the approval service is an oracle that answers or throws.
 */
module Flows {
  import opened Prelude
  import opened AtsTypes
  import opened R = ResourceLedger
  import opened M = MonetaryLedger
  import A = Approvals

  /** How the ports around a flow behave; a false or a None is a throw. */
  datatype Ports = Ports(
    lookups: bool,                                    // intent creation, identity, credentials, account
    challengeMarked: bool,                            // the intent is marked as challenged
    surface: A.Context -> Option<A.ApprovalResult>,   // the trusted surface
    approvalReceipt: bool,
    execution: bool,                                  // usage confirmation and settlement adapter
    actionReceipt: bool,
    settlementMarked: bool,
    response: bool,
    settledAt: Timestamp,
    now: Timestamp)
  {
    /** The calls between a successful execution and the settlement of the hold. */
    predicate Recorded() { actionReceipt && settlementMarked && response }
  }

  datatype FlowError =
    | UnsupportedIntent
    | AtsFailed(ats: AtsError)
    | AmnFailed(amn: A.AmnError)
    | PortFailed
    | NotAuthorized(result: A.AuthorizationResult)
    | ExecutionFailed

  function HoldId(intentId: Id): Id {
    "resv-" + intentId
  }

  function ResultText(r: A.AuthorizationResult): string {
    match r
    case AuthApproved => "approved"
    case AuthRejected => "rejected"
    case ChallengeRequired => "challenge-required"
    case AuthPending => "pending-approval"
    case Suspended => "suspended"
    case AuthExpired => "expired"
  }

  // ---- the decision ----

  datatype Authorization = Authorization(decision: A.Decision, approval: Option<A.ApprovalResult>)

  datatype Authorized = Authorized(tables: A.Tables, answer: Result<Authorization, FlowError>)

  /** Evaluate and, when a challenge is required, request, approve, apply and resume. */
  function Authorize(t: A.Templates, st: A.Tables, args: A.EvaluateArgs, ports: Ports): Authorized {
    var evaluated := A.Evaluate(t, st, args);
    match evaluated.answer
    case Err(e) => Authorized(evaluated.tables, Err(AmnFailed(e)))
    case Ok(initial) =>
      if initial.result != A.ChallengeRequired then Authorized(evaluated.tables, Ok(Authorization(initial, None)))
      else Challenge(t, evaluated.tables, initial, ports)
  }

  function Challenge(t: A.Templates, st: A.Tables, initial: A.Decision, ports: Ports): Authorized {
    var created := A.CreateApprovalRequest(t, st, initial);
    match created.answer
    case Err(e) => Authorized(created.tables, Err(AmnFailed(e)))
    case Ok(request) =>
      var answer := ports.surface(request.approvalContext);
      if !ports.challengeMarked || answer.None? then Authorized(created.tables, Err(PortFailed))
      else
        var session := request.approvalSession.approvalSessionId;
        var applied := A.ApplyApprovalResult(t, created.tables, session, answer.value);
        match applied.answer
        case Err(e) => Authorized(applied.tables, Err(AmnFailed(e)))
        case Ok(approval) =>
          var resumed := A.ResumeAuthorizationSession(t, applied.tables, session);
          match resumed.answer
          case Err(e) => Authorized(resumed.tables, Err(AmnFailed(e)))
          case Ok(r) =>
            Authorized(resumed.tables,
                       if ports.approvalReceipt
                       then Ok(Authorization(r.finalDecision, Some(approval.approvalResult)))
                       else Err(PortFailed))
  }

  function ReleaseTime(a: Authorization, ports: Ports): Timestamp {
    if a.approval.Some? then a.approval.value.decidedAt else ports.now
  }

  // ---- the resource flow ----

  datatype ResourceInput = ResourceInput(
    intentId: Id,
    agentDid: Id,
    accountId: Id,
    mandateRef: Id,
    policyRef: Option<Id>,
    quantity: real,
    createdAt: Timestamp,
    budgetRef: Id,
    quotaRef: Id)
  {
    function Reservation(): ReserveArgs {
      ReserveArgs(HoldId(intentId), budgetRef, quotaRef, accountId, intentId, quantity, createdAt)
    }

    function Evaluation(): A.EvaluateArgs {
      A.EvaluateArgs(intentId, "resource", agentDid, mandateRef, policyRef, Some(accountId))
    }
  }

  /** `executed`: the settlement adapter succeeded, so the outside world has acted. */
  datatype ResourceOutcome = ResourceOutcome(
    ledger: Ledger, tables: A.Tables, executed: bool, answer: Result<A.Decision, FlowError>)

  function CloseResource(closed: Result<Ledger, AtsError>, l: Ledger, st: A.Tables, executed: bool,
                         answer: Result<A.Decision, FlowError>): ResourceOutcome {
    match closed
    case Ok(l') => ResourceOutcome(l', st, executed, answer)
    case Err(e) => ResourceOutcome(l, st, executed, Err(AtsFailed(e)))
  }

  function ResourceFlow(supported: Id, t: A.Templates, l: Ledger, st: A.Tables,
                        input: ResourceInput, ports: Ports): ResourceOutcome {
    if input.intentId != supported then ResourceOutcome(l, st, false, Err(UnsupportedIntent))
    else if !ports.lookups then ResourceOutcome(l, st, false, Err(PortFailed))
    else
      match Reserve(l, input.Reservation())
      case Err(e) => ResourceOutcome(l, st, false, Err(AtsFailed(e)))
      case Ok(reserved) => AfterResourceHold(t, reserved, st, input, ports)
  }

  function AfterResourceHold(t: A.Templates, l: Ledger, st: A.Tables, input: ResourceInput, ports: Ports): ResourceOutcome {
    var hold := HoldId(input.intentId);
    var authorized := Authorize(t, st, input.Evaluation(), ports);
    match authorized.answer
    case Err(e) => ResourceOutcome(l, authorized.tables, false, Err(e))
    case Ok(a) =>
      if a.decision.result != A.AuthApproved then
        CloseResource(Release(l, hold, ReleaseTime(a, ports), Some(ResultText(a.decision.result))),
                      l, authorized.tables, false, Err(NotAuthorized(a.decision.result)))
      else if !ports.execution then
        CloseResource(Release(l, hold, ports.now, Some("settlement-failed")),
                      l, authorized.tables, false, Err(ExecutionFailed))
      else if !ports.Recorded() then ResourceOutcome(l, authorized.tables, true, Err(PortFailed))
      else CloseResource(Settle(l, hold, ports.settledAt), l, authorized.tables, true, Ok(a.decision))
  }

  // ---- the payment flow ----

  datatype PaymentInput = PaymentInput(
    intentId: Id,
    agentDid: Id,
    accountId: Id,
    mandateRef: Id,
    policyRef: Option<Id>,
    amount: real,
    createdAt: Timestamp,
    budgetRef: Id)
  {
    function Reservation(): ReserveMoneyArgs {
      ReserveMoneyArgs(HoldId(intentId), budgetRef, accountId, intentId, amount, createdAt)
    }

    function Evaluation(): A.EvaluateArgs {
      A.EvaluateArgs(intentId, "payment", agentDid, mandateRef, policyRef, Some(accountId))
    }
  }

  datatype PaymentOutcome = PaymentOutcome(
    money: Money, tables: A.Tables, executed: bool, answer: Result<A.Decision, FlowError>)

  function ClosePayment(closed: Result<Money, AtsError>, m: Money, st: A.Tables, executed: bool,
                        answer: Result<A.Decision, FlowError>): PaymentOutcome {
    match closed
    case Ok(m') => PaymentOutcome(m', st, executed, answer)
    case Err(e) => PaymentOutcome(m, st, executed, Err(AtsFailed(e)))
  }

  function PaymentFlow(supported: Id, t: A.Templates, m: Money, st: A.Tables,
                       input: PaymentInput, ports: Ports): PaymentOutcome {
    if input.intentId != supported then PaymentOutcome(m, st, false, Err(UnsupportedIntent))
    else if !ports.lookups then PaymentOutcome(m, st, false, Err(PortFailed))
    else
      match ReserveMoney(m, input.Reservation())
      case Err(e) => PaymentOutcome(m, st, false, Err(AtsFailed(e)))
      case Ok(reserved) => AfterPaymentHold(t, reserved, st, input, ports)
  }

  function AfterPaymentHold(t: A.Templates, m: Money, st: A.Tables, input: PaymentInput, ports: Ports): PaymentOutcome {
    var hold := HoldId(input.intentId);
    var authorized := Authorize(t, st, input.Evaluation(), ports);
    match authorized.answer
    case Err(e) => PaymentOutcome(m, authorized.tables, false, Err(e))
    case Ok(a) =>
      if a.decision.result != A.AuthApproved then
        ClosePayment(ReleaseMoney(m, hold, ReleaseTime(a, ports), Some(ResultText(a.decision.result))),
                     m, authorized.tables, false, Err(NotAuthorized(a.decision.result)))
      else if !ports.execution then
        ClosePayment(ReleaseMoney(m, hold, ports.now, Some("settlement-failed")),
                     m, authorized.tables, false, Err(ExecutionFailed))
      else if !ports.Recorded() then PaymentOutcome(m, authorized.tables, true, Err(PortFailed))
      else ClosePayment(SettleMoney(m, hold, ports.settledAt), m, authorized.tables, true, Ok(a.decision))
  }
}
