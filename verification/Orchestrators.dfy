/** The two orchestrators, running a flow step by step over the services. */
module Orchestrators {
  import opened Prelude
  import opened AtsTypes
  import opened Flows
  import opened Ats
  import A = Approvals
  import R = ResourceLedger
  import M = MonetaryLedger
  import opened Amn
  import RP = ResourceLedgerProofs
  import MP = MonetaryLedgerProofs
  import AP = ApprovalsProofs
  import FP = FlowProofs
  import PP = PaymentFlowProofs

  class FlowOrchestrator {
    const ats: InMemoryAtsService
    const amn: InMemoryAmnService
    const supported: Id // the only intent the mock flow accepts

    constructor (ats: InMemoryAtsService, amn: InMemoryAmnService, supported: Id)
      ensures this.ats == ats && this.amn == amn && this.supported == supported
    {
      this.ats, this.amn, this.supported := ats, amn, supported;
    }

    method AuthorizeIntent(args: A.EvaluateArgs, ports: Ports) returns (answer: Result<Authorization, FlowError>)
      modifies amn.store
      ensures Authorized(amn.store.View(), answer) == Authorize(amn.templates, old(amn.store.View()), args, ports)
    {
      var initialDecision := amn.EvaluateAuthorization(args);
      if initialDecision.Err? {
        return Err(AmnFailed(initialDecision.error));
      }
      var finalDecision, approvalResult := initialDecision.value, None;
      if finalDecision.result == A.ChallengeRequired {
        var approvalRequest := amn.CreateRequest(initialDecision.value);
        if approvalRequest.Err? {
          return Err(AmnFailed(approvalRequest.error));
        }
        var answer' := ports.surface(approvalRequest.value.approvalContext);
        if !ports.challengeMarked || answer' == None {
          return Err(PortFailed);
        }
        var session := approvalRequest.value.approvalSession.approvalSessionId;
        var applied := amn.ApplyResult(session, answer'.value);
        if applied.Err? {
          return Err(AmnFailed(applied.error));
        }
        approvalResult := Some(applied.value.approvalResult);
        var resumed := amn.ResumeSession(session);
        if resumed.Err? {
          return Err(AmnFailed(resumed.error));
        }
        finalDecision := resumed.value.finalDecision;
        if !ports.approvalReceipt {
          return Err(PortFailed);
        }
      }
      return Ok(Authorization(finalDecision, approvalResult));
    }

    /** The flow once its hold is placed: decide, then settle or release. */
    method DecideAndSettleResource(input: ResourceInput, ports: Ports)
      returns (executed: bool, answer: Result<A.Decision, FlowError>)
      modifies ats.store`resourceBudgets, ats.store`resourceQuotas, ats.store`resourceReservations, amn.store
      ensures ResourceOutcome(ats.store.Resources(), amn.store.View(), executed, answer) ==
              AfterResourceHold(amn.templates, old(ats.store.Resources()), old(amn.store.View()), input, ports)
    {
      hide Authorize;
      executed := false;
      var authorized := AuthorizeIntent(input.Evaluation(), ports);
      if authorized.Err? {
        return false, Err(authorized.error);
      }
      var finalDecision := authorized.value.decision;
      var closing: Option<AtsError>;
      if finalDecision.result != A.AuthApproved {
        closing := ats.ReleaseResourceReservation(
          HoldId(input.intentId), ReleaseTime(authorized.value, ports), Some(ResultText(finalDecision.result)));
        answer := Err(NotAuthorized(finalDecision.result));
      } else if !ports.execution {
        closing := ats.ReleaseResourceReservation(HoldId(input.intentId), ports.now, Some("settlement-failed"));
        answer := Err(ExecutionFailed);
      } else {
        executed := true;
        if !ports.Recorded() {
          return true, Err(PortFailed);
        }
        closing := ats.SettleResourceReservation(HoldId(input.intentId), ports.settledAt);
        answer := Ok(finalDecision);
      }
      if closing.Some? {
        answer := Err(AtsFailed(closing.value));
      }
    }

    method ExecuteResourceSettlementFlow(input: ResourceInput, ports: Ports)
      returns (executed: bool, answer: Result<A.Decision, FlowError>)
      modifies ats.store`resourceBudgets, ats.store`resourceQuotas, ats.store`resourceReservations, amn.store
      ensures ResourceOutcome(ats.store.Resources(), amn.store.View(), executed, answer) ==
              ResourceFlow(supported, amn.templates, old(ats.store.Resources()), old(amn.store.View()), input, ports)
      ensures RP.Consistent(old(ats.store.Resources())) && input.quantity > 0.0
              && !old(ats.store.Resources()).IsActive(HoldId(input.intentId)) ==>
                && FP.ResourceFlowAnswers(supported, amn.templates, old(ats.store.Resources()), amn.store.mandates, input, ports,
                                          ats.store.Resources(), executed, answer)
                && RP.Consistent(ats.store.Resources())
                && FP.Charged(old(ats.store.Resources()), ats.store.Resources(), input, answer.Ok?)
                && (ats.store.Resources().IsActive(HoldId(input.intentId)) <==>
                    FP.HoldPlaced(supported, old(ats.store.Resources()), input, ports) &&
                    FP.Leaks(amn.templates, amn.store.mandates, input.Evaluation(), ports))
      ensures AP.WellFormed(amn.templates) && executed ==> FP.Permitted(amn.templates, amn.store.View(), input.intentId)
    {
      hide RP.Consistent, FP.ResourceFlowAnswers, FP.Charged, FP.HoldPlaced, FP.Leaks, FP.Permitted, AP.WellFormed, AfterResourceHold, R.Reserve;
      ghost var l, st := ats.store.Resources(), amn.store.View();
      if RP.Consistent(l) && input.quantity > 0.0 && !l.IsActive(HoldId(input.intentId)) {
        FP.ResourceTransaction(supported, amn.templates, l, st, input, ports);
        FP.ResourceFlowEnds(supported, amn.templates, l, st, input, ports);
      }
      if AP.WellFormed(amn.templates) {
        FP.ExecutedOnlyIfPermitted(supported, amn.templates, l, st, input, ports);
      }
      executed := false;
      if input.intentId != supported {
        return false, Err(UnsupportedIntent);
      }
      if !ports.lookups {
        return false, Err(PortFailed);
      }
      var reservation := ats.ReserveResourceCapacity(input.Reservation());
      if reservation.Some? {
        return false, Err(AtsFailed(reservation.value));
      }
      executed, answer := DecideAndSettleResource(input, ports);
    }

    /** The flow once its hold is placed: decide, then settle or release. */
    method DecideAndSettlePayment(input: PaymentInput, ports: Ports)
      returns (executed: bool, answer: Result<A.Decision, FlowError>)
      modifies ats.store`monetaryBudgets, ats.store`monetaryReservations, amn.store
      ensures PaymentOutcome(ats.store.Funds(), amn.store.View(), executed, answer) ==
              AfterPaymentHold(amn.templates, old(ats.store.Funds()), old(amn.store.View()), input, ports)
    {
      hide Authorize;
      executed := false;
      var authorized := AuthorizeIntent(input.Evaluation(), ports);
      if authorized.Err? {
        return false, Err(authorized.error);
      }
      var finalDecision := authorized.value.decision;
      var closing: Option<AtsError>;
      if finalDecision.result != A.AuthApproved {
        closing := ats.ReleaseMonetaryReservation(
          HoldId(input.intentId), ReleaseTime(authorized.value, ports), Some(ResultText(finalDecision.result)));
        answer := Err(NotAuthorized(finalDecision.result));
      } else if !ports.execution {
        closing := ats.ReleaseMonetaryReservation(HoldId(input.intentId), ports.now, Some("settlement-failed"));
        answer := Err(ExecutionFailed);
      } else {
        executed := true;
        if !ports.Recorded() {
          return true, Err(PortFailed);
        }
        closing := ats.SettleMonetaryReservation(HoldId(input.intentId), ports.settledAt);
        answer := Ok(finalDecision);
      }
      if closing.Some? {
        answer := Err(AtsFailed(closing.value));
      }
    }

    method ExecutePaymentFlow(input: PaymentInput, ports: Ports)
      returns (executed: bool, answer: Result<A.Decision, FlowError>)
      modifies ats.store`monetaryBudgets, ats.store`monetaryReservations, amn.store
      ensures PaymentOutcome(ats.store.Funds(), amn.store.View(), executed, answer) ==
              PaymentFlow(supported, amn.templates, old(ats.store.Funds()), old(amn.store.View()), input, ports)
      ensures MP.Valid(old(ats.store.Funds())) && input.amount > 0.0
              && !old(ats.store.Funds()).IsActive(HoldId(input.intentId)) ==>
                PP.PaymentFlowAnswers(supported, amn.templates, old(ats.store.Funds()), amn.store.mandates, input, ports,
                                      ats.store.Funds(), executed, answer)
      ensures MP.Exact(old(ats.store.Funds())) && input.amount > 0.0 && MP.WholeCents(input.amount)
              && !old(ats.store.Funds()).IsActive(HoldId(input.intentId)) ==>
                && MP.Exact(ats.store.Funds())
                && forall b :: b in old(ats.store.Funds()).budgets ==>
                     && b in ats.store.monetaryBudgets
                     && ats.store.monetaryBudgets[b].consumedAmount ==
                        old(ats.store.monetaryBudgets[b].consumedAmount)
                        + (if answer.Ok? && b == input.budgetRef then input.amount else 0.0)
      ensures AP.WellFormed(amn.templates) && executed ==> FP.Permitted(amn.templates, amn.store.View(), input.intentId)
    {
      hide MP.Valid, PP.PaymentFlowAnswers, MP.Exact, MP.WholeCents, FP.Permitted, AP.WellFormed, AfterPaymentHold, M.ReserveMoney;
      ghost var m, st := ats.store.Funds(), amn.store.View();
      if MP.Valid(m) && input.amount > 0.0 && !m.IsActive(HoldId(input.intentId)) {
        PP.PaymentFlowEnds(supported, amn.templates, m, st, input, ports);
      }
      if MP.Exact(m) && input.amount > 0.0 && MP.WholeCents(input.amount) && !m.IsActive(HoldId(input.intentId)) {
        PP.PaymentExact(supported, amn.templates, m, st, input, ports);
      }
      if AP.WellFormed(amn.templates) {
        PP.PaymentOnlyIfPermitted(supported, amn.templates, m, st, input, ports);
      }
      executed := false;
      if input.intentId != supported {
        return false, Err(UnsupportedIntent);
      }
      if !ports.lookups {
        return false, Err(PortFailed);
      }
      var reservation := ats.ReserveMonetaryBudget(input.Reservation());
      if reservation.Some? {
        return false, Err(AtsFailed(reservation.value));
      }
      executed, answer := DecideAndSettlePayment(input, ports);
    }
  }
}
