/** The payment flow as a transaction over the rounding ledger. */
module PaymentFlowProofs {
  import opened Prelude
  import opened AtsTypes
  import opened M = MonetaryLedger
  import MP = MonetaryLedgerProofs
  import A = Approvals
  import AP = ApprovalsProofs
  import opened Flows
  import FP = FlowProofs

  predicate HoldPlaced(supported: Id, m: Money, input: PaymentInput, ports: Ports) {
    input.intentId == supported && ports.lookups && ReserveMoney(m, input.Reservation()).Ok?
  }

  /** The money left by closing the placed hold one way or the other. */
  ghost predicate ClosedBy(m1: Money, hold: Id, m2: Money, settled: bool) {
    || (settled && exists at :: SettleMoney(m1, hold, at) == Ok(m2))
    || (!settled && exists at, reason :: ReleaseMoney(m1, hold, at, reason) == Ok(m2))
  }

  /** After the hold is placed: kept exactly on a leak, else settled on success and released otherwise. */
  lemma AfterHold(t: A.Templates, m1: Money, st: A.Tables, input: PaymentInput, ports: Ports)
    requires MP.Valid(m1) && m1.IsActive(HoldId(input.intentId))
    ensures var f := AfterPaymentHold(t, m1, st, input, ports);
            if FP.Leaks(t, st.mandates, input.Evaluation(), ports) then f.money == m1 && f.answer.Err?
            else ClosedBy(m1, HoldId(input.intentId), f.money, f.answer.Ok?)
  {
    var hold := HoldId(input.intentId);
    assert MP.HoldValid(m1, hold);
    ClosingSucceeds(m1, hold);
    hide Authorize, MP.Valid, SettleMoney, ReleaseMoney, ResultText;
    FP.AuthorizeOutcome(t, st, input.Evaluation(), ports);
    hide FP.DecisionThrows, FP.Approves;
    var authorized := Authorize(t, st, input.Evaluation(), ports);
    var f := AfterPaymentHold(t, m1, st, input, ports);
    if !FP.Leaks(t, st.mandates, input.Evaluation(), ports) {
      var a := authorized.answer.value;
      if a.decision.result != A.AuthApproved {
        assert ReleaseMoney(m1, hold, ReleaseTime(a, ports), Some(ResultText(a.decision.result))) == Ok(f.money);
      } else if !ports.execution {
        assert ReleaseMoney(m1, hold, ports.now, Some("settlement-failed")) == Ok(f.money);
      } else {
        assert SettleMoney(m1, hold, ports.settledAt) == Ok(f.money);
      }
    }
  }

  lemma ClosingSucceeds(m: Money, ref: Id)
    requires m.IsActive(ref) && m.holds[ref].budgetRef in m.budgets
    ensures forall at :: SettleMoney(m, ref, at).Ok?
    ensures forall at, reason :: ReleaseMoney(m, ref, at, reason).Ok?
  {}

  /** `m1` is `m` with the intent's hold placed. */
  lemma PlacedHold(m: Money, input: PaymentInput)
    requires MP.Valid(m) && input.amount > 0.0 && !m.IsActive(HoldId(input.intentId))
    requires ReserveMoney(m, input.Reservation()).Ok?
    ensures var m1 := ReserveMoney(m, input.Reservation()).value;
            && MP.Valid(m1) && m1.IsActive(HoldId(input.intentId))
            && m1.holds[HoldId(input.intentId)].amount == input.amount
            && m1.holds[HoldId(input.intentId)].budgetRef == input.budgetRef
            && m1.budgets.Keys == m.budgets.Keys
            && forall b :: b in m.budgets ==> m1.budgets[b].consumedAmount == m.budgets[b].consumedAmount
  {
    hide FromMoney;
    MP.StepValid(m, MP.ReserveCall(input.Reservation()));
  }

  lemma ClosedHold(m1: Money, hold: Id, m2: Money, settled: bool)
    requires MP.Valid(m1) && m1.IsActive(hold) && ClosedBy(m1, hold, m2, settled)
    ensures MP.Valid(m2) && !m2.IsActive(hold) && m2.budgets.Keys == m1.budgets.Keys
    ensures forall b :: b in m1.budgets ==>
              m2.budgets[b].consumedAmount ==
              if settled && b == m1.holds[hold].budgetRef then FromMoney(m1.budgets[b].consumedAmount + m1.holds[hold].amount)
              else m1.budgets[b].consumedAmount
  {
    hide FromMoney;
    assert MP.HoldValid(m1, hold);
    if settled {
      var at :| SettleMoney(m1, hold, at) == Ok(m2);
      MP.StepValid(m1, MP.SettleCall(hold, at));
    } else {
      var at, reason :| ReleaseMoney(m1, hold, at, reason) == Ok(m2);
      MP.StepValid(m1, MP.ReleaseCall(hold, at, reason));
    }
  }

  /**
   The payment flow, for amounts of any precision: its hold stays active exactly when an
   unguarded port throws, and consumption moves only on success, to the rounded sum.
   */
  lemma PaymentTransaction(supported: Id, t: A.Templates, m: Money, st: A.Tables, input: PaymentInput, ports: Ports)
    requires MP.Valid(m) && input.amount > 0.0 && !m.IsActive(HoldId(input.intentId))
    ensures var f := PaymentFlow(supported, t, m, st, input, ports);
            var leaks := HoldPlaced(supported, m, input, ports) && FP.Leaks(t, st.mandates, input.Evaluation(), ports);
            && MP.Valid(f.money) && f.money.budgets.Keys == m.budgets.Keys
            && (f.money.IsActive(HoldId(input.intentId)) <==> leaks)
            && (f.answer.Ok? ==> HoldPlaced(supported, m, input, ports) && !leaks)
            && forall b :: b in m.budgets ==>
                 f.money.budgets[b].consumedAmount ==
                 if f.answer.Ok? && b == input.budgetRef then FromMoney(m.budgets[b].consumedAmount + input.amount)
                 else m.budgets[b].consumedAmount
  {
    hide MP.Valid, AfterPaymentHold, ReserveMoney, FP.Leaks, FromMoney, ClosedBy;
    if HoldPlaced(supported, m, input, ports) {
      PlacedHold(m, input);
      var m1 := ReserveMoney(m, input.Reservation()).value;
      AfterHold(t, m1, st, input, ports);
      if !FP.Leaks(t, st.mandates, input.Evaluation(), ports) {
        var f := AfterPaymentHold(t, m1, st, input, ports);
        ClosedHold(m1, HoldId(input.intentId), f.money, f.answer.Ok?);
      }
    }
  }

  /**
   A payment flow that placed and closed its hold leaves the recorded reservation of its budget
   as it was exactly when the amount is not an odd number of half cents.
   */
  lemma PaymentRestoresReservation(supported: Id, t: A.Templates, m: Money, st: A.Tables, input: PaymentInput, ports: Ports)
    requires MP.Valid(m) && input.amount > 0.0 && !m.IsActive(HoldId(input.intentId))
    requires HoldPlaced(supported, m, input, ports) && !FP.Leaks(t, st.mandates, input.Evaluation(), ports)
    requires input.budgetRef in m.budgets
    requires var r := OrZero(m.budgets[input.budgetRef].reservedAmount); r >= 0.0 && MP.WholeCents(r)
    ensures var f := PaymentFlow(supported, t, m, st, input, ports);
            && input.budgetRef in f.money.budgets
            && (OrZero(f.money.budgets[input.budgetRef].reservedAmount) == OrZero(m.budgets[input.budgetRef].reservedAmount)
                <==> !MP.OddHalfCents(input.amount))
  {
    hide MP.Valid, AfterPaymentHold, ReserveMoney, FP.Leaks, FromMoney, ClosedBy, MP.OddHalfCents, MP.WholeCents;
    var hold := HoldId(input.intentId);
    var m1 := ReserveMoney(m, input.Reservation()).value;
    PlacedHold(m, input);
    ReservedBy(m, input);
    AfterHold(t, m1, st, input, ports);
    var f := AfterPaymentHold(t, m1, st, input, ports);
    ReservationClosed(m1, hold, f.money, f.answer.Ok?);
    MP.RoundTripOfReservation(OrZero(m.budgets[input.budgetRef].reservedAmount), input.amount);
  }

  lemma ReservedBy(m: Money, input: PaymentInput)
    requires MP.Valid(m) && ReserveMoney(m, input.Reservation()).Ok?
    ensures var m1 := ReserveMoney(m, input.Reservation()).value;
            && input.budgetRef in m1.budgets
            && OrZero(m1.budgets[input.budgetRef].reservedAmount) ==
               FromMoney(OrZero(m.budgets[input.budgetRef].reservedAmount) + input.amount)
  {
    hide FromMoney;
  }

  lemma ReservationClosed(m1: Money, hold: Id, m2: Money, settled: bool)
    requires MP.Valid(m1) && m1.IsActive(hold) && ClosedBy(m1, hold, m2, settled)
    ensures var b := m1.holds[hold].budgetRef;
            && b in m1.budgets && b in m2.budgets
            && OrZero(m2.budgets[b].reservedAmount) ==
               FromMoney(ClampZero(OrZero(m1.budgets[b].reservedAmount) - m1.holds[hold].amount))
  {
    hide FromMoney;
    assert MP.HoldValid(m1, hold);
  }

  /** With a whole-cent amount the flow keeps the ledger exact and consumes exactly the amount. */
  lemma PaymentExact(supported: Id, t: A.Templates, m: Money, st: A.Tables, input: PaymentInput, ports: Ports)
    requires MP.Exact(m) && input.amount > 0.0 && MP.WholeCents(input.amount) && !m.IsActive(HoldId(input.intentId))
    ensures var f := PaymentFlow(supported, t, m, st, input, ports);
            && MP.Exact(f.money) && f.money.budgets.Keys == m.budgets.Keys
            && forall b :: b in m.budgets ==>
                 f.money.budgets[b].consumedAmount ==
                 m.budgets[b].consumedAmount + (if f.answer.Ok? && b == input.budgetRef then input.amount else 0.0)
  {
    hide MP.Valid, AfterPaymentHold, FP.Leaks, FromMoney, ClosedBy, MP.WholeCents, MP.BudgetExact;
    if HoldPlaced(supported, m, input, ports) {
      PlacedHold(m, input);
      MP.StepExact(m, MP.ReserveCall(input.Reservation()));
      hide MP.Exact, ReserveMoney;
      var m1 := ReserveMoney(m, input.Reservation()).value;
      ExactValid(m1);
      AfterHold(t, m1, st, input, ports);
      if !FP.Leaks(t, st.mandates, input.Evaluation(), ports) {
        var f := AfterPaymentHold(t, m1, st, input, ports);
        ClosedExact(m1, HoldId(input.intentId), f.money, f.answer.Ok?);
      }
    }
  }

  lemma ExactValid(m: Money)
    requires MP.Exact(m)
    ensures MP.Valid(m)
  {}

  lemma ClosedExact(m1: Money, hold: Id, m2: Money, settled: bool)
    requires MP.Exact(m1) && m1.IsActive(hold) && ClosedBy(m1, hold, m2, settled)
    ensures MP.Exact(m2) && m2.budgets.Keys == m1.budgets.Keys
    ensures forall b :: b in m1.budgets ==>
              m2.budgets[b].consumedAmount ==
              m1.budgets[b].consumedAmount + (if settled && b == m1.holds[hold].budgetRef then m1.holds[hold].amount else 0.0)
  {
    hide MP.Exact;
    if settled {
      var at :| SettleMoney(m1, hold, at) == Ok(m2);
      MP.StepExact(m1, MP.SettleCall(hold, at));
    } else {
      var at, reason :| ReleaseMoney(m1, hold, at, reason) == Ok(m2);
      MP.StepExact(m1, MP.ReleaseCall(hold, at, reason));
    }
    hide SettleMoney, ReleaseMoney;
  }

  /** The intent is the supported one, the lookups answer, and the budget exists and records room for the amount. */
  predicate Places(supported: Id, m: Money, input: PaymentInput, ports: Ports) {
    && input.intentId == supported && ports.lookups && input.budgetRef in m.budgets
    && var b := m.budgets[input.budgetRef];
       b.consumedAmount + OrZero(b.reservedAmount) + input.amount <= b.limitAmount
  }

  lemma PlacesIsHoldPlaced(supported: Id, m: Money, input: PaymentInput, ports: Ports)
    ensures HoldPlaced(supported, m, input, ports) <==> Places(supported, m, input, ports)
  {
    hide FromMoney;
  }

  /** How the flow leaves its hold. */
  predicate HoldOf(ending: FP.Ending, h: MonetaryReservation, ports: Ports) {
    match ending
    case Succeeds => h.status == Settled && h.settledAt == Some(ports.settledAt)
    case Throws => h.status == Reserved
    case ThrowsAfterActing => h.status == Reserved
    case Refused(result, at) =>
      h.status == Released && h.releasedAt == Some(at) && h.releaseReasonCode == Some(ResultText(result))
    case Fails =>
      h.status == Released && h.releasedAt == Some(ports.now) && h.releaseReasonCode == Some("settlement-failed")
  }

  lemma AfterHoldEnds(t: A.Templates, m1: Money, st: A.Tables, input: PaymentInput, ports: Ports)
    requires MP.Valid(m1) && m1.IsActive(HoldId(input.intentId))
    ensures var f := AfterPaymentHold(t, m1, st, input, ports);
            var ending := FP.EndingOf(t, st.mandates, input.Evaluation(), ports);
            && FP.AnswerOf(ending, f.executed, f.answer)
            && HoldId(input.intentId) in f.money.holds && HoldOf(ending, f.money.holds[HoldId(input.intentId)], ports)
  {
    var hold := HoldId(input.intentId);
    hide Authorize, MP.Valid, SettleMoney, ReleaseMoney, FP.DecisionThrows, ResultText;
    FP.AuthorizeOutcome(t, st, input.Evaluation(), ports);
    FP.AuthorizeErrors(t, st, input.Evaluation(), ports);
    hide FP.Decides, FP.DecidedAt;
    var authorized := Authorize(t, st, input.Evaluation(), ports);
    if authorized.answer.Ok? {
      var a := authorized.answer.value;
      if a.decision.result != A.AuthApproved {
        MP.ReleaseMoneyIs(m1, hold, ReleaseTime(a, ports), Some(ResultText(a.decision.result)));
        assert FP.EndingOf(t, st.mandates, input.Evaluation(), ports) == FP.Refused(a.decision.result, ReleaseTime(a, ports));
      } else if !ports.execution {
        MP.ReleaseMoneyIs(m1, hold, ports.now, Some("settlement-failed"));
      } else {
        MP.SettleMoneyIs(m1, hold, ports.settledAt);
      }
    }
  }

  predicate PaymentFlowAnswers(supported: Id, t: A.Templates, m: Money, mandates: set<Id>, input: PaymentInput, ports: Ports,
                               m': Money, executed: bool, answer: Result<A.Decision, FlowError>)
  {
    var args, hold := input.Evaluation(), HoldId(input.intentId);
    && (answer.Ok? <==> Places(supported, m, input, ports) && FP.Approves(t, mandates, args, ports)
                        && ports.execution && ports.Recorded())
    && (executed <==> Places(supported, m, input, ports) && FP.Approves(t, mandates, args, ports) && ports.execution)
    && (if Places(supported, m, input, ports)
        then
          && FP.AnswerOf(FP.EndingOf(t, mandates, args, ports), executed, answer)
          && hold in m'.holds && HoldOf(FP.EndingOf(t, mandates, args, ports), m'.holds[hold], ports)
        else
          && m' == m && !executed
          && answer == Err(if input.intentId != supported then UnsupportedIntent
                           else if !ports.lookups then PortFailed
                           else if input.budgetRef !in m.budgets then AtsFailed(UnknownBudget(input.budgetRef))
                           else AtsFailed(BudgetExceeded(input.budgetRef))))
  }

  /**
   What every payment flow comes to: it succeeds exactly when the hold is placed, the decision
   approves, the adapter acts and all is recorded; otherwise its answer and its hold say why.
   */
  lemma PaymentFlowEnds(supported: Id, t: A.Templates, m: Money, st: A.Tables, input: PaymentInput, ports: Ports)
    requires MP.Valid(m) && input.amount > 0.0 && !m.IsActive(HoldId(input.intentId))
    ensures var f := PaymentFlow(supported, t, m, st, input, ports);
            PaymentFlowAnswers(supported, t, m, st.mandates, input, ports, f.money, f.executed, f.answer)
  {
    PlacesIsHoldPlaced(supported, m, input, ports);
    FP.EndingMeans(t, st.mandates, input.Evaluation(), ports);
    hide MP.Valid, FP.EndingOf, FP.Leaks, FP.Approves, AfterPaymentHold, FromMoney, FP.AnswerOf, HoldOf;
    if HoldPlaced(supported, m, input, ports) {
      PlacedHold(m, input);
      hide ReserveMoney;
      AfterHoldEnds(t, ReserveMoney(m, input.Reservation()).value, st, input, ports);
      var f := AfterPaymentHold(t, ReserveMoney(m, input.Reservation()).value, st, input, ports);
      FP.EndingAnswers(FP.EndingOf(t, st.mandates, input.Evaluation(), ports), f.executed, f.answer);
    }
  }

  /** A payment is executed only for a permitted intent. */
  lemma PaymentOnlyIfPermitted(supported: Id, t: A.Templates, m: Money, st: A.Tables, input: PaymentInput, ports: Ports)
    requires AP.WellFormed(t)
    ensures var f := PaymentFlow(supported, t, m, st, input, ports);
            && (f.executed ==> FP.Permitted(t, f.tables, input.intentId))
            && (f.answer.Ok? ==> f.executed)
  {
    hide FP.Permitted, Authorize, SettleMoney, ReleaseMoney, ReserveMoney, AP.WellFormed;
    if Authorize(t, st, input.Evaluation(), ports).answer.Ok? {
      FP.AuthorizedMeansPermitted(t, st, input.Evaluation(), ports);
    }
  }
}
