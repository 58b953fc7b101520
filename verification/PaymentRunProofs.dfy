/** Sequences of payment flows over the rounding ledger. */
module PaymentRunProofs {
  import opened Prelude
  import opened AtsTypes
  import opened M = MonetaryLedger
  import MP = MonetaryLedgerProofs
  import A = Approvals
  import opened Flows
  import FP = FlowProofs
  import opened PaymentFlowProofs

  datatype Job = Job(input: PaymentInput, ports: Ports)

  function Flow(supported: Id, t: A.Templates, m: Money, st: A.Tables, job: Job): PaymentOutcome {
    PaymentFlow(supported, t, m, st, job.input, job.ports)
  }

  /** The ledger after a sequence of payment flows, one after the other. */
  function RunPayments(supported: Id, t: A.Templates, m: Money, st: A.Tables, jobs: seq<Job>): Money
    decreases jobs
  {
    if jobs == [] then m
    else
      var f := Flow(supported, t, m, st, jobs[0]);
      RunPayments(supported, t, f.money, f.tables, jobs[1..])
  }

  predicate LeaksNow(supported: Id, t: A.Templates, m: Money, st: A.Tables, job: Job) {
    HoldPlaced(supported, m, job.input, job.ports) && FP.Leaks(t, st.mandates, job.input.Evaluation(), job.ports)
  }

  predicate Clean(supported: Id, t: A.Templates, m: Money, st: A.Tables, jobs: seq<Job>)
    decreases jobs
  {
    jobs == [] ||
    (var f := Flow(supported, t, m, st, jobs[0]);
     !LeaksNow(supported, t, m, st, jobs[0]) && Clean(supported, t, f.money, f.tables, jobs[1..]))
  }

  predicate InactiveThroughout(supported: Id, t: A.Templates, m: Money, st: A.Tables, jobs: seq<Job>)
    decreases jobs
  {
    && !m.IsActive(HoldId(supported))
    && (jobs == [] ||
        (var f := Flow(supported, t, m, st, jobs[0]);
         InactiveThroughout(supported, t, f.money, f.tables, jobs[1..])))
  }

  predicate PositiveAmounts(jobs: seq<Job>) {
    forall i :: 0 <= i < |jobs| ==> jobs[i].input.amount > 0.0
  }

  predicate WholeAmounts(jobs: seq<Job>) {
    forall i :: 0 <= i < |jobs| ==> MP.WholeCents(jobs[i].input.amount)
  }

  /** The flow succeeded against this budget. */
  predicate Pays(f: PaymentOutcome, job: Job, b: Id) {
    f.answer.Ok? && b == job.input.budgetRef
  }

  /** The exact sum of the amounts that succeed against a budget. */
  function TotalPaid(supported: Id, t: A.Templates, m: Money, st: A.Tables, jobs: seq<Job>, b: Id): real
    decreases jobs
  {
    if jobs == [] then 0.0
    else
      var f := Flow(supported, t, m, st, jobs[0]);
      (if Pays(f, jobs[0], b) then jobs[0].input.amount else 0.0) + TotalPaid(supported, t, f.money, f.tables, jobs[1..], b)
  }

  /** How many succeed against it. */
  function Payments(supported: Id, t: A.Templates, m: Money, st: A.Tables, jobs: seq<Job>, b: Id): nat
    decreases jobs
  {
    if jobs == [] then 0
    else
      var f := Flow(supported, t, m, st, jobs[0]);
      (if Pays(f, jobs[0], b) then 1 else 0) + Payments(supported, t, f.money, f.tables, jobs[1..], b)
  }

  /** A flow of any intent: a flow of another intent is refused at once. */
  lemma FlowStep(supported: Id, t: A.Templates, m: Money, st: A.Tables, job: Job)
    requires MP.Valid(m) && job.input.amount > 0.0 && !m.IsActive(HoldId(supported))
    ensures var f := Flow(supported, t, m, st, job);
            && MP.Valid(f.money) && f.money.budgets.Keys == m.budgets.Keys
            && (f.money.IsActive(HoldId(supported)) <==> LeaksNow(supported, t, m, st, job))
            && (f.answer.Ok? ==> HoldPlaced(supported, m, job.input, job.ports))
            && forall b :: b in m.budgets ==>
                 f.money.budgets[b].consumedAmount ==
                 if Pays(f, job, b) then FromMoney(m.budgets[b].consumedAmount + job.input.amount)
                 else m.budgets[b].consumedAmount
  {
    hide MP.Valid, AfterPaymentHold, ReserveMoney, FP.Leaks, FromMoney;
    if job.input.intentId == supported {
      PaymentTransaction(supported, t, m, st, job.input, job.ports);
      hide PaymentFlow;
    }
  }

  /**
   Over any sequence of payment flows, whatever the amounts, the hold is inactive throughout
   exactly when no flow leaks, and then what a budget records as consumed is off from the exact
   sum of the successful amounts by at most half a cent for each of them.
   */
  lemma {:induction false} PaymentsConserve(supported: Id, t: A.Templates, m: Money, st: A.Tables, jobs: seq<Job>)
    requires MP.Valid(m) && PositiveAmounts(jobs) && !m.IsActive(HoldId(supported))
    ensures InactiveThroughout(supported, t, m, st, jobs) <==> Clean(supported, t, m, st, jobs)
    ensures Clean(supported, t, m, st, jobs) ==>
              var m' := RunPayments(supported, t, m, st, jobs);
              && MP.Valid(m') && m'.budgets.Keys == m.budgets.Keys
              && forall b :: b in m.budgets ==>
                   MP.Within(m'.budgets[b].consumedAmount
                             - (m.budgets[b].consumedAmount + TotalPaid(supported, t, m, st, jobs, b)),
                             Payments(supported, t, m, st, jobs, b) as real * MP.HALF_CENT)
    decreases jobs
  {
    hide MP.Valid, Flow, LeaksNow, FromMoney, HoldPlaced;
    if jobs != [] {
      FlowStep(supported, t, m, st, jobs[0]);
      var f := Flow(supported, t, m, st, jobs[0]);
      if !f.money.IsActive(HoldId(supported)) {
        PaymentsConserve(supported, t, f.money, f.tables, jobs[1..]);
        forall b | b in m.budgets
          ensures MP.Within(FromMoney(m.budgets[b].consumedAmount + jobs[0].input.amount)
                            - (m.budgets[b].consumedAmount + jobs[0].input.amount), MP.HALF_CENT)
        {
          MP.RoundingError(m.budgets[b].consumedAmount + jobs[0].input.amount);
        }
      } else {
        assert !InactiveThroughout(supported, t, f.money, f.tables, jobs[1..]);
      }
    }
  }

  /** With whole cents the sequence consumes exactly what succeeded, and never more than the limit. */
  lemma {:induction false} PaymentsExact(supported: Id, t: A.Templates, m: Money, st: A.Tables, jobs: seq<Job>)
    requires MP.Exact(m) && PositiveAmounts(jobs) && WholeAmounts(jobs) && !m.IsActive(HoldId(supported))
    requires Clean(supported, t, m, st, jobs)
    ensures var m' := RunPayments(supported, t, m, st, jobs);
            && MP.Exact(m') && m'.budgets.Keys == m.budgets.Keys
            && forall b :: b in m.budgets ==>
                 && m'.budgets[b].consumedAmount == m.budgets[b].consumedAmount + TotalPaid(supported, t, m, st, jobs, b)
                 && m'.budgets[b].limitAmount == m.budgets[b].limitAmount
                 && m'.budgets[b].consumedAmount <= m.budgets[b].limitAmount
    decreases jobs
  {
    hide Flow, LeaksNow, FromMoney, HoldPlaced, MP.WholeCents;
    if jobs == [] {
      ExactWithinLimits(m);
    } else {
      ExactStep(supported, t, m, st, jobs[0]);
      hide MP.Exact;
      var f := Flow(supported, t, m, st, jobs[0]);
      PaymentsExact(supported, t, f.money, f.tables, jobs[1..]);
    }
  }

  lemma ExactStep(supported: Id, t: A.Templates, m: Money, st: A.Tables, job: Job)
    requires MP.Exact(m) && job.input.amount > 0.0 && MP.WholeCents(job.input.amount) && !m.IsActive(HoldId(supported))
    requires !LeaksNow(supported, t, m, st, job)
    ensures var f := Flow(supported, t, m, st, job);
            && MP.Exact(f.money) && f.money.budgets.Keys == m.budgets.Keys && !f.money.IsActive(HoldId(supported))
            && forall b :: b in m.budgets ==>
                 && f.money.budgets[b].limitAmount == m.budgets[b].limitAmount
                 && f.money.budgets[b].consumedAmount ==
                    m.budgets[b].consumedAmount + (if Pays(f, job, b) then job.input.amount else 0.0)
  {
    ExactValid(m);
    hide MP.Exact, MP.WholeCents, FP.Leaks;
    FlowStep(supported, t, m, st, job);
    FlowKeepsLimits(supported, t, m, st, job);
    hide MP.Valid, AfterPaymentHold, ReserveMoney, FromMoney;
    if job.input.intentId == supported {
      PaymentExact(supported, t, m, st, job.input, job.ports);
      hide PaymentFlow;
    }
  }

  lemma ExactWithinLimits(m: Money)
    requires MP.Exact(m)
    ensures forall b :: b in m.budgets ==> m.budgets[b].consumedAmount <= m.budgets[b].limitAmount
  {
    forall b | b in m.budgets
      ensures m.budgets[b].consumedAmount <= m.budgets[b].limitAmount
    {
      assert MP.BudgetExact(m, b);
      MP.HeldNonNegative(m, b);
    }
  }

  // ---- limits, whatever the amounts ----

  predicate SameLimits(m: Money, m': Money) {
    && m'.budgets.Keys == m.budgets.Keys
    && forall b :: b in m.budgets ==> m'.budgets[b].limitAmount == m.budgets[b].limitAmount
  }

  predicate NoNegativeReserve(m: Money) {
    forall b :: b in m.budgets ==> OrZero(m.budgets[b].reservedAmount) >= 0.0
  }

  /** A ledger call changes no limit and leaves no negative reservation. */
  lemma CallKeepsLimits(m: Money, call: MP.Call)
    requires MP.Valid(m) && (call.ReserveCall? ==> call.args.amount > 0.0)
    ensures SameLimits(m, MP.Step(m, call))
    ensures NoNegativeReserve(m) ==> NoNegativeReserve(MP.Step(m, call))
  {
    match call
    case ReserveCall(args) =>
      if args.budgetRef in m.budgets {
        MP.RoundingError(OrZero(m.budgets[args.budgetRef].reservedAmount) + args.amount);
      }
      hide FromMoney;
    case SettleCall(ref, _) =>
      ClosingNonNegative(m, ref);
      hide FromMoney;
    case ReleaseCall(ref, _, _) =>
      ClosingNonNegative(m, ref);
      hide FromMoney;
  }

  lemma ClosingNonNegative(m: Money, ref: Id)
    requires MP.Valid(m)
    ensures m.IsActive(ref) ==>
              && m.holds[ref].budgetRef in m.budgets
              && m.budgets[m.holds[ref].budgetRef].budgetId == m.holds[ref].budgetRef
              && FromMoney(ClampZero(OrZero(m.budgets[m.holds[ref].budgetRef].reservedAmount) - m.holds[ref].amount)) >= 0.0
  {
    if m.IsActive(ref) {
      assert MP.HoldValid(m, ref);
      MP.RoundingError(ClampZero(OrZero(m.budgets[m.holds[ref].budgetRef].reservedAmount) - m.holds[ref].amount));
    }
  }

  /** A payment flow is at most two proper ledger calls. */
  lemma FlowIsCalls(supported: Id, t: A.Templates, m: Money, st: A.Tables, job: Job) returns (calls: seq<MP.Call>)
    requires MP.Valid(m) && job.input.amount > 0.0 && !m.IsActive(HoldId(supported))
    ensures |calls| <= 2 && MP.AllProper(m, calls) && MP.Run(m, calls) == Flow(supported, t, m, st, job).money
  {
    hide MP.Valid, AfterPaymentHold, ReserveMoney, SettleMoney, ReleaseMoney, FP.Leaks;
    var input, ports := job.input, job.ports;
    calls := [];
    if HoldPlaced(supported, m, input, ports) {
      PlacedHold(m, input);
      var m1 := ReserveMoney(m, input.Reservation()).value;
      AfterHold(t, m1, st, input, ports);
      var first := MP.ReserveCall(input.Reservation());
      var f := AfterPaymentHold(t, m1, st, input, ports);
      calls := [first];
      assert calls[1..] == [] && MP.Step(m, first) == m1 && MP.Proper(m, first);
      assert MP.AllProper(m1, []);
      if !FP.Leaks(t, st.mandates, input.Evaluation(), ports) {
        var closing: MP.Call;
        if f.answer.Ok? {
          var at :| SettleMoney(m1, HoldId(supported), at) == Ok(f.money);
          closing := MP.SettleCall(HoldId(supported), at);
        } else {
          var at, reason :| ReleaseMoney(m1, HoldId(supported), at, reason) == Ok(f.money);
          closing := MP.ReleaseCall(HoldId(supported), at, reason);
        }
        calls := [first, closing];
        assert calls[1..] == [closing] && calls[1..][1..] == [];
        assert MP.Step(m1, closing) == f.money && MP.Proper(m1, closing);
        assert [closing][1..] == [] && MP.AllProper(f.money, []);
        assert MP.AllProper(m1, [closing]) && MP.Run(m1, [closing]) == f.money;
      }
    }
  }

  lemma {:induction false} RunKeepsLimits(m: Money, calls: seq<MP.Call>)
    requires MP.Valid(m) && MP.AllProper(m, calls)
    ensures SameLimits(m, MP.Run(m, calls))
    ensures NoNegativeReserve(m) ==> NoNegativeReserve(MP.Run(m, calls))
    decreases calls
  {
    hide MP.Valid, MP.Step;
    if calls != [] {
      CallKeepsLimits(m, calls[0]);
      MP.StepValid(m, calls[0]);
      RunKeepsLimits(MP.Step(m, calls[0]), calls[1..]);
    }
  }

  lemma FlowKeepsLimits(supported: Id, t: A.Templates, m: Money, st: A.Tables, job: Job)
    requires MP.Valid(m) && job.input.amount > 0.0 && !m.IsActive(HoldId(supported))
    ensures var m' := Flow(supported, t, m, st, job).money;
            SameLimits(m, m') && (NoNegativeReserve(m) ==> NoNegativeReserve(m'))
  {
    hide MP.Valid, Flow, MP.AllProper, MP.Run;
    var calls := FlowIsCalls(supported, t, m, st, job);
    RunKeepsLimits(m, calls);
  }

  /** Limits are in whole cents and not exceeded by what is recorded as consumed. */
  predicate WithinLimits(m: Money) {
    && NoNegativeReserve(m)
    && forall b :: b in m.budgets ==>
         MP.WholeCents(m.budgets[b].limitAmount) && m.budgets[b].consumedAmount <= m.budgets[b].limitAmount
  }

  lemma RoundsWithin(x: real, y: real)
    requires x <= y && MP.WholeCents(y)
    ensures FromMoney(x) <= y
  {
    MP.CentsError(x);
    var n := (y * 100.0).Floor;
    assert n as real == y * 100.0;
    assert Cents(x) as real <= n as real + 0.5;
    assert Cents(x) <= n;
    hide Cents;
  }

  lemma ReserveFits(m: Money, args: ReserveMoneyArgs)
    requires ReserveMoney(m, args).Ok? && OrZero(m.budgets[args.budgetRef].reservedAmount) >= 0.0
    ensures m.budgets[args.budgetRef].consumedAmount + args.amount <= m.budgets[args.budgetRef].limitAmount
  {
    hide FromMoney;
  }

  lemma FlowWithinLimits(supported: Id, t: A.Templates, m: Money, st: A.Tables, job: Job)
    requires MP.Valid(m) && job.input.amount > 0.0 && !m.IsActive(HoldId(supported)) && WithinLimits(m)
    ensures WithinLimits(Flow(supported, t, m, st, job).money)
  {
    hide MP.Valid, Flow, FP.Leaks, FromMoney, ReserveMoney, MP.WholeCents;
    FlowStep(supported, t, m, st, job);
    FlowKeepsLimits(supported, t, m, st, job);
    var f := Flow(supported, t, m, st, job);
    forall b | b in f.money.budgets
      ensures f.money.budgets[b].consumedAmount <= f.money.budgets[b].limitAmount
    {
      if Pays(f, job, b) {
        ReserveFits(m, job.input.Reservation());
        RoundsWithin(m.budgets[b].consumedAmount + job.input.amount, m.budgets[b].limitAmount);
      }
    }
  }

  /**
   Whatever the amounts, recorded consumption stays within the limit, so the successful amounts
   exceed what the limit left by at most half a cent for each of them.
   */
  lemma {:induction false} PaymentsWithinLimits(supported: Id, t: A.Templates, m: Money, st: A.Tables, jobs: seq<Job>)
    requires MP.Valid(m) && PositiveAmounts(jobs) && !m.IsActive(HoldId(supported)) && WithinLimits(m)
    requires Clean(supported, t, m, st, jobs)
    ensures var m' := RunPayments(supported, t, m, st, jobs); WithinLimits(m') && SameLimits(m, m')
    ensures forall b :: b in m.budgets ==>
              m.budgets[b].consumedAmount + TotalPaid(supported, t, m, st, jobs, b) <=
              m.budgets[b].limitAmount + Payments(supported, t, m, st, jobs, b) as real * MP.HALF_CENT
  {
    RunWithinLimits(supported, t, m, st, jobs);
    PaymentsConserve(supported, t, m, st, jobs);
    hide MP.Valid, RunPayments, TotalPaid, Payments, Clean, InactiveThroughout;
  }

  lemma {:induction false} RunWithinLimits(supported: Id, t: A.Templates, m: Money, st: A.Tables, jobs: seq<Job>)
    requires MP.Valid(m) && PositiveAmounts(jobs) && !m.IsActive(HoldId(supported)) && WithinLimits(m)
    requires Clean(supported, t, m, st, jobs)
    ensures var m' := RunPayments(supported, t, m, st, jobs); WithinLimits(m') && SameLimits(m, m')
    decreases jobs
  {
    hide MP.Valid, Flow, LeaksNow, WithinLimits, NoNegativeReserve;
    if jobs != [] {
      FlowStep(supported, t, m, st, jobs[0]);
      FlowWithinLimits(supported, t, m, st, jobs[0]);
      FlowKeepsLimits(supported, t, m, st, jobs[0]);
      var f := Flow(supported, t, m, st, jobs[0]);
      RunWithinLimits(supported, t, f.money, f.tables, jobs[1..]);
    }
  }

  /** And the recorded reservations drift by at most a cent a flow. */
  lemma {:induction false} PaymentsDrift(supported: Id, t: A.Templates, m: Money, st: A.Tables, jobs: seq<Job>, b: Id, bound: real)
    requires MP.Valid(m) && PositiveAmounts(jobs) && !m.IsActive(HoldId(supported))
    requires Clean(supported, t, m, st, jobs)
    requires b in m.budgets && MP.Within(MP.Drift(m, b), bound)
    ensures b in RunPayments(supported, t, m, st, jobs).budgets
    ensures MP.Within(MP.Drift(RunPayments(supported, t, m, st, jobs), b), bound + |jobs| as real * MP.CENT)
    decreases jobs
  {
    hide MP.Valid, Flow, LeaksNow, MP.Drift;
    if jobs != [] {
      FlowStep(supported, t, m, st, jobs[0]);
      var f := Flow(supported, t, m, st, jobs[0]);
      var calls := FlowIsCalls(supported, t, m, st, jobs[0]);
      MP.DriftBound(m, calls, b, bound);
      MP.CallsAtMost(m, calls, b);
      PaymentsDrift(supported, t, f.money, f.tables, jobs[1..], b, bound + MP.CENT);
    }
  }

  // ---- sequences that cannot leak ----

  predicate AllAnswering(supported: Id, t: A.Templates, mandates: set<Id>, jobs: seq<Job>)
    requires FP.Complete(t, supported)
  {
    forall i :: 0 <= i < |jobs| && jobs[i].input.intentId == supported ==>
      jobs[i].input.mandateRef in mandates && FP.Answering(t, supported, jobs[i].ports)
  }

  lemma FlowKeepsMandates(supported: Id, t: A.Templates, m: Money, st: A.Tables, job: Job)
    ensures Flow(supported, t, m, st, job).tables.mandates == st.mandates
  {
    FP.AuthorizeOutcome(t, st, job.input.Evaluation(), job.ports);
    hide Authorize, ReserveMoney, SettleMoney, ReleaseMoney, FP.DecisionThrows, FP.Approves, ResultText;
  }

  /** With known mandates, complete templates and ports that answer, no payment flow leaks. */
  lemma {:induction false} AnsweringIsClean(supported: Id, t: A.Templates, m: Money, st: A.Tables, jobs: seq<Job>)
    requires FP.Complete(t, supported) && AllAnswering(supported, t, st.mandates, jobs)
    ensures Clean(supported, t, m, st, jobs)
    decreases jobs
  {
    hide Flow, FP.Leaks, FP.Complete, FP.Answering;
    if jobs != [] {
      if jobs[0].input.intentId == supported {
        FP.AnsweringNeverLeaks(t, st.mandates, jobs[0].input.Evaluation(), jobs[0].ports);
      }
      FlowKeepsMandates(supported, t, m, st, jobs[0]);
      var f := Flow(supported, t, m, st, jobs[0]);
      AnsweringIsClean(supported, t, f.money, f.tables, jobs[1..]);
    }
  }
}
