/** What a leaked hold costs: capacity that no hold accounts for, for good. */
module StrandedProofs {
  import opened Prelude
  import opened Sums
  import opened AtsTypes
  import opened ResourceLedger
  import RP = ResourceLedgerProofs
  import A = Approvals
  import opened Flows
  import FP = FlowProofs

  /** A quantity recorded as reserved on a budget and a quota that no active hold accounts for. */
  datatype Excess = Excess(budgetRef: Id, quotaRef: Id, quantity: real)

  function LessBudget(b: ResourceBudget, x: real): ResourceBudget {
    b.(limitQuantity := b.limitQuantity - x, reservedQuantity := Some(OrZero(b.reservedQuantity) - x))
  }

  function LessQuota(q: ResourceQuota, x: real): ResourceQuota {
    q.(maxQuantity := q.maxQuantity - x, reservedQuantity := Some(OrZero(q.reservedQuantity) - x))
  }

  /** The ledger as it would be had the excess, and as much of the limits, never been there. */
  function Without(l: Ledger, e: Excess): Ledger
    requires e.budgetRef in l.budgets && e.quotaRef in l.quotas
  {
    l.(budgets := l.budgets[e.budgetRef := LessBudget(l.budgets[e.budgetRef], e.quantity)],
       quotas := l.quotas[e.quotaRef := LessQuota(l.quotas[e.quotaRef], e.quantity)])
  }

  lemma PutWithout(l: Ledger, e: Excess, h: ResourceReservation, b: ResourceBudget, q: ResourceQuota)
    requires e.budgetRef in l.budgets && e.quotaRef in l.quotas
    ensures e.budgetRef in l.Put(h, b, q).budgets && e.quotaRef in l.Put(h, b, q).quotas
    ensures Without(l.Put(h, b, q), e) ==
            Without(l, e).Put(h, if b.budgetId == e.budgetRef then LessBudget(b, e.quantity) else b,
                              if q.quotaId == e.quotaRef then LessQuota(q, e.quantity) else q)
  {
    var b', q' := if b.budgetId == e.budgetRef then LessBudget(b, e.quantity) else b,
                  if q.quotaId == e.quotaRef then LessQuota(q, e.quantity) else q;
    assert Without(l.Put(h, b, q), e).budgets == Without(l, e).Put(h, b', q').budgets;
    assert Without(l.Put(h, b, q), e).quotas == Without(l, e).Put(h, b', q').quotas;
  }

  /** The ledger is consistent but for the excess. */
  ghost predicate Stranded(l: Ledger, e: Excess) {
    e.budgetRef in l.budgets && e.quotaRef in l.quotas && RP.Consistent(Without(l, e))
  }

  /** What that means: both records reserve more than their active holds add up to, by just the excess. */
  lemma StrandedMeans(l: Ledger, e: Excess)
    requires Stranded(l, e)
    ensures forall b :: b in l.budgets ==>
              && OrZero(l.budgets[b].reservedQuantity) == RP.HeldOnBudget(l, b) + (if b == e.budgetRef then e.quantity else 0.0)
              && l.budgets[b].availableQuantity ==
                 l.budgets[b].limitQuantity - l.budgets[b].consumedQuantity - OrZero(l.budgets[b].reservedQuantity)
    ensures forall q :: q in l.quotas ==>
              OrZero(l.quotas[q].reservedQuantity) == RP.HeldOnQuota(l, q) + (if q == e.quotaRef then e.quantity else 0.0)
  {
    var w := Without(l, e);
    forall b | b in l.budgets
      ensures RP.BudgetConsistent(w, b) && RP.HeldOnBudget(w, b) == RP.HeldOnBudget(l, b)
    {}
    forall q | q in l.quotas
      ensures RP.QuotaConsistent(w, q) && RP.HeldOnQuota(w, q) == RP.HeldOnQuota(l, q)
    {}
    hide RP.Consistent, RP.HeldOnBudget, RP.HeldOnQuota;
  }

  // ---- the calls do not see the excess ----

  lemma ReserveWithout(l: Ledger, e: Excess, args: ReserveArgs)
    requires e.budgetRef in l.budgets && e.quotaRef in l.quotas
    requires args.budgetRef in l.budgets ==> l.budgets[args.budgetRef].budgetId == args.budgetRef
    requires args.quotaRef in l.quotas ==> l.quotas[args.quotaRef].quotaId == args.quotaRef
    ensures Reserve(l, args).Ok? <==> Reserve(Without(l, e), args).Ok?
    ensures Reserve(l, args).Ok? ==>
              var l' := Reserve(l, args).value;
              && e.budgetRef in l'.budgets && e.quotaRef in l'.quotas
              && Reserve(Without(l, e), args) == Ok(Without(l', e))
  {
    if Reserve(l, args).Ok? {
      var l' := Reserve(l, args).value;
      PutWithout(l, e, NewHold(args), l'.budgets[args.budgetRef], l'.quotas[args.quotaRef]);
    }
  }

  lemma SettleWithout(l: Ledger, e: Excess, ref: Id, at: Timestamp)
    requires e.budgetRef in l.budgets && e.quotaRef in l.quotas && e.quantity >= 0.0
    requires l.IsActive(ref) ==> RP.Covered(Without(l, e), ref)
    ensures Settle(l, ref, at).Ok? <==> Settle(Without(l, e), ref, at).Ok?
    ensures Settle(l, ref, at).Ok? ==>
              var l' := Settle(l, ref, at).value;
              && e.budgetRef in l'.budgets && e.quotaRef in l'.quotas
              && Settle(Without(l, e), ref, at) == Ok(Without(l', e))
  {
    if Settle(l, ref, at).Ok? {
      var h, l' := l.holds[ref], Settle(l, ref, at).value;
      PutWithout(l, e, l'.holds[ref], l'.budgets[h.budgetRef], l'.quotas[h.quotaRef]);
    }
  }

  lemma ReleaseWithout(l: Ledger, e: Excess, ref: Id, at: Timestamp, reason: Option<string>)
    requires e.budgetRef in l.budgets && e.quotaRef in l.quotas && e.quantity >= 0.0
    requires l.IsActive(ref) ==> RP.Covered(Without(l, e), ref)
    ensures Release(l, ref, at, reason).Ok? <==> Release(Without(l, e), ref, at, reason).Ok?
    ensures Release(l, ref, at, reason).Ok? ==>
              var l' := Release(l, ref, at, reason).value;
              && e.budgetRef in l'.budgets && e.quotaRef in l'.quotas
              && Release(Without(l, e), ref, at, reason) == Ok(Without(l', e))
  {
    if Release(l, ref, at, reason).Ok? {
      var h, l' := l.holds[ref], Release(l, ref, at, reason).value;
      PutWithout(l, e, l'.holds[ref], l'.budgets[h.budgetRef], l'.quotas[h.quotaRef]);
    }
  }

  lemma WithoutKeepsIds(l: Ledger, e: Excess)
    requires Stranded(l, e)
    ensures forall b :: b in l.budgets ==> l.budgets[b].budgetId == b
    ensures forall q :: q in l.quotas ==> l.quotas[q].quotaId == q
  {
    assert forall b :: b in l.budgets ==> RP.BudgetConsistent(Without(l, e), b);
    assert forall q :: q in l.quotas ==> RP.QuotaConsistent(Without(l, e), q);
    hide RP.HeldOnBudget, RP.HeldOnQuota;
  }

  lemma StepWithout(l: Ledger, e: Excess, call: RP.Call)
    requires Stranded(l, e) && e.quantity >= 0.0
    ensures var l' := RP.Step(l, call);
            && e.budgetRef in l'.budgets && e.quotaRef in l'.quotas
            && RP.Step(Without(l, e), call) == Without(l', e)
            && (RP.ReusesActive(Without(l, e), call) <==> RP.ReusesActive(l, call))
  {
    WithoutKeepsIds(l, e);
    if !call.ReserveCall? && l.IsActive(call.ref) {
      RP.ConsistentCovered(Without(l, e), call.ref);
    }
    hide RP.Consistent, RP.Covered, Without, Reserve, Settle, Release;
    match call
    case ReserveCall(args) => ReserveWithout(l, e, args);
    case SettleCall(ref, at) => SettleWithout(l, e, ref, at);
    case ReleaseCall(ref, at, reason) => ReleaseWithout(l, e, ref, at, reason);
  }

  /** No later run that reuses no active id gives the excess back. */
  lemma {:induction false} StrandedForGood(l: Ledger, e: Excess, calls: seq<RP.Call>)
    requires Stranded(l, e) && e.quantity >= 0.0
    requires RP.PositiveQuantities(calls) && RP.NoActiveReuse(l, calls)
    ensures Stranded(RP.Run(l, calls), e)
    decreases calls
  {
    hide RP.Consistent, RP.Step, RP.ReusesActive, Without;
    if calls != [] {
      StepWithout(l, e, calls[0]);
      RP.StepConsistent(Without(l, e), calls[0]);
      StrandedForGood(RP.Step(l, calls[0]), e, calls[1..]);
    }
  }

  // ---- how a flow strands capacity ----

  function Dropped(l: Ledger, id: Id): Ledger {
    l.(holds := l.holds - {id})
  }

  function ExcessOf(h: ResourceReservation): Excess {
    Excess(h.budgetRef, h.quotaRef, h.quantity)
  }

  lemma DroppedBudget(l: Ledger, id: Id, b: Id)
    requires l.IsActive(id) && l.holds[id].budgetRef in l.budgets && l.holds[id].quotaRef in l.quotas
    requires b in l.budgets && RP.BudgetConsistent(l, b)
    ensures RP.BudgetConsistent(Without(Dropped(l, id), ExcessOf(l.holds[id])), b)
  {
    SumRemove(l.holds, RP.OnBudget(b), id);
  }

  lemma DroppedQuota(l: Ledger, id: Id, q: Id)
    requires l.IsActive(id) && l.holds[id].budgetRef in l.budgets && l.holds[id].quotaRef in l.quotas
    requires q in l.quotas && RP.QuotaConsistent(l, q)
    ensures RP.QuotaConsistent(Without(Dropped(l, id), ExcessOf(l.holds[id])), q)
  {
    SumRemove(l.holds, RP.OnQuota(q), id);
  }

  /** With an active hold dropped, its quantity is an excess. */
  lemma DroppedStrands(l: Ledger, id: Id)
    requires RP.Consistent(l) && l.IsActive(id)
    ensures Stranded(Dropped(l, id), ExcessOf(l.holds[id])) && l.holds[id].quantity > 0.0
  {
    assert RP.HoldValid(l, id);
    hide RP.BudgetConsistent, RP.QuotaConsistent;
    var w := Without(Dropped(l, id), ExcessOf(l.holds[id]));
    forall b | b in w.budgets
      ensures RP.BudgetConsistent(w, b)
    {
      DroppedBudget(l, id, b);
    }
    forall q | q in w.quotas
      ensures RP.QuotaConsistent(w, q)
    {
      DroppedQuota(l, id, q);
    }
    forall j | j in w.holds
      ensures RP.HoldValid(w, j)
    {
      assert RP.HoldValid(l, j);
    }
  }

  /** A reservation writes over whatever hold its id had. */
  lemma ReserveOverDropped(l: Ledger, args: ReserveArgs)
    ensures Reserve(Dropped(l, args.reservationId), args) == Reserve(l, args)
  {
    assert (l.holds - {args.reservationId})[args.reservationId := NewHold(args)] == l.holds[args.reservationId := NewHold(args)];
  }

  /** Reserving over an active hold strands the old hold's quantity on both records it named. */
  lemma ReserveStrands(l: Ledger, args: ReserveArgs)
    requires RP.Consistent(l) && l.IsActive(args.reservationId) && args.quantity > 0.0 && Reserve(l, args).Ok?
    ensures Stranded(Reserve(l, args).value, ExcessOf(l.holds[args.reservationId]))
  {
    var d, e := Dropped(l, args.reservationId), ExcessOf(l.holds[args.reservationId]);
    DroppedStrands(l, args.reservationId);
    ReserveOverDropped(l, args);
    hide RP.Consistent, Without, Reserve;
    StepWithout(d, e, RP.ReserveCall(args));
    RP.StepConsistent(Without(d, e), RP.ReserveCall(args));
  }

  /** Closing the hold of a stranded ledger succeeds and leaves the excess. */
  lemma CloseStranded(l: Ledger, e: Excess, call: RP.Call)
    requires Stranded(l, e) && e.quantity >= 0.0 && !call.ReserveCall? && l.IsActive(call.ref)
    ensures RP.Perform(l, call).Ok? && Stranded(RP.Perform(l, call).value, e)
    ensures !RP.Perform(l, call).value.IsActive(call.ref)
  {
    StepWithout(l, e, call);
    RP.StepConsistent(Without(l, e), call);
    WithoutKeepsIds(l, e);
    RP.ConsistentCovered(Without(l, e), call.ref);
    hide RP.Consistent, Without;
  }

  /**
   After a leak, retrying the intent places a new hold over the leaked one. Even when the retry
   does not leak, the leaked quantity stays reserved on both records with no hold to give it back,
   and so it does after every later run that reuses no active id.
   */
  lemma RetryAfterLeakStrands(supported: Id, t: A.Templates, l: Ledger, st: A.Tables, input: ResourceInput, ports: Ports,
                              later: seq<RP.Call>)
    requires RP.Consistent(l) && input.quantity > 0.0 && l.IsActive(HoldId(input.intentId))
    requires FP.HoldPlaced(supported, l, input, ports) && !FP.Leaks(t, st.mandates, input.Evaluation(), ports)
    requires var f := ResourceFlow(supported, t, l, st, input, ports);
             RP.PositiveQuantities(later) && RP.NoActiveReuse(f.ledger, later)
    ensures var e := ExcessOf(l.holds[HoldId(input.intentId)]);
            var f := ResourceFlow(supported, t, l, st, input, ports);
            && e.quantity > 0.0 && !f.ledger.IsActive(HoldId(input.intentId))
            && Stranded(f.ledger, e) && Stranded(RP.Run(f.ledger, later), e)
  {
    var e := ExcessOf(l.holds[HoldId(input.intentId)]);
    DroppedStrands(l, HoldId(input.intentId));
    RetryStrands(supported, t, l, st, input, ports);
    hide RP.Consistent, Stranded, ResourceFlow, FP.Leaks, FP.HoldPlaced;
    StrandedForGood(ResourceFlow(supported, t, l, st, input, ports).ledger, e, later);
  }

  lemma RetryStrands(supported: Id, t: A.Templates, l: Ledger, st: A.Tables, input: ResourceInput, ports: Ports)
    requires RP.Consistent(l) && input.quantity > 0.0 && l.IsActive(HoldId(input.intentId))
    requires FP.HoldPlaced(supported, l, input, ports) && !FP.Leaks(t, st.mandates, input.Evaluation(), ports)
    ensures var f := ResourceFlow(supported, t, l, st, input, ports);
            && !f.ledger.IsActive(HoldId(input.intentId))
            && Stranded(f.ledger, ExcessOf(l.holds[HoldId(input.intentId)]))
  {
    var hold, e := HoldId(input.intentId), ExcessOf(l.holds[HoldId(input.intentId)]);
    var l1 := Reserve(l, input.Reservation()).value;
    ReserveStrands(l, input.Reservation());
    DroppedStrands(l, hold);
    assert l1.IsActive(hold);
    hide RP.Consistent, Stranded, Authorize, Reserve, FP.Leaks;
    AfterHoldStranded(t, l1, st, input, ports, e);
  }

  lemma AfterHoldStranded(t: A.Templates, l1: Ledger, st: A.Tables, input: ResourceInput, ports: Ports, e: Excess)
    requires Stranded(l1, e) && e.quantity >= 0.0 && l1.IsActive(HoldId(input.intentId))
    requires !FP.Leaks(t, st.mandates, input.Evaluation(), ports)
    ensures var f := AfterResourceHold(t, l1, st, input, ports);
            !f.ledger.IsActive(HoldId(input.intentId)) && Stranded(f.ledger, e)
  {
    hide Stranded, Authorize, Settle, Release, ResultText, FP.DecisionThrows, FP.Approves;
    var hold := HoldId(input.intentId);
    FP.AuthorizeOutcome(t, st, input.Evaluation(), ports);
    var a := Authorize(t, st, input.Evaluation(), ports).answer.value;
    if a.decision.result != A.AuthApproved {
      CloseStranded(l1, e, RP.ReleaseCall(hold, ReleaseTime(a, ports), Some(ResultText(a.decision.result))));
    } else if !ports.execution {
      CloseStranded(l1, e, RP.ReleaseCall(hold, ports.now, Some("settlement-failed")));
    } else {
      CloseStranded(l1, e, RP.SettleCall(hold, ports.settledAt));
    }
  }
}
