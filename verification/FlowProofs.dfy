/** Flows as transactions over the ledger, gated by the approval protocol. */
module FlowProofs {
  import opened Prelude
  import opened Sums
  import opened AtsTypes
  import opened R = ResourceLedger
  import RP = ResourceLedgerProofs
  import opened M = MonetaryLedger
  import MP = MonetaryLedgerProofs
  import A = Approvals
  import AP = ApprovalsProofs
  import opened Flows

  // ---- approval ----

  /** The session of the intent's challenge is finalized on a stored result that approves. */
  predicate ApprovedSession(t: A.Templates, st: A.Tables, intentId: Id) {
    && intentId in t.challenge
    && var id := A.SessionId(t.challenge[intentId].challengeId);
       && id in st.sessions && st.sessions[id].status == A.Finalized
       && st.sessions[id].approvalResultRef.Some? && st.sessions[id].approvalResultRef.value in st.results
       && st.results[st.sessions[id].approvalResultRef.value].result == A.Approved
  }

  /** The intent needs no challenge, or its challenge was approved in this flow. */
  predicate Permitted(t: A.Templates, st: A.Tables, intentId: Id) {
    && intentId in t.initial
    && (t.initial[intentId].result == A.AuthApproved ||
        (t.initial[intentId].result == A.ChallengeRequired && ApprovedSession(t, st, intentId)))
  }

  /** Authorization says "approved" exactly when the intent is permitted. */
  lemma AuthorizedMeansPermitted(t: A.Templates, st: A.Tables, args: A.EvaluateArgs, ports: Ports)
    requires AP.WellFormed(t) && Authorize(t, st, args, ports).answer.Ok?
    ensures var authorized := Authorize(t, st, args, ports);
            authorized.answer.value.decision.result == A.AuthApproved <==> Permitted(t, authorized.tables, args.actionRef)
  {
    var evaluated := A.Evaluate(t, st, args);
    var initial := evaluated.answer.value;
    if initial.result == A.ChallengeRequired {
      ChallengeMeansApproval(t, evaluated.tables, initial, ports);
    }
  }

  lemma ChallengeMeansApproval(t: A.Templates, st: A.Tables, initial: A.Decision, ports: Ports)
    requires AP.WellFormed(t) && Challenge(t, st, initial, ports).answer.Ok?
    requires initial.decisionId in st.decisions && st.decisions[initial.decisionId] == initial
    ensures var challenged := Challenge(t, st, initial, ports);
            challenged.answer.value.decision.result == A.AuthApproved <==>
            ApprovedSession(t, challenged.tables, initial.actionRef)
  {
    var created := A.CreateApprovalRequest(t, st, initial);
    var request := created.answer.value;
    var session := request.approvalSession.approvalSessionId;
    assert session == A.SessionId(t.challenge[initial.actionRef].challengeId);
    var answer := ports.surface(request.approvalContext).value;
    var applied := A.ApplyApprovalResult(t, created.tables, session, answer);
    hide A.CreateApprovalRequest;
    CreatedPending(t, st, initial);
    var resumed := A.ResumeAuthorizationSession(t, applied.tables, session);
    assert resumed.answer.value.approvalResult == applied.answer.value.approvalResult;
  }

  lemma CreatedPending(t: A.Templates, st: A.Tables, initial: A.Decision)
    requires A.CreateApprovalRequest(t, st, initial).answer.Ok?
    ensures var created := A.CreateApprovalRequest(t, st, initial);
            var id := created.answer.value.approvalSession.approvalSessionId;
            && created.tables.decisions == st.decisions
            && initial.actionRef in t.challenge && id == A.SessionId(t.challenge[initial.actionRef].challengeId)
            && id in created.tables.sessions && created.tables.sessions[id] == created.answer.value.approvalSession
            && created.tables.sessions[id].approvalSessionId == id
            && created.tables.sessions[id].priorDecisionRef == initial.decisionId
            && created.tables.sessions[id].finalDecisionRef == None
  {}

  // ---- the resource flow is a transaction ----

  /** What the trusted surface is shown. */
  function Shown(t: A.Templates, intentId: Id): A.Context
    requires intentId in t.challenge && intentId in t.context
  {
    t.context[intentId].(challengeRef := t.challenge[intentId].challengeId, actionRef := intentId)
  }

  /** A challenge for the intent ends in a throw: a template is missing, or a port of the challenge throws. */
  predicate ChallengeThrows(t: A.Templates, intentId: Id, ports: Ports) {
    || intentId !in t.challenge || intentId !in t.context
    || !ports.challengeMarked || !ports.approvalReceipt
    || (var answer := ports.surface(Shown(t, intentId));
        || answer.None? || answer.value.approvalResultId == ""
        || (answer.value.result == A.Approved && intentId !in t.final))
  }

  /** The decision ends in a throw. */
  predicate DecisionThrows(t: A.Templates, mandates: set<Id>, args: A.EvaluateArgs, ports: Ports) {
    || args.mandateRef !in mandates || args.actionRef !in t.initial
    || (t.initial[args.actionRef].result == A.ChallengeRequired && ChallengeThrows(t, args.actionRef, ports))
  }

  /** What a decision that does not throw decides: the initial template's result, or the surface's verdict. */
  function Decides(t: A.Templates, intentId: Id, ports: Ports): A.AuthorizationResult
    requires intentId in t.initial
    requires t.initial[intentId].result == A.ChallengeRequired ==> !ChallengeThrows(t, intentId, ports)
  {
    if t.initial[intentId].result != A.ChallengeRequired then t.initial[intentId].result
    else match ports.surface(Shown(t, intentId)).value.result
      case Approved => t.final[intentId].result
      case Rejected => A.AuthRejected
      case Expired => A.AuthExpired
      case Cancelled => A.AuthRejected
  }

  /** The decision approves: at once, or by the surface's answer and the final template. */
  predicate Approves(t: A.Templates, mandates: set<Id>, args: A.EvaluateArgs, ports: Ports) {
    !DecisionThrows(t, mandates, args, ports) && Decides(t, args.actionRef, ports) == A.AuthApproved
  }

  /** When the surface decided, if it was asked. */
  function DecidedAt(t: A.Templates, intentId: Id, ports: Ports): Option<Timestamp>
    requires intentId in t.initial
    requires t.initial[intentId].result == A.ChallengeRequired ==> !ChallengeThrows(t, intentId, ports)
  {
    if t.initial[intentId].result != A.ChallengeRequired then None
    else Some(ports.surface(Shown(t, intentId)).value.decidedAt)
  }

  /** A call outside the two guarded releases throws while the hold is active. */
  predicate Leaks(t: A.Templates, mandates: set<Id>, args: A.EvaluateArgs, ports: Ports) {
    || DecisionThrows(t, mandates, args, ports)
    || (Approves(t, mandates, args, ports) && ports.execution && !ports.Recorded())
  }

  /** What authorization answers, from the inputs alone. */
  predicate Answers(t: A.Templates, mandates: set<Id>, args: A.EvaluateArgs, ports: Ports, answer: Result<Authorization, FlowError>) {
    && (answer.Err? <==> DecisionThrows(t, mandates, args, ports))
    && (answer.Ok? ==>
          && answer.value.decision.result == Decides(t, args.actionRef, ports)
          && (match DecidedAt(t, args.actionRef, ports)
              case None => answer.value.approval == None
              case Some(at) => answer.value.approval.Some? && answer.value.approval.value.decidedAt == at))
  }

  /** The guards above are exactly those of the code. */
  lemma AuthorizeOutcome(t: A.Templates, st: A.Tables, args: A.EvaluateArgs, ports: Ports)
    ensures var authorized := Authorize(t, st, args, ports);
            && Answers(t, st.mandates, args, ports, authorized.answer)
            && (authorized.answer.Ok? ==>
                  (authorized.answer.value.decision.result == A.AuthApproved <==> Approves(t, st.mandates, args, ports)))
            && authorized.tables.mandates == st.mandates
  {
    hide ChallengeThrows, Challenge;
    var evaluated := A.Evaluate(t, st, args);
    if evaluated.answer.Ok? && evaluated.answer.value.result == A.ChallengeRequired {
      ChallengeOutcome(t, evaluated.tables, evaluated.answer.value, ports);
    }
  }

  lemma ChallengeOutcome(t: A.Templates, st: A.Tables, initial: A.Decision, ports: Ports)
    requires initial.decisionId in st.decisions && st.decisions[initial.decisionId] == initial
    requires initial.actionRef in t.initial && t.initial[initial.actionRef].result == A.ChallengeRequired
    ensures var challenged := Challenge(t, st, initial, ports);
            && (challenged.answer.Err? <==> ChallengeThrows(t, initial.actionRef, ports))
            && (challenged.answer.Ok? ==>
                  && challenged.answer.value.decision.result == Decides(t, initial.actionRef, ports)
                  && challenged.answer.value.approval.Some?
                  && Some(challenged.answer.value.approval.value.decidedAt) == DecidedAt(t, initial.actionRef, ports))
            && challenged.tables.mandates == st.mandates
  {
    CreateOutcome(t, st, initial);
    hide A.CreateApprovalRequest, A.ApplyApprovalResult, A.ResumeAuthorizationSession;
    var created := A.CreateApprovalRequest(t, st, initial);
    if created.answer.Ok? {
      var answer := ports.surface(created.answer.value.approvalContext);
      if ports.challengeMarked && answer.Some? {
        var session := created.answer.value.approvalSession.approvalSessionId;
        ApplyOutcome(t, created.tables, session, initial, answer.value);
        ResumeOutcome(t, A.ApplyApprovalResult(t, created.tables, session, answer.value).tables, session, initial);
      }
    }
  }

  /** A session on a stored challenge, its prior decision stored, not yet finalized. */
  predicate Awaiting(st: A.Tables, session: Id, prior: A.Decision) {
    && session in st.sessions
    && st.sessions[session].approvalSessionId == session
    && st.sessions[session].challengeRef in st.challenges
    && st.challenges[st.sessions[session].challengeRef].challengeId == st.sessions[session].challengeRef
    && st.sessions[session].finalDecisionRef == None
    && st.sessions[session].priorDecisionRef in st.decisions
    && st.decisions[st.sessions[session].priorDecisionRef] == prior
  }

  lemma CreateOutcome(t: A.Templates, st: A.Tables, initial: A.Decision)
    requires initial.decisionId in st.decisions && st.decisions[initial.decisionId] == initial
    ensures var created := A.CreateApprovalRequest(t, st, initial);
            && (created.answer.Ok? <==> initial.actionRef in t.challenge && initial.actionRef in t.context)
            && (created.answer.Ok? ==>
                  && created.answer.value.approvalContext == Shown(t, initial.actionRef)
                  && Awaiting(created.tables, created.answer.value.approvalSession.approvalSessionId, initial))
            && created.tables.mandates == st.mandates
  {}

  lemma ApplyOutcome(t: A.Templates, st: A.Tables, session: Id, prior: A.Decision, answer: A.ApprovalResult)
    requires Awaiting(st, session, prior)
    ensures var applied := A.ApplyApprovalResult(t, st, session, answer);
            && applied.answer.Ok? && applied.answer.value.approvalResult.decidedAt == answer.decidedAt
            && Awaiting(applied.tables, session, prior)
            && applied.tables.sessions[session].approvalResultRef == Some(answer.approvalResultId)
            && answer.approvalResultId in applied.tables.results
            && applied.tables.results[answer.approvalResultId].result == answer.result
            && applied.tables.mandates == st.mandates
  {}

  lemma ResumeOutcome(t: A.Templates, st: A.Tables, session: Id, prior: A.Decision)
    requires Awaiting(st, session, prior)
    requires st.sessions[session].approvalResultRef.Some? && st.sessions[session].approvalResultRef.value in st.results
    ensures var resumed := A.ResumeAuthorizationSession(t, st, session);
            var verdict := st.results[st.sessions[session].approvalResultRef.value].result;
            && (resumed.answer.Ok? <==>
                  st.sessions[session].approvalResultRef.value != "" && (verdict == A.Approved ==> prior.actionRef in t.final))
            && (resumed.answer.Ok? ==>
                  resumed.answer.value.finalDecision.result ==
                  match verdict
                  case Approved => t.final[prior.actionRef].result
                  case Rejected => A.AuthRejected
                  case Expired => A.AuthExpired
                  case Cancelled => A.AuthRejected)
            && resumed.tables.mandates == st.mandates
  {
    hide A.VerdictText;
  }

  /** The templates a flow of the intent may need are there. */
  predicate Complete(t: A.Templates, intentId: Id) {
    intentId in t.initial && intentId in t.challenge && intentId in t.context && intentId in t.final
  }

  /** No port but the adapter throws, and the surface answers under an id. */
  predicate Answering(t: A.Templates, intentId: Id, ports: Ports)
    requires Complete(t, intentId)
  {
    && ports.challengeMarked && ports.approvalReceipt && ports.Recorded()
    && ports.surface(Shown(t, intentId)).Some? && ports.surface(Shown(t, intentId)).value.approvalResultId != ""
  }

  /** With complete templates, a known mandate and ports that answer, nothing leaks, whatever is approved or executed. */
  lemma AnsweringNeverLeaks(t: A.Templates, mandates: set<Id>, args: A.EvaluateArgs, ports: Ports)
    requires args.mandateRef in mandates && Complete(t, args.actionRef) && Answering(t, args.actionRef, ports)
    ensures !Leaks(t, mandates, args, ports)
  {}

  /** The flow gets as far as placing its hold. */
  predicate HoldPlaced(supported: Id, l: Ledger, input: ResourceInput, ports: Ports) {
    input.intentId == supported && ports.lookups && Reserve(l, input.Reservation()).Ok?
  }

  function Charge(input: ResourceInput, success: bool, named: bool): real {
    if success && named then input.quantity else 0.0
  }

  /** Consumption grows by the quantity on success, on the two named records and nowhere else. */
  predicate Charged(l: Ledger, l': Ledger, input: ResourceInput, success: bool) {
    && l'.budgets.Keys == l.budgets.Keys && l'.quotas.Keys == l.quotas.Keys
    && (forall b :: b in l.budgets ==>
          && l'.budgets[b].limitQuantity == l.budgets[b].limitQuantity
          && l'.budgets[b].consumedQuantity == l.budgets[b].consumedQuantity + Charge(input, success, b == input.budgetRef))
    && (forall q :: q in l.quotas ==>
          && l'.quotas[q].maxQuantity == l.quotas[q].maxQuantity
          && l'.quotas[q].usedQuantity == l.quotas[q].usedQuantity + Charge(input, success, q == input.quotaRef))
  }

  /** Every record holds as much in reserve as before. */
  predicate SameReserves(l: Ledger, l': Ledger) {
    && l'.budgets.Keys == l.budgets.Keys && l'.quotas.Keys == l.quotas.Keys
    && (forall b :: b in l.budgets ==> OrZero(l'.budgets[b].reservedQuantity) == OrZero(l.budgets[b].reservedQuantity))
    && (forall q :: q in l.quotas ==> OrZero(l'.quotas[q].reservedQuantity) == OrZero(l.quotas[q].reservedQuantity))
  }

  /** `l1` is `l` with the intent's hold placed: reserved by its quantity on the two named records. */
  predicate Placed(l: Ledger, l1: Ledger, input: ResourceInput) {
    && Charged(l, l1, input, false)
    && l1.IsActive(HoldId(input.intentId)) && l1.holds[HoldId(input.intentId)] == NewHold(input.Reservation())
    && input.budgetRef in l.budgets && input.quotaRef in l.quotas
    && (forall b :: b in l.budgets ==>
          OrZero(l1.budgets[b].reservedQuantity) ==
          OrZero(l.budgets[b].reservedQuantity) + (if b == input.budgetRef then input.quantity else 0.0))
    && (forall q :: q in l.quotas ==>
          OrZero(l1.quotas[q].reservedQuantity) ==
          OrZero(l.quotas[q].reservedQuantity) + (if q == input.quotaRef then input.quantity else 0.0))
  }

  lemma PlacedHold(l: Ledger, input: ResourceInput)
    requires RP.Consistent(l) && input.quantity > 0.0 && !l.IsActive(HoldId(input.intentId))
    requires Reserve(l, input.Reservation()).Ok?
    ensures RP.Consistent(Reserve(l, input.Reservation()).value)
    ensures Placed(l, Reserve(l, input.Reservation()).value, input)
  {
    RP.ReserveConsistent(l, input.Reservation());
    assert RP.BudgetConsistent(l, input.budgetRef) && RP.QuotaConsistent(l, input.quotaRef);
    hide RP.Consistent, RP.HeldOnBudget, RP.HeldOnQuota;
    ReservePlaces(l, input);
  }

  lemma ReservePlaces(l: Ledger, input: ResourceInput)
    requires Reserve(l, input.Reservation()).Ok?
    requires l.budgets[input.budgetRef].budgetId == input.budgetRef && l.quotas[input.quotaRef].quotaId == input.quotaRef
    ensures Placed(l, Reserve(l, input.Reservation()).value, input)
  {}

  /** Releasing the placed hold undoes it. */
  lemma ReleasePlaced(l: Ledger, l1: Ledger, l2: Ledger, input: ResourceInput)
    requires Placed(l, l1, input) && RP.ReleasedExactly(l1, HoldId(input.intentId), l2)
    ensures Charged(l, l2, input, false) && SameReserves(l, l2)
  {}

  /** Settling the placed hold charges it. */
  lemma SettlePlaced(l: Ledger, l1: Ledger, l2: Ledger, input: ResourceInput)
    requires Placed(l, l1, input) && RP.SettledExactly(l1, HoldId(input.intentId), l2)
    ensures Charged(l, l2, input, true) && SameReserves(l, l2)
  {}

  /** Keeping the placed hold shows in the reserves. */
  lemma PlacedMeans(l: Ledger, l1: Ledger, input: ResourceInput)
    requires Placed(l, l1, input) && input.quantity > 0.0
    ensures l1.IsActive(HoldId(input.intentId)) && Charged(l, l1, input, false) && !SameReserves(l, l1)
  {}

  lemma ReleaseBranch(l1: Ledger, hold: Id, at: Timestamp, reason: Option<string>)
    requires RP.Consistent(l1) && l1.IsActive(hold)
    ensures var released := Release(l1, hold, at, reason);
            && released.Ok? && RP.Consistent(released.value) && RP.ReleasedExactly(l1, hold, released.value)
            && !released.value.IsActive(hold)
  {
    hide RP.Consistent, Release;
    RP.ReleaseIsExact(l1, hold, at, reason);
    RP.ReleaseConsistent(l1, hold, at, reason);
  }

  lemma SettleBranch(l1: Ledger, hold: Id, at: Timestamp)
    requires RP.Consistent(l1) && l1.IsActive(hold)
    ensures var settled := Settle(l1, hold, at);
            && settled.Ok? && RP.Consistent(settled.value) && RP.SettledExactly(l1, hold, settled.value)
            && !settled.value.IsActive(hold)
  {
    hide RP.Consistent, Settle;
    RP.SettleIsExact(l1, hold, at);
    RP.SettleConsistent(l1, hold, at);
  }

  /** After the hold is placed: it is closed unless the flow leaks, and only success settles it. */
  lemma AfterHold(t: A.Templates, l1: Ledger, st: A.Tables, input: ResourceInput, ports: Ports)
    requires RP.Consistent(l1) && l1.IsActive(HoldId(input.intentId))
    ensures var f := AfterResourceHold(t, l1, st, input, ports);
            && RP.Consistent(f.ledger)
            && (f.ledger.IsActive(HoldId(input.intentId)) <==> Leaks(t, st.mandates, input.Evaluation(), ports))
            && (if Leaks(t, st.mandates, input.Evaluation(), ports) then f.ledger == l1 && f.answer.Err?
                else if f.answer.Ok? then RP.SettledExactly(l1, HoldId(input.intentId), f.ledger)
                else RP.ReleasedExactly(l1, HoldId(input.intentId), f.ledger))
  {
    hide Authorize, RP.Consistent, RP.SettledExactly, RP.ReleasedExactly, Settle, Release, ResultText;
    var hold := HoldId(input.intentId);
    AuthorizeOutcome(t, st, input.Evaluation(), ports);
    hide DecisionThrows, Approves;
    var authorized := Authorize(t, st, input.Evaluation(), ports);
    if authorized.answer.Ok? {
      var a := authorized.answer.value;
      SettleBranch(l1, hold, ports.settledAt);
      ReleaseBranch(l1, hold, ports.now, Some("settlement-failed"));
      ReleaseBranch(l1, hold, ReleaseTime(a, ports), Some(ResultText(a.decision.result)));
    }
  }

  /**
   The resource flow is a transaction: it keeps the ledger consistent, consumes exactly the
   intent's quantity on success and nothing otherwise, and leaves its hold active, with its
   quantity still reserved, exactly when an unguarded port throws.
   */
  lemma ResourceTransaction(supported: Id, t: A.Templates, l: Ledger, st: A.Tables, input: ResourceInput, ports: Ports)
    requires RP.Consistent(l) && input.quantity > 0.0 && !l.IsActive(HoldId(input.intentId))
    ensures var f := ResourceFlow(supported, t, l, st, input, ports);
            var leaks := HoldPlaced(supported, l, input, ports) && Leaks(t, st.mandates, input.Evaluation(), ports);
            && RP.Consistent(f.ledger)
            && Charged(l, f.ledger, input, f.answer.Ok?)
            && (f.ledger.IsActive(HoldId(input.intentId)) <==> leaks)
            && (SameReserves(l, f.ledger) <==> !leaks)
            && (f.answer.Ok? ==> HoldPlaced(supported, l, input, ports) && !leaks)
  {
    hide RP.Consistent, AfterResourceHold, Reserve, Leaks, Placed, RP.SettledExactly, RP.ReleasedExactly;
    if HoldPlaced(supported, l, input, ports) {
      PlacedHold(l, input);
      var l1 := Reserve(l, input.Reservation()).value;
      PlacedMeans(l, l1, input);
      AfterHold(t, l1, st, input, ports);
      var f := AfterResourceHold(t, l1, st, input, ports);
      if !Leaks(t, st.mandates, input.Evaluation(), ports) {
        if f.answer.Ok? {
          SettlePlaced(l, l1, f.ledger, input);
        } else {
          ReleasePlaced(l, l1, f.ledger, input);
        }
      }
      hide Charged, SameReserves;
    }
  }

  /** The intent is the supported one, the lookups answer, and both records exist and have room for the quantity. */
  ghost predicate Places(supported: Id, l: Ledger, input: ResourceInput, ports: Ports) {
    && input.intentId == supported && ports.lookups
    && RP.BudgetFits(l, input.budgetRef, input.quantity) && RP.QuotaFits(l, input.quotaRef, input.quantity)
  }

  lemma PlacesIsHoldPlaced(supported: Id, l: Ledger, input: ResourceInput, ports: Ports)
    requires RP.Consistent(l)
    ensures HoldPlaced(supported, l, input, ports) <==> Places(supported, l, input, ports)
  {
    RP.ReserveAccepts(l, input.Reservation());
    hide RP.Consistent, RP.BudgetFits, RP.QuotaFits, Reserve;
  }

  /** How a flow that placed its hold ends, from the inputs alone. */
  datatype Ending =
    | Succeeds                                 // the adapter acted, and all was recorded
    | Throws                                   // before the adapter acted
    | ThrowsAfterActing
    | Refused(result: A.AuthorizationResult, at: Timestamp)
    | Fails                                    // the adapter failed

  function EndingOf(t: A.Templates, mandates: set<Id>, args: A.EvaluateArgs, ports: Ports): Ending {
    if DecisionThrows(t, mandates, args, ports) then Throws
    else if Decides(t, args.actionRef, ports) != A.AuthApproved then
      Refused(Decides(t, args.actionRef, ports),
              match DecidedAt(t, args.actionRef, ports) case Some(at) => at case None => ports.now)
    else if !ports.execution then Fails
    else if ports.Recorded() then Succeeds else ThrowsAfterActing
  }

  lemma EndingMeans(t: A.Templates, mandates: set<Id>, args: A.EvaluateArgs, ports: Ports)
    ensures EndingOf(t, mandates, args, ports) == Succeeds <==>
            Approves(t, mandates, args, ports) && ports.execution && ports.Recorded()
    ensures EndingOf(t, mandates, args, ports) in {Succeeds, ThrowsAfterActing} <==>
            Approves(t, mandates, args, ports) && ports.execution
    ensures EndingOf(t, mandates, args, ports) in {Throws, ThrowsAfterActing} <==> Leaks(t, mandates, args, ports)
  {
    hide ChallengeThrows;
  }

  /** What the flow answers for an ending. */
  predicate AnswerOf(ending: Ending, executed: bool, answer: Result<A.Decision, FlowError>) {
    match ending
    case Succeeds => executed && answer.Ok? && answer.value.result == A.AuthApproved
    case Throws => !executed && answer.Err? && (answer.error.AmnFailed? || answer.error == PortFailed)
    case ThrowsAfterActing => executed && answer == Err(PortFailed)
    case Refused(result, _) => !executed && answer == Err(NotAuthorized(result))
    case Fails => !executed && answer == Err(ExecutionFailed)
  }

  /** And how it leaves its hold. */
  predicate HoldOf(ending: Ending, h: ResourceReservation, ports: Ports) {
    match ending
    case Succeeds => h.status == Settled && h.settledAt == Some(ports.settledAt)
    case Throws => h.status == Reserved
    case ThrowsAfterActing => h.status == Reserved
    case Refused(result, at) =>
      h.status == Released && h.releasedAt == Some(at) && h.releaseReasonCode == Some(ResultText(result))
    case Fails =>
      h.status == Released && h.releasedAt == Some(ports.now) && h.releaseReasonCode == Some("settlement-failed")
  }

  lemma AfterHoldEnds(t: A.Templates, l1: Ledger, st: A.Tables, input: ResourceInput, ports: Ports)
    requires RP.Consistent(l1) && l1.IsActive(HoldId(input.intentId))
    ensures var f := AfterResourceHold(t, l1, st, input, ports);
            var ending := EndingOf(t, st.mandates, input.Evaluation(), ports);
            && AnswerOf(ending, f.executed, f.answer)
            && HoldId(input.intentId) in f.ledger.holds && HoldOf(ending, f.ledger.holds[HoldId(input.intentId)], ports)
  {
    var hold := HoldId(input.intentId);
    hide Authorize, RP.Consistent, RP.SettledExactly, RP.ReleasedExactly, Settle, Release, DecisionThrows, ResultText;
    AuthorizeOutcome(t, st, input.Evaluation(), ports);
    AuthorizeErrors(t, st, input.Evaluation(), ports);
    hide Decides, DecidedAt;
    var authorized := Authorize(t, st, input.Evaluation(), ports);
    if authorized.answer.Ok? {
      var a := authorized.answer.value;
      if a.decision.result != A.AuthApproved {
        RP.ReleaseIsExact(l1, hold, ReleaseTime(a, ports), Some(ResultText(a.decision.result)));
        assert EndingOf(t, st.mandates, input.Evaluation(), ports) == Refused(a.decision.result, ReleaseTime(a, ports));
      } else if !ports.execution {
        RP.ReleaseIsExact(l1, hold, ports.now, Some("settlement-failed"));
      } else {
        RP.SettleIsExact(l1, hold, ports.settledAt);
      }
    }
  }

  lemma AuthorizeErrors(t: A.Templates, st: A.Tables, args: A.EvaluateArgs, ports: Ports)
    ensures var answer := Authorize(t, st, args, ports).answer;
            answer.Err? ==> answer.error.AmnFailed? || answer.error == PortFailed
  {
    hide A.Evaluate, A.CreateApprovalRequest, A.ApplyApprovalResult, A.ResumeAuthorizationSession;
  }

  /**
   What every flow comes to. A flow that cannot place its hold is refused with the reason and
   changes nothing; one that can ends as its inputs say. So it succeeds exactly when the hold is
   placed, the decision approves, the adapter acts and all is recorded.
   */
  lemma ResourceFlowEnds(supported: Id, t: A.Templates, l: Ledger, st: A.Tables, input: ResourceInput, ports: Ports)
    requires RP.Consistent(l) && input.quantity > 0.0 && !l.IsActive(HoldId(input.intentId))
    ensures var f := ResourceFlow(supported, t, l, st, input, ports);
            ResourceFlowAnswers(supported, t, l, st.mandates, input, ports, f.ledger, f.executed, f.answer)
  {
    PlacesIsHoldPlaced(supported, l, input, ports);
    EndingMeans(t, st.mandates, input.Evaluation(), ports);
    hide RP.Consistent, RP.BudgetFits, RP.QuotaFits, Reserve, EndingOf, Leaks, Approves, AfterResourceHold, Placed, AnswerOf, HoldOf;
    if HoldPlaced(supported, l, input, ports) {
      PlacedHold(l, input);
      PlacedIsActive(l, Reserve(l, input.Reservation()).value, input);
      AfterHoldEnds(t, Reserve(l, input.Reservation()).value, st, input, ports);
      var f := AfterResourceHold(t, Reserve(l, input.Reservation()).value, st, input, ports);
      EndingAnswers(EndingOf(t, st.mandates, input.Evaluation(), ports), f.executed, f.answer);
    } else {
      RP.ReserveAccepts(l, input.Reservation());
    }
  }

  /** Success is the one ending with an answer; acting is two of them. */
  lemma EndingAnswers(ending: Ending, executed: bool, answer: Result<A.Decision, FlowError>)
    requires AnswerOf(ending, executed, answer)
    ensures answer.Ok? <==> ending == Succeeds
    ensures executed <==> ending in {Succeeds, ThrowsAfterActing}
  {}

  lemma PlacedIsActive(l: Ledger, l1: Ledger, input: ResourceInput)
    requires Placed(l, l1, input)
    ensures l1.IsActive(HoldId(input.intentId))
  {}

  ghost predicate ResourceFlowAnswers(supported: Id, t: A.Templates, l: Ledger, mandates: set<Id>, input: ResourceInput, ports: Ports,
                                      l': Ledger, executed: bool, answer: Result<A.Decision, FlowError>)
  {
    var args, hold := input.Evaluation(), HoldId(input.intentId);
    && (answer.Ok? <==> Places(supported, l, input, ports) && Approves(t, mandates, args, ports)
                        && ports.execution && ports.Recorded())
    && (executed <==> Places(supported, l, input, ports) && Approves(t, mandates, args, ports) && ports.execution)
    && (if Places(supported, l, input, ports)
        then
          && AnswerOf(EndingOf(t, mandates, args, ports), executed, answer)
          && hold in l'.holds && HoldOf(EndingOf(t, mandates, args, ports), l'.holds[hold], ports)
        else
          && l' == l && !executed
          && answer == Err(if input.intentId != supported then UnsupportedIntent
                           else if !ports.lookups then PortFailed
                           else if input.budgetRef !in l.budgets then AtsFailed(UnknownBudget(input.budgetRef))
                           else if input.quotaRef !in l.quotas then AtsFailed(UnknownQuota(input.quotaRef))
                           else if !RP.BudgetFits(l, input.budgetRef, input.quantity) then AtsFailed(BudgetExceeded(input.budgetRef))
                           else AtsFailed(QuotaExceeded(input.quotaRef))))
  }

  /** The outside world acts only for a permitted intent, and the quantity is consumed only if it acted. */
  lemma ExecutedOnlyIfPermitted(supported: Id, t: A.Templates, l: Ledger, st: A.Tables, input: ResourceInput, ports: Ports)
    requires AP.WellFormed(t)
    ensures var f := ResourceFlow(supported, t, l, st, input, ports);
            && (f.executed ==> Permitted(t, f.tables, input.intentId))
            && (f.answer.Ok? ==> f.executed)
  {
    hide Permitted, Authorize, Settle, Release, Reserve, AP.WellFormed;
    if Authorize(t, st, input.Evaluation(), ports).answer.Ok? {
      AuthorizedMeansPermitted(t, st, input.Evaluation(), ports);
    }
  }

  // ---- sequences of flows ----

  datatype Job = Job(input: ResourceInput, ports: Ports)

  /** The ledger and the approval tables after a sequence of flows, one after the other. */
  function RunFlows(supported: Id, t: A.Templates, l: Ledger, st: A.Tables, jobs: seq<Job>): Ledger
    decreases jobs
  {
    if jobs == [] then l
    else
      var f := ResourceFlow(supported, t, l, st, jobs[0].input, jobs[0].ports);
      RunFlows(supported, t, f.ledger, f.tables, jobs[1..])
  }

  /** No flow of the sequence is left by a throw from an unguarded port. */
  predicate Clean(supported: Id, t: A.Templates, l: Ledger, st: A.Tables, jobs: seq<Job>)
    decreases jobs
  {
    jobs == [] ||
    (var f := ResourceFlow(supported, t, l, st, jobs[0].input, jobs[0].ports);
     && !(HoldPlaced(supported, l, jobs[0].input, jobs[0].ports) &&
          Leaks(t, st.mandates, jobs[0].input.Evaluation(), jobs[0].ports))
     && Clean(supported, t, f.ledger, f.tables, jobs[1..]))
  }

  /** The fixed-id hold of the supported intent is inactive between any two flows. */
  predicate InactiveThroughout(supported: Id, t: A.Templates, l: Ledger, st: A.Tables, jobs: seq<Job>)
    decreases jobs
  {
    && !l.IsActive(HoldId(supported))
    && (jobs == [] ||
        (var f := ResourceFlow(supported, t, l, st, jobs[0].input, jobs[0].ports);
         InactiveThroughout(supported, t, f.ledger, f.tables, jobs[1..])))
  }

  /** What the successful flows of the sequence take from the records `named` picks. */
  function TotalCharge(supported: Id, t: A.Templates, l: Ledger, st: A.Tables, jobs: seq<Job>, named: ResourceInput -> bool): real
    decreases jobs
  {
    if jobs == [] then 0.0
    else
      var f := ResourceFlow(supported, t, l, st, jobs[0].input, jobs[0].ports);
      Charge(jobs[0].input, f.answer.Ok?, named(jobs[0].input))
      + TotalCharge(supported, t, f.ledger, f.tables, jobs[1..], named)
  }

  predicate PositiveJobs(jobs: seq<Job>) {
    forall i :: 0 <= i < |jobs| ==> jobs[i].input.quantity > 0.0
  }

  function FromBudget(b: Id): ResourceInput -> bool {
    (input: ResourceInput) => b == input.budgetRef
  }

  function FromQuota(q: Id): ResourceInput -> bool {
    (input: ResourceInput) => q == input.quotaRef
  }

  lemma FlowStep(supported: Id, t: A.Templates, l: Ledger, st: A.Tables, job: Job)
    requires RP.Consistent(l) && job.input.quantity > 0.0 && !l.IsActive(HoldId(supported))
    ensures var f := ResourceFlow(supported, t, l, st, job.input, job.ports);
            && RP.Consistent(f.ledger) && Charged(l, f.ledger, job.input, f.answer.Ok?)
            && (f.ledger.IsActive(HoldId(supported)) <==>
                HoldPlaced(supported, l, job.input, job.ports) && Leaks(t, st.mandates, job.input.Evaluation(), job.ports))
  {
    hide RP.Consistent, AfterResourceHold, Reserve, Leaks;
    if job.input.intentId == supported {
      ResourceTransaction(supported, t, l, st, job.input, job.ports);
      hide ResourceFlow, HoldPlaced;
    }
  }

  /**
   Over any sequence of flows the hold is inactive throughout exactly when no flow leaks, and
   then the successful quantities, and nothing else, were consumed.
   */
  lemma {:induction false} FlowsConserve(supported: Id, t: A.Templates, l: Ledger, st: A.Tables, jobs: seq<Job>)
    requires RP.Consistent(l) && PositiveJobs(jobs) && !l.IsActive(HoldId(supported))
    ensures InactiveThroughout(supported, t, l, st, jobs) <==> Clean(supported, t, l, st, jobs)
    ensures Clean(supported, t, l, st, jobs) ==>
              var l' := RunFlows(supported, t, l, st, jobs);
              && RP.Consistent(l') && l'.budgets.Keys == l.budgets.Keys && l'.quotas.Keys == l.quotas.Keys
              && (forall b :: b in l.budgets ==>
                    && l'.budgets[b].limitQuantity == l.budgets[b].limitQuantity
                    && l'.budgets[b].consumedQuantity ==
                       l.budgets[b].consumedQuantity + TotalCharge(supported, t, l, st, jobs, FromBudget(b)))
              && (forall q :: q in l.quotas ==>
                    && l'.quotas[q].maxQuantity == l.quotas[q].maxQuantity
                    && l'.quotas[q].usedQuantity ==
                       l.quotas[q].usedQuantity + TotalCharge(supported, t, l, st, jobs, FromQuota(q)))
    decreases jobs
  {
    hide RP.Consistent, ResourceFlow, HoldPlaced, Leaks;
    if jobs != [] {
      FlowStep(supported, t, l, st, jobs[0]);
      var f := ResourceFlow(supported, t, l, st, jobs[0].input, jobs[0].ports);
      if !f.ledger.IsActive(HoldId(supported)) {
        FlowsConserve(supported, t, f.ledger, f.tables, jobs[1..]);
      } else {
        assert !InactiveThroughout(supported, t, f.ledger, f.tables, jobs[1..]);
      }
    }
  }

  /** Successful flows never take more than the limit leaves. */
  lemma FlowsWithinLimits(supported: Id, t: A.Templates, l: Ledger, st: A.Tables, jobs: seq<Job>)
    requires RP.Consistent(l) && PositiveJobs(jobs) && !l.IsActive(HoldId(supported))
    requires Clean(supported, t, l, st, jobs)
    ensures forall b :: b in l.budgets ==>
              l.budgets[b].consumedQuantity + TotalCharge(supported, t, l, st, jobs, FromBudget(b)) <= l.budgets[b].limitQuantity
    ensures forall q :: q in l.quotas ==>
              l.quotas[q].usedQuantity + TotalCharge(supported, t, l, st, jobs, FromQuota(q)) <= l.quotas[q].maxQuantity
  {
    FlowsConserve(supported, t, l, st, jobs);
    hide RunFlows, TotalCharge, Clean, RP.Consistent;
    WithinLimits(RunFlows(supported, t, l, st, jobs));
  }

  lemma WithinLimits(l: Ledger)
    requires RP.Consistent(l)
    ensures forall b :: b in l.budgets ==> l.budgets[b].consumedQuantity <= l.budgets[b].limitQuantity
    ensures forall q :: q in l.quotas ==> l.quotas[q].usedQuantity <= l.quotas[q].maxQuantity
  {
    assert forall h :: h in l.holds ==> RP.HoldValid(l, h);
    forall b | b in l.budgets
      ensures l.budgets[b].consumedQuantity <= l.budgets[b].limitQuantity
    {
      assert RP.BudgetConsistent(l, b);
      SumNonNegative(l.holds, RP.OnBudget(b));
    }
    forall q | q in l.quotas
      ensures l.quotas[q].usedQuantity <= l.quotas[q].maxQuantity
    {
      assert RP.QuotaConsistent(l, q);
      SumNonNegative(l.holds, RP.OnQuota(q));
    }
  }

  // ---- sequences that cannot leak, and a flow that does ----

  /** Every flow of the supported intent has a known mandate and ports that answer; its approvals and adapter are free. */
  predicate AllAnswering(supported: Id, t: A.Templates, mandates: set<Id>, jobs: seq<Job>)
    requires Complete(t, supported)
  {
    forall i :: 0 <= i < |jobs| && jobs[i].input.intentId == supported ==>
      jobs[i].input.mandateRef in mandates && Answering(t, supported, jobs[i].ports)
  }

  lemma FlowKeepsMandates(supported: Id, t: A.Templates, l: Ledger, st: A.Tables, input: ResourceInput, ports: Ports)
    ensures ResourceFlow(supported, t, l, st, input, ports).tables.mandates == st.mandates
  {
    AuthorizeOutcome(t, st, input.Evaluation(), ports);
    hide Authorize, Reserve, Settle, Release, DecisionThrows, Approves, ResultText;
  }

  /** Such a sequence leaks nothing, so FlowsConserve and FlowsWithinLimits hold of it. */
  lemma {:induction false} AnsweringIsClean(supported: Id, t: A.Templates, l: Ledger, st: A.Tables, jobs: seq<Job>)
    requires Complete(t, supported) && AllAnswering(supported, t, st.mandates, jobs)
    ensures Clean(supported, t, l, st, jobs)
    decreases jobs
  {
    hide ResourceFlow, Leaks, Complete, Answering;
    if jobs != [] {
      var input, ports := jobs[0].input, jobs[0].ports;
      if input.intentId == supported {
        AnsweringNeverLeaks(t, st.mandates, input.Evaluation(), ports);
      }
      FlowKeepsMandates(supported, t, l, st, input, ports);
      var f := ResourceFlow(supported, t, l, st, input, ports);
      AnsweringIsClean(supported, t, f.ledger, f.tables, jobs[1..]);
    }
  }

  /** One budget and one quota of ten units, with nothing held. */
  function TenUnits(): Ledger {
    Ledger(map["b" := ResourceBudget("b", 10.0, 0.0, None, 10.0, Active, "t0")],
           map["q" := ResourceQuota("q", 10.0, 0.0, None, Active, "t0")], map[])
  }

  /** Templates that approve the intent "i" at once. */
  function ApproveAtOnce(): A.Templates {
    A.Templates(map["i" := A.Decision("d", "i", "resource", "did", "m", None, None, A.AuthApproved, A.NotRequired, None, "t0")],
                map[], map[], map[], map[])
  }

  lemma TenUnitsConsistent()
    ensures RP.Consistent(TenUnits())
  {
    assert RP.HeldOnBudget(TenUnits(), "b") == 0.0 && RP.HeldOnQuota(TenUnits(), "q") == 0.0;
    assert RP.BudgetConsistent(TenUnits(), "b") && RP.QuotaConsistent(TenUnits(), "q");
  }

  /** A flow that leaks: everything succeeds but the last port, which fails to record the response. */
  lemma LeakingFlow()
    ensures RP.Consistent(TenUnits())
    ensures var input := ResourceInput("i", "did", "acct", "m", None, 4.0, "t1", "b", "q");
            var ports := Ports(true, true, _ => None, true, true, true, true, false, "t2", "t2");
            var f := ResourceFlow("i", ApproveAtOnce(), TenUnits(), A.Tables({"m"}, map[], map[], map[], map[], map[]), input, ports);
            && f.executed && f.answer == Err(PortFailed)
            && f.ledger.IsActive(HoldId("i")) && f.ledger.holds[HoldId("i")].quantity == 4.0
            && f.ledger.budgets["b"].consumedQuantity == 0.0 && f.ledger.budgets["b"].availableQuantity == 6.0
  {
    TenUnitsConsistent();
    hide RP.Consistent, Settle, Release, Challenge, ResultText;
    assert ApproveAtOnce().initial["i"].result == A.AuthApproved;
  }
}
