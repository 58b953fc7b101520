/** What each call of the approval protocol answers and writes, field by field. */
module ApprovalRecords {
  import opened Prelude
  import opened Approvals
  import opened ApprovalsProofs

  /** The decision is for this action, subject, mandate, policy and account. */
  predicate DecisionFor(d: Decision, args: EvaluateArgs) {
    && d.actionRef == args.actionRef && d.actionType == args.actionType && d.subjectDid == args.subjectDid
    && d.mandateRef == args.mandateRef && d.policyRef == args.policyRef && d.accountRef == args.accountRef
  }

  /** Two decisions say the same, whomever they are for. */
  predicate SameOutcome(d: Decision, e: Decision) {
    && d.decisionId == e.decisionId && d.result == e.result && d.challengeState == e.challengeState
    && d.reasonCode == e.reasonCode && d.evaluatedAt == e.evaluatedAt
  }

  /** Only the decisions may differ. */
  predicate OnlyDecisions(st: Tables, st': Tables) {
    && st'.mandates == st.mandates && st'.challenges == st.challenges && st'.contexts == st.contexts
    && st'.results == st.results && st'.sessions == st.sessions
  }

  lemma EvaluateWrites(t: Templates, st: Tables, args: EvaluateArgs)
    ensures var e := Evaluate(t, st, args);
            if args.mandateRef !in st.mandates then e == Reply(st, Err(UnknownMandate(args.mandateRef)))
            else if args.actionRef !in t.initial then e == Reply(st, Err(UnknownAction(args.actionRef)))
            else
              && e.answer.Ok? && DecisionFor(e.answer.value, args) && SameOutcome(e.answer.value, t.initial[args.actionRef])
              && OnlyDecisions(st, e.tables)
              && e.tables.decisions == st.decisions[e.answer.value.decisionId := e.answer.value]
  {}

  /** The challenge made for a prior decision, from its template. */
  predicate ChallengeFor(c: Challenge, template: Challenge, prior: Decision) {
    && c.challengeId == template.challengeId && c.createdAt == template.createdAt
    && c.actionRef == prior.actionRef && c.actionType == prior.actionType && c.subjectDid == prior.subjectDid
    && c.mandateRef == Some(prior.mandateRef) && c.policyRef == prior.policyRef
    && (prior.reasonCode.Some? ==> c.reasonCode == prior.reasonCode.value)
    && (prior.reasonCode.None? ==> c.reasonCode == template.reasonCode)
  }

  /** A pending session of a prior decision, a challenge and a context. */
  predicate SessionFor(s: Session, prior: Decision, c: Challenge, context: Context) {
    && s.approvalSessionId == "aps-" + c.challengeId && s.status == Pending
    && s.actionRef == prior.actionRef && s.actionType == prior.actionType && s.subjectDid == prior.subjectDid
    && s.mandateRef == Some(prior.mandateRef) && s.policyRef == prior.policyRef
    && s.priorDecisionRef == prior.decisionId && s.challengeRef == c.challengeId
    && s.approvalContextRef == context.approvalContextId
    && s.approvalResultRef == None && s.finalDecisionRef == None
    && s.createdAt == c.createdAt && s.updatedAt == context.createdAt
  }

  /** What a request answers and writes when it succeeds: a challenge, a context and a session that refer to each other. */
  predicate RequestFor(t: Templates, prior: Decision, a: ApprovalRequest)
    requires prior.actionRef in t.challenge && prior.actionRef in t.context
  {
    var c, context, s := a.challenge, a.approvalContext, a.approvalSession;
    && ChallengeFor(c, t.challenge[prior.actionRef], prior)
    && c.state == PendingApproval && c.approvalContextRef == Some(context.approvalContextId)
    && c.updatedAt == context.createdAt
    && context.approvalContextId == t.context[prior.actionRef].approvalContextId
    && context.createdAt == t.context[prior.actionRef].createdAt
    && context.challengeRef == c.challengeId && context.actionRef == prior.actionRef
    && SessionFor(s, prior, c, context)
  }

  lemma CreateAnswers(t: Templates, st: Tables, prior: Decision)
    requires prior.actionRef in t.challenge && prior.actionRef in t.context
    ensures CreateApprovalRequest(t, st, prior).answer.Ok?
    ensures RequestFor(t, prior, CreateApprovalRequest(t, st, prior).answer.value)
  {}

  lemma CreateStores(t: Templates, st: Tables, prior: Decision)
    requires prior.actionRef in t.challenge && prior.actionRef in t.context
    ensures var r := CreateApprovalRequest(t, st, prior);
            && r.answer.Ok?
            && var a := r.answer.value;
               && r.tables.challenges == st.challenges[a.challenge.challengeId := a.challenge]
               && r.tables.contexts == st.contexts[a.approvalContext.approvalContextId := a.approvalContext]
               && r.tables.sessions == st.sessions[a.approvalSession.approvalSessionId := a.approvalSession]
               && r.tables.mandates == st.mandates && r.tables.decisions == st.decisions && r.tables.results == st.results
  {
    hide SessionId;
  }

  /** Without a challenge template a request writes nothing; without a context template it leaves the challenge behind. */
  lemma CreateRefused(t: Templates, st: Tables, prior: Decision)
    ensures var r := CreateApprovalRequest(t, st, prior);
            && (r.answer.Err? <==> prior.actionRef !in t.challenge || prior.actionRef !in t.context)
            && (r.answer.Err? ==> r.answer.error == UnknownAction(prior.actionRef))
            && (prior.actionRef !in t.challenge ==> r.tables == st)
            && (prior.actionRef in t.challenge && prior.actionRef !in t.context ==>
                  var id := t.challenge[prior.actionRef].challengeId;
                  && id in r.tables.challenges && ChallengeFor(r.tables.challenges[id], t.challenge[prior.actionRef], prior)
                  && r.tables == st.(challenges := st.challenges[id := r.tables.challenges[id]]))
  {
    hide SessionId;
  }

  lemma ApplyWrites(t: Templates, st: Tables, ref: Id, result: ApprovalResult)
    ensures var r := ApplyApprovalResult(t, st, ref, result);
            if ref !in st.sessions then r == Reply(st, Err(UnknownSession(ref)))
            else if st.sessions[ref].challengeRef !in st.challenges
            then r == Reply(st, Err(UnknownChallenge(st.sessions[ref].challengeRef)))
            else
              && r.answer.Ok?
              && r.tables.mandates == st.mandates && r.tables.decisions == st.decisions && r.tables.contexts == st.contexts
              && var s, stored, c, s' := st.sessions[ref], r.answer.value.approvalResult, r.answer.value.challenge, r.answer.value.approvalSession;
                 && stored.approvalResultId == result.approvalResultId && stored.result == result.result
                 && stored.decidedAt == result.decidedAt
                 && stored.challengeRef == s.challengeRef && stored.actionRef == s.actionRef
                 && (result.approvalReceiptRef.Some? ==> stored.approvalReceiptRef == result.approvalReceiptRef)
                 && (result.approvalReceiptRef.None? ==>
                       stored.approvalReceiptRef == if s.actionRef in t.result then t.result[s.actionRef].approvalReceiptRef else None)
                 && c == st.challenges[s.challengeRef].(state := Decided(result.result), updatedAt := result.decidedAt)
                 && s' == s.(approvalResultRef := Some(result.approvalResultId), status := Closed(result.result),
                             updatedAt := result.decidedAt)
                 && r.tables.results == st.results[stored.approvalResultId := stored]
                 && r.tables.challenges == st.challenges[c.challengeId := c]
                 && r.tables.sessions == st.sessions[s'.approvalSessionId := s']
  {}

  /** What a refusal of each kind says. */
  predicate Refuses(d: Decision, r: ApprovalResult) {
    && d.challengeState == Decided(r.result) && d.evaluatedAt == r.decidedAt
    && match r.result
       case Approved => false
       case Rejected => d.result == AuthRejected && d.reasonCode == Some("approval-rejected")
       case Expired => d.result == AuthExpired && d.reasonCode == Some("approval-expired")
       case Cancelled => d.result == AuthRejected && d.reasonCode == Some("approval-cancelled")
  }

  function ArgsOf(d: Decision): EvaluateArgs {
    EvaluateArgs(d.actionRef, d.actionType, d.subjectDid, d.mandateRef, d.policyRef, d.accountRef)
  }

  /**
   The decision a first resume comes to, for each verdict: a refusal keeps the prior decision's id
   and what it is for; an approval says what the final template says, for what the prior decision was for.
   */
  lemma FinalDecisionIs(t: Templates, prior: Decision, r: ApprovalResult)
    ensures r.result != Approved ==>
              && FinalDecision(t, prior, r).Ok?
              && var d := FinalDecision(t, prior, r).value;
                 d.decisionId == prior.decisionId && DecisionFor(d, ArgsOf(prior)) && Refuses(d, r)
    ensures r.result == Approved && prior.actionRef in t.final ==>
              && FinalDecision(t, prior, r).Ok?
              && var d := FinalDecision(t, prior, r).value;
                 SameOutcome(d, t.final[prior.actionRef]) && DecisionFor(d, ArgsOf(prior))
    ensures r.result == Approved && prior.actionRef !in t.final ==> FinalDecision(t, prior, r) == Err(UnknownAction(prior.actionRef))
  {
    assert "approval-" + "rejected" == "approval-rejected" && "approval-" + "expired" == "approval-expired"
           && "approval-" + "cancelled" == "approval-cancelled";
  }

  /** What a first resume answers and writes: the decision of the stored verdict, and the session finalized on it. */
  lemma FirstResumeWrites(t: Templates, st: Tables, ref: Id)
    requires WellFormed(t) && Agree(t, st) && ResumeAuthorizationSession(t, st, ref).answer.Ok?
    requires st.sessions[ref].finalDecisionRef == None
    ensures var s, after := st.sessions[ref], ResumeAuthorizationSession(t, st, ref);
            var prior, stored, d := st.decisions[s.priorDecisionRef], st.results[s.approvalResultRef.value], after.answer.value.finalDecision;
            && prior.actionRef == s.actionRef && prior.decisionId == s.priorDecisionRef
            && DecisionFor(d, ArgsOf(prior))
            && (stored.result != Approved ==> d.decisionId == s.priorDecisionRef && Refuses(d, stored))
            && (stored.result == Approved ==> s.actionRef in t.final && SameOutcome(d, t.final[s.actionRef]))
            && after.answer.value.approvalResult == stored && after.answer.value.challenge == st.challenges[s.challengeRef]
            && after.answer.value.approvalSession ==
               s.(finalDecisionRef := Some(d.decisionId), status := Finalized, updatedAt := stored.decidedAt)
            && after.tables == st.(decisions := st.decisions[d.decisionId := d],
                                   sessions := st.sessions[ref := after.answer.value.approvalSession])
  {
    assert SessionAgrees(t, st, ref);
    PriorOfSession(t, st, ref);
    var s := st.sessions[ref];
    FinalDecisionIs(t, st.decisions[s.priorDecisionRef], st.results[s.approvalResultRef.value]);
    hide Agree, WellFormed, FinalDecision, ShowsResult, Refuses, SameOutcome, DecisionFor;
  }

  /**
   When a resume is refused: the session is unknown, it has no result yet, or on the first resume
   its prior decision was never stored or it is approved for an action without a final template.
   */
  lemma ResumeRefused(t: Templates, st: Tables, ref: Id)
    requires WellFormed(t) && Agree(t, st)
    ensures var r := ResumeAuthorizationSession(t, st, ref);
            r.answer.Err? ==>
              && r.tables == st
              && (if ref !in st.sessions then r.answer.error == UnknownSession(ref)
                  else if st.sessions[ref].status == Pending || st.sessions[ref].approvalResultRef == Some("") then r.answer.error == NoResult(ref)
                  else
                    && st.sessions[ref].finalDecisionRef == None
                    && if st.sessions[ref].priorDecisionRef !in st.decisions
                       then r.answer.error == UnknownDecision(st.sessions[ref].priorDecisionRef)
                       else st.sessions[ref].actionRef !in t.final && r.answer.error == UnknownAction(st.sessions[ref].actionRef))
    ensures ref in st.sessions && st.sessions[ref].status == Pending ==> ResumeAuthorizationSession(t, st, ref).answer.Err?
  {
    if ref in st.sessions {
      assert SessionAgrees(t, st, ref);
      var s := st.sessions[ref];
      if s.priorDecisionRef in st.decisions {
        PriorOfSession(t, st, ref);
      }
      if s.finalDecisionRef.Some? {
        assert DecisionFiled(t, st, s.finalDecisionRef.value);
      }
    }
  }
}
