/** The AMN service over its in-memory store, method by method as the source writes the tables. */
module Amn {
  import opened Prelude
  import opened Approvals
  import AP = ApprovalsProofs
  import AR = ApprovalRecords

  class InMemoryAmnStore {
    const mandates: set<Id>
    var decisions: map<Id, Decision>
    var challenges: map<Id, Challenge>
    var approvalContexts: map<Id, Context>
    var approvalResults: map<Id, ApprovalResult>
    var approvalSessions: map<Id, Session>

    function View(): Tables
      reads this
    {
      Tables(mandates, decisions, challenges, approvalContexts, approvalResults, approvalSessions)
    }

    constructor (st: Tables)
      ensures View() == st
    {
      mandates := st.mandates;
      decisions, challenges, approvalContexts := st.decisions, st.challenges, st.contexts;
      approvalResults, approvalSessions := st.results, st.sessions;
    }

    method PutDecision(decision: Decision)
      modifies this
      ensures View() == old(View()).PutDecision(decision)
    {
      decisions := decisions[decision.decisionId := decision];
    }

    method PutChallenge(challenge: Challenge)
      modifies this
      ensures View() == old(View()).PutChallenge(challenge)
    {
      challenges := challenges[challenge.challengeId := challenge];
    }

    method PutApprovalContext(context: Context)
      modifies this
      ensures View() == old(View()).PutContext(context)
    {
      approvalContexts := approvalContexts[context.approvalContextId := context];
    }

    method PutApprovalResult(result: ApprovalResult)
      modifies this
      ensures View() == old(View()).PutResult(result)
    {
      approvalResults := approvalResults[result.approvalResultId := result];
    }

    method PutApprovalSession(session: Session)
      modifies this
      ensures View() == old(View()).PutSession(session)
    {
      approvalSessions := approvalSessions[session.approvalSessionId := session];
    }
  }

  class InMemoryAmnService {
    const store: InMemoryAmnStore
    const templates: Templates

    constructor (store: InMemoryAmnStore, templates: Templates)
      ensures this.store == store && this.templates == templates
    {
      this.store, this.templates := store, templates;
    }

    method EvaluateAuthorization(args: EvaluateArgs) returns (answer: Result<Decision, AmnError>)
      modifies store
      ensures Reply(store.View(), answer) == Evaluate(templates, old(store.View()), args)
      ensures AP.WellFormed(templates) && AP.Agree(templates, old(store.View())) ==> AP.Agree(templates, store.View())
    {
      if AP.WellFormed(templates) && AP.Agree(templates, store.View()) {
        AP.EvaluateAgrees(templates, store.View(), args);
      }
      hide AP.WellFormed, AP.Agree;
      if args.mandateRef !in store.mandates {
        return Err(UnknownMandate(args.mandateRef));
      }
      if args.actionRef !in templates.initial {
        return Err(UnknownAction(args.actionRef));
      }
      var decision := Overlay(templates.initial[args.actionRef], args);
      store.PutDecision(decision);
      return Ok(decision);
    }

    method CreateRequest(prior: Decision) returns (answer: Result<ApprovalRequest, AmnError>)
      modifies store
      ensures Reply(store.View(), answer) == CreateApprovalRequest(templates, old(store.View()), prior)
      ensures AP.WellFormed(templates) && AP.Agree(templates, old(store.View())) && AP.IsInitialId(templates, prior.actionRef, prior.decisionId) ==>
                AP.Agree(templates, store.View())
    {
      if AP.WellFormed(templates) && AP.Agree(templates, store.View()) && AP.IsInitialId(templates, prior.actionRef, prior.decisionId) {
        AP.CreateAgrees(templates, store.View(), prior);
      }
      hide AP.WellFormed, AP.Agree, AP.IsInitialId;
      if prior.actionRef !in templates.challenge {
        return Err(UnknownAction(prior.actionRef));
      }
      var createdChallenge := NewChallenge(templates.challenge[prior.actionRef], prior);
      store.PutChallenge(createdChallenge);
      if createdChallenge.actionRef !in templates.context {
        return Err(UnknownAction(prior.actionRef));
      }
      var approvalContext := templates.context[createdChallenge.actionRef].(
        challengeRef := createdChallenge.challengeId, actionRef := createdChallenge.actionRef);
      store.PutApprovalContext(approvalContext);
      var challenge := createdChallenge.(
        state := PendingApproval, approvalContextRef := Some(approvalContext.approvalContextId),
        updatedAt := approvalContext.createdAt);
      store.PutChallenge(challenge);
      var approvalSession := NewSession(prior, challenge, approvalContext);
      store.PutApprovalSession(approvalSession);
      return Ok(ApprovalRequest(challenge, approvalContext, approvalSession));
    }

    method ApplyResult(sessionRef: Id, result: ApprovalResult) returns (answer: Result<AppliedApproval, AmnError>)
      modifies store
      ensures Reply(store.View(), answer) == ApplyApprovalResult(templates, old(store.View()), sessionRef, result)
      ensures AP.WellFormed(templates) && AP.Agree(templates, old(store.View())) && sessionRef in old(store.approvalSessions) ==>
                (AP.Agree(templates, store.View()) <==> AP.OwnResultId(old(store.View()), sessionRef, result.approvalResultId))
    {
      if AP.WellFormed(templates) && AP.Agree(templates, store.View()) && sessionRef in store.approvalSessions {
        AP.ApplyAgrees(templates, store.View(), sessionRef, result);
      }
      hide AP.WellFormed, AP.Agree, AP.OwnResultId;
      if sessionRef !in store.approvalSessions {
        return Err(UnknownSession(sessionRef));
      }
      var approvalSession := store.approvalSessions[sessionRef];
      if approvalSession.challengeRef !in store.challenges {
        return Err(UnknownChallenge(approvalSession.challengeRef));
      }
      var existingChallenge := store.challenges[approvalSession.challengeRef];
      var approvalResult := Recorded(templates, result.(
        challengeRef := approvalSession.challengeRef, actionRef := approvalSession.actionRef));
      store.PutApprovalResult(approvalResult);
      var challenge := existingChallenge.(state := Decided(approvalResult.result), updatedAt := approvalResult.decidedAt);
      var nextSession := approvalSession.(
        approvalResultRef := Some(approvalResult.approvalResultId), status := Closed(approvalResult.result),
        updatedAt := approvalResult.decidedAt);
      store.PutChallenge(challenge);
      store.PutApprovalSession(nextSession);
      return Ok(AppliedApproval(approvalResult, nextSession, challenge));
    }

    method ResumeSession(sessionRef: Id) returns (answer: Result<Resumed, AmnError>)
      modifies store
      ensures Reply(store.View(), answer) == ResumeAuthorizationSession(templates, old(store.View()), sessionRef)
      ensures AP.WellFormed(templates) && AP.Agree(templates, old(store.View())) ==>
                && AP.Agree(templates, store.View())
                && (answer.Ok? ==> AP.Latched(store.View(), sessionRef, answer.value.finalDecision))
    {
      if AP.WellFormed(templates) && AP.Agree(templates, store.View()) {
        AP.ResumeAgrees(templates, store.View(), sessionRef);
        if ResumeAuthorizationSession(templates, store.View(), sessionRef).answer.Ok? {
          AP.ResumeLatches(templates, store.View(), sessionRef);
        }
      }
      hide AP.WellFormed, AP.Agree, AP.Latched;
      if sessionRef !in store.approvalSessions {
        return Err(UnknownSession(sessionRef));
      }
      var approvalSession := store.approvalSessions[sessionRef];
      if approvalSession.challengeRef !in store.challenges {
        return Err(UnknownChallenge(approvalSession.challengeRef));
      }
      var challenge := store.challenges[approvalSession.challengeRef];
      if !Given(approvalSession.approvalResultRef) || approvalSession.approvalResultRef.value !in store.approvalResults {
        return Err(NoResult(sessionRef));
      }
      var approvalResult := store.approvalResults[approvalSession.approvalResultRef.value];
      if Given(approvalSession.finalDecisionRef) {
        if approvalSession.finalDecisionRef.value !in store.decisions {
          return Err(UnknownDecision(approvalSession.finalDecisionRef.value));
        }
        return Ok(Resumed(store.decisions[approvalSession.finalDecisionRef.value], approvalResult, approvalSession, challenge));
      }
      if approvalSession.priorDecisionRef !in store.decisions {
        return Err(UnknownDecision(approvalSession.priorDecisionRef));
      }
      var finalized := Finalize(store.decisions[approvalSession.priorDecisionRef], approvalResult);
      if finalized.Err? {
        return Err(finalized.error);
      }
      var finalDecision := finalized.value;
      var nextSession := approvalSession.(
        finalDecisionRef := Some(finalDecision.decisionId), status := Finalized, updatedAt := approvalResult.decidedAt);
      store.PutApprovalSession(nextSession);
      return Ok(Resumed(finalDecision, approvalResult, nextSession, challenge));
    }

    method Finalize(prior: Decision, approvalResult: ApprovalResult) returns (answer: Result<Decision, AmnError>)
      modifies store
      ensures answer == FinalDecision(templates, prior, approvalResult)
      ensures store.View() == if answer.Ok? then old(store.View()).PutDecision(answer.value) else old(store.View())
      ensures approvalResult.result != Approved ==>
                answer.Ok? && answer.value.decisionId == prior.decisionId && AR.Refuses(answer.value, approvalResult)
      ensures approvalResult.result == Approved && answer.Ok? ==>
                prior.actionRef in templates.final && AR.SameOutcome(answer.value, templates.final[prior.actionRef])
      ensures answer.Ok? ==> AR.DecisionFor(answer.value, AR.ArgsOf(prior))
    {
      AR.FinalDecisionIs(templates, prior, approvalResult);
      hide AR.Refuses, AR.SameOutcome, AR.DecisionFor;
      var decision: Decision;
      if approvalResult.result != Approved {
        decision := prior.(
          result := if approvalResult.result == Expired then AuthExpired else AuthRejected,
          challengeState := Decided(approvalResult.result),
          reasonCode := Some("approval-" + VerdictText(approvalResult.result)),
          evaluatedAt := approvalResult.decidedAt);
      } else {
        if prior.actionRef !in templates.final {
          return Err(UnknownAction(prior.actionRef));
        }
        decision := Overlay(templates.final[prior.actionRef],
                            EvaluateArgs(prior.actionRef, prior.actionType, prior.subjectDid, prior.mandateRef,
                                         prior.policyRef, prior.accountRef));
      }
      store.PutDecision(decision);
      return Ok(decision);
    }
  }
}
