/**
 The approval protocol (AMN): decisions, challenges, approval results and sessions in separate
 tables, written by evaluate, create, apply and resume.
 */
module Approvals {
  import opened Prelude

  type Id = string
  type Timestamp = string

  /** What the approver decided. */
  datatype Verdict = Approved | Rejected | Expired | Cancelled

  datatype AuthorizationResult =
    | AuthApproved
    | AuthRejected
    | ChallengeRequired
    | AuthPending
    | Suspended
    | AuthExpired

  datatype ChallengeState = NotRequired | Required | PendingApproval | Decided(verdict: Verdict)

  datatype SessionStatus = Pending | Closed(verdict: Verdict) | Finalized

  datatype Decision = Decision(
    decisionId: Id,
    actionRef: Id,
    actionType: string,
    subjectDid: Id,
    mandateRef: Id,
    policyRef: Option<Id>,
    accountRef: Option<Id>,
    result: AuthorizationResult,
    challengeState: ChallengeState,
    reasonCode: Option<string>,
    evaluatedAt: Timestamp)

  datatype Challenge = Challenge(
    challengeId: Id,
    actionRef: Id,
    actionType: string,
    subjectDid: Id,
    mandateRef: Option<Id>,
    policyRef: Option<Id>,
    state: ChallengeState,
    reasonCode: string,
    approvalContextRef: Option<Id>,
    createdAt: Timestamp,
    updatedAt: Timestamp)

  datatype Context = Context(
    approvalContextId: Id,
    challengeRef: Id,
    actionRef: Id,
    createdAt: Timestamp)

  datatype ApprovalResult = ApprovalResult(
    approvalResultId: Id,
    challengeRef: Id,
    actionRef: Id,
    result: Verdict,
    approvalReceiptRef: Option<Id>,
    decidedAt: Timestamp)

  datatype Session = Session(
    approvalSessionId: Id,
    actionRef: Id,
    actionType: string,
    subjectDid: Id,
    mandateRef: Option<Id>,
    policyRef: Option<Id>,
    priorDecisionRef: Id,
    challengeRef: Id,
    approvalContextRef: Id,
    approvalResultRef: Option<Id>,
    finalDecisionRef: Option<Id>,
    status: SessionStatus,
    createdAt: Timestamp,
    updatedAt: Timestamp)

  /** The templates the service was constructed with, by action. */
  datatype Templates = Templates(
    initial: map<Id, Decision>,
    final: map<Id, Decision>,
    challenge: map<Id, Challenge>,
    context: map<Id, Context>,
    result: map<Id, ApprovalResult>)

  /** The store. Mandates are only looked up. */
  datatype Tables = Tables(
    mandates: set<Id>,
    decisions: map<Id, Decision>,
    challenges: map<Id, Challenge>,
    contexts: map<Id, Context>,
    results: map<Id, ApprovalResult>,
    sessions: map<Id, Session>)
  {
    function PutDecision(d: Decision): Tables { this.(decisions := decisions[d.decisionId := d]) }
    function PutChallenge(c: Challenge): Tables { this.(challenges := challenges[c.challengeId := c]) }
    function PutContext(c: Context): Tables { this.(contexts := contexts[c.approvalContextId := c]) }
    function PutResult(r: ApprovalResult): Tables { this.(results := results[r.approvalResultId := r]) }
    function PutSession(s: Session): Tables { this.(sessions := sessions[s.approvalSessionId := s]) }
  }

  datatype AmnError =
    | UnknownMandate(ref: Id)
    | UnknownAction(ref: Id)
    | UnknownSession(ref: Id)
    | UnknownChallenge(ref: Id)
    | UnknownDecision(ref: Id)
    | NoResult(ref: Id)

  /** The tables after a call, and what it returned or threw: a call may throw after writing. */
  datatype Reply<T> = Reply(tables: Tables, answer: Result<T, AmnError>)

  datatype EvaluateArgs = EvaluateArgs(
    actionRef: Id,
    actionType: string,
    subjectDid: Id,
    mandateRef: Id,
    policyRef: Option<Id>,
    accountRef: Option<Id>)

  function Overlay(template: Decision, args: EvaluateArgs): Decision {
    template.(actionRef := args.actionRef, actionType := args.actionType, subjectDid := args.subjectDid,
              mandateRef := args.mandateRef, policyRef := args.policyRef, accountRef := args.accountRef)
  }

  function SessionId(challengeRef: Id): Id {
    "aps-" + challengeRef
  }

  function OrElse<T>(value: Option<T>, default: T): T {
    if value.Some? then value.value else default
  }

  /** A reference that is present: the source tests truthiness, so an empty one counts as absent. */
  predicate Given(ref: Option<Id>) {
    ref.Some? && ref.value != ""
  }

  function Evaluate(t: Templates, st: Tables, args: EvaluateArgs): Reply<Decision> {
    if args.mandateRef !in st.mandates then Reply(st, Err(UnknownMandate(args.mandateRef)))
    else if args.actionRef !in t.initial then Reply(st, Err(UnknownAction(args.actionRef)))
    else
      var decision := Overlay(t.initial[args.actionRef], args);
      Reply(st.PutDecision(decision), Ok(decision))
  }

  datatype ApprovalRequest = ApprovalRequest(challenge: Challenge, approvalContext: Context, approvalSession: Session)

  function NewChallenge(template: Challenge, prior: Decision): Challenge {
    template.(actionRef := prior.actionRef, actionType := prior.actionType, subjectDid := prior.subjectDid,
              mandateRef := Some(prior.mandateRef), policyRef := prior.policyRef,
              reasonCode := OrElse(prior.reasonCode, template.reasonCode))
  }

  function NewSession(prior: Decision, challenge: Challenge, context: Context): Session {
    Session(SessionId(challenge.challengeId), prior.actionRef, prior.actionType, prior.subjectDid,
            Some(prior.mandateRef), prior.policyRef, prior.decisionId, challenge.challengeId,
            context.approvalContextId, None, None, Pending, challenge.createdAt, context.createdAt)
  }

  /** Writes the challenge before it looks for the context template, so that throw leaves a challenge behind. */
  function CreateApprovalRequest(t: Templates, st: Tables, prior: Decision): Reply<ApprovalRequest> {
    if prior.actionRef !in t.challenge then Reply(st, Err(UnknownAction(prior.actionRef)))
    else
      var created := NewChallenge(t.challenge[prior.actionRef], prior);
      var st1 := st.PutChallenge(created);
      if prior.actionRef !in t.context then Reply(st1, Err(UnknownAction(prior.actionRef)))
      else
        var context := t.context[prior.actionRef].(challengeRef := created.challengeId, actionRef := created.actionRef);
        var challenge := created.(state := PendingApproval, approvalContextRef := Some(context.approvalContextId),
                                  updatedAt := context.createdAt);
        var session := NewSession(prior, challenge, context);
        Reply(st1.PutContext(context).PutChallenge(challenge).PutSession(session),
              Ok(ApprovalRequest(challenge, context, session)))
  }

  /** The record kept of a result: the given fields over those of the action's template. */
  function Recorded(t: Templates, result: ApprovalResult): ApprovalResult {
    if result.actionRef in t.result && result.approvalReceiptRef.None?
    then result.(approvalReceiptRef := t.result[result.actionRef].approvalReceiptRef)
    else result
  }

  datatype AppliedApproval = AppliedApproval(approvalResult: ApprovalResult, approvalSession: Session, challenge: Challenge)

  function ApplyApprovalResult(t: Templates, st: Tables, sessionRef: Id, result: ApprovalResult): Reply<AppliedApproval> {
    if sessionRef !in st.sessions then Reply(st, Err(UnknownSession(sessionRef)))
    else
      var s := st.sessions[sessionRef];
      if s.challengeRef !in st.challenges then Reply(st, Err(UnknownChallenge(s.challengeRef)))
      else
        var r := Recorded(t, result.(challengeRef := s.challengeRef, actionRef := s.actionRef));
        var challenge := st.challenges[s.challengeRef].(state := Decided(r.result), updatedAt := r.decidedAt);
        var session := s.(approvalResultRef := Some(r.approvalResultId), status := Closed(r.result),
                          updatedAt := r.decidedAt);
        Reply(st.PutResult(r).PutChallenge(challenge).PutSession(session),
              Ok(AppliedApproval(r, session, challenge)))
  }

  function VerdictText(v: Verdict): string {
    match v
    case Approved => "approved"
    case Rejected => "rejected"
    case Expired => "expired"
    case Cancelled => "cancelled"
  }

  /** The decision a result leads to: not approved, the prior decision under its own id is changed. */
  function FinalDecision(t: Templates, prior: Decision, r: ApprovalResult): Result<Decision, AmnError> {
    if r.result != Approved then
      Ok(prior.(result := if r.result == Expired then AuthExpired else AuthRejected,
                challengeState := Decided(r.result),
                reasonCode := Some("approval-" + VerdictText(r.result)),
                evaluatedAt := r.decidedAt))
    else if prior.actionRef !in t.final then Err(UnknownAction(prior.actionRef))
    else
      Ok(Overlay(t.final[prior.actionRef],
                 EvaluateArgs(prior.actionRef, prior.actionType, prior.subjectDid, prior.mandateRef,
                              prior.policyRef, prior.accountRef)))
  }

  datatype Resumed = Resumed(finalDecision: Decision, approvalResult: ApprovalResult, approvalSession: Session, challenge: Challenge)

  function ResumeAuthorizationSession(t: Templates, st: Tables, sessionRef: Id): Reply<Resumed> {
    if sessionRef !in st.sessions then Reply(st, Err(UnknownSession(sessionRef)))
    else
      var s := st.sessions[sessionRef];
      if s.challengeRef !in st.challenges then Reply(st, Err(UnknownChallenge(s.challengeRef)))
      else if !Given(s.approvalResultRef) || s.approvalResultRef.value !in st.results then
        Reply(st, Err(NoResult(sessionRef)))
      else
        var challenge, r := st.challenges[s.challengeRef], st.results[s.approvalResultRef.value];
        if Given(s.finalDecisionRef) then
          if s.finalDecisionRef.value !in st.decisions then Reply(st, Err(UnknownDecision(s.finalDecisionRef.value)))
          else Reply(st, Ok(Resumed(st.decisions[s.finalDecisionRef.value], r, s, challenge)))
        else if s.priorDecisionRef !in st.decisions then Reply(st, Err(UnknownDecision(s.priorDecisionRef)))
        else
          match FinalDecision(t, st.decisions[s.priorDecisionRef], r)
          case Err(e) => Reply(st, Err(e))
          case Ok(d) =>
            var session := s.(finalDecisionRef := Some(d.decisionId), status := Finalized, updatedAt := r.decidedAt);
            Reply(st.PutDecision(d).PutSession(session), Ok(Resumed(d, r, session, challenge)))
  }
}
