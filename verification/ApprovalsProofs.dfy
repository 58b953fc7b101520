/** The tables of the approval protocol agree in every reachable state, and a decision latches. */
module ApprovalsProofs {
  import opened Prelude
  import opened Approvals

  /**
   Template ids name one decision or challenge each, and final templates approve. (The tables
   are keyed by these ids, so templates that share one would overwrite each other's records.)
   */
  predicate WellFormed(t: Templates) {
    && (forall a :: a in t.initial ==> t.initial[a].decisionId != "")
    && (forall a :: a in t.final ==> t.final[a].decisionId != "" && t.final[a].result == AuthApproved)
    && (forall a, b :: a in t.initial && b in t.initial && a != b ==> t.initial[a].decisionId != t.initial[b].decisionId)
    && (forall a, b :: a in t.final && b in t.final && a != b ==> t.final[a].decisionId != t.final[b].decisionId)
    && (forall a, b :: a in t.initial && b in t.final ==> t.initial[a].decisionId != t.final[b].decisionId)
    && (forall a, b :: a in t.challenge && b in t.challenge && a != b ==> t.challenge[a].challengeId != t.challenge[b].challengeId)
  }

  predicate IsInitialId(t: Templates, a: Id, id: Id) {
    a in t.initial && id == t.initial[a].decisionId
  }

  predicate IsFinalId(t: Templates, a: Id, id: Id) {
    a in t.final && id == t.final[a].decisionId
  }

  /** A stored decision is kept under the id of its own action's initial or final template. */
  predicate DecisionFiled(t: Templates, st: Tables, id: Id)
    requires id in st.decisions
  {
    var d := st.decisions[id];
    d.decisionId == id && (IsInitialId(t, d.actionRef, id) || IsFinalId(t, d.actionRef, id))
  }

  /** The session's result is stored, was recorded for its challenge, and its challenge shows it. */
  predicate ShowsResult(st: Tables, s: Session) {
    && s.approvalResultRef.Some? && s.approvalResultRef.value in st.results
    && s.challengeRef in st.challenges
    && st.results[s.approvalResultRef.value].challengeRef == s.challengeRef
    && st.challenges[s.challengeRef].state == Decided(st.results[s.approvalResultRef.value].result)
  }

  predicate SessionAgrees(t: Templates, st: Tables, id: Id)
    requires id in st.sessions
  {
    var s := st.sessions[id];
    && s.approvalSessionId == id == SessionId(s.challengeRef)
    && s.actionRef in t.challenge && s.challengeRef == t.challenge[s.actionRef].challengeId
    && s.actionRef in t.context
    && IsInitialId(t, s.actionRef, s.priorDecisionRef)
    && s.challengeRef in st.challenges && st.challenges[s.challengeRef].challengeId == s.challengeRef
    && (s.finalDecisionRef.Some? ==>
          && s.finalDecisionRef.value in st.decisions
          && (IsInitialId(t, s.actionRef, s.finalDecisionRef.value) || IsFinalId(t, s.actionRef, s.finalDecisionRef.value)))
    && match s.status
       case Pending =>
         s.approvalResultRef == None && s.finalDecisionRef == None && st.challenges[s.challengeRef].state == PendingApproval
       case Closed(verdict) =>
         ShowsResult(st, s) && st.results[s.approvalResultRef.value].result == verdict
       case Finalized =>
         ShowsResult(st, s) && s.finalDecisionRef.Some?
  }

  predicate Agree(t: Templates, st: Tables) {
    && (forall id :: id in st.decisions ==> DecisionFiled(t, st, id))
    && (forall id :: id in st.sessions ==> SessionAgrees(t, st, id))
  }

  // ---- calls ----

  datatype Call =
    | EvaluateCall(args: EvaluateArgs)
    | CreateCall(prior: Decision)
    | ApplyCall(sessionRef: Id, result: ApprovalResult)
    | ResumeCall(sessionRef: Id)

  function Step(t: Templates, st: Tables, call: Call): Tables {
    match call
    case EvaluateCall(args) => Evaluate(t, st, args).tables
    case CreateCall(prior) => CreateApprovalRequest(t, st, prior).tables
    case ApplyCall(ref, result) => ApplyApprovalResult(t, st, ref, result).tables
    case ResumeCall(ref) => ResumeAuthorizationSession(t, st, ref).tables
  }

  function Run(t: Templates, st: Tables, calls: seq<Call>): Tables
    decreases calls
  {
    if calls == [] then st else Run(t, Step(t, st, calls[0]), calls[1..])
  }

  /** The result id is not one that another session's result is stored under. */
  predicate OwnResultId(st: Tables, sessionRef: Id, resultId: Id) {
    forall id :: id in st.sessions && id != sessionRef ==> st.sessions[id].approvalResultRef != Some(resultId)
  }

  /** A request is made with an evaluated decision, a result comes under a non-empty id of its own. */
  predicate Admissible(t: Templates, st: Tables, call: Call) {
    match call
    case CreateCall(prior) => IsInitialId(t, prior.actionRef, prior.decisionId)
    case ApplyCall(ref, result) => result.approvalResultId != "" && OwnResultId(st, ref, result.approvalResultId)
    case _ => true
  }

  predicate AllAdmissible(t: Templates, st: Tables, calls: seq<Call>)
    decreases calls
  {
    calls == [] || (Admissible(t, st, calls[0]) && AllAdmissible(t, Step(t, st, calls[0]), calls[1..]))
  }

  // ---- the tables agree ----

  /** A session whose own records did not change still agrees with them. */
  lemma SessionFrame(t: Templates, st: Tables, st': Tables, id: Id)
    requires id in st.sessions && SessionAgrees(t, st, id)
    requires id in st'.sessions && st'.sessions[id] == st.sessions[id]
    requires st.decisions.Keys <= st'.decisions.Keys
    requires var s := st.sessions[id];
             && s.challengeRef in st'.challenges && st'.challenges[s.challengeRef] == st.challenges[s.challengeRef]
             && (s.approvalResultRef.Some? && s.approvalResultRef.value in st.results ==>
                   && s.approvalResultRef.value in st'.results
                   && st'.results[s.approvalResultRef.value] == st.results[s.approvalResultRef.value])
    ensures SessionAgrees(t, st', id)
  {}

  /** Two sessions belong to two challenges and two actions. */
  lemma SessionsApart(t: Templates, st: Tables, id: Id, other: Id)
    requires WellFormed(t) && id in st.sessions && other in st.sessions && id != other
    requires SessionAgrees(t, st, id) && SessionAgrees(t, st, other)
    ensures st.sessions[id].challengeRef != st.sessions[other].challengeRef
    ensures st.sessions[id].actionRef != st.sessions[other].actionRef
    ensures st.sessions[id].priorDecisionRef != st.sessions[other].priorDecisionRef
  {
    hide ShowsResult;
  }

  lemma EvaluateAgrees(t: Templates, st: Tables, args: EvaluateArgs)
    requires WellFormed(t) && Agree(t, st)
    ensures Agree(t, Evaluate(t, st, args).tables)
  {
    hide SessionAgrees, WellFormed;
    var st' := Evaluate(t, st, args).tables;
    forall id | id in st'.sessions
      ensures SessionAgrees(t, st', id)
    {
      EvaluateFrame(t, st, args, id);
    }
    forall id | id in st'.decisions
      ensures DecisionFiled(t, st', id)
    {
      assert id in st.decisions ==> DecisionFiled(t, st, id);
    }
  }

  lemma EvaluateFrame(t: Templates, st: Tables, args: EvaluateArgs, id: Id)
    requires id in st.sessions && SessionAgrees(t, st, id)
    ensures SessionAgrees(t, Evaluate(t, st, args).tables, id)
  {
    SessionFrame(t, st, Evaluate(t, st, args).tables, id);
  }

  /** The session a request makes is pending on the challenge it made. */
  lemma CreatedSession(t: Templates, st: Tables, prior: Decision)
    requires IsInitialId(t, prior.actionRef, prior.decisionId)
    requires prior.actionRef in t.challenge && prior.actionRef in t.context
    ensures var st' := CreateApprovalRequest(t, st, prior).tables;
            var id := SessionId(t.challenge[prior.actionRef].challengeId);
            id in st'.sessions && SessionAgrees(t, st', id) && st'.sessions == st.sessions[id := st'.sessions[id]]
  {}

  lemma CreateAgrees(t: Templates, st: Tables, prior: Decision)
    requires WellFormed(t) && Agree(t, st) && IsInitialId(t, prior.actionRef, prior.decisionId)
    ensures Agree(t, CreateApprovalRequest(t, st, prior).tables)
  {
    var st' := CreateApprovalRequest(t, st, prior).tables;
    if prior.actionRef in t.challenge {
      var made := SessionId(t.challenge[prior.actionRef].challengeId);
      if prior.actionRef in t.context {
        CreatedSession(t, st, prior);
      }
      forall id | id in st'.sessions
        ensures SessionAgrees(t, st', id)
      {
        if id != made || prior.actionRef !in t.context {
          CreateFrame(t, st, prior, id);
        }
      }
    }
    hide SessionAgrees, WellFormed;
    forall id | id in st'.decisions
      ensures DecisionFiled(t, st', id)
    {
      assert DecisionFiled(t, st, id);
    }
  }

  lemma CreateFrame(t: Templates, st: Tables, prior: Decision, id: Id)
    requires WellFormed(t) && prior.actionRef in t.challenge
    requires id in st.sessions && SessionAgrees(t, st, id)
    requires id != SessionId(t.challenge[prior.actionRef].challengeId) || prior.actionRef !in t.context
    ensures var st' := CreateApprovalRequest(t, st, prior).tables;
            id in st'.sessions && SessionAgrees(t, st', id)
  {
    var st' := CreateApprovalRequest(t, st, prior).tables;
    assert st.sessions[id].challengeRef != t.challenge[prior.actionRef].challengeId;
    SessionFrame(t, st, st', id);
  }

  lemma AppliedSession(t: Templates, st: Tables, ref: Id, result: ApprovalResult)
    requires ref in st.sessions && SessionAgrees(t, st, ref)
    ensures var st' := ApplyApprovalResult(t, st, ref, result).tables;
            && ref in st'.sessions && SessionAgrees(t, st', ref)
            && st'.sessions == st.sessions[ref := st'.sessions[ref]] && st'.decisions == st.decisions
  {}

  /** Applying a result keeps the tables in agreement exactly when no other session's result has its id. */
  lemma ApplyAgrees(t: Templates, st: Tables, ref: Id, result: ApprovalResult)
    requires WellFormed(t) && Agree(t, st) && ref in st.sessions
    ensures Agree(t, ApplyApprovalResult(t, st, ref, result).tables) <==> OwnResultId(st, ref, result.approvalResultId)
  {
    assert SessionAgrees(t, st, ref);
    if OwnResultId(st, ref, result.approvalResultId) {
      ApplyOwnAgrees(t, st, ref, result);
    } else {
      var id :| id in st.sessions && id != ref && st.sessions[id].approvalResultRef == Some(result.approvalResultId);
      assert SessionAgrees(t, st, id);
      SessionsApart(t, st, id, ref);
      hide Agree, ApplyApprovalResult, SessionAgrees;
      ResultTaken(t, st, ref, result, id);
    }
  }

  lemma ApplyOwnAgrees(t: Templates, st: Tables, ref: Id, result: ApprovalResult)
    requires WellFormed(t) && Agree(t, st) && ref in st.sessions && OwnResultId(st, ref, result.approvalResultId)
    ensures Agree(t, ApplyApprovalResult(t, st, ref, result).tables)
  {
    hide ApplyApprovalResult, SessionAgrees, DecisionFiled, WellFormed;
    var st' := ApplyApprovalResult(t, st, ref, result).tables;
    assert SessionAgrees(t, st, ref);
    AppliedSession(t, st, ref, result);
    forall id | id in st'.sessions
      ensures SessionAgrees(t, st', id)
    {
      if id != ref {
        ApplyFrame(t, st, ref, result, id);
      }
    }
    forall id | id in st'.decisions
      ensures DecisionFiled(t, st', id)
    {
      FiledFrame(t, st, st', id);
    }
  }

  lemma FiledFrame(t: Templates, st: Tables, st': Tables, id: Id)
    requires id in st.decisions && DecisionFiled(t, st, id) && st'.decisions == st.decisions
    ensures DecisionFiled(t, st', id)
  {}

  lemma ApplyFrame(t: Templates, st: Tables, ref: Id, result: ApprovalResult, id: Id)
    requires WellFormed(t) && ref in st.sessions && id in st.sessions && id != ref
    requires SessionAgrees(t, st, ref) && SessionAgrees(t, st, id)
    requires st.sessions[id].approvalResultRef != Some(result.approvalResultId)
    ensures var st' := ApplyApprovalResult(t, st, ref, result).tables;
            id in st'.sessions && SessionAgrees(t, st', id)
  {
    var st' := ApplyApprovalResult(t, st, ref, result).tables;
    SessionsApart(t, st, id, ref);
    hide WellFormed;
    SessionFrame(t, st, st', id);
  }

  lemma ResultTaken(t: Templates, st: Tables, ref: Id, result: ApprovalResult, id: Id)
    requires ref in st.sessions && id in st.sessions && id != ref
    requires SessionAgrees(t, st, ref) && SessionAgrees(t, st, id)
    requires st.sessions[id].approvalResultRef == Some(result.approvalResultId)
    requires st.sessions[id].challengeRef != st.sessions[ref].challengeRef
    ensures !Agree(t, ApplyApprovalResult(t, st, ref, result).tables)
  {
    assert !SessionAgrees(t, ApplyApprovalResult(t, st, ref, result).tables, id);
  }

  lemma PriorOfSession(t: Templates, st: Tables, ref: Id)
    requires WellFormed(t) && Agree(t, st) && ref in st.sessions && st.sessions[ref].priorDecisionRef in st.decisions
    ensures var prior := st.decisions[st.sessions[ref].priorDecisionRef];
            prior.actionRef == st.sessions[ref].actionRef && prior.decisionId == st.sessions[ref].priorDecisionRef
  {
    assert SessionAgrees(t, st, ref);
    assert DecisionFiled(t, st, st.sessions[ref].priorDecisionRef);
  }

  /** The decision a first resume stores is filed for the session's action, and the session names it. */
  lemma ResumedSession(t: Templates, st: Tables, ref: Id)
    requires WellFormed(t) && Agree(t, st) && ResumeAuthorizationSession(t, st, ref).tables != st
    ensures var st' := ResumeAuthorizationSession(t, st, ref).tables;
            && ref in st.sessions && ref in st'.sessions && SessionAgrees(t, st', ref)
            && st'.sessions[ref].finalDecisionRef.Some?
            && (var id := st'.sessions[ref].finalDecisionRef.value;
                && id in st'.decisions && DecisionFiled(t, st', id)
                && st'.decisions == st.decisions[id := st'.decisions[id]]
                && st'.decisions[id].actionRef == st.sessions[ref].actionRef)
            && st'.sessions == st.sessions[ref := st'.sessions[ref]]
            && st'.challenges == st.challenges && st'.results == st.results
  {
    ResumeWrote(t, st, ref);
    PriorOfSession(t, st, ref);
    assert SessionAgrees(t, st, ref);
    hide Agree, WellFormed;
    ResumedFrom(t, st, ref);
  }

  lemma ResumeWrote(t: Templates, st: Tables, ref: Id)
    requires ResumeAuthorizationSession(t, st, ref).tables != st
    ensures ref in st.sessions && st.sessions[ref].priorDecisionRef in st.decisions
    ensures !Given(st.sessions[ref].finalDecisionRef)
  {}

  lemma ResumedFrom(t: Templates, st: Tables, ref: Id)
    requires ref in st.sessions && SessionAgrees(t, st, ref) && ResumeAuthorizationSession(t, st, ref).tables != st
    requires st.sessions[ref].priorDecisionRef in st.decisions && !Given(st.sessions[ref].finalDecisionRef)
    requires var prior := st.decisions[st.sessions[ref].priorDecisionRef];
             prior.actionRef == st.sessions[ref].actionRef && prior.decisionId == st.sessions[ref].priorDecisionRef
    ensures var st' := ResumeAuthorizationSession(t, st, ref).tables;
            && ref in st'.sessions && SessionAgrees(t, st', ref)
            && st'.sessions[ref].finalDecisionRef.Some?
            && (var id := st'.sessions[ref].finalDecisionRef.value;
                && id in st'.decisions && DecisionFiled(t, st', id)
                && st'.decisions == st.decisions[id := st'.decisions[id]]
                && st'.decisions[id].actionRef == st.sessions[ref].actionRef)
            && st'.sessions == st.sessions[ref := st'.sessions[ref]]
            && st'.challenges == st.challenges && st'.results == st.results
  {
    hide VerdictText;
  }

  lemma ResumeAgrees(t: Templates, st: Tables, ref: Id)
    requires WellFormed(t) && Agree(t, st)
    ensures Agree(t, ResumeAuthorizationSession(t, st, ref).tables)
  {
    var st' := ResumeAuthorizationSession(t, st, ref).tables;
    if st' != st {
      ResumedSession(t, st, ref);
      hide ResumeAuthorizationSession, WellFormed, SessionAgrees;
      forall id | id in st'.sessions
        ensures SessionAgrees(t, st', id)
      {
        if id != ref {
          ResumeFrame(t, st, st', id);
        }
      }
      forall id | id in st'.decisions
        ensures DecisionFiled(t, st', id)
      {
        assert id in st.decisions ==> DecisionFiled(t, st, id);
      }
    }
  }

  lemma ResumeFrame(t: Templates, st: Tables, st': Tables, id: Id)
    requires id in st.sessions && SessionAgrees(t, st, id)
    requires id in st'.sessions && st'.sessions[id] == st.sessions[id]
    requires st.decisions.Keys <= st'.decisions.Keys && st'.challenges == st.challenges && st'.results == st.results
    ensures SessionAgrees(t, st', id)
  {
    SessionFrame(t, st, st', id);
  }

  lemma StepAgrees(t: Templates, st: Tables, call: Call)
    requires WellFormed(t) && Agree(t, st) && Admissible(t, st, call)
    ensures Agree(t, Step(t, st, call))
  {
    hide Agree, WellFormed;
    match call
    case EvaluateCall(args) => EvaluateAgrees(t, st, args);
    case CreateCall(prior) => CreateAgrees(t, st, prior);
    case ApplyCall(ref, result) =>
      if ref in st.sessions {
        ApplyAgrees(t, st, ref, result);
      }
    case ResumeCall(ref) => ResumeAgrees(t, st, ref);
  }

  /** From empty tables, whatever the calls, the tables agree. */
  lemma {:induction false} RunAgrees(t: Templates, st: Tables, calls: seq<Call>)
    requires WellFormed(t) && Agree(t, st) && AllAdmissible(t, st, calls)
    ensures Agree(t, Run(t, st, calls))
    decreases calls
  {
    hide Agree, WellFormed, Step, Admissible;
    if calls != [] {
      StepAgrees(t, st, calls[0]);
      RunAgrees(t, Step(t, st, calls[0]), calls[1..]);
    }
  }

  lemma EmptyAgrees(t: Templates, mandates: set<Id>)
    ensures Agree(t, Tables(mandates, map[], map[], map[], map[], map[]))
  {}

  // ---- the latch ----

  /** The session has been finalized with decision `d`, and that is what the table holds. */
  predicate Latched(st: Tables, ref: Id, d: Decision) {
    && ref in st.sessions
    && st.sessions[ref].finalDecisionRef == Some(d.decisionId)
    && d.decisionId in st.decisions && st.decisions[d.decisionId] == d
  }

  /** The call evaluates the action again or makes a new request for it. */
  predicate Reopens(call: Call, action: Id) {
    (call.EvaluateCall? && call.args.actionRef == action) || (call.CreateCall? && call.prior.actionRef == action)
  }

  /** A latched session resumes to its decision, and resuming it writes nothing. */
  lemma ResumeLatched(t: Templates, st: Tables, ref: Id, d: Decision)
    requires WellFormed(t) && Agree(t, st) && Latched(st, ref, d) && Given(st.sessions[ref].approvalResultRef)
    ensures var reply := ResumeAuthorizationSession(t, st, ref);
            reply.tables == st && reply.answer.Ok? && reply.answer.value.finalDecision == d
  {
    assert SessionAgrees(t, st, ref);
    assert DecisionFiled(t, st, d.decisionId);
  }

  lemma StepLatched(t: Templates, st: Tables, call: Call, ref: Id, d: Decision)
    requires WellFormed(t) && Agree(t, st) && Admissible(t, st, call)
    requires Latched(st, ref, d) && Given(st.sessions[ref].approvalResultRef)
    requires !Reopens(call, st.sessions[ref].actionRef)
    ensures var st' := Step(t, st, call);
            && Latched(st', ref, d) && Given(st'.sessions[ref].approvalResultRef)
            && st'.sessions[ref].actionRef == st.sessions[ref].actionRef
  {
    match call
    case EvaluateCall(args) => EvaluateKeepsLatch(t, st, args, ref, d);
    case CreateCall(prior) => CreateKeepsLatch(t, st, prior, ref, d);
    case ApplyCall(other, result) => ApplyKeepsLatch(t, st, other, result, ref, d);
    case ResumeCall(other) => ResumeKeepsLatch(t, st, other, ref, d);
  }

  lemma EvaluateKeepsLatch(t: Templates, st: Tables, args: EvaluateArgs, ref: Id, d: Decision)
    requires WellFormed(t) && Agree(t, st) && Latched(st, ref, d) && args.actionRef != st.sessions[ref].actionRef
    ensures var st' := Evaluate(t, st, args).tables; Latched(st', ref, d) && st'.sessions == st.sessions
  {
    assert SessionAgrees(t, st, ref);
    var e := Evaluate(t, st, args);
    if e.answer.Ok? {
      FiledApart(t, d, st.sessions[ref].actionRef, e.answer.value);
    }
    hide Agree, WellFormed, SessionAgrees;
  }

  lemma CreateKeepsLatch(t: Templates, st: Tables, prior: Decision, ref: Id, d: Decision)
    requires WellFormed(t) && Agree(t, st) && Latched(st, ref, d) && prior.actionRef != st.sessions[ref].actionRef
    ensures var st' := CreateApprovalRequest(t, st, prior).tables;
            Latched(st', ref, d) && st'.sessions[ref] == st.sessions[ref]
  {
    assert SessionAgrees(t, st, ref);
    hide Agree, ShowsResult, IsInitialId, IsFinalId;
    if prior.actionRef in t.challenge {
      SessionIdTail(t.challenge[prior.actionRef].challengeId);
      SessionIdTail(st.sessions[ref].challengeRef);
      assert t.challenge[prior.actionRef].challengeId != st.sessions[ref].challengeRef;
    }
    hide WellFormed, SessionAgrees;
  }

  lemma SessionIdTail(challengeRef: Id)
    ensures SessionId(challengeRef)[4..] == challengeRef
  {}

  lemma ApplyKeepsLatch(t: Templates, st: Tables, other: Id, result: ApprovalResult, ref: Id, d: Decision)
    requires Agree(t, st) && Latched(st, ref, d) && Given(st.sessions[ref].approvalResultRef)
    requires result.approvalResultId != ""
    ensures var st' := ApplyApprovalResult(t, st, other, result).tables;
            && Latched(st', ref, d) && Given(st'.sessions[ref].approvalResultRef)
            && st'.sessions[ref].actionRef == st.sessions[ref].actionRef
  {
    assert other in st.sessions ==> SessionAgrees(t, st, other);
    hide Agree, ShowsResult;
  }

  lemma ResumeKeepsLatch(t: Templates, st: Tables, other: Id, ref: Id, d: Decision)
    requires WellFormed(t) && Agree(t, st) && Latched(st, ref, d) && Given(st.sessions[ref].approvalResultRef)
    ensures var st' := ResumeAuthorizationSession(t, st, other).tables;
            && Latched(st', ref, d) && st'.sessions[ref].actionRef == st.sessions[ref].actionRef
            && st'.sessions[ref].approvalResultRef == st.sessions[ref].approvalResultRef
  {
    var st' := ResumeAuthorizationSession(t, st, other).tables;
    if st' != st {
      ResumedSession(t, st, other);
      ResumeWrote(t, st, other);
      assert SessionAgrees(t, st, ref) && SessionAgrees(t, st, other);
      assert DecisionFiled(t, st, d.decisionId);
      hide ResumeAuthorizationSession, WellFormed, Agree, ShowsResult;
      if other == ref {
        ResumeLatched(t, st, ref, d);
      } else {
        OtherResumed(t, st, st', other, ref, d);
      }
    }
  }

  /** A decision filed for another session's action leaves this one's in place. */
  lemma OtherResumed(t: Templates, st: Tables, st': Tables, other: Id, ref: Id, d: Decision)
    requires WellFormed(t) && ref != other && other in st.sessions && Latched(st, ref, d)
    requires SessionAgrees(t, st, ref) && SessionAgrees(t, st, other)
    requires other in st'.sessions && st'.sessions == st.sessions[other := st'.sessions[other]]
    requires st'.sessions[other].finalDecisionRef.Some?
    requires var id := st'.sessions[other].finalDecisionRef.value;
             && id in st'.decisions && DecisionFiled(t, st', id)
             && st'.decisions == st.decisions[id := st'.decisions[id]]
             && st'.decisions[id].actionRef == st.sessions[other].actionRef
    ensures Latched(st', ref, d) && st'.sessions[ref] == st.sessions[ref]
  {
    SessionsApart(t, st, ref, other);
    var e := st'.decisions[st'.sessions[other].finalDecisionRef.value];
    assert IsInitialId(t, st.sessions[ref].actionRef, d.decisionId) || IsFinalId(t, st.sessions[ref].actionRef, d.decisionId);
    hide WellFormed, SessionAgrees, IsInitialId, IsFinalId;
    FiledApart(t, d, st.sessions[ref].actionRef, e);
  }

  /** Decisions filed for different actions have different ids. */
  lemma FiledApart(t: Templates, d: Decision, action: Id, e: Decision)
    requires WellFormed(t) && action != e.actionRef
    requires IsInitialId(t, action, d.decisionId) || IsFinalId(t, action, d.decisionId)
    requires IsInitialId(t, e.actionRef, e.decisionId) || IsFinalId(t, e.actionRef, e.decisionId)
    ensures d.decisionId != e.decisionId
  {}

  lemma {:induction false} RunLatched(t: Templates, st: Tables, calls: seq<Call>, ref: Id, d: Decision)
    requires WellFormed(t) && Agree(t, st) && AllAdmissible(t, st, calls)
    requires Latched(st, ref, d) && Given(st.sessions[ref].approvalResultRef)
    requires forall i :: 0 <= i < |calls| ==> !Reopens(calls[i], st.sessions[ref].actionRef)
    ensures var st' := Run(t, st, calls); Latched(st', ref, d) && Given(st'.sessions[ref].approvalResultRef)
    decreases calls
  {
    hide Agree, WellFormed, Step, Admissible;
    if calls != [] {
      StepAgrees(t, st, calls[0]);
      StepLatched(t, st, calls[0], ref, d);
      RunLatched(t, Step(t, st, calls[0]), calls[1..], ref, d);
    }
  }

  /** What a successful resume leaves behind. */
  lemma ResumeLatches(t: Templates, st: Tables, ref: Id)
    requires WellFormed(t) && Agree(t, st) && ResumeAuthorizationSession(t, st, ref).answer.Ok?
    ensures var reply := ResumeAuthorizationSession(t, st, ref);
            && Agree(t, reply.tables)
            && Latched(reply.tables, ref, reply.answer.value.finalDecision)
            && Given(reply.tables.sessions[ref].approvalResultRef)
            && reply.tables.sessions[ref].actionRef == st.sessions[ref].actionRef
  {
    ResumeAgrees(t, st, ref);
    assert SessionAgrees(t, st, ref);
    if !Given(st.sessions[ref].finalDecisionRef) {
      PriorOfSession(t, st, ref);
    } else {
      assert DecisionFiled(t, st, st.sessions[ref].finalDecisionRef.value);
    }
  }

  /**
   The latch: once a resume has succeeded, and until its action is evaluated or requested again,
   every later resume of the session returns the same decision and writes nothing, whatever
   results are applied to it and whatever happens to other sessions.
   */
  lemma DecisionLatch(t: Templates, st: Tables, ref: Id, calls: seq<Call>)
    requires WellFormed(t) && Agree(t, st) && ResumeAuthorizationSession(t, st, ref).answer.Ok?
    requires AllAdmissible(t, ResumeAuthorizationSession(t, st, ref).tables, calls)
    requires forall i :: 0 <= i < |calls| ==> !Reopens(calls[i], st.sessions[ref].actionRef)
    ensures var first := ResumeAuthorizationSession(t, st, ref);
            var later := Run(t, first.tables, calls);
            var again := ResumeAuthorizationSession(t, later, ref);
            && again.tables == later && again.answer.Ok?
            && again.answer.value.finalDecision == first.answer.value.finalDecision
  {
    var first := ResumeAuthorizationSession(t, st, ref);
    ResumeLatches(t, st, ref);
    hide Agree, WellFormed, ResumeAuthorizationSession;
    RunLatched(t, first.tables, calls, ref, first.answer.value.finalDecision);
    RunAgrees(t, first.tables, calls);
    ResumeLatched(t, Run(t, first.tables, calls), ref, first.answer.value.finalDecision);
  }

  /** The first resume decides as the stored result says, and stores an approval under the final template's id. */
  lemma FirstResume(t: Templates, st: Tables, ref: Id)
    requires WellFormed(t) && Agree(t, st) && ResumeAuthorizationSession(t, st, ref).answer.Ok?
    requires st.sessions[ref].finalDecisionRef == None
    ensures var resumed := ResumeAuthorizationSession(t, st, ref).answer.value;
            var stored := st.results[st.sessions[ref].approvalResultRef.value];
            && resumed.approvalResult == stored && stored.challengeRef == st.sessions[ref].challengeRef
            && resumed.finalDecision.result == (match stored.result
                                                case Approved => AuthApproved
                                                case Rejected => AuthRejected
                                                case Expired => AuthExpired
                                                case Cancelled => AuthRejected)
            && resumed.finalDecision.actionRef == st.sessions[ref].actionRef
            && (if stored.result == Approved
                then IsFinalId(t, st.sessions[ref].actionRef, resumed.finalDecision.decisionId)
                else resumed.finalDecision.decisionId == st.sessions[ref].priorDecisionRef)
  {
    assert SessionAgrees(t, st, ref);
    PriorOfSession(t, st, ref);
  }

  /**
   Evaluating the action again is what can undo the latch: an approved decision survives it, any
   other is stored under the initial id and replaced by the fresh evaluation.
   */
  lemma EvaluationAfterLatch(t: Templates, st: Tables, ref: Id, d: Decision, args: EvaluateArgs)
    requires WellFormed(t) && Agree(t, st) && Latched(st, ref, d) && Given(st.sessions[ref].approvalResultRef)
    requires args.actionRef == st.sessions[ref].actionRef && Evaluate(t, st, args).answer.Ok?
    ensures var renewed := Evaluate(t, st, args);
            var again := ResumeAuthorizationSession(t, renewed.tables, ref);
            && again.answer.Ok?
            && again.answer.value.finalDecision ==
               (if IsFinalId(t, st.sessions[ref].actionRef, d.decisionId) then d else renewed.answer.value)
  {
    assert SessionAgrees(t, st, ref);
    EvaluateAgrees(t, st, args);
    var renewed := Evaluate(t, st, args);
    ResumeLatched(t, renewed.tables, ref,
                  if IsFinalId(t, st.sessions[ref].actionRef, d.decisionId) then d else renewed.answer.value);
  }
}
