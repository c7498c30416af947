/**
 What becomes of an operator's answer (`submit_approval_response`): exactly which answers grant, deny, expire or are
 refused, what each leaves behind, and where the grants in the store of a run come from.
 */
module HostAnswers {
  import opened Wrappers
  import opened Policy
  import opened Approvals
  import opened Engine
  import opened EngineRuns
  import opened HostApprovals
  import opened Host
  import opened HostRuns

  // ------------------------------------------------------------ one answer

  /** Whatever the answer says of the action is what is pending. */
  predicate Agrees(r: HostResponse, b: Binding)
  {
    && (r.session == None || r.session == Some(b.session)) && (r.target == None || r.target == Some(b.target))
    && (r.provider == None || r.provider == Some(b.provider))
    && (r.capability == None || r.capability == Some(b.capability))
    && (r.fingerprint == None || r.fingerprint == Some(b.fingerprint))
  }

  /** A complete answer to a pending approval that does not contradict it, and that the audit sink has taken. */
  predicate Answers(s: HostState, r: HostResponse, recorded: bool)
  {
    && r.requestId != "" && r.operator != "" && r.requestId in s.pending && recorded
    && Agrees(r, s.pending[r.requestId].approval.binding)
  }

  /** The answer grants, in time, what can be approved. */
  predicate GrantsIt(s: HostState, r: HostResponse, recorded: bool)
  {
    && Answers(s, r, recorded) && r.decision == HostGranted
    && r.decidedAt < s.pending[r.requestId].approval.expiresAt
    && !Unapprovable(s.pending[r.requestId].approval.binding.capability)
  }

  /** Exactly which status an answer gets. */
  lemma SubmitStatusExactly(s: HostState, r: HostResponse, recorded: bool)
    ensures var status := Submit(s, r, recorded).1;
      && (status == ApprovalGranted <==> GrantsIt(s, r, recorded))
      && (status == ApprovalDenied <==>
            && Answers(s, r, recorded) && r.decision == HostDenied
            && r.decidedAt < s.pending[r.requestId].approval.expiresAt)
      && (status == ApprovalExpired <==>
            && Answers(s, r, recorded)
            && (r.decision == HostExpired || r.decidedAt >= s.pending[r.requestId].approval.expiresAt))
  {
    hide BLOCKED, Unapprovable, ResponseId;
    if r.requestId in s.pending { BlockedExactly(s.pending[r.requestId].approval.binding.capability); }
  }

  /** The one grant that a granting answer stores. */
  function Given(a: HostApproval, r: HostResponse): Grant
  {
    Grant(a.id, "host-response-" + a.id + "-" + r.operator, a.binding, a.expiresAt, r.scope,
          Actor(Operator, r.operator))
  }

  /**
   What an answer leaves behind. Only a granting answer touches the store, and adds its one grant; a granted, denied
   or expired approval is marked as such; an unknown id and a contradiction are marked as errors; nothing else changes.
   */
  lemma SubmitExactly(s: HostState, r: HostResponse, recorded: bool)
    ensures var (after, status) := Submit(s, r, recorded);
      && after.pending == s.pending
      && after.book == (if GrantsIt(s, r, recorded)
                        then s.book.(grants := s.book.grants + [Given(s.pending[r.requestId].approval, r)]) else s.book)
      && after.states == (if status != ValidationError || Complains(s, r, recorded)
                          then s.states[r.requestId := status] else s.states)
  {
    hide BLOCKED, Unapprovable;
    SubmitStatusExactly(s, r, recorded);
  }

  /** A complete answer to nothing that is pending, or one that contradicts it. */
  predicate Complains(s: HostState, r: HostResponse, recorded: bool)
  {
    && r.requestId != "" && r.operator != ""
    && (r.requestId !in s.pending || (recorded && !Agrees(r, s.pending[r.requestId].approval.binding)))
  }

  /** A denial that reaches a pending approval in time stores no grant and closes the approval; so does expiry. */
  lemma DenialCloses(s: HostState, r: HostResponse)
    requires Answers(s, r, true)
    requires r.decision != HostGranted || r.decidedAt >= s.pending[r.requestId].approval.expiresAt
    ensures var after := Submit(s, r, true).0; after.book == s.book && !MayResume(after, r.requestId)
  {
    hide Submit, Agrees;
    SubmitStatusExactly(s, r, true);
    SubmitExactly(s, r, true);
  }

  // ------------------------------------------------------------ over runs

  /** A step of the run granted exactly this. */
  ghost predicate GivenIn(steps: seq<HostStep>, g: Grant)
  {
    exists s :: s in steps && Gives(s, g)
  }

  predicate Gives(s: HostStep, g: Grant)
  {
    && s.SubmitStep? && s.recorded && s.response.decision == HostGranted && s.response.requestId == g.requestId
    && s.response.operator != "" && g.operator == Actor(Operator, s.response.operator)
    && g.responseId == "host-response-" + g.requestId + "-" + s.response.operator
    && g.scope == s.response.scope && s.response.decidedAt < g.expiresAt
  }

  /** Approvals are kept under their own ids. */
  predicate Keyed(s: HostState)
  {
    forall id :: id in s.pending ==> s.pending[id].approval.id == id
  }

  lemma CallGivesNothing(route: Route, run: HostRun, request: Request, env: Env, stop: nat)
    ensures var next := CallNext(route, run, request, env, stop).state;
      next.book.grants == run.state.book.grants && (Keyed(run.state) ==> Keyed(next)) && next.states == run.state.states
  {
    hide HandlePlan, KeptApproval, After;
    var plan := WholeCall(route, run.state, request, env);
    var done := if stop < |plan.actions| then plan.actions[..stop] else plan.actions;
    AfterSpends(EngineState(run.state.book), done);
  }

  function EngineState(book: Book): State
  {
    State([], [], book, {})
  }

  lemma GivenLater(steps: seq<HostStep>, s: HostStep, g: Grant)
    requires GivenIn(steps, g) || Gives(s, g)
    ensures GivenIn(steps + [s], g)
  {
    if GivenIn(steps, g) {
      var t :| t in steps && Gives(t, g);
      assert t in steps + [s];
    } else {
      assert s in steps + [s];
    }
  }

  /** In every run, every stored grant was given by an operator's recorded answer that grants, in time and scope. */
  lemma {:induction false} GrantsWereGiven(route: Route, steps: seq<HostStep>)
    ensures Keyed(HostRunOf(route, steps).state)
    ensures forall g :: g in HostRunOf(route, steps).state.book.grants ==> GivenIn(steps, g)
  {
    hide CallNext, Submit, Gives, GrantsIt, Complains, GivenIn, Given;
    if steps != [] {
      var before := steps[..|steps| - 1];
      var step := steps[|steps| - 1];
      assert steps == before + [step];
      GrantsWereGiven(route, before);
      var run := HostRunOf(route, before);
      match step {
        case CallStep(request, env, stop) => CallGivesNothing(route, run, request, env, stop);
        case SubmitStep(response, recorded) =>
          SubmitExactly(run.state, response, recorded);
          if GrantsIt(run.state, response, recorded) { AnswerGives(run.state, response, recorded); }
        case ResumeStep(id, env, stop) =>
          if MayResume(run.state, id) { CallGivesNothing(route, run, run.state.pending[id].call, env, stop); }
      }
      forall g | g in HostRunOf(route, steps).state.book.grants ensures GivenIn(steps, g) {
        GivenLater(before, step, g);
      }
    }
  }

  lemma AnswerGives(s: HostState, r: HostResponse, recorded: bool)
    requires GrantsIt(s, r, recorded) && Keyed(s)
    ensures Gives(SubmitStep(r, recorded), Given(s.pending[r.requestId].approval, r))
  {
    hide Agrees, Unapprovable;
  }

  /** Once denied, an approval is not resumed for the rest of the run, unless the run answers it again. */
  lemma {:induction false} DenialHolds(route: Route, steps: seq<HostStep>, n: nat, id: string, env: Env, stop: nat)
    requires n <= |steps| && id in HostRunOf(route, steps[..n]).state.states
    requires HostRunOf(route, steps[..n]).state.states[id] == ApprovalDenied
    requires forall k :: n <= k < |steps| && steps[k].SubmitStep? ==> steps[k].response.requestId != id
    ensures var run := HostRunOf(route, steps);
      && id in run.state.states && run.state.states[id] == ApprovalDenied
      && HostNext(route, run, ResumeStep(id, env, stop)) == run
    decreases |steps|
  {
    hide CallNext, Submit, GrantsIt, Complains;
    if n == |steps| {
      assert steps[..n] == steps;
    } else {
      var before := steps[..|steps| - 1];
      assert before[..n] == steps[..n];
      DenialHolds(route, before, n, id, env, stop);
      var run := HostRunOf(route, before);
      match steps[|steps| - 1]
      case CallStep(request, e, cut) => CallGivesNothing(route, run, request, e, cut);
      case SubmitStep(response, recorded) => SubmitExactly(run.state, response, recorded);
      case ResumeStep(other, e, cut) =>
        if MayResume(run.state, other) { CallGivesNothing(route, run, run.state.pending[other].call, e, cut); }
    }
  }
}
