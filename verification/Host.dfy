/**
 The MCP host layer (`mcp_sdk/host.py`): tool calls that come back asking are kept
 pending, operator responses turn them into stored grants, and every call runs on
 a fresh control plane that shares the host's approval store.
 */
module Host {
  import opened Wrappers
  import opened Policy
  import opened Approvals
  import opened Engine
  import opened EngineLaws
  import opened EngineRuns
  import opened HostApprovals
  import C = ControlPlane

  datatype HostDecision = HostGranted | HostDenied | HostExpired

  datatype ResultStatus = ApprovalGranted | ApprovalDenied | ApprovalExpired | ValidationError

  datatype Pending = Pending(call: Request, approval: HostApproval)

  datatype HostResponse = HostResponse(
    requestId: string, decision: HostDecision, operator: string, scope: GrantScope, decidedAt: int,
    session: Option<string>, target: Option<string>, provider: Option<string>, capability: Option<string>,
    fingerprint: Option<string>)

  /** Which control plane configuration serves a call: the adapter's router. */
  type Route = Request -> Plane

  /** The adapter wires no tower client and calls carry no signed grant; a store is always shared. */
  ghost predicate HostRoute(route: Route)
  {
    forall r :: route(r).hasStore && !route(r).hasClient
  }

  /** `HostToolCall` has a target, a session and a requester; it cannot carry a signed grant. */
  predicate HostCall(r: Request)
  {
    r.signedGrant.None? && r.target != "" && r.session != "" && r.requester.id != ""
  }

  predicate Differs(given: Option<string>, expected: string)
  {
    given.Some? && given.value != expected
  }

  /** `_approval_mismatch` */
  predicate Mismatch(a: HostApproval, r: HostResponse)
  {
    || Differs(r.session, a.binding.session) || Differs(r.target, a.binding.target)
    || Differs(r.provider, a.binding.provider) || Differs(r.capability, a.binding.capability)
    || Differs(r.fingerprint, a.binding.fingerprint)
  }

  function ResponseId(approval: string, operator: string): string
  {
    "host-response-" + approval + "-" + operator
  }

  function GrantOf(a: HostApproval, r: HostResponse): Result<Grant>
  {
    CheckGrant(Grant(a.id, ResponseId(a.id, r.operator), a.binding, a.expiresAt, r.scope, Actor(Operator, r.operator)))
  }

  // --------------------------------------------------------------- as values

  datatype HostState = HostState(book: Book, pending: map<string, Pending>, states: map<string, ResultStatus>)

  /**
   `submit_approval_response`. A response without its id or operator is refused while it is built; with `recorded`
   false the audit sink raises and nothing changes.
   */
  function Submit(s: HostState, r: HostResponse, recorded: bool): (HostState, ResultStatus)
  {
    if r.requestId == "" || r.operator == "" then (s, ValidationError)
    else if r.requestId !in s.pending then (s.(states := s.states[r.requestId := ValidationError]), ValidationError)
    else if !recorded then (s, ValidationError)
    else
      var a := s.pending[r.requestId].approval;
      if Mismatch(a, r) then (s.(states := s.states[r.requestId := ValidationError]), ValidationError)
      else if r.decision.HostExpired? || r.decidedAt >= a.expiresAt then
        (s.(states := s.states[r.requestId := ApprovalExpired]), ApprovalExpired)
      else if r.decision.HostDenied? then (s.(states := s.states[r.requestId := ApprovalDenied]), ApprovalDenied)
      else
        match GrantOf(a, r)
        case Err(_) => (s, ValidationError)
        case Ok(grant) =>
          (s.(book := s.book.(grants := s.book.grants + [grant]), states := s.states[r.requestId := ApprovalGranted]),
           ApprovalGranted)
  }

  function WholeCall(route: Route, s: HostState, request: Request, env: Env): Plan
  {
    HandlePlan(route(request), s.book, {}, request, env)
  }

  /** `call_tool`: the effects `done` of the call and, when it asks, the approval that can be read from its result. */
  function AfterCall(route: Route, s: HostState, request: Request, env: Env, done: seq<Action>,
                     status: Option<Status>): HostState
  {
    var after := s.(book := After(State([], [], s.book, {}), done).book);
    var kept := KeptApproval(route(request), request, env);
    if status == Some(ApprovalRequired) && kept.Ok? then
      after.(pending := after.pending[kept.value.id := Pending(request, kept.value)])
    else after
  }

  /** `resume_approved_tool` calls again only for approvals that are pending and not refused. */
  predicate MayResume(s: HostState, id: string)
  {
    id in s.pending && (id in s.states ==> s.states[id].ApprovalGranted?)
  }

  // ------------------------------------------------------------ the host class

  class MCPHost {
    const route: Route
    const approvalStore: ApprovalStore
    var pendingApprovals: map<string, Pending>
    var approvalStates: map<string, ResultStatus>

    constructor (route: Route, store: ApprovalStore)
      ensures this.route == route && approvalStore == store && pendingApprovals == map[] && approvalStates == map[]
    {
      this.route, approvalStore := route, store;
      pendingApprovals, approvalStates := map[], map[];
    }

    function Now(): HostState
      reads this, approvalStore
    {
      HostState(approvalStore.Contents(), pendingApprovals, approvalStates)
    }

    method SubmitApprovalResponse(r: HostResponse, recorded: bool) returns (status: ResultStatus)
      modifies this, approvalStore`actionGrants
      ensures (Now(), status) == Submit(old(Now()), r, recorded)
    {
      status := ValidationError;
      if r.requestId == "" || r.operator == "" {
        return;
      }
      if r.requestId !in pendingApprovals {
        approvalStates := approvalStates[r.requestId := ValidationError];
        return;
      }
      if !recorded {
        return;
      }
      var a := pendingApprovals[r.requestId].approval;
      if Mismatch(a, r) {
        approvalStates := approvalStates[r.requestId := ValidationError];
        return;
      }
      if r.decision.HostExpired? || r.decidedAt >= a.expiresAt {
        approvalStates := approvalStates[r.requestId := ApprovalExpired];
        return ApprovalExpired;
      }
      if r.decision.HostDenied? {
        approvalStates := approvalStates[r.requestId := ApprovalDenied];
        return ApprovalDenied;
      }
      var grant := GrantOf(a, r);
      if grant.Ok? {
        approvalStore.AddActionGrant(grant.value);
        approvalStates := approvalStates[r.requestId := ApprovalGranted];
        status := ApprovalGranted;
      }
    }

    /** Every call gets a control plane of its own over the shared store, whose status is returned. */
    method CallTool(request: Request, env: Env) returns (status: Option<Status>, ghost done: seq<Action>)
      modifies this, approvalStore
      ensures C.Followed(WholeCall(route, old(Now()), request, env), done, status)
      ensures Now() == AfterCall(route, old(Now()), request, env, done, status)
    {
      hide HandlePlan, After, KeptApproval;
      var plane := new C.ControlPlane(route(request), approvalStore);
      ghost var start := plane.Now();
      status, done := plane.Handle(request, env);
      assert start == State([], [], old(Now()).book, {});
      if status == Some(ApprovalRequired) {
        var kept := KeptApproval(route(request), request, env);
        if kept.Ok? {
          pendingApprovals := pendingApprovals[kept.value.id := Pending(request, kept.value)];
        }
      }
    }

    /** Refused and unknown approvals do not reach a control plane. */
    method ResumeApprovedTool(id: string, env: Env) returns (status: Option<Status>, ghost done: seq<Action>)
      modifies this, approvalStore
      ensures !MayResume(old(Now()), id) ==> status.None? && done == [] && Now() == old(Now())
      ensures MayResume(old(Now()), id) ==>
        var call := old(Now()).pending[id].call;
        && C.Followed(WholeCall(route, old(Now()), call, env), done, status)
        && Now() == AfterCall(route, old(Now()), call, env, done, status)
    {
      if id !in pendingApprovals {
        return None, [];
      }
      if id in approvalStates && !approvalStates[id].ApprovalGranted? {
        return None, [];
      }
      status, done := CallTool(pendingApprovals[id].call, env);
    }
  }
}
