/**
 What one `ControlPlane.handle` call does, as the sequence of its effects: audit
 events, spent grants and the provider call. Clock readings, the tower's answer
 and the provider's result are arbitrary. A call in which the audit sink, the
 tower or the provider raises performs a prefix of its sequence.
 */
module Engine {
  import opened Wrappers
  import opened Values
  import opened Fingerprints
  import opened Policy
  import opened Approvals
  import Broker
  import Clearance
  import ActClient

  datatype Request = Request(
    capability: string, target: string, session: string, correlation: string, requester: Actor, effect: string,
    parameters: map<string, Value>, credential: Option<string>, approvalRequestId: Option<string>,
    signedGrant: Option<Broker.SignedGrant>)

  /** The configuration of one control plane. */
  datatype Plane = Plane(
    policy: PolicyConfig, registry: Registry, provider: string, realHardware: bool, hasStore: bool,
    verifier: Option<Broker.Verifier>, mobileSigned: bool, hasClient: bool,
    clearanceVerifier: Option<ActClient.Verifier>,
    timeout: int, parity: bool, world: Clearance.World)

  /** Clock readings, fresh ids, and the answers of tower and provider during one call. */
  datatype Env = Env(clearanceNow: int, signedNow: int, storeNow: int, requestNow: int, freshId: string,
                     answer: ActClient.Response, providerOk: bool)

  datatype Status = Denied | ApprovalRequired | ClearanceRequired | Completed | Failed

  datatype EventKind =
    | RequestReceived | CapabilityResolved | CapabilityUnknownDenied | PolicyDecided
    | ApprovalRequested | ApprovalVerified | ApprovalRejected | ApprovalConsumed
    | ExecutionStarted | ExecutionCompleted | ExecutionFailed | ResultReturned

  /** The approval payload of an event, or the status a result event reports. */
  datatype Note =
    | NoNote
    | Reason(reason: string)
    | SignedCheck(result: Broker.Verification)
    | StoreGrant(grant: Grant)
    | LocalRequest(approval: ApprovalRequest)
    | TowerRequest(clearance: Clearance.ClearanceRequest)
    | TowerAnswer(response: ActClient.Response, verification: Option<ActClient.Verification>)
    | Outcome(status: Status)

  /** An audit event about a request; `decision` is the policy decision it carries. */
  datatype Event = Event(kind: EventKind, request: Request, decision: Decision, note: Note)

  datatype ProviderCall = ProviderCall(capability: string, target: string, session: string, correlation: string,
                                       parameters: map<string, Value>)

  datatype Action =
    | Emit(event: Event)
    | SpendGrant(grant: Grant)
    | SpendSigned(grantId: string)
    | Execute(call: ProviderCall)

  /** All effects of an undisturbed call, and what it returns; `None` when it raises by itself. */
  datatype Plan = Plan(actions: seq<Action>, outcome: Option<Status>)

  function Then(first: seq<Action>, rest: Plan): Plan
  {
    Plan(first + rest.actions, rest.outcome)
  }

  function Decide(plane: Plane, request: Request): PolicyResult
  {
    DecisionFor(plane.policy, plane.registry, request.capability, Some(request.target), Some(request.session),
                request.credential)
  }

  function Note1(kind: EventKind, request: Request, d: Decision, note: Note): seq<Action>
  {
    [Emit(Event(kind, request, d, note))]
  }

  /** `_emit_result_returned` and the return that follows it. */
  function ReturnPlan(request: Request, d: Decision, status: Status): Plan
  {
    Plan(Note1(ResultReturned, request, d, Outcome(status)), Some(status))
  }

  function CallOf(request: Request): ProviderCall
  {
    ProviderCall(request.capability, request.target, request.session, request.correlation, request.parameters)
  }

  /** `_execute_provider` */
  function ExecutePlan(request: Request, d: Decision, env: Env): Plan
  {
    var (kind, status) := if env.providerOk then (ExecutionCompleted, Completed) else (ExecutionFailed, Failed);
    Then(Note1(ExecutionStarted, request, d, NoNote) + [Execute(CallOf(request))] + Note1(kind, request, d, NoNote),
         ReturnPlan(request, d, status))
  }

  // -------------------------------------------------------------- ACT clearance

  const LOW_RISK_IDS: set<string> := {
    "observe.status", "observe.screen", "observe.screenshot", "observe.power_state", "observe.hardware_inventory",
    "observe.sensors", "observe.event_logs", "observe.boot_status", "bios.view_settings", "storage.view_disk_layout",
    "network.read_config", "bmc.account_list", "runtime.request_clearance", "runtime.deny_clearance"
  }

  /** `clearance_risk_family_for_capability` */
  function RiskFamily(capability: string): string
  {
    if capability in LOW_RISK_IDS then "low_risk" else "high_risk"
  }

  function ClearanceArguments(plane: Plane, request: Request, result: PolicyResult, env: Env): Clearance.Arguments
  {
    var id := if request.approvalRequestId.Some? && request.approvalRequestId.value != ""
      then request.approvalRequestId.value else env.freshId;
    Clearance.Arguments(
      request.session, request.target, plane.provider, request.capability, request.parameters,
      RiskFamily(request.capability), result.reason, result.risks, request.effect, request.requester.id,
      request.correlation, map["decision" := Str(DecisionText(result.decision))], env.clearanceNow, plane.timeout, id,
      plane.parity)
  }

  /** After the tower has answered. */
  function AnswerPlan(plane: Plane, request: Request, d: Decision, clearance: Clearance.ClearanceRequest,
                      env: Env): Plan
  {
    if env.answer.status == ActClient.Cleared then
      if plane.clearanceVerifier.None? then
        Then(Note1(ApprovalRejected, request, d, TowerAnswer(env.answer, None)), ReturnPlan(request, d, Denied))
      else
        var verification := ActClient.VerifyClearance(plane.clearanceVerifier.value, clearance, env.answer,
                                                      env.clearanceNow);
        if verification.valid then
          Then(Note1(ApprovalVerified, request, d, TowerAnswer(env.answer, Some(verification))),
               ExecutePlan(request, d, env))
        else
          Then(Note1(ApprovalRejected, request, d, TowerAnswer(env.answer, Some(verification))),
               ReturnPlan(request, d, Denied))
    else if env.answer.status == ActClient.Denied then
      Then(Note1(ApprovalRejected, request, d, TowerAnswer(env.answer, None)), ReturnPlan(request, d, Denied))
    else ReturnPlan(request, d, ClearanceRequired)
  }

  /** `_handle_act_clearance` */
  function ClearancePlan(plane: Plane, request: Request, result: PolicyResult, env: Env): Plan
  {
    match Clearance.BuildRequest(plane.world, ClearanceArguments(plane, request, result, env))
    case Err(_) => Plan([], None)
    case Ok(clearance) =>
      Then(Note1(ApprovalRequested, request, result.decision, TowerRequest(clearance)),
           AnswerPlan(plane, request, result.decision, clearance, env))
  }

  // ------------------------------------------------------------- local approval

  function SignedContext(plane: Plane, request: Request, fingerprint: string, env: Env): Broker.Context
    requires request.approvalRequestId.Some? && request.capability in plane.registry
  {
    Broker.Context(request.approvalRequestId.value, request.session, request.target, plane.provider, request.capability,
                   fingerprint, plane.registry[request.capability].family, env.signedNow)
  }

  /** What became of a signed grant: accepted, ignored, or an exception while fingerprinting. */
  datatype SignedResult = Accepted | NotAccepted | Raised

  /** `_verify_signed_approval_grant` */
  function SignedPlan(plane: Plane, spent: set<string>, request: Request, d: Decision, env: Env)
    : (seq<Action>, SignedResult)
    requires request.capability in plane.registry
  {
    if request.signedGrant.None? then ([], NotAccepted)
    else if plane.verifier.None? then
      (Note1(ApprovalRejected, request, d, Reason("signed approval verifier is not configured")), NotAccepted)
    else if request.approvalRequestId.None? then
      (Note1(ApprovalRejected, request, d, Reason("approval request id is required")), NotAccepted)
    else
      var grant := request.signedGrant.value;
      if grant.payload.grantId in spent then
        (Note1(ApprovalRejected, request, d, Reason("signed grant already consumed")), NotAccepted)
      else
        match FingerprintParameters(plane.world.sha, request.parameters)
        case Err(_) => ([], Raised)
        case Ok(fingerprint) =>
          var check := Broker.Verify(plane.verifier.value, grant, SignedContext(plane, request, fingerprint, env));
          if check.status != Broker.Valid then (Note1(ApprovalRejected, request, d, SignedCheck(check)), NotAccepted)
          else if !grant.payload.oneTime then (Note1(ApprovalVerified, request, d, SignedCheck(check)), Accepted)
          else
            (Note1(ApprovalVerified, request, d, SignedCheck(check)) + [SpendSigned(grant.payload.grantId)]
             + Note1(ApprovalConsumed, request, d, SignedCheck(check)), Accepted)
  }

  function BindingOf(plane: Plane, request: Request): Binding
  {
    Binding(request.capability, request.session, request.target, plane.provider,
            StoreFingerprint(plane.world.sha, request.parameters, plane.world.bytesText))
  }

  /** `_matching_approval_grant` */
  function MatchingGrant(plane: Plane, book: Book, request: Request, env: Env): Option<Grant>
  {
    if plane.hasStore then Find(book, BindingOf(plane, request), env.storeNow) else None
  }

  /** The approval store, and the approval request when nothing in it matches. */
  function StorePlan(plane: Plane, book: Book, request: Request, result: PolicyResult, env: Env): Plan
  {
    var d := result.decision;
    match MatchingGrant(plane, book, request, env)
    case Some(grant) =>
      Then([SpendGrant(grant)] + Note1(ApprovalConsumed, request, d, StoreGrant(grant)), ExecutePlan(request, d, env))
    case None =>
      match BuildApprovalRequest(result, request.capability, request.session, request.requester, [request.target],
                                 request.effect, env.requestNow, env.freshId, Some(plane.provider))
      case Err(_) => Plan([], None)
      case Ok(approval) =>
        Then(Note1(ApprovalRequested, request, d, LocalRequest(approval)), ReturnPlan(request, d, ApprovalRequired))
  }

  function LocalPlan(plane: Plane, book: Book, spent: set<string>, request: Request, result: PolicyResult,
                     env: Env): Plan
    requires request.capability in plane.registry
  {
    var (first, signed) := SignedPlan(plane, spent, request, result.decision, env);
    match signed
    case Raised => Plan(first, None)
    case Accepted => Then(first, ExecutePlan(request, result.decision, env))
    case NotAccepted => Then(first, StorePlan(plane, book, request, result, env))
  }

  // ----------------------------------------------------------------- whole call

  function AuthorizePlan(plane: Plane, book: Book, spent: set<string>, request: Request, env: Env): Plan
  {
    var result := Decide(plane, request);
    if result.decision == Deny then ReturnPlan(request, Deny, Denied)
    else if plane.realHardware && !plane.policy.allowRealHardware then ReturnPlan(request, Deny, Denied)
    else if request.capability !in plane.registry then Plan([], None)
    else if !result.RequiresApproval() then ExecutePlan(request, result.decision, env)
    else if plane.mobileSigned && plane.hasClient then ClearancePlan(plane, request, result, env)
    else LocalPlan(plane, book, spent, request, result, env)
  }

  function Opening(plane: Plane, request: Request): seq<Action>
  {
    var d := Decide(plane, request).decision;
    Note1(RequestReceived, request, d, NoNote)
    + Note1(if request.capability in plane.registry then CapabilityResolved else CapabilityUnknownDenied,
            request, d, NoNote)
    + Note1(PolicyDecided, request, d, NoNote)
  }

  /** `ControlPlane.handle` */
  function HandlePlan(plane: Plane, book: Book, spent: set<string>, request: Request, env: Env): Plan
  {
    Then(Opening(plane, request), AuthorizePlan(plane, book, spent, request, env))
  }

  // ------------------------------------------------------------ state and effects

  /** The mutable state a control plane works on. */
  datatype State = State(log: seq<Event>, calls: seq<ProviderCall>, book: Book, spent: set<string>)

  function Apply(s: State, a: Action): State
  {
    match a
    case Emit(event) => s.(log := s.log + [event])
    case SpendGrant(grant) => s.(book := Spend(s.book, grant))
    case SpendSigned(id) => s.(spent := s.spent + {id})
    case Execute(call) => s.(calls := s.calls + [call])
  }

  function After(s: State, actions: seq<Action>): State
    decreases actions
  {
    if actions == [] then s else After(Apply(s, actions[0]), actions[1..])
  }

  lemma {:induction false} AfterBoth(s: State, a: seq<Action>, b: seq<Action>)
    ensures After(s, a + b) == After(After(s, a), b)
    decreases a
  {
    if a == [] {
      assert a + b == b;
    } else {
      assert (a + b)[0] == a[0] && (a + b)[1..] == a[1..] + b;
      AfterBoth(Apply(s, a[0]), a[1..], b);
    }
  }
}
