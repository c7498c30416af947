/**
 What one undisturbed call returns, and when it reaches the provider: exactly, for every path. `EngineLaws` says that
 an execution has an authority; here every authority leads to an execution, and the refusals are told apart.
 */
module EngineDecisions {
  import opened Wrappers
  import opened Values
  import opened Fingerprints
  import opened Policy
  import opened Approvals
  import opened Engine
  import opened EngineGrammar
  import opened EngineLaws
  import opened EngineOutcomes
  import ActClient
  import Broker
  import Clearance
  import OperatorMessage

  // ------------------------------------------------------------ signed grants

  /** A trusted, unspent, unexpired signature for exactly this approval and action, over an allowed channel. */
  predicate SignatureAccepts(plane: Plane, spent: set<string>, request: Request, now: int)
    requires request.capability in plane.registry
  {
    && request.signedGrant.Some? && request.approvalRequestId.Some? && plane.verifier.Some?
    && var p := request.signedGrant.value.payload;
    && p.signerKeyId in plane.verifier.value.trusted && plane.verifier.value.checks(request.signedGrant.value)
    && p.requestId == request.approvalRequestId.value && p.session == request.session && p.target == request.target
    && p.provider == plane.provider && p.capability == request.capability
    && p.riskFamily == plane.registry[request.capability].family
    && FingerprintParameters(plane.world.sha, request.parameters) == Ok(p.fingerprint)
    && !Unapprovable(p.capability) && now < p.expiresAt && p.grantId !in spent
    && (p.oneTime ==> p.consumedAt.None?)
    && (p.channel.Conversational? ==> p.riskFamily == "observe" || p.riskFamily == "runtime")
  }

  /** Parameters with byte strings raise as soon as an unspent signed grant is looked at. */
  predicate SignatureRaises(plane: Plane, spent: set<string>, request: Request)
  {
    && request.signedGrant.Some? && request.approvalRequestId.Some? && plane.verifier.Some?
    && request.signedGrant.value.payload.grantId !in spent && !NoBytes(Dict(request.parameters))
  }

  lemma SignedExactly(plane: Plane, spent: set<string>, request: Request, env: Env)
    requires request.capability in plane.registry
    ensures var signed := SignedPlan(plane, spent, request, Decide(plane, request).decision, env).1;
      && (signed.Accepted? <==> SignatureAccepts(plane, spent, request, env.signedNow))
      && (signed.Raised? <==> SignatureRaises(plane, spent, request))
  {
    hide Decide, Broker.Verify, Unapprovable, NoBytes;
    BytesRaise(plane.world.sha, request.parameters);
    var fingerprint := FingerprintParameters(plane.world.sha, request.parameters);
    if request.signedGrant.Some? && request.approvalRequestId.Some? && plane.verifier.Some? && fingerprint.Ok? {
      Broker.ValidExactly(plane.verifier.value, request.signedGrant.value,
                          SignedContext(plane, request, fingerprint.value, env));
    }
  }

  lemma BytesRaise(sha: Hash, parameters: map<string, Value>)
    ensures FingerprintParameters(sha, parameters).Ok? <==> NoBytes(Dict(parameters))
  {
    hide NoBytes;
  }

  // ------------------------------------------------------------ stored grants

  /** An unspent, unexpired stored grant for exactly this action. */
  predicate GrantCovers(plane: Plane, book: Book, request: Request, now: int)
  {
    plane.hasStore && exists g :: g in book.grants && Covering(plane, book, request, now, g)
  }

  predicate Covering(plane: Plane, book: Book, request: Request, now: int, g: Grant)
  {
    && !(g.scope.OneTime? && g.responseId in book.consumed) && now < g.expiresAt
    && g.binding.capability == request.capability && g.binding.session == request.session
    && g.binding.target == request.target && g.binding.provider == plane.provider
    && g.binding.fingerprint == StoreFingerprint(plane.world.sha, request.parameters, plane.world.bytesText)
  }

  lemma StoredExactly(plane: Plane, book: Book, request: Request, env: Env)
    ensures MatchingGrant(plane, book, request, env).Some? <==> GrantCovers(plane, book, request, env.storeNow)
  {
    hide StoreFingerprint, BindingOf, Covering;
    BindingExactly(plane, request);
    forall g: Grant
      ensures Usable(book, g, BindingOf(plane, request), env.storeNow)
         <==> Covering(plane, book, request, env.storeNow, g)
    {
      UsableExactly(plane, book, request, env.storeNow, g);
    }
  }

  lemma UsableExactly(plane: Plane, book: Book, request: Request, now: int, g: Grant)
    ensures Usable(book, g, BindingOf(plane, request), now) <==> Covering(plane, book, request, now, g)
  {
    hide StoreFingerprint, BindingOf;
    BindingExactly(plane, request);
  }

  // ------------------------------------------------------------ the tower

  function Asked(plane: Plane, request: Request, env: Env): Result<Clearance.ClearanceRequest>
  {
    Clearance.BuildRequest(plane.world, ClearanceArguments(plane, request, Decide(plane, request), env))
  }

  /** The configured verifier finds the tower's answer to this very request valid. */
  predicate TowerClears(plane: Plane, request: Request, env: Env)
  {
    && Asked(plane, request, env).Ok? && plane.clearanceVerifier.Some?
    && ActClient.VerifyClearance(plane.clearanceVerifier.value, Asked(plane, request, env).value, env.answer,
                                 env.clearanceNow).valid
  }

  /** Capabilities that only look, or ask the runtime for a clearance. */
  predicate LowRisk(id: string)
  {
    || id == "observe.status" || id == "observe.screen" || id == "observe.screenshot" || id == "observe.power_state"
    || id == "observe.hardware_inventory" || id == "observe.sensors" || id == "observe.event_logs"
    || id == "observe.boot_status" || id == "bios.view_settings" || id == "storage.view_disk_layout"
    || id == "network.read_config" || id == "bmc.account_list" || id == "runtime.request_clearance"
    || id == "runtime.deny_clearance"
  }

  lemma FamilyExactly(id: string)
    ensures RiskFamily(id) == if LowRisk(id) then "low_risk" else "high_risk"
  {
  }

  /** The tower can be asked exactly if every name is given, some id is at hand, and the lifetime is at most 20 s. */
  lemma TowerAskable(plane: Plane, request: Request, env: Env)
    requires Fingerprints.CollisionFree(plane.world.sha)
    ensures Asked(plane, request, env).Ok?
       <==> (0 < plane.timeout <= 20 && request.session != "" && request.target != "" && plane.provider != ""
             && request.capability != "" && request.requester.id != "" && request.correlation != ""
             && Decide(plane, request).reason != ""
             && (env.freshId != "" || (request.approvalRequestId.Some? && request.approvalRequestId.value != ""))
             && (plane.parity || NoBytes(Dict(request.parameters))))
  {
    hide Decide, Clearance.BuildRequest, RiskFamily, DecisionText, NoBytes, Clearance.Family;
    var a := ClearanceArguments(plane, request, Decide(plane, request), env);
    FamilyKnown(request.capability);
    Clearance.BuildExactly(plane.world, a);
  }

  lemma FamilyKnown(capability: string)
    ensures Clearance.Family(RiskFamily(capability))
  {
    hide LOW_RISK_IDS;
  }

  /** What the tower is asked is what was requested, under the id that was given or a new one. */
  lemma TowerIsAsked(plane: Plane, request: Request, env: Env)
    requires Fingerprints.CollisionFree(plane.world.sha) && Asked(plane, request, env).Ok?
    ensures var q := Asked(plane, request, env).value;
      && q.capability == request.capability && q.target == request.target && q.sessionId == request.session
      && q.provider == plane.provider && q.correlationId == request.correlation
      && q.requestedBy == request.requester.id
      && q.requestId == (if request.approvalRequestId.Some? && request.approvalRequestId.value != ""
                         then request.approvalRequestId.value else env.freshId)
      && q.riskFamily == (if LowRisk(request.capability) then "low_risk" else "high_risk")
      && q.riskSummary == Decide(plane, request).reason && q.materialRisks == Decide(plane, request).risks
      && q.createdAt == env.clearanceNow && q.expiresAt == env.clearanceNow + plane.timeout
      && q.operatorMessage == OperatorMessage.Collapse(Clearance.Told(q, request.effect))
      && q.policyContext == map["decision" := Str(DecisionText(Decide(plane, request).decision))]
      && (!plane.parity ==> FingerprintParameters(plane.world.sha, request.parameters) == Ok(q.fingerprint))
  {
    hide Decide, Clearance.BuildRequest, LowRisk, FingerprintParameters, RiskFamily, DecisionText;
    var a := ClearanceArguments(plane, request, Decide(plane, request), env);
    FamilyExactly(request.capability);
    Clearance.BuildExactly(plane.world, a);
    Clearance.BindingExactly(plane.world, a);
  }

  lemma TowerOutcome(plane: Plane, request: Request, env: Env)
    ensures ClearancePlan(plane, request, Decide(plane, request), env).outcome
         == if Asked(plane, request, env).Err? then None
            else if TowerClears(plane, request, env) then Some(if env.providerOk then Completed else Failed)
            else if env.answer.status == ActClient.Cleared || env.answer.status == ActClient.Denied then Some(Denied)
            else Some(ClearanceRequired)
  {
    hide Decide, Clearance.BuildRequest, ClearanceArguments, ActClient.VerifyClearance;
    if Asked(plane, request, env).Ok? && plane.clearanceVerifier.Some? {
      ActClient.ValidExactly(plane.clearanceVerifier.value, Asked(plane, request, env).value, env.answer,
                             env.clearanceNow);
    }
  }

  // ------------------------------------------------------------ main results

  lemma LocalOutcome(plane: Plane, book: Book, spent: set<string>, request: Request, env: Env)
    requires request.capability in plane.registry && Decide(plane, request).RequiresApproval()
    ensures LocalPlan(plane, book, spent, request, Decide(plane, request), env).outcome
         == if SignatureRaises(plane, spent, request) then None
            else if SignatureAccepts(plane, spent, request, env.signedNow)
                    || GrantCovers(plane, book, request, env.storeNow)
              then Some(if env.providerOk then Completed else Failed)
            else Some(ApprovalRequired)
  {
    hide Decide, SignedPlan, MatchingGrant, BuildApprovalRequest, SignatureAccepts, SignatureRaises, GrantCovers;
    SignedExactly(plane, spent, request, env);
    StoredExactly(plane, book, request, env);
    RequestExactly(Decide(plane, request), request.capability, request.session, request.requester, [request.target],
                   request.effect, env.requestNow, env.freshId, Some(plane.provider));
  }

  /** What the call waits for, where the policy neither denies nor allows. */
  function Awaited(plane: Plane, book: Book, spent: set<string>, request: Request, env: Env): Option<Status>
    requires request.capability in plane.registry
  {
    var done := Some(if env.providerOk then Completed else Failed);
    if plane.mobileSigned && plane.hasClient then
      if Asked(plane, request, env).Err? then None
      else if TowerClears(plane, request, env) then done
      else if env.answer.status == ActClient.Cleared || env.answer.status == ActClient.Denied then Some(Denied)
      else Some(ClearanceRequired)
    else if SignatureRaises(plane, spent, request) then None
    else if SignatureAccepts(plane, spent, request, env.signedNow) || GrantCovers(plane, book, request, env.storeNow)
      then done
    else Some(ApprovalRequired)
  }

  /**
   Exactly what an undisturbed call returns. A refused request is denied; an allowed one is executed, and reports how
   that went; one that must ask is executed exactly when the tower clears it, or else a signature or a stored grant
   covers it, and otherwise waits, is denied by the tower, or raises on byte strings.
   */
  lemma HandleExactly(plane: Plane, book: Book, spent: set<string>, request: Request, env: Env)
    ensures HandlePlan(plane, book, spent, request, env).outcome
         == if !Admitted(plane, request) then Some(Denied)
            else if Lets(Decide(plane, request).decision) then Some(if env.providerOk then Completed else Failed)
            else if request.capability in plane.registry then Awaited(plane, book, spent, request, env)
            else None
    ensures Admitted(plane, request) ==> request.capability in plane.registry
    ensures Reached(HandlePlan(plane, book, spent, request, env).actions)
       <==> (HandlePlan(plane, book, spent, request, env).outcome == Some(Completed)
             || HandlePlan(plane, book, spent, request, env).outcome == Some(Failed))
  {
    hide Decide, ClearancePlan, LocalPlan, Opening, SignatureRaises, SignatureAccepts, GrantCovers, TowerClears, Asked;
    UnknownDenied(plane, request);
    if Admitted(plane, request) && !Lets(Decide(plane, request).decision) {
      TowerOutcome(plane, request, env);
      LocalOutcome(plane, book, spent, request, env);
    }
    OutcomeReached(plane, book, spent, request, env);
  }

  lemma UnknownDenied(plane: Plane, request: Request)
    ensures !Decide(plane, request).decision.Deny? ==> request.capability in plane.registry
  {
    hide DefaultDecision, Missing, InScope, HARD_DENY;
  }

  // ------------------------------------------------------------ reaching the provider

  /** The provider is reached exactly when the outcome reports how the execution went. */
  predicate ReachedIfDone(p: Plan)
  {
    Reached(p.actions) <==> p.outcome == Some(Completed) || p.outcome == Some(Failed)
  }

  lemma ThenReached(first: seq<Action>, rest: Plan)
    requires NoExecute(first) && ReachedIfDone(rest)
    ensures ReachedIfDone(Then(first, rest))
  {
    assert forall a :: a in first + rest.actions <==> a in first || a in rest.actions;
  }

  lemma EndsReached(request: Request, d: Decision, env: Env)
    ensures ReachedIfDone(ExecutePlan(request, d, env))
    ensures forall status: Status ::
      status != Completed && status != Failed ==> ReachedIfDone(ReturnPlan(request, d, status))
  {
    ExecuteHead(request, d, env);
    assert ExecutePlan(request, d, env).actions[1] in ExecutePlan(request, d, env).actions;
  }

  lemma TowerReached(plane: Plane, request: Request, env: Env)
    ensures ReachedIfDone(ClearancePlan(plane, request, Decide(plane, request), env))
  {
    hide Decide, Clearance.BuildRequest, ClearanceArguments, ActClient.VerifyClearance, ExecutePlan, ReturnPlan, Then;
    hide Reached;
    var d := Decide(plane, request).decision;
    EndsReached(request, d, env);
    if Asked(plane, request, env).Ok? {
      var clearance := Asked(plane, request, env).value;
      var first := Note1(ApprovalRequested, request, d, TowerRequest(clearance));
      var rest := AnswerPlan(plane, request, d, clearance, env);
      forall kind: EventKind, note: Note, p: Plan | ReachedIfDone(p)
        ensures ReachedIfDone(Then(Note1(kind, request, d, note), p))
      {
        ThenReached(Note1(kind, request, d, note), p);
      }
      assert ReachedIfDone(rest);
      assert ReachedIfDone(Then(first, rest));
    } else {
      NothingReached();
    }
  }

  lemma NothingReached()
    ensures ReachedIfDone(Plan([], None))
  {
  }

  lemma LocalReached(plane: Plane, book: Book, spent: set<string>, request: Request, env: Env)
    requires request.capability in plane.registry
    ensures ReachedIfDone(LocalPlan(plane, book, spent, request, Decide(plane, request), env))
  {
    hide Decide, SignedPlan, ExecutePlan, ReturnPlan, MatchingGrant, BuildApprovalRequest, Then, SignedVerdict, Reached;
    hide SignedAccepted, ReachedIfDone;
    var result := Decide(plane, request);
    var (first, signed) := SignedPlan(plane, spent, request, result.decision, env);
    SignedShape(plane, spent, request, result.decision, env);
    EndsReached(request, result.decision, env);
    StoreReached(plane, book, request, env);
    NothingReached();
    if signed.Accepted? { ThenReached(first, ExecutePlan(request, result.decision, env)); }
    if signed.NotAccepted? { ThenReached(first, StorePlan(plane, book, request, result, env)); }
  }

  lemma StoreReached(plane: Plane, book: Book, request: Request, env: Env)
    ensures ReachedIfDone(StorePlan(plane, book, request, Decide(plane, request), env))
  {
    hide Decide, ExecutePlan, ReturnPlan, MatchingGrant, BuildApprovalRequest, Then, Reached, ReachedIfDone;
    var d := Decide(plane, request).decision;
    EndsReached(request, d, env);
    NothingReached();
    match MatchingGrant(plane, book, request, env)
    case Some(grant) =>
      ThenReached([SpendGrant(grant)] + Note1(ApprovalConsumed, request, d, StoreGrant(grant)),
                  ExecutePlan(request, d, env));
    case None =>
      var built := BuildApprovalRequest(Decide(plane, request), request.capability, request.session, request.requester,
                                        [request.target], request.effect, env.requestNow, env.freshId,
                                        Some(plane.provider));
      if built.Ok? {
        ThenReached(Note1(ApprovalRequested, request, d, LocalRequest(built.value)),
                    ReturnPlan(request, d, ApprovalRequired));
      }
  }

  lemma OutcomeReached(plane: Plane, book: Book, spent: set<string>, request: Request, env: Env)
    ensures ReachedIfDone(HandlePlan(plane, book, spent, request, env))
  {
    hide Decide, ExecutePlan, ReturnPlan, LocalPlan, ClearancePlan, Then, Opening, Reached, ReachedIfDone;
    var result := Decide(plane, request);
    EndsReached(request, result.decision, env);
    EndsReached(request, Deny, env);
    NothingReached();
    QuietOpening(plane, request);
    TowerReached(plane, request, env);
    if request.capability in plane.registry { LocalReached(plane, book, spent, request, env); }
    ThenReached(Opening(plane, request), AuthorizePlan(plane, book, spent, request, env));
  }

  // ------------------------------------------------------------ what the log says of a call

  /** Every event is about the request, and carries the decision d. */
  predicate Carry(actions: seq<Action>, request: Request, d: Decision)
  {
    forall a :: a in actions && a.Emit? ==> a.event.request == request && a.event.decision == d
  }

  lemma EndsCarry(request: Request, d: Decision, env: Env)
    ensures Carry(ExecutePlan(request, d, env).actions, request, d)
    ensures forall status: Status :: Carry(ReturnPlan(request, d, status).actions, request, d)
  {
  }

  lemma TowerCarries(plane: Plane, request: Request, env: Env)
    ensures Carry(ClearancePlan(plane, request, Decide(plane, request), env).actions, request,
                  Decide(plane, request).decision)
  {
    hide Decide, Clearance.BuildRequest, ClearanceArguments, ActClient.VerifyClearance, ExecutePlan, ReturnPlan;
    EndsCarry(request, Decide(plane, request).decision, env);
  }

  lemma LocalCarries(plane: Plane, book: Book, spent: set<string>, request: Request, env: Env)
    requires request.capability in plane.registry
    ensures Carry(LocalPlan(plane, book, spent, request, Decide(plane, request), env).actions, request,
                  Decide(plane, request).decision)
  {
    hide Decide, StorePlan, ExecutePlan, ReturnPlan, Broker.Verify, FingerprintParameters;
    EndsCarry(request, Decide(plane, request).decision, env);
    StoreCarries(plane, book, request, env);
  }

  lemma StoreCarries(plane: Plane, book: Book, request: Request, env: Env)
    ensures Carry(StorePlan(plane, book, request, Decide(plane, request), env).actions, request,
                  Decide(plane, request).decision)
  {
    hide Decide, ExecutePlan, ReturnPlan, MatchingGrant, BuildApprovalRequest;
    EndsCarry(request, Decide(plane, request).decision, env);
  }

  lemma OpeningCarries(plane: Plane, request: Request)
    ensures Carry(Opening(plane, request), request, Decide(plane, request).decision)
  {
    hide Decide;
  }

  /** Every event of a call is about its request, and carries its policy decision, or the denial of a refused call. */
  lemma EventsCarry(plane: Plane, book: Book, spent: set<string>, request: Request, env: Env)
    ensures forall a :: a in HandlePlan(plane, book, spent, request, env).actions && a.Emit? ==>
      && a.event.request == request
      && (a.event.decision == Decide(plane, request).decision
          || (!Admitted(plane, request) && a.event.decision == Deny))
  {
    hide Decide, ClearancePlan, LocalPlan, ExecutePlan, ReturnPlan, Opening;
    EndsCarry(request, Decide(plane, request).decision, env);
    EndsCarry(request, Deny, env);
    OpeningCarries(plane, request);
    TowerCarries(plane, request, env);
    if request.capability in plane.registry { LocalCarries(plane, book, spent, request, env); }
  }
}
