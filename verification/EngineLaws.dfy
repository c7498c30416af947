/**
 Why a provider call happens. Every call of `handle` that reaches the provider does
 so once, directly after its started event, and after an authority that allowed
 exactly this request: the policy, a signed grant, the tower, or a stored grant.
 */
module EngineLaws {
  import opened Wrappers
  import opened Values
  import opened Fingerprints
  import opened Policy
  import opened Approvals
  import opened Engine
  import opened EngineGrammar
  import ActClient
  import Broker
  import Clearance

  // -------------------------------------------------------------- authorities

  datatype Authority =
    | PolicyAllows
    | SignedBy(grantId: string, oneTime: bool)
    | TowerCleared
    | GrantedBy(grant: Grant)

  /** An unspent, unexpired grant of a trusted signer for this session, target, provider, capability and fingerprint. */
  predicate BySignature(plane: Plane, spent: set<string>, request: Request, now: int)
  {
    && request.signedGrant.Some? && plane.verifier.Some?
    && var p := request.signedGrant.value.payload;
    && p.signerKeyId in plane.verifier.value.trusted && plane.verifier.value.checks(request.signedGrant.value)
    && p.session == request.session && p.target == request.target && p.provider == plane.provider
    && p.capability == request.capability
    && FingerprintParameters(plane.world.sha, request.parameters) == Ok(p.fingerprint)
    && !Unapprovable(p.capability) && now < p.expiresAt && p.grantId !in spent
  }

  /** An unexpired clearance of the configured tower for this session, target, provider, capability and
      fingerprint, proved by a checker in its proper mode. */
  predicate ByTower(plane: Plane, request: Request, env: Env)
  {
    var arguments := ClearanceArguments(plane, request, Decide(plane, request), env);
    var fingerprint := Clearance.RequestFingerprint(plane.world, arguments);
    && plane.clearanceVerifier.Some? && fingerprint.Ok?
    && env.answer.status == ActClient.Cleared && env.answer.towerId == Str(plane.clearanceVerifier.value.tower)
    && env.answer.sessionId == request.session && env.answer.target == request.target
    && env.answer.provider == plane.provider && env.answer.capability == request.capability
    && env.answer.fingerprint == fingerprint.value
    && env.answer.expiresAt.Some? && env.clearanceNow < env.answer.expiresAt.value
    && ActClient.Proved(plane.clearanceVerifier.value, env.answer)
  }

  /** An unspent, unexpired stored grant bound to this session, target, provider, capability and fingerprint. */
  predicate ByGrant(plane: Plane, book: Book, request: Request, now: int, grant: Grant)
  {
    && plane.hasStore && grant in book.grants && !Spent(book, grant) && now < grant.expiresAt
    && grant.binding == Binding(request.capability, request.session, request.target, plane.provider,
                                StoreFingerprint(plane.world.sha, request.parameters, plane.world.bytesText))
  }

  lemma BindingExactly(plane: Plane, request: Request)
    ensures BindingOf(plane, request)
         == Binding(request.capability, request.session, request.target, plane.provider,
                    StoreFingerprint(plane.world.sha, request.parameters, plane.world.bytesText))
  {
    hide StoreFingerprint;
  }

  /** The authority holds, and the effects `done` so far record it (and spend it when it may be used once). */
  ghost predicate Backs(plane: Plane, book: Book, spent: set<string>, request: Request, env: Env, done: seq<Action>,
                        a: Authority)
  {
    var d := Decide(plane, request).decision;
    match a
    case PolicyAllows => Lets(d)
    case SignedBy(id, oneTime) =>
      && BySignature(plane, spent, request, env.signedNow)
      && request.signedGrant.value.payload.grantId == id && request.signedGrant.value.payload.oneTime == oneTime
      && (exists check ::
            Emit(Event(ApprovalVerified, request, d, SignedCheck(check))) in done && check.status == Broker.Valid)
      && (oneTime ==> SpendSigned(id) in done)
    case TowerCleared =>
      && ByTower(plane, request, env)
      && exists check: ActClient.Verification ::
           Emit(Event(ApprovalVerified, request, d, TowerAnswer(env.answer, Some(check)))) in done && check.valid
    case GrantedBy(grant) =>
      && ByGrant(plane, book, request, env.storeNow, grant)
      && Emit(Event(ApprovalConsumed, request, d, StoreGrant(grant))) in done && SpendGrant(grant) in done
  }

  predicate NoExecute(actions: seq<Action>)
  {
    forall a :: a in actions ==> !a.Execute?
  }

  /** The effects are an authorized beginning followed by the execution. */
  ghost predicate Executing(actions: seq<Action>, plane: Plane, book: Book, spent: set<string>, request: Request,
                            env: Env,
                            first: seq<Action>, a: Authority)
  {
    && actions == first + ExecutePlan(request, Decide(plane, request).decision, env).actions
    && NoExecute(first) && Backs(plane, book, spent, request, env, first, a)
  }

  lemma BacksGrows(plane: Plane, book: Book, spent: set<string>, request: Request, env: Env, before: seq<Action>,
                   done: seq<Action>, a: Authority)
    requires Backs(plane, book, spent, request, env, done, a)
    ensures Backs(plane, book, spent, request, env, before + done, a)
  {
    hide Decide, BySignature, ByTower, ByGrant;
  }

  lemma Prepend(before: seq<Action>, actions: seq<Action>, plane: Plane, book: Book, spent: set<string>,
                request: Request,
                env: Env, first: seq<Action>, a: Authority)
    requires Executing(actions, plane, book, spent, request, env, first, a) && NoExecute(before)
    ensures Executing(before + actions, plane, book, spent, request, env, before + first, a)
  {
    hide Decide, Backs, ExecutePlan;
    BacksGrows(plane, book, spent, request, env, before, first, a);
    assert before + actions == (before + first) + ExecutePlan(request, Decide(plane, request).decision, env).actions;
  }

  // ------------------------------------------------------- the three sources

  lemma TowerBacks(plane: Plane, request: Request, env: Env, clearance: Clearance.ClearanceRequest)
    requires Clearance.BuildRequest(plane.world, ClearanceArguments(plane, request, Decide(plane, request), env))
        == Ok(clearance)
    requires plane.clearanceVerifier.Some?
    requires ActClient.VerifyClearance(plane.clearanceVerifier.value, clearance, env.answer, env.clearanceNow).valid
    ensures ByTower(plane, request, env)
  {
    hide Clearance.BuildRequest, ActClient.VerifyClearance, ActClient.CheckProof, ActClient.Proved, Decide;
    var arguments := ClearanceArguments(plane, request, Decide(plane, request), env);
    Clearance.BuiltFrom(plane.world, arguments);
    ActClient.ValidExactly(plane.clearanceVerifier.value, clearance, env.answer, env.clearanceNow);
  }

  lemma SignatureBacks(plane: Plane, spent: set<string>, request: Request, env: Env)
    requires request.capability in plane.registry && SignedAccepted(plane, spent, request, env)
    ensures BySignature(plane, spent, request, env.signedNow)
  {
    hide Broker.Verify;
    var fingerprint := FingerprintParameters(plane.world.sha, request.parameters);
    Broker.ValidExactly(plane.verifier.value, request.signedGrant.value,
                        SignedContext(plane, request, fingerprint.value, env));
  }

  /** Either no provider call, or one with an authority before it. */
  ghost predicate Explained(actions: seq<Action>, plane: Plane, book: Book, spent: set<string>, request: Request,
                            env: Env)
  {
    NoExecute(actions) || exists first, a :: Executing(actions, plane, book, spent, request, env, first, a)
  }

  lemma PrependExplained(before: seq<Action>, actions: seq<Action>, plane: Plane, book: Book, spent: set<string>,
                         request: Request, env: Env)
    requires NoExecute(before) && Explained(actions, plane, book, spent, request, env)
    ensures Explained(before + actions, plane, book, spent, request, env)
  {
    hide Executing;
    if !NoExecute(actions) {
      var first, a :| Executing(actions, plane, book, spent, request, env, first, a);
      Prepend(before, actions, plane, book, spent, request, env, first, a);
    }
  }

  lemma ExecuteExplained(first: seq<Action>, plane: Plane, book: Book, spent: set<string>, request: Request, env: Env,
                         a: Authority)
    requires NoExecute(first) && Backs(plane, book, spent, request, env, first, a)
    ensures Explained(first + ExecutePlan(request, Decide(plane, request).decision, env).actions, plane, book, spent,
                      request, env)
  {
    hide Backs, ExecutePlan, Decide;
    assert Executing(first + ExecutePlan(request, Decide(plane, request).decision, env).actions, plane, book, spent,
                     request, env, first, a);
  }

  lemma QuietReturn(request: Request, d: Decision, status: Status)
    ensures NoExecute(ReturnPlan(request, d, status).actions)
  {
  }

  lemma AnswerExplained(plane: Plane, book: Book, spent: set<string>, request: Request, env: Env,
                        clearance: Clearance.ClearanceRequest)
    requires Clearance.BuildRequest(plane.world, ClearanceArguments(plane, request, Decide(plane, request), env))
        == Ok(clearance)
    ensures Explained(AnswerPlan(plane, request, Decide(plane, request).decision, clearance, env).actions, plane, book,
                      spent, request, env)
  {
    hide Clearance.BuildRequest, ActClient.VerifyClearance, ClearanceArguments, Decide, ExecutePlan, ReturnPlan,
        ByTower, Explained;
    var d := Decide(plane, request).decision;
    var quiet := AnswerPlan(plane, request, d, clearance, env).actions;
    QuietReturn(request, d, Denied);
    QuietReturn(request, d, ClearanceRequired);
    if env.answer.status == ActClient.Cleared && plane.clearanceVerifier.Some? {
      var verification := ActClient.VerifyClearance(plane.clearanceVerifier.value, clearance, env.answer,
                                                    env.clearanceNow);
      if verification.valid {
        var first := Note1(ApprovalVerified, request, d, TowerAnswer(env.answer, Some(verification)));
        TowerBacks(plane, request, env, clearance);
        assert Emit(Event(ApprovalVerified, request, d, TowerAnswer(env.answer, Some(verification)))) in first;
        ExecuteExplained(first, plane, book, spent, request, env, TowerCleared);
      } else {
        QuietExplained(quiet, plane, book, spent, request, env);
      }
    } else {
      QuietExplained(quiet, plane, book, spent, request, env);
    }
  }

  lemma QuietExplained(actions: seq<Action>, plane: Plane, book: Book, spent: set<string>, request: Request, env: Env)
    requires NoExecute(actions)
    ensures Explained(actions, plane, book, spent, request, env)
  {
    hide Executing;
  }

  lemma ClearanceExplained(plane: Plane, book: Book, spent: set<string>, request: Request, env: Env)
    ensures Explained(ClearancePlan(plane, request, Decide(plane, request), env).actions, plane, book, spent, request,
                      env)
  {
    hide Clearance.BuildRequest, ClearanceArguments, Decide, AnswerPlan, Explained;
    var result := Decide(plane, request);
    var built := Clearance.BuildRequest(plane.world, ClearanceArguments(plane, request, result, env));
    if built.Err? {
      QuietExplained([], plane, book, spent, request, env);
    } else {
      AnswerExplained(plane, book, spent, request, env, built.value);
      PrependExplained(Note1(ApprovalRequested, request, result.decision, TowerRequest(built.value)),
                       AnswerPlan(plane, request, result.decision, built.value, env).actions, plane, book, spent,
                       request, env);
    }
  }

  lemma StoreExplained(plane: Plane, book: Book, spent: set<string>, request: Request, env: Env)
    ensures Explained(StorePlan(plane, book, request, Decide(plane, request), env).actions, plane, book, spent, request,
                      env)
  {
    hide Decide, ExecutePlan, ReturnPlan, Explained, BindingOf, BuildApprovalRequest;
    var d := Decide(plane, request).decision;
    QuietReturn(request, d, ApprovalRequired);
    match MatchingGrant(plane, book, request, env)
    case Some(grant) =>
      var first := [SpendGrant(grant)] + Note1(ApprovalConsumed, request, d, StoreGrant(grant));
      assert first[0] == SpendGrant(grant) && first[1] == Emit(Event(ApprovalConsumed, request, d, StoreGrant(grant)));
      BindingExactly(plane, request);
      ExecuteExplained(first, plane, book, spent, request, env, GrantedBy(grant));
    case None =>
      QuietExplained(StorePlan(plane, book, request, Decide(plane, request), env).actions, plane, book, spent, request,
                     env);
  }

  lemma LocalExplained(plane: Plane, book: Book, spent: set<string>, request: Request, env: Env)
    requires request.capability in plane.registry
    ensures Explained(LocalPlan(plane, book, spent, request, Decide(plane, request), env).actions, plane, book, spent,
                      request, env)
  {
    hide Decide, ExecutePlan, StorePlan, SignedPlan, Explained, AcceptedActions, SignedVerdict, SignedAccepted;
    var result := Decide(plane, request);
    var (first, signed) := SignedPlan(plane, spent, request, result.decision, env);
    SignedShape(plane, spent, request, result.decision, env);
    match signed
    case Raised =>
      QuietExplained([], plane, book, spent, request, env);
    case NotAccepted =>
      StoreExplained(plane, book, spent, request, env);
      PrependExplained(first, StorePlan(plane, book, request, result, env).actions, plane, book, spent, request, env);
    case Accepted =>
      AcceptedBacks(plane, book, spent, request, env, first);
  }

  lemma AcceptedBacks(plane: Plane, book: Book, spent: set<string>, request: Request, env: Env, first: seq<Action>)
    requires request.capability in plane.registry && SignedAccepted(plane, spent, request, env)
    requires first == AcceptedActions(plane, request, Decide(plane, request).decision, env)
    ensures Explained(first + ExecutePlan(request, Decide(plane, request).decision, env).actions, plane, book, spent,
                      request, env)
  {
    hide Decide, ExecutePlan, Explained, Broker.Verify, BySignature;
    var d := Decide(plane, request).decision;
    var check := SignedVerdict(plane, request, env);
    var grant := request.signedGrant.value.payload;
    SignatureBacks(plane, spent, request, env);
    assert first[0] == Emit(Event(ApprovalVerified, request, d, SignedCheck(check)));
    assert grant.oneTime ==> first[1] == SpendSigned(grant.grantId);
    ExecuteExplained(first, plane, book, spent, request, env, SignedBy(grant.grantId, grant.oneTime));
  }

  lemma AuthorizeExplained(plane: Plane, book: Book, spent: set<string>, request: Request, env: Env)
    ensures Explained(AuthorizePlan(plane, book, spent, request, env).actions, plane, book, spent, request, env)
  {
    hide Decide, ExecutePlan, LocalPlan, ClearancePlan, ReturnPlan, Explained;
    var result := Decide(plane, request);
    QuietReturn(request, Deny, Denied);
    if result.decision == Deny || (plane.realHardware && !plane.policy.allowRealHardware)
        || request.capability !in plane.registry {
      QuietExplained(AuthorizePlan(plane, book, spent, request, env).actions, plane, book, spent, request, env);
    } else if result.RequiresApproval() {
      ClearanceExplained(plane, book, spent, request, env);
      LocalExplained(plane, book, spent, request, env);
    } else {
      ExecuteExplained([], plane, book, spent, request, env, PolicyAllows);
      assert [] + ExecutePlan(request, result.decision, env).actions
          == ExecutePlan(request, result.decision, env).actions;
    }
  }

  lemma QuietOpening(plane: Plane, request: Request)
    ensures NoExecute(Opening(plane, request))
  {
  }

  /** A whole call reaches the provider only after an authority that allowed exactly this request. */
  lemma HandleExplained(plane: Plane, book: Book, spent: set<string>, request: Request, env: Env)
    ensures Explained(HandlePlan(plane, book, spent, request, env).actions, plane, book, spent, request, env)
  {
    hide AuthorizePlan, Opening, Explained;
    AuthorizeExplained(plane, book, spent, request, env);
    QuietOpening(plane, request);
    PrependExplained(Opening(plane, request), AuthorizePlan(plane, book, spent, request, env).actions, plane, book,
                     spent, request, env);
  }

  // ----------------------------------------------------------- spent once each

  /** Only stored grants are spent, and nothing that was spent before the call. */
  predicate SpendsFresh(actions: seq<Action>, book: Book, spent: set<string>)
  {
    forall a :: a in actions ==>
      (a.SpendGrant? ==> a.grant in book.grants && !Spent(book, a.grant)) && (a.SpendSigned? ==> a.grantId !in spent)
  }

  predicate SpendsNothing(actions: seq<Action>)
  {
    forall a :: a in actions ==> !a.SpendGrant? && !a.SpendSigned?
  }

  lemma ExecuteSpendsNothing(request: Request, d: Decision, env: Env)
    ensures SpendsNothing(ExecutePlan(request, d, env).actions)
    ensures forall status :: SpendsNothing(ReturnPlan(request, d, status).actions)
  {
  }

  lemma ClearanceSpendsNothing(plane: Plane, request: Request, result: PolicyResult, env: Env)
    ensures SpendsNothing(ClearancePlan(plane, request, result, env).actions)
  {
    hide Clearance.BuildRequest, ClearanceArguments, ActClient.VerifyClearance, ExecutePlan, ReturnPlan;
    ExecuteSpendsNothing(request, result.decision, env);
  }

  lemma StoreSpendsFresh(plane: Plane, book: Book, spent: set<string>, request: Request, result: PolicyResult, env: Env)
    ensures SpendsFresh(StorePlan(plane, book, request, result, env).actions, book, spent)
  {
    hide BuildApprovalRequest, ExecutePlan, ReturnPlan, BindingOf;
    ExecuteSpendsNothing(request, result.decision, env);
  }

  lemma LocalSpendsFresh(plane: Plane, book: Book, spent: set<string>, request: Request, result: PolicyResult, env: Env)
    requires request.capability in plane.registry
    ensures SpendsFresh(LocalPlan(plane, book, spent, request, result, env).actions, book, spent)
  {
    hide SignedPlan, StorePlan, ExecutePlan, SignedVerdict;
    SignedShape(plane, spent, request, result.decision, env);
    StoreSpendsFresh(plane, book, spent, request, result, env);
    ExecuteSpendsNothing(request, result.decision, env);
  }

  lemma HandleSpendsFresh(plane: Plane, book: Book, spent: set<string>, request: Request, env: Env)
    ensures SpendsFresh(HandlePlan(plane, book, spent, request, env).actions, book, spent)
  {
    hide Decide, ClearancePlan, LocalPlan, ExecutePlan, ReturnPlan;
    var result := Decide(plane, request);
    ExecuteSpendsNothing(request, result.decision, env);
    ExecuteSpendsNothing(request, Deny, env);
    ClearanceSpendsNothing(plane, request, result, env);
    if request.capability in plane.registry {
      LocalSpendsFresh(plane, book, spent, request, result, env);
    }
  }

  /** Without a tower client no event carries a tower's answer. */
  predicate NoTower(actions: seq<Action>)
  {
    forall a :: a in actions ==> a.Emit? ==> !a.event.note.TowerAnswer?
  }

  lemma ExecuteNoTower(request: Request, d: Decision, env: Env)
    ensures NoTower(ExecutePlan(request, d, env).actions)
    ensures forall status :: NoTower(ReturnPlan(request, d, status).actions)
  {
  }

  lemma LocalNoTower(plane: Plane, book: Book, spent: set<string>, request: Request, result: PolicyResult, env: Env)
    requires request.capability in plane.registry
    ensures NoTower(LocalPlan(plane, book, spent, request, result, env).actions)
  {
    hide SignedPlan, ExecutePlan, SignedVerdict, ReturnPlan, BuildApprovalRequest, BindingOf;
    SignedShape(plane, spent, request, result.decision, env);
    ExecuteNoTower(request, result.decision, env);
  }

  lemma HandleNoTower(plane: Plane, book: Book, spent: set<string>, request: Request, env: Env)
    requires !plane.hasClient
    ensures NoTower(HandlePlan(plane, book, spent, request, env).actions)
  {
    hide Decide, ClearancePlan, LocalPlan, ExecutePlan, ReturnPlan;
    var result := Decide(plane, request);
    ExecuteNoTower(request, result.decision, env);
    ExecuteNoTower(request, Deny, env);
    if request.capability in plane.registry {
      LocalNoTower(plane, book, spent, request, result, env);
    }
  }

  // ----------------------------------------------------------- cut-off calls

  predicate Reached(done: seq<Action>)
  {
    exists a :: a in done && a.Execute?
  }

  lemma ExecuteHead(request: Request, d: Decision, env: Env)
    ensures var actions := ExecutePlan(request, d, env).actions;
      |actions| == 4 && actions[0] == Emit(Event(ExecutionStarted, request, d, NoNote))
          && actions[1] == Execute(CallOf(request))
      && !actions[2].Execute? && !actions[3].Execute?
  {
  }

  /** The provider is asked for exactly what was requested. */
  predicate CarriesOut(call: ProviderCall, request: Request)
  {
    && call.capability == request.capability && call.target == request.target && call.session == request.session
    && call.correlation == request.correlation && call.parameters == request.parameters
  }

  /** Whatever a call of `handle` executes is what it was asked for. */
  lemma ExecutesRequest(plane: Plane, book: Book, spent: set<string>, request: Request, env: Env)
    ensures forall a :: a in HandlePlan(plane, book, spent, request, env).actions && a.Execute?
                    ==> CarriesOut(a.call, request)
  {
    hide HandlePlan, Backs, Decide, ExecutePlan;
    var actions := HandlePlan(plane, book, spent, request, env).actions;
    HandleExplained(plane, book, spent, request, env);
    if !NoExecute(actions) {
      var first, a :| Executing(actions, plane, book, spent, request, env, first, a);
      ExecuteHead(request, Decide(plane, request).decision, env);
    }
  }

  /** What was done when the provider was reached: authority, started event, the one call. */
  ghost predicate ReachedBy(done: seq<Action>, plane: Plane, book: Book, spent: set<string>, request: Request, env: Env,
                            first: seq<Action>, a: Authority)
  {
    && NoExecute(first) && Backs(plane, book, spent, request, env, first, a)
    && first + [Emit(Event(ExecutionStarted, request, Decide(plane, request).decision, NoNote)),
                Execute(CallOf(request))] <= done
    && NoExecute(done[|first| + 2..])
  }

  /**
   Justification, also for calls cut off by an exception: if the provider was reached,
   then exactly once, and the effects before the call include an authority that held
   when it was checked, followed by the started event.
   */
  lemma CallJustified(plane: Plane, book: Book, spent: set<string>, request: Request, env: Env, n: nat)
    returns (first: seq<Action>, a: Authority)
    requires n <= |HandlePlan(plane, book, spent, request, env).actions|
    requires Reached(HandlePlan(plane, book, spent, request, env).actions[..n])
    ensures ReachedBy(HandlePlan(plane, book, spent, request, env).actions[..n], plane, book, spent, request, env,
                      first, a)
  {
    hide HandlePlan, Backs, Decide, ExecutePlan;
    var actions := HandlePlan(plane, book, spent, request, env).actions;
    HandleExplained(plane, book, spent, request, env);
    assert !NoExecute(actions) by {
      var x :| x in actions[..n] && x.Execute?;
      assert x in actions;
    }
    first, a :| Executing(actions, plane, book, spent, request, env, first, a);
    var rest := ExecutePlan(request, Decide(plane, request).decision, env).actions;
    ExecuteHead(request, Decide(plane, request).decision, env);
    CutAfterCall(actions, first, rest, n);
  }

  lemma CutAfterCall(actions: seq<Action>, first: seq<Action>, rest: seq<Action>, n: nat)
    requires actions == first + rest && NoExecute(first) && n <= |actions| && Reached(actions[..n])
    requires |rest| == 4 && rest[1].Execute? && !rest[0].Execute? && !rest[2].Execute? && !rest[3].Execute?
    ensures n >= |first| + 2 && first + [rest[0], rest[1]] <= actions[..n] && NoExecute(actions[..n][|first| + 2..])
  {
    var x :| x in actions[..n] && x.Execute?;
    var k :| 0 <= k < n && actions[k] == x;
    assert forall j :: 0 <= j < |first| ==> actions[j] == first[j] && first[j] in first;
    assert k >= |first|;
    assert rest[k - |first|] == x;
    assert k == |first| + 1;
    forall y | y in actions[..n][|first| + 2..] ensures !y.Execute? {
      var j :| 0 <= j < |actions[..n][|first| + 2..]| && actions[..n][|first| + 2..][j] == y;
      assert y == rest[j + 2];
    }
  }
}
