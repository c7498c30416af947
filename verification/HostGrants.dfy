/**
 What an operator's grant is worth to the call that asked for it. The grant is bound to the action the host was
 shown, so it fits the call exactly when the redactor did not take the call's target for a secret; such a call asks
 again however often it is granted.
 */
module HostGrants {
  import opened Wrappers
  import opened Values
  import opened Fingerprints
  import opened Policy
  import opened Approvals
  import opened Engine
  import opened EngineLaws
  import opened EngineRuns
  import opened HostApprovals
  import opened Host
  import opened HostRuns
  import Clearance
  import Redaction
  import RedactionLaws

  // ------------------------------------------------------------ what is pending and granted

  /** A pending approval is about a call that must ask, as the host was shown it. */
  predicate About(route: Route, p: Pending)
  {
    HostCall(p.call) && MustAsk(route(p.call), p.call) && p.approval.binding == ShownBinding(route(p.call), p.call)
  }

  ghost predicate ShownOnly(route: Route, w: Clearance.World, s: HostState)
  {
    && (forall id :: id in s.pending ==> s.pending[id].approval.id == id && About(route, s.pending[id]))
    && (forall g :: g in s.book.grants ==> !w.rules.secret(g.binding.target))
  }

  lemma ShownInert(w: Clearance.World, text: string)
    requires HostWorld(w)
    ensures !w.rules.secret(Shown(w.rules, text))
    ensures Shown(w.rules, text) == text <==> !w.rules.secret(text)
  {
    hide HostKeys;
  }

  lemma KeptAbout(route: Route, w: Clearance.World, book: Book, request: Request, env: Env)
    requires HostWorlds(route, w) && HostCall(request) && KeptApproval(route(request), request, env).Ok?
    requires HandlePlan(route(request), book, {}, request, env).outcome == Some(ApprovalRequired)
    ensures About(route, Pending(request, KeptApproval(route(request), request, env).value))
  {
    hide HandlePlan, KeptApproval, HostWorld, ShownBinding, Presentable;
    CallAsks(route(request), book, request, env);
    KeptExactly(route(request), request, env);
  }

  lemma CallShownOnly(route: Route, w: Clearance.World, run: HostRun, request: Request, env: Env, stop: nat)
    requires HostWorlds(route, w) && HostCall(request) && ShownOnly(route, w, run.state)
    ensures ShownOnly(route, w, CallNext(route, run, request, env, stop).state)
  {
    hide HandlePlan, KeptApproval, After, HostWorlds, HostCall, About;
    var plan := WholeCall(route, run.state, request, env);
    var done := if stop < |plan.actions| then plan.actions[..stop] else plan.actions;
    AfterSpends(State([], [], run.state.book, {}), done);
    if plan.outcome == Some(ApprovalRequired) && KeptApproval(route(request), request, env).Ok? {
      KeptAbout(route, w, run.state.book, request, env);
    }
  }

  lemma SubmitShownOnly(route: Route, w: Clearance.World, s: HostState, response: HostResponse, recorded: bool)
    requires HostWorlds(route, w) && ShownOnly(route, w, s)
    ensures ShownOnly(route, w, Submit(s, response, recorded).0)
  {
    hide Mismatch, BLOCKED, Unapprovable, HostWorld, ResponseId, HostCall, MustAsk, BindingOf, Shown;
    if Submit(s, response, recorded).1.ApprovalGranted? {
      ShownInert(w, s.pending[response.requestId].call.target);
    }
  }

  lemma {:induction false} RunShownOnly(route: Route, w: Clearance.World, steps: seq<HostStep>)
    requires HostWorlds(route, w) && HostCalls(steps)
    ensures ShownOnly(route, w, HostRunOf(route, steps).state)
  {
    hide CallNext, Submit, HostWorlds, HostCall, MustAsk, ShownBinding;
    if steps != [] {
      var before := steps[..|steps| - 1];
      assert HostCalls(before) by { assert forall s :: s in before ==> s in steps; }
      assert steps[|steps| - 1] in steps;
      RunShownOnly(route, w, before);
      var run := HostRunOf(route, before);
      match steps[|steps| - 1]
      case CallStep(request, env, stop) => CallShownOnly(route, w, run, request, env, stop);
      case SubmitStep(response, recorded) => SubmitShownOnly(route, w, run.state, response, recorded);
      case ResumeStep(id, env, stop) =>
        if MayResume(run.state, id) { CallShownOnly(route, w, run, run.state.pending[id].call, env, stop); }
    }
  }

  // ------------------------------------------------------------ what a grant is bound to

  /**
   A grant accepted in any run is the operator's, for the pending call's session, provider, capability and
   fingerprint, until the approval expires; it is bound to the call's own action exactly when the call's target does
   not look like a secret.
   */
  lemma GrantBoundToCall(route: Route, w: Clearance.World, steps: seq<HostStep>, response: HostResponse, recorded: bool)
    requires HostWorlds(route, w) && HostCalls(steps)
    requires Submit(HostRunOf(route, steps).state, response, recorded).1.ApprovalGranted?
    ensures var s := HostRunOf(route, steps).state;
      && response.requestId in s.pending
      && var call := s.pending[response.requestId].call;
      && var after := Submit(s, response, recorded).0;
      && |after.book.grants| == |s.book.grants| + 1 && after.book.grants[..|s.book.grants|] == s.book.grants
      && var grant := after.book.grants[|s.book.grants|];
      && var action := Binding(call.capability, call.session, call.target, route(call).provider,
                               StoreFingerprint(w.sha, call.parameters, w.bytesText));
      && (grant.binding == action <==> !w.rules.secret(call.target)) && grant.binding.(target := call.target) == action
      && (w.rules.secret(call.target) ==> grant.binding.target == Redaction.REDACTED)
      && grant.operator == Actor(Operator, response.operator) && response.operator != ""
      && grant.expiresAt == s.pending[response.requestId].approval.expiresAt && response.decidedAt < grant.expiresAt
      && !Unapprovable(grant.binding.capability)
  {
    hide HostRunOf, Mismatch, BLOCKED, Unapprovable, HostWorld, HostCall, MustAsk, Shown, StoreFingerprint, BindingOf;
    RunShownOnly(route, w, steps);
    BlockedExactly(HostRunOf(route, steps).state.pending[response.requestId].approval.binding.capability);
    var call := HostRunOf(route, steps).state.pending[response.requestId].call;
    BindingParts(route(call), call);
    BindingExactly(route(call), call);
    ShownInert(w, call.target);
    if w.rules.secret(call.target) { MaskShown(w, call.target); }
  }

  lemma MaskShown(w: Clearance.World, text: string)
    requires w.rules.secret(text)
    ensures Shown(w.rules, text) == Redaction.REDACTED
  {
  }

  // ------------------------------------------------------------ calls for a target that looks like a secret

  lemma SecretNotReached(route: Route, w: Clearance.World, run: HostRun, request: Request, env: Env, stop: nat)
    requires HostRoute(route) && HostWorlds(route, w) && HostCall(request) && ShownOnly(route, w, run.state)
    requires w.rules.secret(request.target)
    ensures var h := CallNext(route, run, request, env, stop).history; !AskedCall(route, h[|h| - 1])
  {
    hide HandlePlan, Decide, HostWorlds, HostRoute, HostCall, About, AfterCall, BindingOf;
    var actions := HandlePlan(route(request), run.state.book, {}, request, env).actions;
    var n := if stop < |actions| then stop else |actions|;
    assert actions[..n] == if stop < |actions| then actions[..stop] else actions;
    if AskedCall(route, HostRecord(request, env, run.state.book, actions[..n])) {
      var grant := AskedByGrant(route, run.state.book, request, env, n);
      BindingParts(route(request), request);
    }
  }

  /** In no run does a call that must ask, for a target that looks like a secret, reach the provider. */
  lemma {:induction false} SecretTargetNeverRuns(route: Route, w: Clearance.World, steps: seq<HostStep>, k: nat)
    requires HostRoute(route) && HostWorlds(route, w) && HostCalls(steps)
    requires k < |HostRunOf(route, steps).history|
    requires w.rules.secret(HostRunOf(route, steps).history[k].request.target)
    ensures !AskedCall(route, HostRunOf(route, steps).history[k])
  {
    hide Submit, HostWorlds, HostRoute, HostCall, MustAsk, AskedCall, AfterCall, WholeCall;
    if steps != [] {
      var before := steps[..|steps| - 1];
      assert HostCalls(before) by { assert forall s :: s in before ==> s in steps; }
      assert steps[|steps| - 1] in steps;
      var run := HostRunOf(route, before);
      if k < |run.history| {
        SecretTargetNeverRuns(route, w, before, k);
      } else {
        RunShownOnly(route, w, before);
        match steps[|steps| - 1]
        case CallStep(request, env, stop) => SecretNotReached(route, w, run, request, env, stop);
        case SubmitStep(_, _) =>
        case ResumeStep(id, env, stop) =>
          SecretNotReached(route, w, run, run.state.pending[id].call, env, stop);
      }
    }
  }

  // ------------------------------------------------------------ granting, then resuming

  /** With an unspent, unexpired grant for it, an undisturbed call that must ask reaches the provider. */
  lemma GrantedExecutes(route: Route, s: HostState, request: Request, env: Env, grant: Grant)
    requires HostRoute(route) && HostCall(request) && MustAsk(route(request), request)
    requires grant in s.book.grants && Usable(s.book, grant, BindingOf(route(request), request), env.storeNow)
    ensures WholeCall(route, s, request, env).outcome == Some(if env.providerOk then Completed else Failed)
    ensures Execute(CallOf(request)) in WholeCall(route, s, request, env).actions
  {
    hide Decide, BindingOf, Opening;
    var plane := route(request);
    var result := Decide(plane, request);
    assert MatchingGrant(plane, s.book, request, env).Some?;
    assert result.decision != Deny;
    var execute := ExecutePlan(request, result.decision, env);
    assert execute.actions[1] == Execute(CallOf(request));
    assert Execute(CallOf(request)) in execute.actions;
    var store := StorePlan(plane, s.book, request, result, env);
    assert store.outcome == execute.outcome && Execute(CallOf(request)) in store.actions;
    assert SignedPlan(plane, {}, request, result.decision, env) == ([], NotAccepted);
    assert LocalPlan(plane, s.book, {}, request, result, env) == Then([], store);
  }

  lemma StoreAsks(plane: Plane, book: Book, request: Request, env: Env)
    requires Decide(plane, request).RequiresApproval()
    requires forall g :: g in book.grants ==> g.binding != BindingOf(plane, request)
    ensures var store := StorePlan(plane, book, request, Decide(plane, request), env);
      store.outcome == Some(ApprovalRequired) && NoExecute(store.actions)
  {
    hide Decide, BindingOf, BuildApprovalRequest, ExecutePlan;
    AskedFields(plane, request, env);
  }

  /** Without a grant for its action, a call that must ask does ask. */
  lemma UngrantedAsks(route: Route, s: HostState, request: Request, env: Env)
    requires HostRoute(route) && HostCall(request) && MustAsk(route(request), request)
    requires forall g :: g in s.book.grants ==> g.binding != BindingOf(route(request), request)
    ensures WholeCall(route, s, request, env).outcome == Some(ApprovalRequired)
    ensures NoExecute(WholeCall(route, s, request, env).actions)
  {
    hide Decide, BindingOf, Opening, StorePlan, MatchingGrant;
    var plane := route(request);
    var result := Decide(plane, request);
    assert result.decision != Deny;
    QuietOpening(plane, request);
    var store := StorePlan(plane, s.book, request, result, env);
    StoreAsks(plane, s.book, request, env);
    assert SignedPlan(plane, {}, request, result.decision, env) == ([], NotAccepted);
    assert LocalPlan(plane, s.book, {}, request, result, env) == Then([], store);
    assert WholeCall(route, s, request, env) == Then(Opening(plane, request), Then([], store));
  }

  /**
   From a granted approval to its call: while the approval lasts, and unless the operator's single use is spent, an
   undisturbed resumption executes the call exactly when its target does not look like a secret; otherwise it asks
   again.
   */
  lemma GrantThenResume(route: Route, w: Clearance.World, steps: seq<HostStep>, response: HostResponse, recorded: bool,
                        env: Env)
    requires HostRoute(route) && HostWorlds(route, w) && HostCalls(steps)
    requires var s := HostRunOf(route, steps).state;
      && Submit(s, response, recorded).1.ApprovalGranted?
      && (response.scope.OneTime? ==> ResponseId(response.requestId, response.operator) !in s.book.consumed)
      && response.requestId in s.pending && env.storeNow < s.pending[response.requestId].approval.expiresAt
    ensures var after := Submit(HostRunOf(route, steps).state, response, recorded).0;
      && MayResume(after, response.requestId)
      && var call := after.pending[response.requestId].call;
      && var plan := WholeCall(route, after, call, env);
      && (Reached(plan.actions) <==> !w.rules.secret(call.target))
      && (Reached(plan.actions) ==>
            Execute(ProviderCall(call.capability, call.target, call.session, call.correlation, call.parameters))
              in plan.actions)
      && plan.outcome == Some(if w.rules.secret(call.target) then ApprovalRequired
                              else if env.providerOk then Completed else Failed)
  {
    hide HostRunOf, Mismatch, BLOCKED, Unapprovable, HostWorld, HostRoute, HostCall, MustAsk, BindingOf, WholeCall;
    hide ShownBinding, StoreFingerprint;
    var s := HostRunOf(route, steps).state;
    var after := Submit(s, response, recorded).0;
    var call := s.pending[response.requestId].call;
    RunShownOnly(route, w, steps);
    SubmitShownOnly(route, w, s, response, recorded);
    GrantBoundToCall(route, w, steps, response, recorded);
    if w.rules.secret(call.target) {
      BindingParts(route(call), call);
      UngrantedAsks(route, after, call, env);
    } else {
      var grant := after.book.grants[|s.book.grants|];
      BindingExactly(route(call), call);
      assert grant in after.book.grants && !Spent(after.book, grant);
      GrantedExecutes(route, after, call, env, grant);
    }
  }

  // ------------------------------------------------------------ asking, granting, resuming

  /** The call, undisturbed. */
  function WholeStep(route: Route, s: HostState, request: Request, env: Env): HostStep
  {
    CallStep(request, env, |WholeCall(route, s, request, env).actions|)
  }

  function FreshApproval(plane: Plane, request: Request, env: Env): HostApproval
  {
    HostApproval(env.freshId, ShownBinding(plane, request), env.requestNow + TTL)
  }

  /** The first call asks and is kept, and nothing is spent. */
  lemma FirstCallAsks(route: Route, w: Clearance.World, request: Request, env: Env)
    requires HostRoute(route) && HostWorlds(route, w) && HostCall(request) && MustAsk(route(request), request)
    requires Presentable(route(request), request, env) && !RedactionLaws.KeepsBytesIn(w.rules, request.parameters)
    ensures HostRunOf(route, [WholeStep(route, EMPTY_HOST.state, request, env)]).state
         == HostState(Book([], {}),
                      map[env.freshId := Pending(request, FreshApproval(route(request), request, env))], map[])
  {
    hide HandlePlan, HostWorld, HostRoute, HostCall, MustAsk, KeptApproval, Presentable, After, ShownBinding;
    var step := WholeStep(route, EMPTY_HOST.state, request, env);
    assert [step][..0] == [];
    assert HostRunOf(route, [step]) == HostNext(route, EMPTY_HOST, step);
    UngrantedAsks(route, EMPTY_HOST.state, request, env);
    AskKept(route, w, request, env);
    var actions := WholeCall(route, EMPTY_HOST.state, request, env).actions;
    NothingSpent(route(request), request, env);
    assert BookAfter(Book([], {}), actions) == Book([], {});
  }

  lemma AskKept(route: Route, w: Clearance.World, request: Request, env: Env)
    requires HostWorlds(route, w) && MustAsk(route(request), request) && Presentable(route(request), request, env)
    requires !RedactionLaws.KeepsBytesIn(w.rules, request.parameters)
    ensures KeptApproval(route(request), request, env)
         == Ok(FreshApproval(route(request), request, env))
  {
    hide KeptApproval, HostWorld, Presentable, ShownBinding, RedactionLaws.KeepsBytesIn, Decide;
    KeptExactly(route(request), request, env);
  }

  /** Nothing can be spent of an empty book. */
  lemma NothingSpent(plane: Plane, request: Request, env: Env)
    ensures BookAfter(Book([], {}), HandlePlan(plane, Book([], {}), {}, request, env).actions) == Book([], {})
  {
    hide HandlePlan;
    var start := State([], [], Book([], {}), {});
    var actions := HandlePlan(plane, Book([], {}), {}, request, env).actions;
    HandleSpendsFresh(plane, Book([], {}), {}, request, env);
    AfterSpends(start, actions);
    ConsumedFrom(start, actions, {});
  }

  /** An operator's answer that grants what is pending and says nothing that contradicts it. */
  predicate Grants(response: HostResponse, request: Request, env: Env)
  {
    && response.requestId == env.freshId && response.operator != "" && response.decision.HostGranted?
    && response.decidedAt < env.requestNow + TTL && !Unapprovable(request.capability)
    && response.session.None? && response.target.None? && response.provider.None? && response.capability.None?
    && response.fingerprint.None?
  }

  lemma FirstAnswerGrants(route: Route, w: Clearance.World, request: Request, env: Env, response: HostResponse)
    requires HostRoute(route) && HostWorlds(route, w) && HostCall(request) && MustAsk(route(request), request)
    requires Presentable(route(request), request, env) && !RedactionLaws.KeepsBytesIn(w.rules, request.parameters)
    requires Grants(response, request, env)
    ensures var s := HostRunOf(route, [WholeStep(route, EMPTY_HOST.state, request, env)]).state;
      && Submit(s, response, true).1.ApprovalGranted? && Submit(s, response, true).0.pending == s.pending
      && s.book.consumed == {} && env.freshId in s.pending && s.pending[env.freshId].call == request
      && s.pending[env.freshId].approval.expiresAt == env.requestNow + TTL
  {
    hide HostRunOf, WholeStep, HostWorlds, HostRoute, MustAsk, BLOCKED, Unapprovable, RedactionLaws.KeepsBytesIn;
    FirstCallAsks(route, w, request, env);
    BindingParts(route(request), request);
    BlockedExactly(request.capability);
  }

  /**
   A call that must ask, an answer that grants it, and the resumption, one after the other and undisturbed: the call
   reaches the provider exactly when its target does not look like a secret, and asks again otherwise.
   */
  lemma AskGrantResume(route: Route, w: Clearance.World, request: Request, env: Env, response: HostResponse, later: Env)
    requires HostRoute(route) && HostWorlds(route, w) && HostCall(request) && MustAsk(route(request), request)
    requires Presentable(route(request), request, env) && !RedactionLaws.KeepsBytesIn(w.rules, request.parameters)
    requires Grants(response, request, env) && later.storeNow < env.requestNow + TTL
    ensures var asked := HostNext(route, EMPTY_HOST, WholeStep(route, EMPTY_HOST.state, request, env));
      var granted := HostNext(route, asked, SubmitStep(response, true));
      var plan := WholeCall(route, granted.state, request, later);
      var resumed := HostNext(route, granted, ResumeStep(env.freshId, later, |plan.actions|));
      && granted.pairs == {(env.freshId, response.operator)}
      && resumed.history == asked.history + [HostRecord(request, later, granted.state.book, plan.actions)]
      && !Reached(asked.history[0].done)
      && (Reached(plan.actions) <==> !w.rules.secret(request.target))
      && (w.rules.secret(request.target) ==> plan.outcome == Some(ApprovalRequired))
  {
    hide HostWorlds, HostRoute, MustAsk, Presentable, BLOCKED, Unapprovable, RedactionLaws.KeepsBytesIn, WholeCall;
    hide Submit, MayResume, AfterCall;
    var step := WholeStep(route, EMPTY_HOST.state, request, env);
    assert [step][..0] == [];
    assert HostRunOf(route, [step]) == HostNext(route, EMPTY_HOST, step);
    FirstAnswerGrants(route, w, request, env, response);
    UngrantedAsks(route, EMPTY_HOST.state, request, env);
    GrantThenResume(route, w, [step], response, true, later);
  }

  // ------------------------------------------------------------ the failing input

  /** 32 hex digits: a target id the source accepts, and a text its redactor takes for a secret. */
  const HEX_TARGET := "0123456789abcdef0123456789abcdef"

  const RESET := Capability("power.reset", "power", "reset", "critical", true, true, {"target", "session"})

  /** A supervised mock plane that knows the ATX reset. */
  function ResetPlane(w: Clearance.World): Plane
  {
    Plane(PolicyConfig(Supervised, Scope({}, {}), Scope({}, {}), false, map[]), map[RESET.id := RESET], "mock", false,
          true, None, false, false, None, Clearance.DEFAULT_TIMEOUT, false, w)
  }

  function ResetOf(target: string): Request
  {
    Request(RESET.id, target, "host-session", "correlation", Actor(Agent, "mcp-host"), "reset the target", map[], None,
            None, None)
  }

  function GrantFor(id: string): HostResponse
  {
    HostResponse(id, HostGranted, "operator", OneTime, 0, None, None, None, None, None)
  }

  /** Asked for, granted and resumed at once, the reset of that target never reaches the provider. */
  lemma HexTargetAsksAgain(w: Clearance.World, env: Env)
    requires HostWorld(w) && w.rules.secret(HEX_TARGET)
    requires env.freshId != "" && env.requestNow == 0 && env.storeNow == 0
    ensures var route: Route := _ => ResetPlane(w);
      var asked := HostNext(route, EMPTY_HOST, WholeStep(route, EMPTY_HOST.state, ResetOf(HEX_TARGET), env));
      var granted := HostNext(route, asked, SubmitStep(GrantFor(env.freshId), true));
      var plan := WholeCall(route, granted.state, ResetOf(HEX_TARGET), env);
      && granted.pairs == {(env.freshId, "operator")}
      && plan.outcome == Some(ApprovalRequired) && !Reached(plan.actions)
  {
    hide HostWorld, WholeCall, WholeStep, HostNext, RedactionLaws.KeepsBytesIn;
    var route: Route := _ => ResetPlane(w);
    ResetAsks(w, HEX_TARGET);
    NothingKept(w, ResetOf(HEX_TARGET));
    AskGrantResume(route, w, ResetOf(HEX_TARGET), env, GrantFor(env.freshId), env);
  }

  lemma ResetAsks(w: Clearance.World, target: string)
    ensures MustAsk(ResetPlane(w), ResetOf(target)) && !Unapprovable(RESET.id)
  {
  }

  lemma NothingKept(w: Clearance.World, request: Request)
    requires request.parameters == map[]
    ensures !RedactionLaws.KeepsBytesIn(w.rules, request.parameters)
  {
  }
}
