/**
 Host runs: calls, responses and resumptions in any order, each call possibly cut
 off by an exception. With only one-time approvals, calls that had to ask reach
 the provider at most once for every approval an operator granted.
 */
module HostRuns {
  import opened Wrappers
  import opened Policy
  import opened Approvals
  import opened Engine
  import opened EngineGrammar
  import opened EngineLaws
  import opened EngineRuns
  import opened HostApprovals
  import opened Host
  import ActClient
  import Clearance
  import Redaction

  datatype HostStep =
    | CallStep(request: Request, env: Env, stop: nat)
    | SubmitStep(response: HostResponse, recorded: bool)
    | ResumeStep(id: string, env: Env, stop: nat)

  datatype HostRecord = HostRecord(request: Request, env: Env, book: Book, done: seq<Action>)

  /** The host's state, the (approval, operator) pairs granted, and the calls so far. */
  datatype HostRun = HostRun(state: HostState, pairs: set<(string, string)>, history: seq<HostRecord>)

  const EMPTY_HOST: HostRun := HostRun(HostState(Book([], {}), map[], map[]), {}, [])

  function CallNext(route: Route, run: HostRun, request: Request, env: Env, stop: nat): HostRun
  {
    var plan := WholeCall(route, run.state, request, env);
    var done := if stop < |plan.actions| then plan.actions[..stop] else plan.actions;
    var status := if done == plan.actions then plan.outcome else None;
    HostRun(AfterCall(route, run.state, request, env, done, status), run.pairs,
            run.history + [HostRecord(request, env, run.state.book, done)])
  }

  function HostNext(route: Route, run: HostRun, step: HostStep): HostRun
  {
    match step
    case CallStep(request, env, stop) => CallNext(route, run, request, env, stop)
    case SubmitStep(response, recorded) =>
      var (state, status) := Submit(run.state, response, recorded);
      run.(state := state,
           pairs := if status.ApprovalGranted? then run.pairs + {(response.requestId, response.operator)}
             else run.pairs)
    case ResumeStep(id, env, stop) =>
      if MayResume(run.state, id) then CallNext(route, run, run.state.pending[id].call, env, stop) else run
  }

  function HostRunOf(route: Route, steps: seq<HostStep>): HostRun
  {
    if steps == [] then EMPTY_HOST else HostNext(route, HostRunOf(route, steps[..|steps| - 1]), steps[|steps| - 1])
  }

  /** The calls of the run are those a host can be asked for. */
  predicate HostCalls(steps: seq<HostStep>)
  {
    forall s :: s in steps && s.CallStep? ==> HostCall(s.request)
  }

  /** The run's responses grant one use each. */
  predicate OneTimeOnly(steps: seq<HostStep>)
  {
    forall s :: s in steps && s.SubmitStep? ==> s.response.scope.OneTime?
  }

  /** The call had to ask and reached the provider. */
  predicate AskedCall(route: Route, r: HostRecord)
  {
    Reached(r.done) && Decide(route(r.request), r.request).RequiresApproval()
  }

  function AskedCalls(route: Route, history: seq<HostRecord>): nat
  {
    if history == [] then 0
    else AskedCalls(route, history[..|history| - 1]) + (if AskedCall(route, history[|history| - 1]) then 1 else 0)
  }

  function IdsOf(pairs: set<(string, string)>): set<string>
  {
    set p | p in pairs :: ResponseId(p.0, p.1)
  }

  ghost predicate Sound(route: Route, run: HostRun)
  {
    && (forall g :: g in run.state.book.grants ==> g.scope.OneTime? && g.responseId in IdsOf(run.pairs))
    && run.state.book.consumed <= IdsOf(run.pairs)
    && (forall id ::
          id in run.state.pending ==> HostCall(run.state.pending[id].call) && run.state.pending[id].approval.id == id)
    && AskedCalls(route, run.history) <= |run.state.book.consumed|
  }

  // ------------------------------------------------------------ one call

  lemma {:induction false} ConsumedFrom(s: State, done: seq<Action>, ids: set<string>)
    requires s.book.consumed <= ids
    requires forall a :: a in done && a.SpendGrant? ==> a.grant.responseId in ids
    ensures After(s, done).book.consumed <= ids
    decreases done
  {
    if done != [] {
      ConsumedFrom(Apply(s, done[0]), done[1..], ids);
    }
  }

  lemma LargerSet<T>(a: set<T>, b: set<T>, x: T)
    requires a <= b && x in b && x !in a
    ensures |b| >= |a| + 1
  {
    assert a + {x} <= b;
    Subset(a + {x}, b);
  }

  lemma {:induction false} Subset<T>(a: set<T>, b: set<T>)
    requires a <= b
    ensures |a| <= |b|
  {
    if a != {} {
      var x :| x in a;
      Subset(a - {x}, b - {x});
    }
  }

  lemma {:induction false} FewerIds(pairs: set<(string, string)>)
    ensures |IdsOf(pairs)| <= |pairs|
  {
    if pairs == {} {
      assert IdsOf(pairs) == {};
    } else {
      var p :| p in pairs;
      FewerIds(pairs - {p});
      assert IdsOf(pairs) <= IdsOf(pairs - {p}) + {ResponseId(p.0, p.1)};
      Subset(IdsOf(pairs), IdsOf(pairs - {p}) + {ResponseId(p.0, p.1)});
    }
  }

  /** An asking call that reached the provider did so on a stored grant, which it spent. */
  lemma AskedByGrant(route: Route, book: Book, request: Request, env: Env, n: nat) returns (grant: Grant)
    requires HostRoute(route) && HostCall(request) && n <= |HandlePlan(route(request), book, {}, request, env).actions|
    requires AskedCall(route,
                       HostRecord(request, env, book, HandlePlan(route(request), book, {}, request, env).actions[..n]))
    ensures SpendGrant(grant) in HandlePlan(route(request), book, {}, request, env).actions[..n]
    ensures ByGrant(route(request), book, request, env.storeNow, grant)
  {
    hide HandlePlan, Decide, ByGrant, ByTower, BySignature;
    var plane := route(request);
    var done := HandlePlan(plane, book, {}, request, env).actions[..n];
    var first, a := CallJustified(plane, book, {}, request, env, n);
    HandleNoTower(plane, book, {}, request, env);
    assert done[..|first|] == first;
    assert forall x :: x in first ==> x in done[..|first|];
    assert forall x :: x in done ==> x in HandlePlan(plane, book, {}, request, env).actions;
    assert a.GrantedBy? by { OnlyGrants(plane, book, request, env, first, a); }
    grant := a.grant;
  }

  lemma OnlyGrants(plane: Plane, book: Book, request: Request, env: Env, first: seq<Action>, a: Authority)
    requires Backs(plane, book, {}, request, env, first, a) && NoTower(first) && request.signedGrant.None?
    requires Decide(plane, request).RequiresApproval()
    ensures a.GrantedBy?
  {
    hide Decide, ByGrant, ByTower;
  }

  function BookAfter(book: Book, done: seq<Action>): Book
  {
    After(State([], [], book, {}), done).book
  }

  /** What one call does to the book: grants stay, only their ids are spent, and an asking call spends a fresh one. */
  lemma CallSpends(route: Route, book: Book, request: Request, env: Env, n: nat, ids: set<string>)
    requires HostRoute(route) && HostCall(request) && n <= |HandlePlan(route(request), book, {}, request, env).actions|
    requires book.consumed <= ids && forall g :: g in book.grants ==> g.scope.OneTime? && g.responseId in ids
    ensures var done := HandlePlan(route(request), book, {}, request, env).actions[..n];
      var after := BookAfter(book, done);
      && after.grants == book.grants && book.consumed <= after.consumed <= ids
      && |after.consumed| >= |book.consumed| + (if AskedCall(route, HostRecord(request, env, book, done)) then 1 else 0)
  {
    hide HandlePlan, Decide, Reached;
    var plane := route(request);
    var actions := HandlePlan(plane, book, {}, request, env).actions;
    var done := actions[..n];
    var start := State([], [], book, {});
    HandleSpendsFresh(plane, book, {}, request, env);
    assert forall a :: a in done ==> a in actions;
    AfterSpends(start, done);
    ConsumedFrom(start, done, ids);
    Subset(book.consumed, BookAfter(book, done).consumed);
    if AskedCall(route, HostRecord(request, env, book, done)) {
      var grant := AskedByGrant(route, book, request, env, n);
      LargerSet(book.consumed, BookAfter(book, done).consumed, grant.responseId);
    }
  }

  lemma CallSound(route: Route, run: HostRun, request: Request, env: Env, stop: nat)
    requires HostRoute(route) && HostCall(request) && Sound(route, run)
    ensures Sound(route, CallNext(route, run, request, env, stop))
  {
    hide HandlePlan, AskedCall, IdsOf, BindingOf, After, HostRoute, KeptApproval, HostCall;
    var actions := HandlePlan(route(request), run.state.book, {}, request, env).actions;
    var n := if stop < |actions| then stop else |actions|;
    var next := CallNext(route, run, request, env, stop);
    CallSpends(route, run.state.book, request, env, n, IdsOf(run.pairs));
    assert actions[..n] == if stop < |actions| then actions[..stop] else actions;
    assert next.state.book == BookAfter(run.state.book, actions[..n]);
    assert next.history[..|next.history| - 1] == run.history;
  }

  lemma SubmitSound(route: Route, run: HostRun, response: HostResponse, recorded: bool)
    requires Sound(route, run) && response.scope.OneTime?
    ensures Sound(route, HostNext(route, run, SubmitStep(response, recorded)))
  {
    hide AskedCalls, Mismatch, ResponseId, BLOCKED, Unapprovable, HandlePlan, WholeCall, CallNext, AfterCall;
    hide KeptApproval;
    var next := HostNext(route, run, SubmitStep(response, recorded));
    assert IdsOf(run.pairs) <= IdsOf(next.pairs);
    if Submit(run.state, response, recorded).1.ApprovalGranted? {
      assert (response.requestId, response.operator) in next.pairs;
      assert ResponseId(response.requestId, response.operator) in IdsOf(next.pairs);
    }
  }

  lemma {:induction false} HostRunSound(route: Route, steps: seq<HostStep>)
    requires HostRoute(route) && HostCalls(steps) && OneTimeOnly(steps)
    ensures Sound(route, HostRunOf(route, steps))
  {
    hide CallNext, Submit;
    if steps != [] {
      var before := steps[..|steps| - 1];
      var step := steps[|steps| - 1];
      assert HostCalls(before) && OneTimeOnly(before) by { assert forall s :: s in before ==> s in steps; }
      assert step in steps;
      HostRunSound(route, before);
      var run := HostRunOf(route, before);
      match step
      case CallStep(request, env, stop) => CallSound(route, run, request, env, stop);
      case SubmitStep(response, recorded) => SubmitSound(route, run, response, recorded);
      case ResumeStep(id, env, stop) =>
        if MayResume(run.state, id) { CallSound(route, run, run.state.pending[id].call, env, stop); }
    }
  }

  // ------------------------------------------------------------ main results

  /** Calls that had to ask never outnumber the (approval, operator) pairs granted. */
  lemma AskedNeverExceedsGranted(route: Route, steps: seq<HostStep>)
    requires HostRoute(route) && HostCalls(steps) && OneTimeOnly(steps)
    ensures AskedCalls(route, HostRunOf(route, steps).history) <= |HostRunOf(route, steps).pairs|
  {
    hide HostRunOf, AskedCalls, IdsOf;
    HostRunSound(route, steps);
    var run := HostRunOf(route, steps);
    Subset(run.state.book.consumed, IdsOf(run.pairs));
    FewerIds(run.pairs);
  }

  // ------------------------------------------------------------ what is pending

  /** The hosts' planes share one redactor, clock and hash. */
  ghost predicate HostWorlds(route: Route, w: Clearance.World)
  {
    HostWorld(w) && forall r :: route(r).world == w
  }

  /** The call is let through and has to ask. */
  predicate MustAsk(plane: Plane, request: Request)
  {
    && request.capability in plane.registry && Decide(plane, request).RequiresApproval()
    && (plane.realHardware ==> plane.policy.allowRealHardware)
  }

  /** The kept approval is the recorded approval request, with the target as it is shown. */
  predicate Keeps(rules: Redaction.Rules, kept: HostApproval, asked: ApprovalRequest)
  {
    && kept.id == asked.id && kept.expiresAt == asked.expiresAt && kept.binding.session == asked.session
    && kept.binding.capability == asked.capability && asked.provider == Some(kept.binding.provider)
    && |asked.targets| == 1 && kept.binding.target == Shown(rules, asked.targets[0])
  }

  /** The log of a call that returned APPROVAL_REQUIRED holds the approval request it built. */
  lemma CallAsks(plane: Plane, book: Book, request: Request, env: Env)
    requires HandlePlan(plane, book, {}, request, env).outcome == Some(ApprovalRequired)
    ensures MustAsk(plane, request) && AskedOf(plane, request, env).Ok?
    ensures Emit(Event(ApprovalRequested, request, Decide(plane, request).decision,
                       LocalRequest(AskedOf(plane, request, env).value)))
         in HandlePlan(plane, book, {}, request, env).actions
  {
    hide Decide, Opening, LocalPlan, ClearancePlan, ExecutePlan, AskedOf;
    var result := Decide(plane, request);
    NeverAsks(plane, request, result, env);
    assert LocalPlan(plane, book, {}, request, result, env).outcome == Some(ApprovalRequired);
    LocalAsks(plane, book, request, env);
    assert HandlePlan(plane, book, {}, request, env).actions
        == Opening(plane, request) + LocalPlan(plane, book, {}, request, result, env).actions;
  }

  lemma NeverAsks(plane: Plane, request: Request, result: PolicyResult, env: Env)
    ensures ClearancePlan(plane, request, result, env).outcome != Some(ApprovalRequired)
    ensures ExecutePlan(request, result.decision, env).outcome != Some(ApprovalRequired)
  {
    hide Clearance.BuildRequest, ActClient.VerifyClearance;
  }

  lemma LocalAsks(plane: Plane, book: Book, request: Request, env: Env)
    requires request.capability in plane.registry
    requires LocalPlan(plane, book, {}, request, Decide(plane, request), env).outcome == Some(ApprovalRequired)
    ensures AskedOf(plane, request, env).Ok?
    ensures Emit(Event(ApprovalRequested, request, Decide(plane, request).decision,
                       LocalRequest(AskedOf(plane, request, env).value)))
         in LocalPlan(plane, book, {}, request, Decide(plane, request), env).actions
  {
    hide SignedPlan, Decide, BuildApprovalRequest, MatchingGrant, ExecutePlan;
    var result := Decide(plane, request);
    NeverAsks(plane, request, result, env);
    var store := StorePlan(plane, book, request, result, env);
    assert store.actions[0] == Emit(Event(ApprovalRequested, request, result.decision,
                                          LocalRequest(AskedOf(plane, request, env).value)));
    assert store.actions[0] in store.actions;
  }

  /** Some call of the run asked for the approval that is pending, and what was asked is in its log. */
  ghost predicate AskedBefore(route: Route, history: seq<HostRecord>, p: Pending)
  {
    exists k :: 0 <= k < |history| && AskedIn(route, history[k], p)
  }

  ghost predicate AskedIn(route: Route, r: HostRecord, p: Pending)
  {
    && r.request == p.call && MustAsk(route(p.call), p.call)
    && exists asked :: Keeps(route(p.call).world.rules, p.approval, asked) && asked.targets == [p.call.target]
         && Emit(Event(ApprovalRequested, p.call, Decide(route(p.call), p.call).decision, LocalRequest(asked)))
            in r.done
  }

  ghost predicate AllAsked(route: Route, run: HostRun)
  {
    forall id :: id in run.state.pending ==> AskedBefore(route, run.history, run.state.pending[id])
  }

  lemma AskedLater(route: Route, history: seq<HostRecord>, r: HostRecord, p: Pending)
    requires AskedBefore(route, history, p)
    ensures AskedBefore(route, history + [r], p)
  {
    hide AskedIn;
    var k :| 0 <= k < |history| && AskedIn(route, history[k], p);
    assert (history + [r])[k] == history[k];
  }

  lemma CallAsked(route: Route, w: Clearance.World, run: HostRun, request: Request, env: Env, stop: nat)
    requires HostWorlds(route, w) && AllAsked(route, run)
    ensures AllAsked(route, CallNext(route, run, request, env, stop))
  {
    hide HandlePlan, KeptApproval, AskedIn, AskedBefore, After, HostWorld;
    var next := CallNext(route, run, request, env, stop);
    var last := next.history[|run.history|];
    forall id | id in run.state.pending ensures AskedBefore(route, next.history, run.state.pending[id]) {
      AskedLater(route, run.history, last, run.state.pending[id]);
    }
    var plan := WholeCall(route, run.state, request, env);
    var kept := KeptApproval(route(request), request, env);
    if last.done == plan.actions && plan.outcome == Some(ApprovalRequired) && kept.Ok? {
      AskedNow(route, w, run.state.book, last, env);
      AskedLast(route, run.history, last, Pending(request, kept.value));
    }
  }

  lemma AskedLast(route: Route, history: seq<HostRecord>, r: HostRecord, p: Pending)
    requires AskedIn(route, r, p)
    ensures AskedBefore(route, history + [r], p)
  {
    hide AskedIn;
    assert (history + [r])[|history|] == r;
  }

  lemma AskedNow(route: Route, w: Clearance.World, book: Book, r: HostRecord, env: Env)
    requires HostWorlds(route, w) && KeptApproval(route(r.request), r.request, env).Ok?
    requires HandlePlan(route(r.request), book, {}, r.request, env).outcome == Some(ApprovalRequired)
    requires r.done == HandlePlan(route(r.request), book, {}, r.request, env).actions
    ensures AskedIn(route, r, Pending(r.request, KeptApproval(route(r.request), r.request, env).value))
  {
    hide HandlePlan, KeptApproval, HostWorld, AskedOf, Decide, BindingOf, Presentable;
    var plane := route(r.request);
    CallAsks(plane, book, r.request, env);
    AskedFields(plane, r.request, env);
    KeptExactly(plane, r.request, env);
    BindingParts(plane, r.request);
  }

  /**
   In every host run, each pending approval is about a call of the run that had to ask; it repeats the approval
   request which that call recorded, except that a target that looks like a secret is masked.
   */
  lemma {:induction false} PendingWasAsked(route: Route, w: Clearance.World, steps: seq<HostStep>)
    requires HostWorlds(route, w)
    ensures AllAsked(route, HostRunOf(route, steps))
  {
    hide CallNext, AskedBefore, Mismatch, GrantOf, HostWorlds;
    if steps != [] {
      PendingWasAsked(route, w, steps[..|steps| - 1]);
      var run := HostRunOf(route, steps[..|steps| - 1]);
      match steps[|steps| - 1]
      case CallStep(request, env, stop) => CallAsked(route, w, run, request, env, stop);
      case SubmitStep(response, recorded) =>
      case ResumeStep(id, env, stop) =>
        if MayResume(run.state, id) { CallAsked(route, w, run, run.state.pending[id].call, env, stop); }
    }
  }
}
