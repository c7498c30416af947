/**
 What the policy and a signature decide, over whole runs: a refused request never reaches
 the provider, a dangerous one only on an approval, and an operator's signature is enough.
 */
module EngineOutcomes {
  import opened Wrappers
  import opened Fingerprints
  import opened Policy
  import opened Approvals
  import opened Clock
  import opened Engine
  import opened EngineGrammar
  import opened EngineLaws
  import opened EngineRuns
  import Broker

  // ------------------------------------------------------------ refusals

  /** The policy, or the lock on real hardware, lets the request go on. */
  predicate Admitted(plane: Plane, request: Request)
  {
    !Decide(plane, request).decision.Deny? && (plane.realHardware ==> plane.policy.allowRealHardware)
  }

  lemma RefusedQuiet(plane: Plane, book: Book, spent: set<string>, request: Request, env: Env)
    requires !Admitted(plane, request)
    ensures NoExecute(HandlePlan(plane, book, spent, request, env).actions)
  {
    hide Decide, Opening;
    QuietOpening(plane, request);
    QuietReturn(request, Deny, Denied);
  }

  lemma ReachedAdmitted(planes: Planes, r: Record)
    requires Genuine(planes, r) && Reached(r.done)
    ensures Admitted(planes(r.plane), r.request)
  {
    hide HandlePlan, Decide;
    var actions := HandlePlan(planes(r.plane), r.book, r.spent, r.request, r.env).actions;
    var a :| a in r.done && a.Execute?;
    assert a in actions;
    if !Admitted(planes(r.plane), r.request) {
      RefusedQuiet(planes(r.plane), r.book, r.spent, r.request, r.env);
    }
  }

  /**
   In no run does the provider see an unknown or untouchable capability, a target or session on a deny list or missing
   from an allow list, a capability without the credential it asks for, or, where real hardware is not allowed, any
   request for it.
   */
  lemma DeniedNeverCalled(planes: Planes, steps: seq<RunStep>, i: nat)
    requires i < |RunOf(planes, steps).history| && Reached(RunOf(planes, steps).history[i].done)
    ensures var r := RunOf(planes, steps).history[i];
      var plane := planes(r.plane);
      && r.request.capability in plane.registry && !Untouchable(r.request.capability)
      && r.request.target !in plane.policy.targets.deny && r.request.session !in plane.policy.sessions.deny
      && (plane.policy.targets.allow != {} ==> r.request.target in plane.policy.targets.allow)
      && (plane.policy.sessions.allow != {} ==> r.request.session in plane.policy.sessions.allow)
      && ("credential" in plane.registry[r.request.capability].requiredScope ==> r.request.credential.Some?)
      && (plane.realHardware ==> plane.policy.allowRealHardware)
  {
    hide RunOf, Genuine, Reached, DecisionFor, DefaultDecision, Untouchable;
    RunConsistent(planes, steps);
    var r := RunOf(planes, steps).history[i];
    var plane := planes(r.plane);
    assert Genuine(planes, r);
    ReachedAdmitted(planes, r);
    NotDeniedExactly(plane.policy, plane.registry, r.request.capability, Some(r.request.target),
                     Some(r.request.session), r.request.credential);
  }

  // ------------------------------------------------------------ dangerous capabilities

  /**
   Without an explicit rule and short of full control, a dangerous capability reaches the provider only on a
   signed grant, a clearance or a stored grant, in every run.
   */
  lemma DangerousCallsApproved(planes: Planes, steps: seq<RunStep>, i: nat) returns (first: seq<Action>, a: Authority)
    requires i < |RunOf(planes, steps).history| && Reached(RunOf(planes, steps).history[i].done)
    requires var r := RunOf(planes, steps).history[i];
      var plane := planes(r.plane);
      && r.request.capability in plane.registry && plane.registry[r.request.capability].dangerous
      && r.request.capability !in plane.policy.rules && !plane.policy.mode.FullControl?
    ensures var r := RunOf(planes, steps).history[i];
      && ReachedBy(r.done, planes(r.plane), r.book, r.spent, r.request, r.env, first, a)
      && !a.PolicyAllows?
  {
    hide RunOf, DecisionFor, BySignature, ByTower, ByGrant, Reached;
    var r := RunOf(planes, steps).history[i];
    var plane := planes(r.plane);
    first, a := EveryCallJustified(planes, steps, i);
    DangerousNeedsAsking(plane.policy, plane.registry, r.request.capability, Some(r.request.target),
                         Some(r.request.session), r.request.credential);
  }

  // ------------------------------------------------------------ signed grants

  /** A control plane that takes signed grants for this request, which must ask. */
  predicate TakesSigned(plane: Plane, request: Request)
  {
    && Admitted(plane, request) && request.capability in plane.registry && Decide(plane, request).RequiresApproval()
    && !(plane.mobileSigned && plane.hasClient)
    && plane.verifier.Some? && request.signedGrant.Some? && request.approvalRequestId.Some?
    && FingerprintParameters(plane.world.sha, request.parameters).Ok?
  }

  /** What the operator signed is about exactly this request, in time and within the channel's limits. */
  predicate SignedFor(plane: Plane, request: Request, p: Broker.GrantPayload, env: Env)
    requires TakesSigned(plane, request)
  {
    var fingerprint := FingerprintParameters(plane.world.sha, request.parameters).value;
    && p.requestId == request.approvalRequestId.value && p.session == request.session && p.target == request.target
    && p.provider == plane.provider && p.capability == request.capability && p.fingerprint == fingerprint
    && p.riskFamily == plane.registry[request.capability].family
    && !Unapprovable(p.capability) && env.signedNow < p.expiresAt && (p.oneTime ==> p.consumedAt.None?)
    && (p.channel.Conversational? ==> p.riskFamily == "observe" || p.riskFamily == "runtime")
  }

  /** The grant was signed by a signer the plane trusts and checks with the signer's own key. */
  ghost predicate SignedBySigner(plane: Plane, hmac: Broker.Hmac, time: TimeText, signer: Broker.Signer,
                                 p: Broker.GrantPayload, g: Broker.SignedGrant)
  {
    && Broker.Sign(hmac, time, signer, p) == Ok(g)
    && plane.verifier.Some? && signer.keyId in plane.verifier.value.trusted
    && (plane.verifier.value.checks(g) <==> Broker.Check(hmac, time, signer, g))
  }

  lemma SignedGrantAccepted(plane: Plane, spent: set<string>, request: Request, env: Env, hmac: Broker.Hmac,
                            time: TimeText, signer: Broker.Signer, p: Broker.GrantPayload)
    requires TakesSigned(plane, request) && SignedBySigner(plane, hmac, time, signer, p, request.signedGrant.value)
    ensures SignedPlan(plane, spent, request, Decide(plane, request).decision, env).1.Accepted?
       <==> p.grantId !in spent && SignedFor(plane, request, p, env)
  {
    hide Decide, Broker.Verify, Broker.PayloadDict, Unapprovable, Broker.Check;
    Broker.SignedChecks(hmac, time, signer, p);
    var fingerprint := FingerprintParameters(plane.world.sha, request.parameters).value;
    Broker.ValidExactly(plane.verifier.value, request.signedGrant.value,
                        SignedContext(plane, request, fingerprint, env));
  }

  lemma AcceptedExecutes(plane: Plane, book: Book, spent: set<string>, request: Request, env: Env)
    requires TakesSigned(plane, request)
    requires SignedPlan(plane, spent, request, Decide(plane, request).decision, env).1.Accepted?
    ensures var plan := HandlePlan(plane, book, spent, request, env);
      && plan.outcome == Some(if env.providerOk then Completed else Failed) && Execute(CallOf(request)) in plan.actions
  {
    hide Decide, SignedPlan, StorePlan, Opening;
    var result := Decide(plane, request);
    var execute := ExecutePlan(request, result.decision, env);
    ExecuteHead(request, result.decision, env);
    assert execute.actions[1] in execute.actions;
    assert LocalPlan(plane, book, spent, request, result, env)
        == Then(SignedPlan(plane, spent, request, result.decision, env).0, execute);
  }

  /** An earlier call of the run on this plane spent the signed grant. */
  ghost predicate UsedBefore(run: Run, plane: nat, id: string)
  {
    exists i :: 0 <= i < |run.history| && run.history[i].plane == plane && SignedIn(run.history[i], id)
  }

  lemma {:induction false} SpentFrom(s: State, done: seq<Action>, id: string)
    requires id in After(s, done).spent
    ensures id in s.spent || SpendSigned(id) in done
    decreases done
  {
    if done != [] {
      SpentFrom(Apply(s, done[0]), done[1..], id);
    }
  }

  lemma UsedLater(run: Run, r: Record, plane: nat, id: string)
    requires UsedBefore(run, plane, id) || (r.plane == plane && SignedIn(r, id))
    ensures forall next: Run :: next.history == run.history + [r] ==> UsedBefore(next, plane, id)
  {
    forall next: Run | next.history == run.history + [r] ensures UsedBefore(next, plane, id) {
      var i := |run.history|;
      if UsedBefore(run, plane, id) {
        i :| 0 <= i < |run.history| && run.history[i].plane == plane && SignedIn(run.history[i], id);
      }
      assert next.history[i].plane == plane && SignedIn(next.history[i], id);
    }
  }

  /** What a plane remembers as spent was spent by a call of the run on that plane. */
  lemma {:induction false} SpentMeansUsed(planes: Planes, steps: seq<RunStep>, plane: nat, id: string)
    ensures id in SpentBy(RunOf(planes, steps), plane) <==> UsedBefore(RunOf(planes, steps), plane, id)
  {
    hide HandlePlan, After, Consistent;
    UsedIsSpent(planes, steps, plane, id);
    if steps != [] {
      var run := RunOf(planes, steps[..|steps| - 1]);
      var next := RunOf(planes, steps);
      SpentMeansUsed(planes, steps[..|steps| - 1], plane, id);
      var step := steps[|steps| - 1];
      if step.HandleStep? && id in SpentBy(next, plane) {
        var last := next.history[|run.history|];
        if step.plane == plane && id !in SpentBy(run, plane) {
          SpentFrom(View(run, plane), last.done, id);
        }
        UsedLater(run, last, plane, id);
      }
    }
  }

  lemma UsedIsSpent(planes: Planes, steps: seq<RunStep>, plane: nat, id: string)
    ensures UsedBefore(RunOf(planes, steps), plane, id) ==> id in SpentBy(RunOf(planes, steps), plane)
  {
    hide RunOf, Genuine;
    RunConsistent(planes, steps);
    var run := RunOf(planes, steps);
    if UsedBefore(run, plane, id) {
      var i :| 0 <= i < |run.history| && run.history[i].plane == plane && SignedIn(run.history[i], id);
      assert (plane, id) in run.spent;
    }
  }

  /**
   From signature to execution: after any run, a call that must ask and carries a grant signed by a trusted operator
   has that grant accepted exactly when it is about this request, in time, and no earlier call of the run on this
   plane spent it; then, undisturbed, the call reaches the provider.
   */
  lemma SignedGrantExecutes(planes: Planes, steps: seq<RunStep>, plane: nat, request: Request, env: Env,
                            hmac: Broker.Hmac, time: TimeText, signer: Broker.Signer, p: Broker.GrantPayload)
    requires TakesSigned(planes(plane), request)
    requires SignedBySigner(planes(plane), hmac, time, signer, p, request.signedGrant.value)
    ensures var run := RunOf(planes, steps);
      var spent := SpentBy(run, plane);
      var accepted :=
        SignedPlan(planes(plane), spent, request, Decide(planes(plane), request).decision, env).1.Accepted?;
      var plan := HandlePlan(planes(plane), run.book, spent, request, env);
      && (accepted <==> !UsedBefore(run, plane, p.grantId) && SignedFor(planes(plane), request, p, env))
      && (accepted ==> plan.outcome == Some(if env.providerOk then Completed else Failed)
                       && Execute(ProviderCall(request.capability, request.target, request.session,
                                               request.correlation, request.parameters)) in plan.actions)
  {
    hide Decide, SignedPlan, SignedFor, SignedBySigner, HandlePlan, RunOf, UsedBefore, SpentBy;
    var run := RunOf(planes, steps);
    var spent := SpentBy(run, plane);
    SpentMeansUsed(planes, steps, plane, p.grantId);
    SignedGrantAccepted(planes(plane), spent, request, env, hmac, time, signer, p);
    if SignedPlan(planes(plane), spent, request, Decide(planes(plane), request).decision, env).1.Accepted? {
      AcceptedExecutes(planes(plane), run.book, spent, request, env);
    }
  }
}
