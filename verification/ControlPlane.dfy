/**
 `ControlPlane` as the source writes it: methods that emit, spend and call step by
 step over mutable fields. Each is proved to perform a prefix of its plan, all of
 it when it returns. The audit sink and the provider may raise at any point,
 before or after their own effect.
 */
module ControlPlane {
  import opened Wrappers
  import opened Fingerprints
  import opened Policy
  import opened Approvals
  import opened Engine
  import ActClient
  import Broker
  import Clearance

  /** A prefix of the plan was done; all of it, with its outcome, when a status is returned. */
  ghost predicate Followed(p: Plan, done: seq<Action>, r: Option<Status>)
  {
    done <= p.actions && (r.Some? ==> done == p.actions && p.outcome == r)
  }

  lemma FollowedThen(s: State, first: seq<Action>, p: Plan, done: seq<Action>, r: Option<Status>)
    requires Followed(p, done, r)
    ensures Followed(Then(first, p), first + done, r)
    ensures After(After(s, first), done) == After(s, first + done)
  {
    AfterBoth(s, first, done);
    assert p.actions[..|done|] == done;
    assert (first + p.actions)[..|first + done|] == first + done;
  }

  lemma StoppedThen(first: seq<Action>, p: Plan, done: seq<Action>)
    requires done <= first
    ensures Followed(Then(first, p), done, None)
  {
    assert (first + p.actions)[..|done|] == done;
  }

  lemma AfterNote(s: State, kind: EventKind, request: Request, d: Decision, note: Note)
    ensures After(s, Note1(kind, request, d, note)) == s.(log := s.log + [Event(kind, request, d, note)])
    ensures After(s, []) == s
  {
    AfterOne(s, Emit(Event(kind, request, d, note)));
  }

  lemma AfterOne(s: State, a: Action)
    ensures After(s, [a]) == Apply(s, a)
  {
    assert After(Apply(s, a), []) == Apply(s, a);
  }

  class ControlPlane {
    const plane: Plane
    const approvalStore: ApprovalStore
    var auditLog: seq<Event>
    var providerCalls: seq<ProviderCall>
    var consumedSignedGrantIds: set<string>

    constructor (plane: Plane, store: ApprovalStore)
      ensures this.plane == plane && approvalStore == store
      ensures auditLog == [] && providerCalls == [] && consumedSignedGrantIds == {}
    {
      this.plane, approvalStore := plane, store;
      auditLog, providerCalls, consumedSignedGrantIds := [], [], {};
    }

    ghost function Now(): State
      reads this, approvalStore
    {
      State(auditLog, providerCalls, approvalStore.Contents(), consumedSignedGrantIds)
    }

    /** `_emit`: false when the sink raises, before or after it recorded the event. */
    method EmitEvent(kind: EventKind, request: Request, d: Decision, note: Note)
      returns (ok: bool, ghost done: seq<Action>)
      modifies this`auditLog
      ensures Now() == After(old(Now()), done)
      ensures done <= Note1(kind, request, d, note) && (ok ==> done == Note1(kind, request, d, note))
    {
      AfterNote(Now(), kind, request, d, note);
      if * {
        return false, [];
      }
      auditLog := auditLog + [Event(kind, request, d, note)];
      done := Note1(kind, request, d, note);
      if * {
        return false, done;
      }
      return true, done;
    }

    /** `_emit_result_returned` and the return */
    method ReturnResult(request: Request, d: Decision, status: Status)
      returns (r: Option<Status>, ghost done: seq<Action>)
      modifies this`auditLog
      ensures Now() == After(old(Now()), done) && Followed(ReturnPlan(request, d, status), done, r)
    {
      var ok;
      ok, done := EmitEvent(ResultReturned, request, d, Outcome(status));
      r := if ok then Some(status) else None;
    }

    /** `execute_authorized`: the call reaches the provider, which may then raise. */
    method CallProvider(request: Request) returns (ok: bool, ghost done: seq<Action>)
      modifies this`providerCalls
      ensures Now() == After(old(Now()), done)
      ensures done <= [Execute(CallOf(request))] && (ok ==> done == [Execute(CallOf(request))])
    {
      AfterOne(Now(), Execute(CallOf(request)));
      providerCalls := providerCalls + [CallOf(request)];
      done := [Execute(CallOf(request))];
      if * {
        return false, done;
      }
      return true, done;
    }

    /** `_execute_provider` */
    method ExecuteProvider(request: Request, d: Decision, env: Env) returns (r: Option<Status>, ghost done: seq<Action>)
      modifies this`auditLog, this`providerCalls
      ensures Now() == After(old(Now()), done) && Followed(ExecutePlan(request, d, env), done, r)
    {
      ghost var start := Now();
      var kind := if env.providerOk then ExecutionCompleted else ExecutionFailed;
      var status := if env.providerOk then Completed else Failed;
      ghost var a1 := Note1(ExecutionStarted, request, d, NoNote);
      ghost var a2 := [Execute(CallOf(request))];
      ghost var a3 := Note1(kind, request, d, NoNote);
      ghost var rest := ReturnPlan(request, d, status);
      assert ExecutePlan(request, d, env) == Then(a1, Then(a2, Then(a3, rest))) by {
        assert a1 + a2 + a3 + rest.actions == a1 + (a2 + (a3 + rest.actions));
      }
      var ok;
      ok, done := EmitEvent(ExecutionStarted, request, d, NoNote);
      if !ok {
        StoppedThen(a1, Then(a2, Then(a3, rest)), done);
        return None, done;
      }
      ghost var next;
      ok, next := CallProvider(request);
      if !ok {
        StoppedThen(a2, Then(a3, rest), next);
        FollowedThen(start, a1, Then(a2, Then(a3, rest)), next, None);
        return None, a1 + next;
      }
      ok, next := EmitEvent(kind, request, d, NoNote);
      if !ok {
        StoppedThen(a3, rest, next);
        FollowedThen(After(start, a1), a2, Then(a3, rest), next, None);
        FollowedThen(start, a1, Then(a2, Then(a3, rest)), a2 + next, None);
        return None, a1 + (a2 + next);
      }
      r, next := ReturnResult(request, d, status);
      FollowedThen(After(After(start, a1), a2), a3, rest, next, r);
      FollowedThen(After(start, a1), a2, Then(a3, rest), a3 + next, r);
      FollowedThen(start, a1, Then(a2, Then(a3, rest)), a2 + (a3 + next), r);
      done := a1 + (a2 + (a3 + next));
    }

    /** An event followed by a return. */
    method NoteAndReturn(kind: EventKind, request: Request, d: Decision, note: Note, status: Status)
      returns (r: Option<Status>, ghost done: seq<Action>)
      modifies this`auditLog
      ensures Now() == After(old(Now()), done)
      ensures Followed(Then(Note1(kind, request, d, note), ReturnPlan(request, d, status)), done, r)
    {
      ghost var start := Now();
      ghost var first := Note1(kind, request, d, note);
      var ok;
      ok, done := EmitEvent(kind, request, d, note);
      if !ok {
        StoppedThen(first, ReturnPlan(request, d, status), done);
        return None, done;
      }
      ghost var next;
      r, next := ReturnResult(request, d, status);
      FollowedThen(start, first, ReturnPlan(request, d, status), next, r);
      done := first + next;
    }

    /** An event followed by the provider call. */
    method NoteAndExecute(kind: EventKind, request: Request, d: Decision, note: Note, env: Env)
      returns (r: Option<Status>, ghost done: seq<Action>)
      modifies this`auditLog, this`providerCalls
      ensures Now() == After(old(Now()), done)
      ensures Followed(Then(Note1(kind, request, d, note), ExecutePlan(request, d, env)), done, r)
    {
      ghost var start := Now();
      ghost var first := Note1(kind, request, d, note);
      var ok;
      ok, done := EmitEvent(kind, request, d, note);
      if !ok {
        StoppedThen(first, ExecutePlan(request, d, env), done);
        return None, done;
      }
      ghost var next;
      r, next := ExecuteProvider(request, d, env);
      FollowedThen(start, first, ExecutePlan(request, d, env), next, r);
      done := first + next;
    }

    /** `_handle_act_clearance`, from the tower's answer on. */
    method HandleAnswer(request: Request, d: Decision, clearance: Clearance.ClearanceRequest, env: Env)
      returns (r: Option<Status>, ghost done: seq<Action>)
      modifies this`auditLog, this`providerCalls
      ensures Now() == After(old(Now()), done) && Followed(AnswerPlan(plane, request, d, clearance, env), done, r)
    {
      if env.answer.status == ActClient.Cleared {
        if plane.clearanceVerifier.None? {
          r, done := NoteAndReturn(ApprovalRejected, request, d, TowerAnswer(env.answer, None), Denied);
          return;
        }
        var verification := ActClient.VerifyClearance(plane.clearanceVerifier.value, clearance, env.answer,
                                                      env.clearanceNow);
        if verification.valid {
          r, done := NoteAndExecute(ApprovalVerified, request, d, TowerAnswer(env.answer, Some(verification)), env);
        } else {
          r, done := NoteAndReturn(ApprovalRejected, request, d, TowerAnswer(env.answer, Some(verification)), Denied);
        }
      } else if env.answer.status == ActClient.Denied {
        r, done := NoteAndReturn(ApprovalRejected, request, d, TowerAnswer(env.answer, None), Denied);
      } else {
        r, done := ReturnResult(request, d, ClearanceRequired);
      }
    }

    /** `_handle_act_clearance`; the client may raise after the request was recorded. */
    method HandleActClearance(request: Request, result: PolicyResult, env: Env)
      returns (r: Option<Status>, ghost done: seq<Action>)
      modifies this`auditLog, this`providerCalls
      ensures Now() == After(old(Now()), done) && Followed(ClearancePlan(plane, request, result, env), done, r)
    {
      ghost var start := Now();
      var built := Clearance.BuildRequest(plane.world, ClearanceArguments(plane, request, result, env));
      if built.Err? {
        return None, [];
      }
      var d := result.decision;
      ghost var first := Note1(ApprovalRequested, request, d, TowerRequest(built.value));
      ghost var rest := AnswerPlan(plane, request, d, built.value, env);
      var ok;
      ok, done := EmitEvent(ApprovalRequested, request, d, TowerRequest(built.value));
      var clientRaises: bool := *;
      if !ok || clientRaises {
        StoppedThen(first, rest, done);
        return None, done;
      }
      ghost var next;
      r, next := HandleAnswer(request, d, built.value, env);
      FollowedThen(start, first, rest, next, r);
      done := first + next;
    }

    /**
     `_verify_signed_approval_grant`: `finished` is false when something raises; the id
     is remembered between the verified and the consumed event.
     */
    method VerifySignedGrant(request: Request, d: Decision, env: Env)
      returns (signed: SignedResult, finished: bool, ghost done: seq<Action>)
      requires request.capability in plane.registry
      modifies this`auditLog, this`consumedSignedGrantIds
      ensures Now() == After(old(Now()), done)
      ensures var p := SignedPlan(plane, old(consumedSignedGrantIds), request, d, env);
        done <= p.0 && (finished ==> done == p.0 && signed == p.1)
    {
      if request.signedGrant.None? {
        return NotAccepted, true, [];
      }
      if plane.verifier.None? {
        finished, done := EmitEvent(ApprovalRejected, request, d, Reason("signed approval verifier is not configured"));
        signed := NotAccepted;
        return;
      }
      if request.approvalRequestId.None? {
        finished, done := EmitEvent(ApprovalRejected, request, d, Reason("approval request id is required"));
        signed := NotAccepted;
        return;
      }
      var grant := request.signedGrant.value;
      if grant.payload.grantId in consumedSignedGrantIds {
        finished, done := EmitEvent(ApprovalRejected, request, d, Reason("signed grant already consumed"));
        signed := NotAccepted;
        return;
      }
      var fingerprint := FingerprintParameters(plane.world.sha, request.parameters);
      if fingerprint.Err? {
        return Raised, true, [];
      }
      var check := Broker.Verify(plane.verifier.value, grant, SignedContext(plane, request, fingerprint.value, env));
      if check.status != Broker.Valid {
        finished, done := EmitEvent(ApprovalRejected, request, d, SignedCheck(check));
        signed := NotAccepted;
        return;
      }
      signed := Accepted;
      if grant.payload.oneTime {
        finished, done := RecordAndConsume(request, d, check, grant.payload.grantId);
      } else {
        finished, done := EmitEvent(ApprovalVerified, request, d, SignedCheck(check));
      }
    }

    /** The verified event, the remembered id, and the consumed event. */
    method RecordAndConsume(request: Request, d: Decision, check: Broker.Verification, id: string)
      returns (ok: bool, ghost done: seq<Action>)
      modifies this`auditLog, this`consumedSignedGrantIds
      ensures Now() == After(old(Now()), done)
      ensures var all := Note1(ApprovalVerified, request, d, SignedCheck(check)) + [SpendSigned(id)]
                         + Note1(ApprovalConsumed, request, d, SignedCheck(check));
        done <= all && (ok ==> done == all)
    {
      ghost var start := Now();
      ghost var a1 := Note1(ApprovalVerified, request, d, SignedCheck(check));
      ghost var a2 := [SpendSigned(id)];
      ghost var a3 := Note1(ApprovalConsumed, request, d, SignedCheck(check));
      ok, done := EmitEvent(ApprovalVerified, request, d, SignedCheck(check));
      if !ok {
        assert (a1 + a2 + a3)[..|done|] == done;
        return;
      }
      AfterOne(Now(), SpendSigned(id));
      consumedSignedGrantIds := consumedSignedGrantIds + {id};
      AfterBoth(start, a1, a2);
      ghost var next;
      ok, next := EmitEvent(ApprovalConsumed, request, d, SignedCheck(check));
      AfterBoth(start, a1 + a2, next);
      done := a1 + a2 + next;
      assert (a1 + a2 + a3)[..|done|] == done;
    }

    /** `approval_store.consume` */
    method ConsumeGrant(grant: Grant)
      modifies approvalStore
      ensures Now() == After(old(Now()), [SpendGrant(grant)])
    {
      AfterOne(Now(), SpendGrant(grant));
      approvalStore.Consume(grant);
    }

    /** The approval store path of `handle`. */
    method HandleStore(request: Request, result: PolicyResult, env: Env)
      returns (r: Option<Status>, ghost done: seq<Action>)
      modifies this`auditLog, this`providerCalls, approvalStore
      ensures Now() == After(old(Now()), done)
      ensures Followed(StorePlan(plane, old(approvalStore.Contents()), request, result, env), done, r)
    {
      ghost var start := Now();
      ghost var plan := StorePlan(plane, approvalStore.Contents(), request, result, env);
      var d := result.decision;
      var found: Option<Grant> := None;
      if plane.hasStore {
        found := approvalStore.FindActionGrant(BindingOf(plane, request), env.storeNow);
      }
      if found.Some? {
        var grant := found.value;
        ghost var a1 := [SpendGrant(grant)];
        ghost var a2 := Note1(ApprovalConsumed, request, d, StoreGrant(grant));
        ghost var rest := ExecutePlan(request, d, env);
        assert plan == Then(a1, Then(a2, rest)) by {
          assert a1 + a2 + rest.actions == a1 + (a2 + rest.actions);
        }
        ConsumeGrant(grant);
        ghost var next;
        r, next := NoteAndExecute(ApprovalConsumed, request, d, StoreGrant(grant), env);
        FollowedThen(start, a1, Then(a2, rest), next, r);
        done := a1 + next;
        return;
      }
      var approval := BuildApprovalRequest(result, request.capability, request.session, request.requester,
                                           [request.target],
                                           request.effect, env.requestNow, env.freshId, Some(plane.provider));
      if approval.Err? {
        return None, [];
      }
      r, done := NoteAndReturn(ApprovalRequested, request, d, LocalRequest(approval.value), ApprovalRequired);
    }

    /** The local approval path: the signed grant first, then the store. */
    method HandleLocal(request: Request, result: PolicyResult, env: Env)
      returns (r: Option<Status>, ghost done: seq<Action>)
      requires request.capability in plane.registry
      modifies this`auditLog, this`providerCalls, this`consumedSignedGrantIds, approvalStore
      ensures Now() == After(old(Now()), done)
      ensures Followed(LocalPlan(plane, old(approvalStore.Contents()), old(consumedSignedGrantIds), request, result,
                                 env), done, r)
    {
      ghost var start := Now();
      ghost var (first, expected) := SignedPlan(plane, consumedSignedGrantIds, request, result.decision, env);
      var signed, finished;
      signed, finished, done := VerifySignedGrant(request, result.decision, env);
      assert approvalStore.Contents() == start.book;
      if !finished {
        StoppedThen(first, ExecutePlan(request, result.decision, env), done);
        StoppedThen(first, StorePlan(plane, start.book, request, result, env), done);
        return None, done;
      }
      ghost var next;
      match signed
      case Raised =>
        return None, done;
      case Accepted =>
        r, next := ExecuteProvider(request, result.decision, env);
        FollowedThen(start, first, ExecutePlan(request, result.decision, env), next, r);
        done := first + next;
      case NotAccepted =>
        r, next := HandleStore(request, result, env);
        FollowedThen(start, first, StorePlan(plane, start.book, request, result, env), next, r);
        done := first + next;
    }

    /** Everything after the policy decision was recorded. */
    method Authorize(request: Request, env: Env) returns (r: Option<Status>, ghost done: seq<Action>)
      modifies this, approvalStore
      ensures Now() == After(old(Now()), done)
      ensures Followed(AuthorizePlan(plane, old(approvalStore.Contents()), old(consumedSignedGrantIds), request, env),
                       done, r)
    {
      var result := Decide(plane, request);
      if result.decision == Deny {
        r, done := ReturnResult(request, Deny, Denied);
      } else if plane.realHardware && !plane.policy.allowRealHardware {
        r, done := ReturnResult(request, Deny, Denied);
      } else if request.capability !in plane.registry {
        return None, [];
      } else if !result.RequiresApproval() {
        r, done := ExecuteProvider(request, result.decision, env);
      } else if plane.mobileSigned && plane.hasClient {
        r, done := HandleActClearance(request, result, env);
      } else {
        r, done := HandleLocal(request, result, env);
      }
    }

    /** The three events every call starts with. */
    method Open(request: Request) returns (ok: bool, ghost done: seq<Action>)
      modifies this`auditLog
      ensures Now() == After(old(Now()), done)
      ensures done <= Opening(plane, request) && (ok ==> done == Opening(plane, request))
    {
      ghost var start := Now();
      var d := Decide(plane, request).decision;
      var resolved := if request.capability in plane.registry then CapabilityResolved else CapabilityUnknownDenied;
      ghost var a1 := Note1(RequestReceived, request, d, NoNote);
      ghost var a2 := Note1(resolved, request, d, NoNote);
      ghost var a3 := Note1(PolicyDecided, request, d, NoNote);
      assert Opening(plane, request) == a1 + a2 + a3;
      ok, done := EmitEvent(RequestReceived, request, d, NoNote);
      if !ok {
        assert (a1 + a2 + a3)[..|done|] == done;
        return;
      }
      ghost var next;
      ok, next := EmitEvent(resolved, request, d, NoNote);
      AfterBoth(start, a1, next);
      if !ok {
        done := a1 + next;
        assert (a1 + a2 + a3)[..|done|] == done;
        return;
      }
      ok, next := EmitEvent(PolicyDecided, request, d, NoNote);
      AfterBoth(start, a1 + a2, next);
      done := a1 + a2 + next;
      assert (a1 + a2 + a3)[..|done|] == done;
    }

    /** `handle` */
    method Handle(request: Request, env: Env) returns (r: Option<Status>, ghost done: seq<Action>)
      modifies this, approvalStore
      ensures Now() == After(old(Now()), done)
      ensures Followed(HandlePlan(plane, old(approvalStore.Contents()), old(consumedSignedGrantIds), request, env),
                       done, r)
    {
      ghost var start := Now();
      ghost var first := Opening(plane, request);
      ghost var rest := AuthorizePlan(plane, start.book, start.spent, request, env);
      var ok;
      ok, done := Open(request);
      if !ok {
        StoppedThen(first, rest, done);
        return None, done;
      }
      assert Now().book == start.book && Now().spent == start.spent;
      ghost var next;
      r, next := Authorize(request, env);
      FollowedThen(start, first, rest, next, r);
      done := first + next;
    }
  }
}
