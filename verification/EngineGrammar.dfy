/**
 The one language every call's effects belong to, given by an automaton that is
 independent of how `handle` is written, and what follows from membership.
 */
module EngineGrammar {
  import opened Wrappers
  import opened Policy
  import opened Approvals
  import opened Engine
  import opened Fingerprints
  import ActClient
  import Broker
  import Clearance

  /** Where a call stands after the effects so far. */
  datatype Phase =
    | Idle | Opened | Resolved(known: bool) | Decided(known: bool)
    | Tower | Refused | Cleared | Turned | Verified | SpendingSigned | Spending | Asked
    | Started | Running | Finished(ok: bool) | Stuck

  predicate Lets(d: Decision)
  {
    d.Allow? || d.AllowWithLimits?
  }

  function StepEvent(p: Phase, e: Event): Phase
  {
    match e.kind
    case RequestReceived => if p.Idle? then Opened else Stuck
    case CapabilityResolved => if p.Opened? then Resolved(true) else Stuck
    case CapabilityUnknownDenied => if p.Opened? then Resolved(false) else Stuck
    case PolicyDecided => if p.Resolved? then Decided(p.known) else Stuck
    case ApprovalRequested =>
      if p == Decided(true) && e.note.TowerRequest? then Tower
      else if (p == Decided(true) || p.Turned?) && e.note.LocalRequest? then Asked
      else Stuck
    case ApprovalVerified =>
      if p == Decided(true) && e.note.SignedCheck? then Verified
      else if p.Tower? && e.note.TowerAnswer? then Cleared
      else Stuck
    case ApprovalRejected =>
      if p == Decided(true) && !e.note.TowerAnswer? then Turned
      else if p.Tower? && e.note.TowerAnswer? then Refused
      else Stuck
    case ApprovalConsumed =>
      if (p.SpendingSigned? && e.note.SignedCheck?) || (p.Spending? && e.note.StoreGrant?) then Cleared else Stuck
    case ExecutionStarted => if p.Cleared? || p.Verified? || (p == Decided(true) && Lets(e.decision)) then Started
      else Stuck
    case ExecutionCompleted => if p.Running? then Finished(true) else Stuck
    case ExecutionFailed => if p.Running? then Finished(false) else Stuck
    case ResultReturned => if e.note.Outcome? && Reports(p, e.note.status) then Idle else Stuck
  }

  /** The status a call may return from a phase. */
  predicate Reports(p: Phase, status: Status)
  {
    match status
    case Denied => p.Decided? || p.Refused?
    case ApprovalRequired => p.Asked?
    case ClearanceRequired => p.Tower?
    case Completed => p == Finished(true)
    case Failed => p == Finished(false)
  }

  function Step(p: Phase, a: Action): Phase
  {
    match a
    case Emit(e) => StepEvent(p, e)
    case SpendGrant(_) => if p == Decided(true) || p.Turned? then Spending else Stuck
    case SpendSigned(_) => if p.Verified? then SpendingSigned else Stuck
    case Execute(_) => if p.Started? then Running else Stuck
  }

  function Walk(p: Phase, actions: seq<Action>): Phase
    decreases actions
  {
    if actions == [] then p else Walk(Step(p, actions[0]), actions[1..])
  }

  lemma {:induction false} WalkBoth(p: Phase, a: seq<Action>, b: seq<Action>)
    ensures Walk(p, a + b) == Walk(Walk(p, a), b)
    decreases a
  {
    if a == [] {
      assert a + b == b;
    } else {
      assert (a + b)[0] == a[0] && (a + b)[1..] == a[1..] + b;
      WalkBoth(Step(p, a[0]), a[1..], b);
    }
  }

  lemma {:induction false} StuckStays(actions: seq<Action>)
    ensures Walk(Stuck, actions) == Stuck
    decreases actions
  {
    if actions != [] { StuckStays(actions[1..]); }
  }

  /** A prefix of an accepted sequence is not stuck either. */
  lemma PrefixNotStuck(p: Phase, actions: seq<Action>, n: nat)
    requires n <= |actions| && Walk(p, actions) != Stuck
    ensures Walk(p, actions[..n]) != Stuck
  {
    assert actions == actions[..n] + actions[n..];
    WalkBoth(p, actions[..n], actions[n..]);
    if Walk(p, actions[..n]) == Stuck { StuckStays(actions[n..]); }
  }

  // ------------------------------------------------------------ conservation

  function Tally(actions: seq<Action>, counts: Action -> bool): nat
  {
    if actions == [] then 0 else (if counts(actions[0]) then 1 else 0) + Tally(actions[1..], counts)
  }

  predicate IsEvent(a: Action, kind: EventKind)
  {
    a.Emit? && a.event.kind == kind
  }

  function StartCount(actions: seq<Action>): nat { Tally(actions, a => IsEvent(a, ExecutionStarted)) }

  function CallCount(actions: seq<Action>): nat { Tally(actions, (a: Action) => a.Execute?) }

  function FinishCount(actions: seq<Action>): nat
  {
    Tally(actions, a => IsEvent(a, ExecutionCompleted) || IsEvent(a, ExecutionFailed))
  }

  /** What has been started but not called, or called but not finished, in a phase. */
  function Pending(p: Phase): nat { if p.Started? then 1 else 0 }

  function Open(p: Phase): nat { if p.Running? then 1 else 0 }

  lemma StepBalance(p: Phase, a: Action)
    requires Step(p, a) != Stuck
    ensures (if IsEvent(a, ExecutionStarted) then 1 else 0) + Pending(p)
        == (if a.Execute? then 1 else 0) + Pending(Step(p, a))
    ensures (if a.Execute? then 1 else 0) + Open(p)
         == (if IsEvent(a, ExecutionCompleted) || IsEvent(a, ExecutionFailed) then 1 else 0) + Open(Step(p, a))
  {
  }

  lemma {:induction false} Balance(p: Phase, actions: seq<Action>)
    requires Walk(p, actions) != Stuck
    ensures StartCount(actions) + Pending(p) == CallCount(actions) + Pending(Walk(p, actions))
    ensures CallCount(actions) + Open(p) == FinishCount(actions) + Open(Walk(p, actions))
    decreases actions
  {
    if actions != [] {
      if Step(p, actions[0]) == Stuck { StuckStays(actions[1..]); }
      hide Step, IsEvent, Pending, Open;
      StepBalance(p, actions[0]);
      Balance(Step(p, actions[0]), actions[1..]);
    }
  }

  /**
   Conservation: over whole calls, provider calls, started events and finished events
   are equally many; cut off anywhere, no call lacks its started event and none finishes twice.
   */
  lemma Conserved(actions: seq<Action>)
    requires Walk(Idle, actions) != Stuck
    ensures FinishCount(actions) <= CallCount(actions) <= StartCount(actions) <= FinishCount(actions) + 1
    ensures Walk(Idle, actions) == Idle ==> StartCount(actions) == CallCount(actions) == FinishCount(actions)
  {
    Balance(Idle, actions);
  }

  /** Every provider call directly follows its own started event. */
  lemma CallFollowsStart(p: Phase, actions: seq<Action>, i: nat)
    requires i < |actions| && Walk(p, actions) != Stuck && actions[i].Execute? && !p.Started?
    ensures i > 0 && IsEvent(actions[i - 1], ExecutionStarted)
    decreases actions
  {
    if Step(p, actions[0]) == Stuck { StuckStays(actions[1..]); }
    if i > 0 {
      if i == 1 {
        assert Step(p, actions[0]) == Started by {
          if Step(Step(p, actions[0]), actions[1]) == Stuck {
            assert actions[1..][0] == actions[1];
            StuckStays(actions[1..][1..]);
          }
        }
      } else {
        if Step(p, actions[0]).Started? {
          assert actions[1..][0] == actions[1];
        }
        CallDeeper(Step(p, actions[0]), actions[1..], i - 1);
      }
    }
  }

  lemma CallDeeper(p: Phase, actions: seq<Action>, i: nat)
    requires 0 < i < |actions| && Walk(p, actions) != Stuck && actions[i].Execute?
    ensures IsEvent(actions[i - 1], ExecutionStarted)
    decreases actions
  {
    WalkBoth(p, actions[..i - 1], actions[i - 1..]);
    assert actions == actions[..i - 1] + actions[i - 1..];
    var q := Walk(p, actions[..i - 1]);
    var rest := actions[i - 1..];
    assert rest[0] == actions[i - 1] && rest[1..][0] == actions[i];
    if !IsEvent(actions[i - 1], ExecutionStarted) {
      assert !Step(q, rest[0]).Started?;
      StuckStays(rest[1..][1..]);
    }
  }

  // ----------------------------------------------------- every call is accepted

  lemma WalkOne(p: Phase, a: Action)
    ensures Walk(p, [a]) == Step(p, a)
  {
    assert Walk(Step(p, a), []) == Step(p, a);
  }

  lemma WalkFirst(p: Phase, a: Action, rest: seq<Action>)
    ensures Walk(p, [a] + rest) == Walk(Step(p, a), rest)
  {
    assert ([a] + rest)[1..] == rest;
  }

  lemma ReturnWalks(p: Phase, request: Request, d: Decision, status: Status)
    requires Reports(p, status)
    ensures Walk(p, ReturnPlan(request, d, status).actions) == Idle
  {
    WalkOne(p, Emit(Event(ResultReturned, request, d, Outcome(status))));
  }

  lemma ExecuteWalks(p: Phase, request: Request, d: Decision, env: Env)
    requires p.Cleared? || p.Verified? || (p == Decided(true) && Lets(d))
    ensures Walk(p, ExecutePlan(request, d, env).actions) == Idle
  {
    var (kind, status) := if env.providerOk then (ExecutionCompleted, Completed) else (ExecutionFailed, Failed);
    var start := Emit(Event(ExecutionStarted, request, d, NoNote));
    var call := Execute(CallOf(request));
    var finish := Emit(Event(kind, request, d, NoNote));
    var rest := ReturnPlan(request, d, status).actions;
    assert ExecutePlan(request, d, env).actions == [start] + ([call] + ([finish] + rest));
    WalkFirst(p, start, [call] + ([finish] + rest));
    WalkFirst(Started, call, [finish] + rest);
    WalkFirst(Running, finish, rest);
    ReturnWalks(Finished(env.providerOk), request, d, status);
  }

  /** The tower's answer moves the call on from Tower. */
  lemma AnswerSteps(request: Request, d: Decision, answer: ActClient.Response,
                    verification: Option<ActClient.Verification>)
    ensures Step(Tower, Emit(Event(ApprovalRejected, request, d, TowerAnswer(answer, verification)))) == Refused
    ensures Step(Tower, Emit(Event(ApprovalVerified, request, d, TowerAnswer(answer, verification)))) == Cleared
  {
  }

  lemma AnswerWalks(plane: Plane, request: Request, d: Decision, clearance: Clearance.ClearanceRequest, env: Env)
    ensures var p := AnswerPlan(plane, request, d, clearance, env); p.outcome.Some? && Walk(Tower, p.actions) == Idle
  {
    hide ActClient.VerifyClearance, ReturnPlan, ExecutePlan, Step, Walk;
    ReturnWalks(Tower, request, d, ClearanceRequired);
    PlansReturn(request, d, env);
    if env.answer.status == ActClient.Cleared && plane.clearanceVerifier.Some? {
      var verification := ActClient.VerifyClearance(plane.clearanceVerifier.value, clearance, env.answer,
                                                    env.clearanceNow);
      ExecuteWalks(Cleared, request, d, env);
      AnswerSteps(request, d, env.answer, Some(verification));
      WalkFirst(Tower, Emit(Event(ApprovalVerified, request, d, TowerAnswer(env.answer, Some(verification)))),
                ExecutePlan(request, d, env).actions);
      RefusalWalks(request, d, TowerAnswer(env.answer, Some(verification)));
    }
    RefusalWalks(request, d, TowerAnswer(env.answer, None));
  }

  lemma RefusalWalks(request: Request, d: Decision, note: Note)
    requires note.TowerAnswer?
    ensures Walk(Tower, Note1(ApprovalRejected, request, d, note) + ReturnPlan(request, d, Denied).actions) == Idle
  {
    hide ReturnPlan, Walk;
    ReturnWalks(Refused, request, d, Denied);
    WalkFirst(Tower, Emit(Event(ApprovalRejected, request, d, note)), ReturnPlan(request, d, Denied).actions);
  }

  lemma PlansReturn(request: Request, d: Decision, env: Env)
    ensures ExecutePlan(request, d, env).outcome.Some?
    ensures forall status :: ReturnPlan(request, d, status).outcome == Some(status)
  {
  }

  lemma StoreWalks(p: Phase, plane: Plane, book: Book, request: Request, result: PolicyResult, env: Env)
    requires (p == Decided(true) || p.Turned?) && result.RequiresApproval()
    ensures var q := StorePlan(plane, book, request, result, env); q.outcome.Some? && Walk(p, q.actions) == Idle
  {
    hide ReturnPlan, ExecutePlan, MatchingGrant, BuildApprovalRequest;
    var d := result.decision;
    PlansReturn(request, d, env);
    match MatchingGrant(plane, book, request, env)
    case Some(grant) =>
      var note := Emit(Event(ApprovalConsumed, request, d, StoreGrant(grant)));
      var execute := ExecutePlan(request, d, env).actions;
      assert StorePlan(plane, book, request, result, env).actions == [SpendGrant(grant)] + ([note] + execute);
      WalkFirst(p, SpendGrant(grant), [note] + execute);
      WalkFirst(Spending, note, execute);
      ExecuteWalks(Cleared, request, d, env);
    case None =>
      RequestExactly(result, request.capability, request.session, request.requester, [request.target],
                     request.effect, env.requestNow, env.freshId, Some(plane.provider));
      var approval := BuildApprovalRequest(result, request.capability, request.session, request.requester,
                                           [request.target],
                                           request.effect, env.requestNow, env.freshId, Some(plane.provider));
      var back := ReturnPlan(request, d, ApprovalRequired).actions;
      WalkFirst(p, Emit(Event(ApprovalRequested, request, d, LocalRequest(approval.value))), back);
      ReturnWalks(Asked, request, d, ApprovalRequired);
  }

  /** The check of a signed grant, as the code performs it. */
  function SignedVerdict(plane: Plane, request: Request, env: Env): Broker.Verification
    requires request.capability in plane.registry && request.approvalRequestId.Some?
    requires plane.verifier.Some? && request.signedGrant.Some?
  {
    var fingerprint := FingerprintParameters(plane.world.sha, request.parameters);
    Broker.Verify(plane.verifier.value, request.signedGrant.value,
                  SignedContext(plane, request, if fingerprint.Ok? then fingerprint.value else "", env))
  }

  /** A signed grant is accepted only after a valid verdict on an unspent grant. */
  predicate SignedAccepted(plane: Plane, spent: set<string>, request: Request, env: Env)
    requires request.capability in plane.registry
  {
    && plane.verifier.Some? && request.approvalRequestId.Some? && request.signedGrant.Some?
    && request.signedGrant.value.payload.grantId !in spent
    && FingerprintParameters(plane.world.sha, request.parameters).Ok?
    && SignedVerdict(plane, request, env).status == Broker.Valid
  }

  function AcceptedActions(plane: Plane, request: Request, d: Decision, env: Env): seq<Action>
    requires request.capability in plane.registry && request.approvalRequestId.Some?
    requires plane.verifier.Some? && request.signedGrant.Some?
  {
    var check := SignedVerdict(plane, request, env);
    var grant := request.signedGrant.value.payload;
    Note1(ApprovalVerified, request, d, SignedCheck(check))
    + (if grant.oneTime then [SpendSigned(grant.grantId)] + Note1(ApprovalConsumed, request, d, SignedCheck(check))
       else [])
  }

  lemma SignedShape(plane: Plane, spent: set<string>, request: Request, d: Decision, env: Env)
    requires request.capability in plane.registry
    ensures var (first, signed) := SignedPlan(plane, spent, request, d, env);
      match signed
      case Accepted => SignedAccepted(plane, spent, request, env) && first == AcceptedActions(plane, request, d, env)
      case NotAccepted => first == [] || (|first| == 1 && IsEvent(first[0], ApprovalRejected)
                                         && first[0].event.request == request && !first[0].event.note.TowerAnswer?)
      case Raised => first == []
  {
    hide Broker.Verify;
    if request.signedGrant.Some? && plane.verifier.Some? && request.approvalRequestId.Some? {
      var check := SignedVerdict(plane, request, env);
      var grant := request.signedGrant.value.payload;
      assert Note1(ApprovalVerified, request, d, SignedCheck(check)) + [SpendSigned(grant.grantId)]
             + Note1(ApprovalConsumed, request, d, SignedCheck(check))
             == Note1(ApprovalVerified, request, d, SignedCheck(check))
             + ([SpendSigned(grant.grantId)] + Note1(ApprovalConsumed, request, d, SignedCheck(check)));
    }
  }

  lemma AcceptedWalks(plane: Plane, request: Request, d: Decision, env: Env)
    requires request.capability in plane.registry && request.approvalRequestId.Some?
    requires plane.verifier.Some? && request.signedGrant.Some?
    ensures var p := Walk(Decided(true), AcceptedActions(plane, request, d, env)); p.Verified? || p.Cleared?
  {
    hide SignedVerdict;
    var check := SignedVerdict(plane, request, env);
    var grant := request.signedGrant.value.payload;
    var verified := Emit(Event(ApprovalVerified, request, d, SignedCheck(check)));
    var consumed := Emit(Event(ApprovalConsumed, request, d, SignedCheck(check)));
    if grant.oneTime {
      WalkFirst(Decided(true), verified, [SpendSigned(grant.grantId)] + [consumed]);
      WalkFirst(Verified, SpendSigned(grant.grantId), [consumed]);
      WalkOne(SpendingSigned, consumed);
    } else {
      assert [verified] + [] == [verified];
      WalkOne(Decided(true), verified);
    }
  }

  lemma SignedWalks(plane: Plane, spent: set<string>, request: Request, d: Decision, env: Env)
    requires request.capability in plane.registry
    ensures var (first, signed) := SignedPlan(plane, spent, request, d, env);
      var p := Walk(Decided(true), first);
      match signed
      case Accepted => p.Verified? || p.Cleared?
      case NotAccepted => p == Decided(true) || p.Turned?
      case Raised => first == []
  {
    hide SignedPlan, AcceptedActions, SignedVerdict;
    var (first, signed) := SignedPlan(plane, spent, request, d, env);
    SignedShape(plane, spent, request, d, env);
    if signed.Accepted? {
      AcceptedWalks(plane, request, d, env);
    } else if |first| == 1 {
      WalkOne(Decided(true), first[0]);
      assert first == [first[0]];
    }
  }

  lemma LocalWalks(plane: Plane, book: Book, spent: set<string>, request: Request, result: PolicyResult, env: Env)
    requires request.capability in plane.registry && result.RequiresApproval()
    ensures var p := LocalPlan(plane, book, spent, request, result, env);
      if p.outcome.Some? then Walk(Decided(true), p.actions) == Idle else p.actions == []
  {
    hide SignedPlan, StorePlan, ExecutePlan;
    var d := result.decision;
    var (first, signed) := SignedPlan(plane, spent, request, d, env);
    var p := Walk(Decided(true), first);
    SignedWalks(plane, spent, request, d, env);
    PlansReturn(request, d, env);
    if signed.Accepted? {
      WalkBoth(Decided(true), first, ExecutePlan(request, d, env).actions);
      ExecuteWalks(p, request, d, env);
    } else if signed.NotAccepted? {
      WalkBoth(Decided(true), first, StorePlan(plane, book, request, result, env).actions);
      StoreWalks(p, plane, book, request, result, env);
    }
  }

  lemma ClearanceWalks(plane: Plane, request: Request, result: PolicyResult, env: Env)
    ensures var p := ClearancePlan(plane, request, result, env);
      if p.outcome.Some? then Walk(Decided(true), p.actions) == Idle else p.actions == []
  {
    hide Clearance.BuildRequest, ClearanceArguments, AnswerPlan;
    var built := Clearance.BuildRequest(plane.world, ClearanceArguments(plane, request, result, env));
    if built.Ok? {
      var rest := AnswerPlan(plane, request, result.decision, built.value, env);
      AnswerWalks(plane, request, result.decision, built.value, env);
      WalkFirst(Decided(true), Emit(Event(ApprovalRequested, request, result.decision, TowerRequest(built.value))),
                rest.actions);
    }
  }

  lemma OpeningWalks(plane: Plane, request: Request)
    ensures Walk(Idle, Opening(plane, request)) == Decided(request.capability in plane.registry)
  {
    hide Decide;
    var known := request.capability in plane.registry;
    var d := Decide(plane, request).decision;
    var a := Emit(Event(RequestReceived, request, d, NoNote));
    var b := Emit(Event(if known then CapabilityResolved else CapabilityUnknownDenied, request, d, NoNote));
    var c := Emit(Event(PolicyDecided, request, d, NoNote));
    assert Opening(plane, request) == [a] + ([b] + [c]);
    WalkFirst(Idle, a, [b] + [c]);
    WalkFirst(Opened, b, [c]);
    WalkOne(Resolved(known), c);
  }

  lemma AuthorizeWalks(plane: Plane, book: Book, spent: set<string>, request: Request, env: Env)
    ensures var p := AuthorizePlan(plane, book, spent, request, env);
      if p.outcome.Some? then Walk(Decided(request.capability in plane.registry), p.actions) == Idle
        else p.actions == []
  {
    hide ClearancePlan, LocalPlan, ExecutePlan, ReturnPlan, DecisionFor;
    var result := Decide(plane, request);
    UnknownIsDenied(plane, request);
    PlansReturn(request, result.decision, env);
    PlansReturn(request, Deny, env);
    ReturnWalks(Decided(request.capability in plane.registry), request, Deny, Denied);
    if result.decision != Deny {
      if result.RequiresApproval() {
        ClearanceWalks(plane, request, result, env);
        LocalWalks(plane, book, spent, request, result, env);
      } else {
        ExecuteWalks(Decided(true), request, result.decision, env);
      }
    }
  }

  /** The policy denies unknown capabilities, so `handle`'s two RuntimeErrors for them are never raised. */
  lemma UnknownIsDenied(plane: Plane, request: Request)
    ensures request.capability !in plane.registry ==> Decide(plane, request).decision == Deny
  {
  }

  /**
   The grammar: an undisturbed call walks from Idle back to Idle, its last effect
   being the result event with the returned status; a call that raises by itself
   stops right after its policy decision; and no prefix is ever stuck.
   */
  lemma HandleWalks(plane: Plane, book: Book, spent: set<string>, request: Request, env: Env)
    ensures var p := HandlePlan(plane, book, spent, request, env);
      if p.outcome.Some? then Walk(Idle, p.actions) == Idle
      else
        p.actions == Opening(plane, request) && Walk(Idle, p.actions) == Decided(request.capability in plane.registry)
  {
    hide AuthorizePlan, Opening;
    OpeningWalks(plane, request);
    AuthorizeWalks(plane, book, spent, request, env);
    WalkBoth(Idle, Opening(plane, request), AuthorizePlan(plane, book, spent, request, env).actions);
  }

  // ------------------------------------------------------- the returned status

  /** The last effect is the result event with the returned status. */
  predicate EndsInResult(p: Plan, request: Request)
  {
    match p.outcome
    case None => true
    case Some(status) =>
      && p.actions != []
      && var last := p.actions[|p.actions| - 1];
         last.Emit? && last.event.kind == ResultReturned && last.event.request == request
             && last.event.note == Outcome(status)
  }

  lemma ThenEnds(first: seq<Action>, p: Plan, request: Request)
    requires EndsInResult(p, request)
    ensures EndsInResult(Then(first, p), request)
  {
    if p.outcome.Some? {
      assert (first + p.actions)[|first + p.actions| - 1] == p.actions[|p.actions| - 1];
    }
  }

  lemma ExecuteEnds(request: Request, d: Decision, env: Env)
    ensures EndsInResult(ExecutePlan(request, d, env), request)
    ensures forall status :: EndsInResult(ReturnPlan(request, d, status), request)
  {
  }

  lemma LocalEnds(plane: Plane, book: Book, spent: set<string>, request: Request, result: PolicyResult, env: Env)
    requires request.capability in plane.registry
    ensures EndsInResult(LocalPlan(plane, book, spent, request, result, env), request)
  {
    hide SignedPlan, EndsInResult, ExecutePlan, StorePlan, Then;
    StoreEnds(plane, book, request, result, env);
    ExecuteEnds(request, result.decision, env);
    var (first, signed) := SignedPlan(plane, spent, request, result.decision, env);
    ThenEnds(first, StorePlan(plane, book, request, result, env), request);
    ThenEnds(first, ExecutePlan(request, result.decision, env), request);
    NoOutcomeEnds(first, request);
  }

  lemma NoOutcomeEnds(actions: seq<Action>, request: Request)
    ensures EndsInResult(Plan(actions, None), request)
  {
  }

  lemma StoreEnds(plane: Plane, book: Book, request: Request, result: PolicyResult, env: Env)
    ensures EndsInResult(StorePlan(plane, book, request, result, env), request)
  {
    hide EndsInResult, ExecutePlan, ReturnPlan, Then, BuildApprovalRequest, BindingOf;
    var d := result.decision;
    ExecuteEnds(request, d, env);
    NoOutcomeEnds([], request);
    match MatchingGrant(plane, book, request, env)
    case Some(grant) =>
      ThenEnds([SpendGrant(grant)] + Note1(ApprovalConsumed, request, d, StoreGrant(grant)),
               ExecutePlan(request, d, env), request);
    case None =>
      var approval := BuildApprovalRequest(result, request.capability, request.session, request.requester,
                                           [request.target],
                                           request.effect, env.requestNow, env.freshId, Some(plane.provider));
      if approval.Ok? {
        ThenEnds(Note1(ApprovalRequested, request, d, LocalRequest(approval.value)),
                 ReturnPlan(request, d, ApprovalRequired), request);
      }
  }

  lemma ClearanceEnds(plane: Plane, request: Request, result: PolicyResult, env: Env)
    ensures EndsInResult(ClearancePlan(plane, request, result, env), request)
  {
    hide EndsInResult, AnswerPlan, Then, Clearance.BuildRequest, ClearanceArguments;
    var built := Clearance.BuildRequest(plane.world, ClearanceArguments(plane, request, result, env));
    NoOutcomeEnds([], request);
    if built.Ok? {
      AnswerEnds(plane, request, result.decision, built.value, env);
      ThenEnds(Note1(ApprovalRequested, request, result.decision, TowerRequest(built.value)),
               AnswerPlan(plane, request, result.decision, built.value, env), request);
    }
  }

  lemma AnswerEnds(plane: Plane, request: Request, d: Decision, clearance: Clearance.ClearanceRequest, env: Env)
    ensures EndsInResult(AnswerPlan(plane, request, d, clearance, env), request)
  {
    hide EndsInResult, ExecutePlan, ReturnPlan, Then, ActClient.VerifyClearance;
    ExecuteEnds(request, d, env);
    forall first { ThenEnds(first, ReturnPlan(request, d, Denied), request); }
    forall first { ThenEnds(first, ExecutePlan(request, d, env), request); }
  }

  /** Whatever an undisturbed call returns, its last event reports exactly that status. */
  lemma HandleReturns(plane: Plane, book: Book, spent: set<string>, request: Request, env: Env)
    ensures EndsInResult(HandlePlan(plane, book, spent, request, env), request)
  {
    hide EndsInResult, ExecutePlan, ReturnPlan, Then, Decide, LocalPlan, ClearancePlan, Opening;
    var result := Decide(plane, request);
    ExecuteEnds(request, result.decision, env);
    ExecuteEnds(request, Deny, env);
    NoOutcomeEnds([], request);
    ClearanceEnds(plane, request, result, env);
    if request.capability in plane.registry { LocalEnds(plane, book, spent, request, result, env); }
    ThenEnds(Opening(plane, request), AuthorizePlan(plane, book, spent, request, env), request);
  }
}
