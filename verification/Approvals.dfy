/** Approval requests, responses, grants and the store that spends them (`approvals.py`). */
module Approvals {
  import opened Wrappers
  import Policy

  datatype ActorKind = Agent | Operator | Service | ProviderActor | TestActor

  datatype Actor = Actor(kind: ActorKind, id: string)

  datatype Outcome = Granted | OutcomeDenied | OutcomeExpired

  datatype GrantScope = OneTime | PerSession

  const BLOCKED: set<string> := {
    "session.modify_policy", "session.disable_audit", "session.disable_emergency_stop", "secrets.raw_reveal"
  }

  datatype ApprovalRequest = ApprovalRequest(
    id: string, createdAt: int, expiresAt: int, session: string, requester: Actor, capability: string,
    targets: seq<string>, decision: Policy.Decision, operatorMessage: string, risks: seq<string>,
    provider: Option<string>)

  datatype ApprovalResponse = ApprovalResponse(id: string, requestId: string, outcome: Outcome, operator: Actor)

  datatype SessionGrant = SessionGrant(requestId: string, capability: string, session: string, targets: set<string>,
                                       expiresAt: int)

  /** The exact action a grant or a request is about. */
  datatype Binding = Binding(capability: string, session: string, target: string, provider: string, fingerprint: string)

  datatype Grant = Grant(requestId: string, responseId: string, binding: Binding, expiresAt: int, scope: GrantScope,
                         operator: Actor)

  const TTL := 900

  /** `ApprovalRequest.__post_init__` */
  function CheckRequest(r: ApprovalRequest): Result<ApprovalRequest>
  {
    if !r.decision.AskEachTime? && !r.decision.AskOncePerSession?
      then Err("Approval requests require an ask policy decision")
    else if r.targets == [] then Err("Approval request requires target scope")
    else if r.risks == [] then Err("Approval request requires material risks")
    else if r.expiresAt <= r.createdAt then Err("Approval request expiry must be after creation")
    else Ok(r)
  }

  function JoinNames(names: seq<string>): string
  {
    if names == [] then "" else if |names| == 1 then names[0] else names[0] + ", " + JoinNames(names[1..])
  }

  /** Names are joined by a comma and a space. */
  lemma {:induction false} JoinedExactly(names: seq<string>, last: string)
    ensures JoinNames([]) == "" && JoinNames([last]) == last
    ensures names != [] ==> JoinNames(names + [last]) == JoinNames(names) + ", " + last
  {
    if |names| > 1 {
      JoinedExactly(names[1..], last);
      assert (names + [last])[1..] == names[1..] + [last];
      assert names[0] + ", " + (JoinNames(names[1..]) + ", " + last)
          == names[0] + ", " + JoinNames(names[1..]) + ", " + last;
    } else if |names| == 1 {
      assert (names + [last])[1..] == [last];
    }
  }

  function DecisionText(d: Policy.Decision): string
  {
    match d
    case Deny => "deny"
    case AskEachTime => "ask_each_time"
    case AskOncePerSession => "ask_once_per_session"
    case Allow => "allow"
    case AllowWithLimits => "allow_with_limits"
  }

  /** The names under which the decisions are reported. */
  lemma DecisionTexts()
    ensures DecisionText(Policy.Deny) == "deny" && DecisionText(Policy.AskEachTime) == "ask_each_time"
    ensures DecisionText(Policy.AskOncePerSession) == "ask_once_per_session"
    ensures DecisionText(Policy.Allow) == "allow" && DecisionText(Policy.AllowWithLimits) == "allow_with_limits"
  {
  }

  /** `build_approval_request`, with the fresh id and the clock reading as parameters. */
  function BuildApprovalRequest(result: Policy.PolicyResult, capability: string, session: string, requester: Actor,
                                targets: seq<string>, effect: string, now: int, freshId: string,
                                provider: Option<string>)
    : Result<ApprovalRequest>
  {
    if !result.RequiresApproval() then Err("Policy decision does not require approval")
    else
      var risks := if result.risks == [] then ["operator approval required"] else result.risks;
      var message := requester.id + " requests " + capability + " for targets " + JoinNames(targets)
                     + ". Intended effect: " + effect + ". Policy decision: " + DecisionText(result.decision) + ".";
      CheckRequest(ApprovalRequest(freshId, now, now + TTL, session, requester, capability, targets, result.decision,
                                   message, risks, provider))
  }

  /** `ApprovalGrant.__post_init__` */
  function CheckGrant(g: Grant): Result<Grant>
  {
    if g.binding.capability in BLOCKED then Err("Capability cannot be approval-resumed: " + g.binding.capability)
    else if g.operator.kind != Operator then Err("Approval grants require an operator actor")
    else Ok(g)
  }

  /** What no approval can resume. */
  predicate Unapprovable(id: string)
  {
    || id == "session.modify_policy" || id == "session.disable_audit" || id == "session.disable_emergency_stop"
    || id == "secrets.raw_reveal"
  }

  lemma BlockedExactly(id: string)
    ensures id in BLOCKED <==> Unapprovable(id)
  {
  }

  /** `ApprovalGrant.matches` */
  predicate Matches(g: Grant, b: Binding, now: int)
  {
    g.binding == b && now < g.expiresAt
  }

  /** `ApprovalStore.grant_from_response`, up to storing the grant. */
  function MakeGrant(request: ApprovalRequest, response: ApprovalResponse, provider: string, fingerprint: string,
                             scope: GrantScope): Result<Grant>
  {
    if response.requestId != request.id then Err("Approval response does not match request")
    else if response.outcome != Granted then Err("Only granted approval responses create grants")
    else if request.capability in BLOCKED then Err("Capability cannot be approval-resumed: " + request.capability)
    else if request.provider.Some? && request.provider.value != "" && request.provider.value != provider then
      Err("Approval provider does not match request provider")
    else if request.targets == [] then Err("tuple index out of range")
    else CheckGrant(Grant(request.id, response.id,
                          Binding(request.capability, request.session, request.targets[0], provider, fingerprint),
                          request.expiresAt, scope, response.operator))
  }

  // ------------------------------------------------------------- store, as a value

  /** The action grants, oldest first, and the spent response ids. */
  datatype Book = Book(grants: seq<Grant>, consumed: set<string>)

  predicate Spent(book: Book, g: Grant)
  {
    g.scope.OneTime? && g.responseId in book.consumed
  }

  predicate Usable(book: Book, g: Grant, b: Binding, now: int)
  {
    !Spent(book, g) && Matches(g, b, now)
  }

  /** The grant is in the book, is usable, and no older one is. */
  predicate Oldest(book: Book, i: nat, b: Binding, now: int)
  {
    i < |book.grants| && Usable(book, book.grants[i], b, now)
    && forall j :: 0 <= j < i ==> !Usable(book, book.grants[j], b, now)
  }

  /** The oldest usable grant. */
  function Find(book: Book, b: Binding, now: int): (r: Option<Grant>)
    ensures r.Some? ==> r.value in book.grants && Usable(book, r.value, b, now)
    ensures r.None? ==> forall g :: g in book.grants ==> !Usable(book, g, b, now)
  {
    FindFrom(book, 0, b, now)
  }

  function FindFrom(book: Book, i: nat, b: Binding, now: int): (r: Option<Grant>)
    requires i <= |book.grants|
    ensures r.Some? ==> r.value in book.grants && Usable(book, r.value, b, now)
    ensures r.None? ==> forall j :: i <= j < |book.grants| ==> !Usable(book, book.grants[j], b, now)
    decreases |book.grants| - i
  {
    if i == |book.grants| then None
    else if Usable(book, book.grants[i], b, now) then Some(book.grants[i])
    else FindFrom(book, i + 1, b, now)
  }

  /** What is found is the oldest usable grant. */
  lemma {:induction false} FindsOldest(book: Book, i: nat, b: Binding, now: int) returns (k: nat)
    requires i <= |book.grants| && FindFrom(book, i, b, now).Some?
    requires forall j :: 0 <= j < i ==> !Usable(book, book.grants[j], b, now)
    ensures Oldest(book, k, b, now) && FindFrom(book, i, b, now) == Some(book.grants[k])
    decreases |book.grants| - i
  {
    if Usable(book, book.grants[i], b, now) {
      k := i;
    } else {
      k := FindsOldest(book, i + 1, b, now);
    }
  }

  function Spend(book: Book, g: Grant): Book
  {
    if g.scope.OneTime? then book.(consumed := book.consumed + {g.responseId}) else book
  }

  // ---------------------------------------------------------------- the store

  class ApprovalStore {
    var sessionGrants: seq<SessionGrant>
    var actionGrants: seq<Grant>
    var consumedResponseIds: set<string>

    function Contents(): Book
      reads this
    {
      Book(actionGrants, consumedResponseIds)
    }

    constructor ()
      ensures Contents() == Book([], {}) && sessionGrants == []
    {
      sessionGrants, actionGrants, consumedResponseIds := [], [], {};
    }

    method Add(g: SessionGrant)
      modifies this`sessionGrants
      ensures sessionGrants == old(sessionGrants) + [g]
    {
      sessionGrants := sessionGrants + [g];
    }

    method AddActionGrant(g: Grant)
      modifies this`actionGrants
      ensures Contents() == old(Contents()).(grants := old(Contents()).grants + [g])
    {
      actionGrants := actionGrants + [g];
    }

    /** The first session grant that covers the request. */
    method FindSessionGrant(capability: string, session: string, target: string, now: int)
      returns (r: Option<SessionGrant>)
      ensures r.Some? ==> FirstCover(sessionGrants, r.value, capability, session, target, now)
      ensures r.None? ==> forall g :: g in sessionGrants ==> !Covers(g, capability, session, target, now)
    {
      for i := 0 to |sessionGrants|
        invariant forall j :: 0 <= j < i ==> !Covers(sessionGrants[j], capability, session, target, now)
      {
        var g := sessionGrants[i];
        if g.capability == capability && g.session == session && target in g.targets && now < g.expiresAt {
          assert CoversFirst(sessionGrants, i, capability, session, target, now);
          return Some(sessionGrants[i]);
        }
      }
      return None;
    }

    /** `grant_from_response`: stores the grant it returns, and nothing when it raises. */
    method GrantFromResponse(request: ApprovalRequest, response: ApprovalResponse, provider: string,
                             fingerprint: string, scope: GrantScope)
      returns (r: Result<Grant>)
      modifies this`actionGrants
      ensures r.Ok? <==> Grantable(request, response, provider)
      ensures r.Ok? ==> r.value == BoundGrant(request, response, provider, fingerprint, scope)
      ensures Contents() == if r.Ok? then old(Contents()).(grants := old(Contents()).grants + [r.value])
          else old(Contents())
    {
      r := MakeGrant(request, response, provider, fingerprint, scope);
      GrantFaithful(request, response, provider, fingerprint, scope);
      if r.Ok? {
        AddActionGrant(r.value);
      }
    }

    method FindActionGrant(b: Binding, now: int) returns (r: Option<Grant>)
      ensures r == Find(Contents(), b, now)
      ensures r.Some? ==> exists k: nat :: Oldest(Contents(), k, b, now) && r == Some(Contents().grants[k])
      ensures r.None? ==> forall g :: g in Contents().grants ==> !Usable(Contents(), g, b, now)
    {
      if Find(Contents(), b, now).Some? {
        ghost var k := FindsOldest(Contents(), 0, b, now);
      }
      var i := 0;
      while i < |actionGrants|
        invariant 0 <= i <= |actionGrants|
        invariant Find(Contents(), b, now) == FindFrom(Contents(), i, b, now)
      {
        var g := actionGrants[i];
        if !(g.scope.OneTime? && g.responseId in consumedResponseIds) && Matches(g, b, now) {
          return Some(g);
        }
        i := i + 1;
      }
      return None;
    }

    method Consume(g: Grant)
      modifies this`consumedResponseIds
      ensures Contents() == Spend(old(Contents()), g)
    {
      if !g.scope.PerSession? {
        consumedResponseIds := consumedResponseIds + {g.responseId};
      }
    }
  }

  /** The grant covers the request, and none before it does. */
  ghost predicate FirstCover(grants: seq<SessionGrant>, g: SessionGrant, capability: string, session: string,
                             target: string, now: int)
  {
    exists i :: 0 <= i < |grants| && grants[i] == g && CoversFirst(grants, i, capability, session, target, now)
  }

  predicate CoversFirst(grants: seq<SessionGrant>, i: nat, capability: string, session: string, target: string,
                        now: int)
    requires i < |grants|
  {
    && Covers(grants[i], capability, session, target, now)
    && forall j :: 0 <= j < i ==> !Covers(grants[j], capability, session, target, now)
  }

  /** An unexpired grant of this capability in this session, for a set of targets with this one in it. */
  predicate Covers(g: SessionGrant, capability: string, session: string, target: string, now: int)
  {
    (capability, session) == (g.capability, g.session) && {target} <= g.targets && g.expiresAt > now
  }

  // ------------------------------------------------------------- main results

  /** An operator granted this request, for an approvable capability and the provider it was asked for. */
  predicate Grantable(request: ApprovalRequest, response: ApprovalResponse, provider: string)
  {
    && response.requestId == request.id && response.outcome == Granted && response.operator.kind == Operator
    && !Unapprovable(request.capability) && request.targets != []
    && (request.provider == None || request.provider == Some("") || request.provider == Some(provider))
  }

  /** The grant of the request's own action, until the request expires. */
  function BoundGrant(request: ApprovalRequest, response: ApprovalResponse, provider: string, fingerprint: string,
                      scope: GrantScope): Grant
    requires request.targets != []
  {
    var action := Binding(request.capability, request.session, request.targets[0], provider, fingerprint);
    Grant(request.id, response.id, action, request.expiresAt, scope, response.operator)
  }

  /** A grant made from a response is bound to the request's own action, by an operator, and never to a blocked
      capability. */
  lemma GrantFaithful(request: ApprovalRequest, response: ApprovalResponse, provider: string, fingerprint: string,
                      scope: GrantScope)
    ensures var g := MakeGrant(request, response, provider, fingerprint, scope);
      && (g.Ok? <==> Grantable(request, response, provider))
      && (g.Ok? ==> g.value == BoundGrant(request, response, provider, fingerprint, scope))
  {
    BlockedExactly(request.capability);
    hide BLOCKED, Unapprovable;
  }

  /** A request exists exactly for an asking decision with some target, and repeats what it was built from. */
  lemma RequestExactly(result: Policy.PolicyResult, capability: string, session: string, requester: Actor,
                       targets: seq<string>, effect: string, now: int, freshId: string, provider: Option<string>)
    ensures var r :=
        BuildApprovalRequest(result, capability, session, requester, targets, effect, now, freshId, provider);
      && (r.Ok? <==> (result.decision == Policy.AskEachTime || result.decision == Policy.AskOncePerSession)
                     && targets != [])
      && (r.Ok? ==>
            && r.value.id == freshId && r.value.createdAt == now && r.value.expiresAt == now + 900
            && r.value.session == session && r.value.requester == requester && r.value.capability == capability
            && r.value.targets == targets && r.value.decision == result.decision && r.value.provider == provider
            && r.value.risks == if result.risks == [] then ["operator approval required"] else result.risks)
  {
    hide DecisionText, JoinNames;
  }
}
