/**
 The operator approval queue (`approval_transport.py`). The file is the sequence of
 its records; every transition rebuilds a record by writing it out and reading it
 back, which redacts it again.
 */
module ApprovalQueue {
  import opened Wrappers
  import opened Values
  import opened Redaction
  import opened RedactionLaws
  import opened RedactionReports
  import opened Approvals

  datatype Status = Pending | Approved | Denied | Expired | Consumed

  datatype LocalRecord = LocalRecord(
    id: string, status: Status, createdAt: int, expiresAt: int, action: Binding, decision: string, message: string,
    risks: seq<string>, request: map<string, Value>, scope: Option<GrantScope>, operator: Option<string>,
    responseId: Option<string>, reason: Option<string>, decidedAt: Option<int>, consumedAt: Option<int>,
    redactions: set<string>)

  /** The redaction rules, and the words that make `_redact_text` hide a text. */
  datatype Env = Env(rules: Rules, marks: string -> bool)

  function RedactText(env: Env, s: string): (t: string)
    ensures s != "" ==> t != ""
  {
    if s == "" then "" else if env.marks(s) then REDACTED else s
  }

  function RedactReason(env: Env, reason: Option<string>): Option<string>
  {
    if reason.None? || RedactText(env, reason.value) == "" then None else Some(RedactText(env, reason.value))
  }

  function RequestPaths(env: Env, request: map<string, Value>): set<string>
  {
    Listed("request.", MappingReported(env.rules, request))
  }

  /** `__post_init__` */
  function Construct(env: Env, r: LocalRecord): LocalRecord
  {
    r.(request := RedactMapping(env.rules, r.request), redactions := r.redactions + RequestPaths(env, r.request))
  }

  /** `to_dict`, as the record it stands for: JSON turns tuples into lists. */
  function Written(r: LocalRecord): LocalRecord
  {
    r.(request := Reload(Dict(r.request)).fields)
  }

  /** The texts `from_mcp_result` insists on; it takes any text as the target. */
  predicate Queueable(r: LocalRecord)
  {
    && r.id != "" && r.action.session != "" && r.action.provider != "" && r.action.capability != ""
    && r.action.fingerprint != "" && r.decision != "" && r.message != ""
  }

  /** The texts `from_dict` insists on. */
  predicate Complete(r: LocalRecord)
  {
    Queueable(r) && r.action.target != ""
  }

  /** `from_dict` */
  function Read(env: Env, r: LocalRecord): Result<LocalRecord>
  {
    if !Complete(r) then Err("approval field is required")
    else Ok(Construct(env, r.(message := RedactText(env, r.message), reason := RedactReason(env, r.reason))))
  }

  /** The undecided record that is made of an approval_required result. */
  function Undecided(r: LocalRecord): LocalRecord
  {
    r.(status := Pending, scope := None, operator := None, responseId := None, reason := None, decidedAt := None,
       consumedAt := None, redactions := {})
  }

  /** `from_mcp_result` */
  function FromMcpResult(env: Env, r: LocalRecord): Result<LocalRecord>
  {
    if !Queueable(r) then Err("approval field is required")
    else Ok(Construct(env, Undecided(r).(message := RedactText(env, r.message))))
  }

  function Rebuild(env: Env, r: LocalRecord): Result<LocalRecord>
  {
    Read(env, Written(r))
  }

  // ------------------------------------------------------------- transitions

  function Otherwise(reason: Option<string>, standard: string): string
  {
    if reason.Some? && reason.value != "" then reason.value else standard
  }

  function FreshResponse(r: LocalRecord, nonce: string): string
  {
    "local-response-" + r.id + "-" + nonce
  }

  /** `approved_grant`: absent, a grant, or the exception of a grant that may not exist. */
  function ApprovedGrant(r: LocalRecord, now: int): Result<Option<Grant>>
  {
    if r.status != Approved || r.scope.None? || r.operator.None? || r.responseId.None? || now >= r.expiresAt
      then Ok(None)
    else if r.operator.value == "" then Err("Actor id is required")
    else
      match CheckGrant(Grant(r.id, r.responseId.value, r.action, r.expiresAt, r.scope.value,
                             Actor(Operator, r.operator.value)))
      case Ok(grant) => Ok(Some(grant))
      case Err(e) => Err(e)
  }

  /** `expire` */
  function Expire(env: Env, r: LocalRecord, operator: string, reason: Option<string>, now: int, nonce: string)
    : Result<LocalRecord>
  {
    if r.status != Pending && r.status != Approved then Err("approval cannot expire")
    else
      var response := if r.responseId.Some? && r.responseId.value != "" then r.responseId
        else Some(FreshResponse(r, nonce));
      Rebuild(env, r.(status := Expired, operator := Some(operator), responseId := response,
                      reason := Some(RedactText(env, Otherwise(reason, "expired"))), decidedAt := Some(now)))
  }

  /** `approve`: too late, it expires the record instead. */
  function Approve(env: Env, r: LocalRecord, operator: string, scope: GrantScope, reason: Option<string>, now: int,
                   nonce: string)
    : Result<LocalRecord>
  {
    if r.status != Pending then Err("approval is not pending")
    else if now >= r.expiresAt then Expire(env, r, operator, Some("approval expired"), now, nonce)
    else
      var approved := Rebuild(env, r.(status := Approved, scope := Some(scope), operator := Some(operator),
                                      responseId := Some(FreshResponse(r, nonce)),
                                      reason := Some(RedactText(env, Otherwise(reason, "approved"))),
                                      decidedAt := Some(now)));
      if approved.Err? then approved
      else
        match ApprovedGrant(approved.value, now)
        case Err(e) => Err(e)
        case Ok(_) => approved
  }

  /** `deny` */
  function Deny(env: Env, r: LocalRecord, operator: string, reason: Option<string>, now: int, nonce: string)
    : Result<LocalRecord>
  {
    if r.status != Pending then Err("approval is not pending")
    else
      Rebuild(env, r.(status := Denied, operator := Some(operator), responseId := Some(FreshResponse(r, nonce)),
                      reason := Some(RedactText(env, Otherwise(reason, "denied"))), decidedAt := Some(now)))
  }

  /** `consume`: session approvals are returned as they are. */
  function Consume(env: Env, r: LocalRecord, now: int): Result<LocalRecord>
  {
    if r.status != Approved then Err("approval is not approved")
    else if r.scope == Some(PerSession) then Ok(r)
    else Rebuild(env, r.(status := Consumed, consumedAt := Some(now)))
  }

  /** `matches_action` */
  predicate MatchesAction(r: LocalRecord, action: Binding, now: int)
  {
    r.status == Approved && r.action == action && now < r.expiresAt
  }

  // -------------------------------------------------------- one transition

  /** The status graph: pending to approved, denied or expired; approved to expired or consumed. */
  predicate Edge(a: Status, b: Status)
  {
    || a == b
    || (a == Pending && (b == Approved || b == Denied || b == Expired))
    || (a == Approved && (b == Expired || b == Consumed))
  }

  /** Nothing that identifies or binds the approval has changed, and the status moved along the graph. */
  predicate Continues(r: LocalRecord, s: LocalRecord)
  {
    && s.id == r.id && s.action == r.action && s.createdAt == r.createdAt && s.expiresAt == r.expiresAt
    && s.decision == r.decision && s.risks == r.risks && Edge(r.status, s.status)
  }

  /** If approved, then by a named operator for an approvable capability. */
  predicate Sanctioned(r: LocalRecord)
  {
    r.status == Approved ==>
      && !Unapprovable(r.action.capability) && r.scope.Some? && r.responseId.Some?
      && r.operator.Some? && r.operator.value != ""
  }

  /** A record as the file may hold it. */
  predicate Stored(r: LocalRecord)
  {
    Queueable(r) && Sanctioned(r)
  }

  /** A record that can be read back, too. */
  predicate Storable(r: LocalRecord)
  {
    Complete(r) && Sanctioned(r)
  }

  lemma RebuildKeeps(env: Env, r: LocalRecord)
    requires Complete(r)
    ensures Rebuild(env, r).Ok?
    ensures var s := Rebuild(env, r).value;
      && s == r.(request := s.request, redactions := s.redactions, message := s.message, reason := s.reason)
      && s.request == RedactMapping(env.rules, Reload(Dict(r.request)).fields)
      && s.message == Shown(env, r.message) && s.reason == (if r.reason == Some("") then None else ShownReason(env, r))
      && Complete(s) && r.redactions <= s.redactions
  {
    hide RedactMapping, Reload, RequestPaths;
  }

  /** A text, or the mask if it holds a mark. */
  function Shown(env: Env, s: string): string
  {
    if s != "" && env.marks(s) then "[REDACTED]" else s
  }

  function ShownReason(env: Env, r: LocalRecord): Option<string>
  {
    match r.reason case Some(s) => Some(Shown(env, s)) case None => None
  }

  /** Expiring follows the graph, keeps the binding, and leaves a storable record; so do the other transitions below. */
  lemma ExpireContinues(env: Env, r: LocalRecord, operator: string, reason: Option<string>, now: int, nonce: string)
    requires Storable(r)
    ensures var s := Expire(env, r, operator, reason, now, nonce);
      (s.Ok? <==> r.status == Pending || r.status == Approved)
      && (s.Ok? ==> Continues(r, s.value) && Storable(s.value) && s.value.status == Expired)
  {
    hide Rebuild, RedactText, BLOCKED, Unapprovable, FreshResponse;
    if r.status == Pending || r.status == Approved {
      var response := if r.responseId.Some? && r.responseId.value != "" then r.responseId
        else Some(FreshResponse(r, nonce));
      RebuildKeeps(env, r.(status := Expired, operator := Some(operator), responseId := response,
                           reason := Some(RedactText(env, Otherwise(reason, "expired"))), decidedAt := Some(now)));
    }
  }

  lemma DenyContinues(env: Env, r: LocalRecord, operator: string, reason: Option<string>, now: int, nonce: string)
    requires Storable(r)
    ensures var s := Deny(env, r, operator, reason, now, nonce);
      (s.Ok? <==> r.status == Pending)
          && (s.Ok? ==> Continues(r, s.value) && Storable(s.value) && s.value.status == Denied)
  {
    hide Rebuild, RedactText, BLOCKED, Unapprovable, FreshResponse;
    RebuildKeeps(env, r.(status := Denied, operator := Some(operator), responseId := Some(FreshResponse(r, nonce)),
                         reason := Some(RedactText(env, Otherwise(reason, "denied"))), decidedAt := Some(now)));
  }

  lemma ConsumeContinues(env: Env, r: LocalRecord, now: int)
    requires Storable(r)
    ensures var s := Consume(env, r, now);
      && (s.Ok? <==> r.status == Approved)
      && (s.Ok? ==> Continues(r, s.value) && Storable(s.value))
      && (s.Ok? ==> s.value.status == (if r.scope == Some(PerSession) then Approved else Consumed))
  {
    hide Rebuild, BLOCKED, Unapprovable;
    RebuildKeeps(env, r.(status := Consumed, consumedAt := Some(now)));
  }

  lemma ApproveContinues(env: Env, r: LocalRecord, operator: string, scope: GrantScope, reason: Option<string>,
                         now: int, nonce: string)
    requires Storable(r)
    ensures var s := Approve(env, r, operator, scope, reason, now, nonce);
      && (s.Ok? <==>
            r.status == Pending && (now >= r.expiresAt || (!Unapprovable(r.action.capability) && operator != "")))
      && (s.Ok? ==> Continues(r, s.value) && Storable(s.value))
      && (s.Ok? ==> s.value.status == (if now >= r.expiresAt then Expired else Approved))
  {
    hide Rebuild, RedactText, BLOCKED, Unapprovable, FreshResponse;
    BlockedExactly(r.action.capability);
    ExpireContinues(env, r, operator, Some("approval expired"), now, nonce);
    RebuildKeeps(env, r.(status := Approved, scope := Some(scope), operator := Some(operator),
                         responseId := Some(FreshResponse(r, nonce)),
                         reason := Some(RedactText(env, Otherwise(reason, "approved"))), decidedAt := Some(now)));
  }

  // ------------------------------------------------------ what a decision leaves behind

  /** The record after a decision: its status, who decided, when, and why; the rest is as it was, redacted once more. */
  predicate DecidedAs(env: Env, r: LocalRecord, s: LocalRecord, status: Status, scope: Option<GrantScope>,
                      operator: string, response: string, reason: string, now: int)
  {
    && s == r.(status := status, scope := scope, operator := Some(operator), responseId := Some(response),
               reason := Some(Shown(env, reason)), decidedAt := Some(now), request := s.request, message := s.message,
               redactions := s.redactions)
    && s.request == RedactMapping(env.rules, Reload(Dict(r.request)).fields) && s.message == Shown(env, r.message)
  }

  function LocalResponse(r: LocalRecord, nonce: string): string
  {
    "local-response-" + r.id + "-" + nonce
  }

  /** The given reason, or the standard one. */
  function Because(reason: Option<string>, standard: string): string
  {
    match reason case Some(s) => if s == "" then standard else s case None => standard
  }

  lemma ShownTwice(env: Env, s: string)
    ensures RedactText(env, s) == Shown(env, s) && Shown(env, Shown(env, s)) == Shown(env, s)
    ensures s != "" ==> Shown(env, s) != ""
  {
  }

  lemma RebuiltAs(env: Env, r: LocalRecord, status: Status, scope: Option<GrantScope>, operator: string,
                  response: string, reason: string, now: int)
    requires Complete(r) && reason != ""
    ensures var s := Rebuild(env, r.(status := status, scope := scope, operator := Some(operator),
                                     responseId := Some(response), reason := Some(RedactText(env, reason)),
                                     decidedAt := Some(now)));
      s.Ok? && DecidedAs(env, r, s.value, status, scope, operator, response, reason, now)
  {
    hide Rebuild, RedactMapping, Reload, RedactText, Shown;
    ShownTwice(env, reason);
    RebuildKeeps(env, r.(status := status, scope := scope, operator := Some(operator), responseId := Some(response),
                         reason := Some(RedactText(env, reason)), decidedAt := Some(now)));
  }

  /** Denying is for pending records, and denies them. */
  lemma DenyExactly(env: Env, r: LocalRecord, operator: string, reason: Option<string>, now: int, nonce: string)
    requires Complete(r)
    ensures var s := Deny(env, r, operator, reason, now, nonce);
      && (s.Ok? <==> r.status == Pending)
      && (s.Ok? ==> DecidedAs(env, r, s.value, Denied, r.scope, operator, LocalResponse(r, nonce),
                              Because(reason, "denied"), now))
  {
    hide Rebuild, RedactText, DecidedAs;
    RebuiltAs(env, r, Denied, r.scope, operator, LocalResponse(r, nonce), Because(reason, "denied"), now);
    var again := r.(scope := r.scope);
    assert again == r;
  }

  /** Expiring is for pending and approved records; the response id of an approval is kept. */
  lemma ExpireExactly(env: Env, r: LocalRecord, operator: string, reason: Option<string>, now: int, nonce: string)
    requires Complete(r)
    ensures var s := Expire(env, r, operator, reason, now, nonce);
      && (s.Ok? <==> r.status == Pending || r.status == Approved)
      && (s.Ok? ==> DecidedAs(env, r, s.value, Expired, r.scope, operator,
                              if r.responseId == None || r.responseId == Some("") then LocalResponse(r, nonce)
                              else r.responseId.value,
                              Because(reason, "expired"), now))
  {
    hide Rebuild, RedactText, DecidedAs;
    var response := if r.responseId == None || r.responseId == Some("") then LocalResponse(r, nonce)
      else r.responseId.value;
    RebuiltAs(env, r, Expired, r.scope, operator, response, Because(reason, "expired"), now);
    assert r.(scope := r.scope) == r;
  }

  /**
   Approving is for pending records: in time, and for a capability that can be approved, it approves with the given
   scope; too late, it expires the record instead.
   */
  lemma ApproveExactly(env: Env, r: LocalRecord, operator: string, scope: GrantScope, reason: Option<string>,
                       now: int, nonce: string)
    requires Complete(r)
    ensures var s := Approve(env, r, operator, scope, reason, now, nonce);
      && (s.Ok? <==>
            r.status == Pending && (now >= r.expiresAt || (!Unapprovable(r.action.capability) && operator != "")))
      && (s.Ok? && now < r.expiresAt ==>
            DecidedAs(env, r, s.value, Approved, Some(scope), operator, LocalResponse(r, nonce),
                      Because(reason, "approved"), now))
      && (s.Ok? && now >= r.expiresAt ==>
            DecidedAs(env, r, s.value, Expired, r.scope, operator,
                      if r.responseId == None || r.responseId == Some("") then LocalResponse(r, nonce)
                      else r.responseId.value,
                      "approval expired", now))
  {
    hide Rebuild, RedactText, BLOCKED, Unapprovable, Expire, RedactMapping, Reload, Shown;
    BlockedExactly(r.action.capability);
    ExpireExactly(env, r, operator, Some("approval expired"), now, nonce);
    RebuiltAs(env, r, Approved, Some(scope), operator, LocalResponse(r, nonce), Because(reason, "approved"), now);
  }

  /** Consuming uses up a one-time approval, and leaves one for the session as it is. */
  lemma ConsumeExactly(env: Env, r: LocalRecord, now: int)
    requires Complete(r)
    ensures var s := Consume(env, r, now);
      && (s.Ok? <==> r.status == Approved)
      && (s.Ok? && r.scope == Some(PerSession) ==> s.value == r)
      && (s.Ok? && r.scope != Some(PerSession) ==>
            s.value == r.(status := Consumed, consumedAt := Some(now), request := s.value.request,
                          message := s.value.message, reason := s.value.reason, redactions := s.value.redactions))
  {
    hide Rebuild;
    RebuildKeeps(env, r.(status := Consumed, consumedAt := Some(now)));
  }

  /** The grant of an approved record is for its own action, by its operator, in its scope, until it expires. */
  lemma ApprovedGrantExactly(r: LocalRecord, now: int)
    ensures var g := ApprovedGrant(r, now);
      (g.Ok? && g.value.Some?)
      <==> (r.status == Approved && r.scope.Some? && r.operator.Some? && r.responseId.Some? && now < r.expiresAt
            && r.operator != Some("") && !Unapprovable(r.action.capability))
    ensures var g := ApprovedGrant(r, now);
      g.Ok? && g.value.Some? ==>
        g.value.value == Grant(r.id, r.responseId.value, r.action, r.expiresAt, r.scope.value,
                               Actor(Operator, r.operator.value))
  {
    BlockedExactly(r.action.capability);
    hide BLOCKED, Unapprovable;
  }

  /** A stored record is read back exactly when none of its eight texts is empty; message and reason are redacted. */
  lemma ReadExactly(env: Env, r: LocalRecord)
    ensures Read(env, r).Ok?
       <==> (r.id != "" && r.action.session != "" && r.action.target != "" && r.action.provider != ""
             && r.action.capability != "" && r.action.fingerprint != "" && r.decision != "" && r.message != "")
    ensures Read(env, r).Ok? ==>
      var s := Read(env, r).value;
      && s.id == r.id && s.action == r.action && s.createdAt == r.createdAt && s.expiresAt == r.expiresAt
      && s.status == r.status && s.scope == r.scope && s.operator == r.operator && s.responseId == r.responseId
      && s.decidedAt == r.decidedAt && s.consumedAt == r.consumedAt && s.decision == r.decision && s.risks == r.risks
      && s.message == Shown(env, r.message) && s.request == RedactMapping(env.rules, r.request)
  {
    hide RedactMapping, RequestPaths;
  }

  /** What is queued of an approval result: an undecided record of its action, redacted. */
  lemma QueuedExactly(env: Env, r: LocalRecord)
    ensures var q := FromMcpResult(env, r);
      && (q.Ok? <==> r.id != "" && r.action.session != "" && r.action.provider != "" && r.action.capability != ""
                     && r.action.fingerprint != "" && r.decision != "" && r.message != "")
      && (q.Ok? ==>
            && q.value.status == Pending && q.value.scope == None && q.value.operator == None
            && q.value.responseId == None && q.value.reason == None && q.value.decidedAt == None
            && q.value.consumedAt == None && q.value.id == r.id && q.value.action == r.action
            && q.value.createdAt == r.createdAt && q.value.expiresAt == r.expiresAt && q.value.decision == r.decision
            && q.value.risks == r.risks && q.value.message == Shown(env, r.message)
            && q.value.request == RedactMapping(env.rules, r.request)
            && q.value.redactions == RequestPaths(env, r.request))
  {
    hide RedactMapping, RequestPaths;
  }

  // ---------------------------------------------------- stability under reload

  /**
   `to_dict` is stable: a record built from a default-posture request reads back from its written form, and
   then writes the same form again exactly when the request settles. Byte strings that redaction keeps are
   left aside, because writing turns them into text.
   */
  lemma WrittenIsStable(env: Env, r0: LocalRecord, r: LocalRecord)
    requires MasksInert(env.rules) && PostureKeysOpen(env.rules) && DefaultMapping(env.rules, r0.request)
    requires Read(env, r0) == Ok(r) && !KeepsBytesIn(env.rules, r0.request)
    ensures Rebuild(env, r).Ok?
    ensures Written(Rebuild(env, r).value) == Written(r) <==> Settles(env.rules, r0.request, "request.", r0.redactions)
  {
    hide RedactMapping, Reload, MappingReported, NoBytes, DefaultMapping, MasksInert, PostureKeysOpen, Settles, Listed;
    hide KeepsBytesIn;
    SecondPassSettles(env.rules, r0.request, "request.", r0.redactions);
    var s := Rebuild(env, r).value;
    var back := Written(r).request;
    RequestReload(env.rules, r0.request);
    assert s.message == r.message && s.reason == r.reason;
    var paths := RequestPaths(env, back);
    assert paths <= r.redactions <==> r.redactions + paths == r.redactions;
  }

  /** What is read back, redacted or not, is in the form that JSON returns. */
  lemma RequestReload(rules: Rules, request: map<string, Value>)
    requires !KeepsBytesIn(rules, request)
    ensures var back := Reload(Dict(RedactMapping(rules, request))).fields;
      Reload(Dict(RedactMapping(rules, back))).fields == RedactMapping(rules, back)
  {
    RedactNoBytesExactly(rules, request);
    var once := RedactMapping(rules, request);
    hide RedactMapping;
    ReloadPlain(Dict(once));
    ReloadFixed(Reload(Dict(once)));
    MappingReload(rules, Reload(Dict(once)).fields);
  }
}
