/**
 How a call that must ask comes back to the host (`mcp/models.py`, `mcp_sdk/host_models.py`,
 `mcp_sdk/approval_models.py`): the approval request is put into the result's data, the data
 pass through JSON and the redactor, and the host keeps the approval it reads there. What it
 reads is the action that was asked for, unless the target looks like a secret.
 */
module HostApprovals {
  import opened Wrappers
  import opened Values
  import opened Fingerprints
  import opened Clock
  import opened Redaction
  import opened RedactionLaws
  import opened Policy
  import opened Approvals
  import opened Engine
  import Clearance

  /** The approval kept for a call: id, action, expiry. */
  datatype HostApproval = HostApproval(id: string, binding: Binding, expiresAt: int)

  // ------------------------------------------------------------ the result's data

  function KindText(kind: ActorKind): string
  {
    match kind
    case Agent => "agent"
    case Operator => "operator"
    case Service => "service"
    case ProviderActor => "provider"
    case TestActor => "test"
  }

  function RequesterDict(a: Actor): map<string, Value>
  {
    map["type" := Str(KindText(a.kind)), "id" := Str(a.id)]
  }

  function CapabilityEntry(c: Capability, id: string): map<string, Value>
  {
    map["id" := Str(id), "family" := Str(c.family), "action" := Str(c.action)]
  }

  function TargetScope(targets: seq<string>): map<string, Value>
  {
    map["targets" := Texts(targets), "allow_real_hardware" := Bool(false)]
  }

  /** `ApprovalRequest.to_dict`, but for the limits and the id of the proposed event. */
  function ApprovalDict(time: TimeText, c: Capability, a: ApprovalRequest, provider: string): map<string, Value>
  {
    map[
      "id" := Str(a.id),
      "created_at" := Str(time.iso(a.createdAt)),
      "expires_at" := Str(time.iso(a.expiresAt)),
      "session_id" := Str(a.session),
      "requester" := Dict(RequesterDict(a.requester)),
      "capability" := Dict(CapabilityEntry(c, a.capability)),
      "target_scope" := Dict(TargetScope(a.targets)),
      "policy_decision" := Str(DecisionText(a.decision)),
      "operator_message" := Str(a.operatorMessage),
      "material_risks" := Texts(a.risks),
      "provider_id" := Str(provider)
    ]
  }

  /** The data of an approval_required result, as `mcp_result_from_control_plane` makes it. */
  function ResultData(rules: Rules, approval: map<string, Value>, parameters: map<string, Value>, fingerprint: string,
                      decision: string): map<string, Value>
  {
    map[
      "approval_request" := Dict(approval),
      "params_preview" := Dict(RedactMapping(rules, parameters)),
      "params_fingerprint" := Str(fingerprint),
      "policy_decision" := Str(decision)
    ]
  }

  /** JSON in the adapter, redaction in `HostToolResult`, and JSON again; byte strings cannot be written. */
  function Delivered(rules: Rules, data: map<string, Value>): Result<map<string, Value>>
  {
    if NoBytes(Dict(data)) then Ok(Reload(Dict(RedactMapping(rules, Reload(Dict(data)).fields))).fields)
    else Err("bytes are not JSON serializable")
  }

  // ------------------------------------------------------------ reading it

  function SubMapping(p: map<string, Value>, key: string): Result<map<string, Value>>
  {
    if key !in p then Ok(map[]) else if p[key].Dict? then Ok(p[key].fields) else Err(key + " must be an object")
  }

  /** `str(targets[0])` */
  function FirstTarget(w: Clearance.World, scope: map<string, Value>): Result<string>
  {
    var targets := Get(scope, "targets");
    if !targets.List? || targets.items == [] then Err("approval request target scope is missing")
    else Ok(w.text(targets.items[0]))
  }

  /** `_optional_str(params_fingerprint) or approval_fingerprint(params)` */
  function GivenFingerprint(data: map<string, Value>, otherwise: string): Result<string>
  {
    match Get(data, "params_fingerprint")
    case Null => Ok(otherwise)
    case Str(s) => Ok(if s != "" then s else otherwise)
    case _ => Err("approval optional string fields must be strings")
  }

  /** `_datetime_from_value`; an absent expiry is the present instant. */
  function ExpiryOf(time: TimeText, v: Value, now: int): Result<int>
  {
    match v
    case Null => Ok(now)
    case Str(s) =>
      (if s == "" then Err("approval datetime fields must be ISO datetime strings")
       else match time.parse(s) case Some(n) => Ok(n) case None => Err("Invalid isoformat string"))
    case _ => Err("approval datetime fields must be ISO datetime strings")
  }

  /** `HostApprovalRequest.from_host_result`; every error leaves the call without a kept approval. */
  function FromHostResult(w: Clearance.World, data: map<string, Value>, otherwise: string, now: int)
    : Result<HostApproval>
  {
    var approval := SubMapping(data, "approval_request");
    if approval.Err? then Err(approval.error) else
    var scope := SubMapping(approval.value, "target_scope");
    if scope.Err? then Err(scope.error) else
    var target := FirstTarget(w, scope.value);
    if target.Err? then Err(target.error) else
    var capability := SubMapping(approval.value, "capability");
    if capability.Err? then Err(capability.error) else
    var id := RequiredStr(approval.value, "id");
    if id.Err? then Err(id.error) else
    var session := RequiredStr(approval.value, "session_id");
    if session.Err? then Err(session.error) else
    var provider := RequiredStr(approval.value, "provider_id");
    if provider.Err? then Err(provider.error) else
    var name := RequiredStr(capability.value, "id");
    if name.Err? then Err(name.error) else
    var fingerprint := GivenFingerprint(data, otherwise);
    if fingerprint.Err? then Err(fingerprint.error) else
    var expiry := ExpiryOf(w.time, Get(approval.value, "expires_at"), now);
    if expiry.Err? then Err(expiry.error) else
    var decision := RequiredStr(approval.value, "policy_decision");
    if decision.Err? then Err(decision.error) else
    var message := RequiredStr(approval.value, "operator_message");
    if message.Err? then Err(message.error) else
    var preview := SubMapping(data, "params_preview");
    if preview.Err? then Err(preview.error) else
    if target.value == "" || fingerprint.value == "" then Err("approval request field is required")
    else
      Ok(HostApproval(id.value, Binding(name.value, session.value, target.value, provider.value, fingerprint.value),
                      expiry.value))
  }

  /** The text under a key, where it is required: there and not empty. */
  predicate HasText(p: map<string, Value>, k: string)
  {
    Get(p, k).Str? && Get(p, k) != Str("")
  }

  /** A mapping under a key, or nothing, which reads as an empty one. */
  predicate MappingOrNothing(p: map<string, Value>, k: string)
  {
    k in p ==> p[k].Dict?
  }

  function MappingAt(p: map<string, Value>, k: string): map<string, Value>
  {
    if k in p && p[k].Dict? then p[k].fields else map[]
  }

  /** The fingerprint in the data, or that of the call's own parameters. */
  function FingerprintIn(data: map<string, Value>, otherwise: string): string
  {
    if HasText(data, "params_fingerprint") then Get(data, "params_fingerprint").s else otherwise
  }

  /** The data hold everything that `HostApprovalRequest` insists on. */
  predicate Readable(w: Clearance.World, data: map<string, Value>, otherwise: string)
  {
    var approval := MappingAt(data, "approval_request");
    var scope := MappingAt(approval, "target_scope");
    && MappingOrNothing(data, "approval_request") && MappingOrNothing(approval, "target_scope")
    && MappingOrNothing(approval, "capability") && MappingOrNothing(data, "params_preview")
    && Get(scope, "targets").List? && Get(scope, "targets").items != []
    && w.text(Get(scope, "targets").items[0]) != ""
    && HasText(approval, "id") && HasText(approval, "session_id") && HasText(approval, "provider_id")
    && HasText(MappingAt(approval, "capability"), "id")
    && HasText(approval, "policy_decision") && HasText(approval, "operator_message")
    && (Get(data, "params_fingerprint").Null? || Get(data, "params_fingerprint").Str?)
    && FingerprintIn(data, otherwise) != ""
    && (Get(approval, "expires_at").Null?
        || (HasText(approval, "expires_at") && w.time.parse(Get(approval, "expires_at").s).Some?))
  }

  /** Exactly which results an approval is read from, and what it then says. */
  lemma ReadExactly(w: Clearance.World, data: map<string, Value>, otherwise: string, now: int)
    ensures var kept := FromHostResult(w, data, otherwise, now);
      && (kept.Ok? <==> Readable(w, data, otherwise))
      && (kept.Ok? ==>
            var approval := MappingAt(data, "approval_request");
            && kept.value.id == Get(approval, "id").s
            && kept.value.expiresAt == (if Get(approval, "expires_at").Null? then now
                                        else w.time.parse(Get(approval, "expires_at").s).value)
            && kept.value.binding
               == Binding(Get(MappingAt(approval, "capability"), "id").s, Get(approval, "session_id").s,
                          w.text(Get(MappingAt(approval, "target_scope"), "targets").items[0]),
                          Get(approval, "provider_id").s, FingerprintIn(data, otherwise)))
  {
    hide RequiredStr, SubMapping, FirstTarget, GivenFingerprint, ExpiryOf, HasText, MappingOrNothing, MappingAt;
    var approval := MappingAt(data, "approval_request");
    MappingExactly(data, "approval_request");
    MappingExactly(data, "params_preview");
    MappingExactly(approval, "target_scope");
    MappingExactly(approval, "capability");
    TextExactly(approval, "id");
    TextExactly(approval, "session_id");
    TextExactly(approval, "provider_id");
    TextExactly(MappingAt(approval, "capability"), "id");
    TextExactly(approval, "policy_decision");
    TextExactly(approval, "operator_message");
    TextExactly(approval, "expires_at");
    TextExactly(data, "params_fingerprint");
    OthersExactly(w, data, approval, MappingAt(approval, "target_scope"), otherwise, now);
  }

  lemma MappingExactly(p: map<string, Value>, k: string)
    ensures SubMapping(p, k).Ok? <==> MappingOrNothing(p, k)
    ensures SubMapping(p, k).Ok? ==> SubMapping(p, k).value == MappingAt(p, k)
  {
  }

  lemma TextExactly(p: map<string, Value>, k: string)
    ensures RequiredStr(p, k).Ok? <==> HasText(p, k)
    ensures HasText(p, k) ==> Get(p, k).Str? && Get(p, k).s != "" && RequiredStr(p, k).value == Get(p, k).s
    ensures Get(p, k).Str? && Get(p, k).s != "" ==> HasText(p, k)
  {
  }

  lemma OthersExactly(w: Clearance.World, data: map<string, Value>, approval: map<string, Value>,
                      scope: map<string, Value>, otherwise: string, now: int)
    ensures FirstTarget(w, scope).Ok? <==> Get(scope, "targets").List? && Get(scope, "targets").items != []
    ensures FirstTarget(w, scope).Ok? ==> FirstTarget(w, scope).value == w.text(Get(scope, "targets").items[0])
    ensures GivenFingerprint(data, otherwise).Ok?
       <==> Get(data, "params_fingerprint").Null? || Get(data, "params_fingerprint").Str?
    ensures GivenFingerprint(data, otherwise).Ok? ==>
      GivenFingerprint(data, otherwise).value == FingerprintIn(data, otherwise)
    ensures ExpiryOf(w.time, Get(approval, "expires_at"), now).Ok?
       <==> (Get(approval, "expires_at").Null?
             || (HasText(approval, "expires_at") && w.time.parse(Get(approval, "expires_at").s).Some?))
    ensures ExpiryOf(w.time, Get(approval, "expires_at"), now).Ok? ==>
      ExpiryOf(w.time, Get(approval, "expires_at"), now).value
      == (if Get(approval, "expires_at").Null? then now else w.time.parse(Get(approval, "expires_at").s).value)
  {
  }

  /** The approval request that the control plane builds for a call that must ask. */
  function AskedOf(plane: Plane, request: Request, env: Env): Result<ApprovalRequest>
  {
    BuildApprovalRequest(Decide(plane, request), request.capability, request.session, request.requester,
                         [request.target], request.effect, env.requestNow, env.freshId, Some(plane.provider))
  }

  /** The data the host gets back from a call that returned APPROVAL_REQUIRED. */
  function DataOf(plane: Plane, request: Request, asked: ApprovalRequest): map<string, Value>
    requires request.capability in plane.registry
  {
    ResultData(plane.world.rules,
               ApprovalDict(plane.world.time, plane.registry[request.capability], asked, plane.provider),
               request.parameters, BindingOf(plane, request).fingerprint, DecisionText(asked.decision))
  }

  /** What `call_tool` keeps of such a call, if it can read it. */
  function KeptApproval(plane: Plane, request: Request, env: Env): Result<HostApproval>
  {
    if request.capability !in plane.registry then Err("unknown capability")
    else
      var asked := AskedOf(plane, request, env);
      if asked.Err? then Err(asked.error)
      else
        match Delivered(plane.world.rules, DataOf(plane, request, asked.value))
        case Err(e) => Err(e)
        case Ok(data) => FromHostResult(plane.world, data, BindingOf(plane, request).fingerprint, env.requestNow)
  }

  // ------------------------------------------------------------ what passes the redactor

  /** A value under a key, redacted and back from JSON. */
  function Passed(rules: Rules, v: Value, key: string): Value
  {
    Reload(Redact(rules, v, key, false))
  }

  /** The field the host reads where `m` was sent. */
  ghost predicate Arrives(rules: Rules, m: map<string, Value>, got: map<string, Value>)
  {
    got.Keys == m.Keys && forall k :: k in m ==> got[k] == Passed(rules, m[k], k)
  }

  lemma PassedMapping(rules: Rules, m: map<string, Value>, key: string)
    requires Open(rules, key) && NoPosture(m)
    ensures Passed(rules, Dict(m), key).Dict? && Arrives(rules, m, Passed(rules, Dict(m), key).fields)
  {
    hide Reload;
    assert !ChildCapture(rules, m, false);
    var f := RedactFields(rules, Dict(m), false);
    assert Redact(rules, Dict(m), key, false) == Dict(f);
    ReloadFields(f);
  }

  lemma PassedText(rules: Rules, s: string, key: string)
    requires Open(rules, key)
    ensures Passed(rules, Str(s), key) == Str(if !rules.structural(key) && rules.secret(s) then REDACTED else s)
  {
  }

  lemma PassedTexts(rules: Rules, texts: seq<string>, key: string)
    requires Open(rules, key) && !rules.structural(key)
    ensures var got := Passed(rules, Texts(texts), key);
      && got.List? && |got.items| == |texts|
      && forall i :: 0 <= i < |texts| ==> got.items[i] == Str(Shown(rules, texts[i]))
  {
    var redacted := Redact(rules, Texts(texts), key, false);
    forall i | 0 <= i < |texts| ensures Reload(redacted.items[i]) == Str(Shown(rules, texts[i])) {
      PassedText(rules, texts[i], key);
      assert redacted.items[i] == Redact(rules, Str(texts[i]), key, false);
    }
  }

  /** What is shown of a text that may look like a secret. */
  function Shown(rules: Rules, s: string): string
  {
    if rules.secret(s) then REDACTED else s
  }

  lemma DeliveredArrives(rules: Rules, data: map<string, Value>)
    requires NoBytes(Dict(data)) && NoPosture(data)
    ensures Delivered(rules, data).Ok? && Arrives(rules, data, Delivered(rules, data).value)
  {
    hide Reload, Redact, NoBytes;
    assert !ChildCapture(rules, data, false);
    MappingReload(rules, data);
    RedactNoBytesMapping(rules, data);
    var once := RedactMapping(rules, data);
    ReloadPlain(Dict(once));
    ReloadFixed(Reload(Dict(once)));
    ReloadFields(once);
  }

  // ------------------------------------------------------------ what is kept

  /** What the redactor makes of the names in the data, and what it leaves alone. */
  ghost predicate HostKeys(rules: Rules)
  {
    && Open(rules, "approval_request") && Open(rules, "params_preview") && Open(rules, "target_scope")
    && Open(rules, "capability") && Open(rules, "targets") && !rules.structural("targets")
    && Open(rules, "expires_at") && Open(rules, "policy_decision") && Open(rules, "operator_message")
    && Token(rules, "id") && Token(rules, "session_id") && Token(rules, "provider_id")
    && Token(rules, "params_fingerprint")
  }

  /** Instants and decisions do not look like secrets; texts, dates and digests are as Python has them. */
  ghost predicate HostWorld(w: Clearance.World)
  {
    && HostKeys(w.rules) && MasksInert(w.rules) && RoundTrips(w.time)
    && (forall s :: w.text(Str(s)) == s) && (forall s :: w.sha(s) != "")
    && (forall n :: !w.rules.secret(w.time.iso(n)))
    && !w.rules.secret("") && !w.rules.secret("ask_each_time") && !w.rules.secret("ask_once_per_session")
  }

  lemma ShownNamed(w: Clearance.World, s: string)
    requires HostWorld(w)
    ensures Shown(w.rules, s) != "" <==> s != ""
  {
    hide HostKeys;
  }

  lemma ApprovalNames(time: TimeText, c: Capability, a: ApprovalRequest, provider: string)
    ensures var p := ApprovalDict(time, c, a, provider);
      && Has(p, "id", Str(a.id)) && Has(p, "session_id", Str(a.session)) && Has(p, "provider_id", Str(provider))
      && Has(p, "capability", Dict(CapabilityEntry(c, a.capability)))
      && Has(p, "target_scope", Dict(TargetScope(a.targets)))
  {
    hide RequesterDict, CapabilityEntry, TargetScope, Texts, DecisionText;
  }

  /** What else the host shows of the request: when it was made, who asks, and what is at stake. */
  lemma ApprovalRest(time: TimeText, c: Capability, a: ApprovalRequest, provider: string)
    ensures var p := ApprovalDict(time, c, a, provider);
      && Has(p, "created_at", Str(time.iso(a.createdAt))) && Has(p, "material_risks", Texts(a.risks))
      && Has(p, "requester", Dict(map["type" := Str(KindText(a.requester.kind)), "id" := Str(a.requester.id)]))
      && Has(p, "capability",
             Dict(map["id" := Str(a.capability), "family" := Str(c.family), "action" := Str(c.action)]))
      && Has(p, "target_scope", Dict(map["targets" := Texts(a.targets), "allow_real_hardware" := Bool(false)]))
    ensures KindText(Agent) == "agent" && KindText(Operator) == "operator" && KindText(Service) == "service"
        && KindText(ProviderActor) == "provider" && KindText(TestActor) == "test"
  {
    hide Texts, DecisionText;
  }

  lemma ApprovalTexts(time: TimeText, c: Capability, a: ApprovalRequest, provider: string)
    ensures var p := ApprovalDict(time, c, a, provider);
      && Has(p, "expires_at", Str(time.iso(a.expiresAt)))
      && Has(p, "policy_decision", Str(DecisionText(a.decision)))
      && Has(p, "operator_message", Str(a.operatorMessage))
  {
    hide RequesterDict, CapabilityEntry, TargetScope, Texts, DecisionText;
  }

  lemma ApprovalNoPosture(time: TimeText, c: Capability, a: ApprovalRequest, provider: string)
    ensures NoPosture(ApprovalDict(time, c, a, provider))
  {
    hide RequesterDict, CapabilityEntry, TargetScope, Texts, DecisionText;
  }

  lemma PartsNoBytes(c: Capability, a: ApprovalRequest)
    ensures NoBytes(Dict(RequesterDict(a.requester))) && NoBytes(Dict(CapabilityEntry(c, a.capability)))
    ensures NoBytes(Dict(TargetScope(a.targets))) && NoBytes(Texts(a.risks))
  {
    TextsPlain(a.targets);
    ReloadFixed(Texts(a.targets));
    TextsPlain(a.risks);
    ReloadFixed(Texts(a.risks));
    var r, e, t := RequesterDict(a.requester), CapabilityEntry(c, a.capability), TargetScope(a.targets);
    forall k | k in r ensures NoBytes(r[k]) {}
    forall k | k in e ensures NoBytes(e[k]) {}
    forall k | k in t ensures NoBytes(t[k]) {}
  }

  lemma ApprovalNoBytes(time: TimeText, c: Capability, a: ApprovalRequest, provider: string)
    ensures NoBytes(Dict(ApprovalDict(time, c, a, provider)))
  {
    PartsNoBytes(c, a);
    hide RequesterDict, CapabilityEntry, TargetScope, Texts, DecisionText;
    var p := ApprovalDict(time, c, a, provider);
    forall k | k in p ensures NoBytes(p[k]) {}
  }

  lemma DataEntries(rules: Rules, approval: map<string, Value>, parameters: map<string, Value>, fingerprint: string,
                    decision: string)
    ensures var d := ResultData(rules, approval, parameters, fingerprint, decision);
      && Has(d, "approval_request", Dict(approval)) && Has(d, "params_fingerprint", Str(fingerprint))
      && Has(d, "params_preview", Dict(RedactMapping(rules, parameters))) && NoPosture(d)
  {
    hide RedactMapping;
  }

  lemma DataNoBytes(rules: Rules, approval: map<string, Value>, parameters: map<string, Value>, fingerprint: string,
                    decision: string)
    requires NoBytes(Dict(approval))
    ensures NoBytes(Dict(ResultData(rules, approval, parameters, fingerprint, decision)))
       <==> !KeepsBytesIn(rules, parameters)
  {
    hide RedactMapping, KeepsBytesIn;
    RedactNoBytesExactly(rules, parameters);
    var d := ResultData(rules, approval, parameters, fingerprint, decision);
    assert d["params_preview"] == Dict(RedactMapping(rules, parameters));
    if !KeepsBytesIn(rules, parameters) {
      forall k | k in d ensures NoBytes(d[k]) {}
    }
  }

  /** The texts a kept approval cannot do without. */
  predicate Named(a: ApprovalRequest, provider: string, target: string)
  {
    a.id != "" && a.session != "" && provider != "" && a.capability != "" && target != ""
  }

  /** What is read of the nested approval. */
  ghost predicate ApprovalArrives(w: Clearance.World, c: Capability, a: ApprovalRequest, provider: string,
                                  got: map<string, Value>)
  {
    && Has(got, "id", Str(a.id)) && Has(got, "session_id", Str(a.session)) && Has(got, "provider_id", Str(provider))
    && Has(got, "expires_at", Str(w.time.iso(a.expiresAt)))
    && Has(got, "policy_decision", Str(DecisionText(a.decision)))
    && (Has(got, "operator_message", Str(a.operatorMessage)) || Has(got, "operator_message", Str(REDACTED)))
    && NestedArrives(w, c, a, got)
  }

  ghost predicate NestedArrives(w: Clearance.World, c: Capability, a: ApprovalRequest, got: map<string, Value>)
  {
    && "capability" in got && got["capability"].Dict? && Has(got["capability"].fields, "id", Str(a.capability))
    && "target_scope" in got && got["target_scope"].Dict?
    && "targets" in got["target_scope"].fields && got["target_scope"].fields["targets"].List?
    && var items := got["target_scope"].fields["targets"].items;
       |items| == |a.targets| && (a.targets != [] ==> items[0] == Str(Shown(w.rules, a.targets[0])))
  }

  /** A text that is not masked arrives as it was sent. */
  lemma TextArrives(rules: Rules, p: map<string, Value>, got: map<string, Value>, k: string, text: string)
    requires Arrives(rules, p, got) && Has(p, k, Str(text))
    requires Token(rules, k) || (Open(rules, k) && !rules.secret(text))
    ensures Has(got, k, Str(text))
  {
    hide Passed;
    PassedText(rules, text, k);
  }

  lemma MappingArrives(rules: Rules, p: map<string, Value>, got: map<string, Value>, k: string, m: map<string, Value>)
    requires Arrives(rules, p, got) && Has(p, k, Dict(m)) && Open(rules, k) && NoPosture(m)
    ensures k in got && got[k].Dict? && Arrives(rules, m, got[k].fields)
  {
    hide Passed;
    PassedMapping(rules, m, k);
  }

  lemma MessageArrives(rules: Rules, p: map<string, Value>, got: map<string, Value>, k: string, text: string)
    requires Arrives(rules, p, got) && Has(p, k, Str(text)) && Open(rules, k)
    ensures Has(got, k, Str(text)) || Has(got, k, Str(REDACTED))
  {
    hide Passed;
    PassedText(rules, text, k);
  }

  lemma TargetsArrive(rules: Rules, targets: seq<string>, got: map<string, Value>)
    requires Arrives(rules, TargetScope(targets), got) && Open(rules, "targets") && !rules.structural("targets")
    ensures "targets" in got && got["targets"].List? && |got["targets"].items| == |targets|
    ensures targets != [] ==> got["targets"].items[0] == Str(Shown(rules, targets[0]))
  {
    hide Passed, Texts;
    PassedTexts(rules, targets, "targets");
    assert TargetScope(targets)["targets"] == Texts(targets);
  }

  lemma PartsNoPosture(c: Capability, a: ApprovalRequest)
    ensures NoPosture(CapabilityEntry(c, a.capability)) && NoPosture(TargetScope(a.targets))
    ensures Has(CapabilityEntry(c, a.capability), "id", Str(a.capability))
  {
  }

  lemma NestedRead(w: Clearance.World, c: Capability, a: ApprovalRequest, p: map<string, Value>,
                   got: map<string, Value>)
    requires HostWorld(w) && Arrives(w.rules, p, got)
    requires Has(p, "capability", Dict(CapabilityEntry(c, a.capability)))
    requires Has(p, "target_scope", Dict(TargetScope(a.targets)))
    ensures NestedArrives(w, c, a, got)
  {
    PartsNoPosture(c, a);
    hide Arrives, Open, Token, CapabilityEntry, TargetScope, NoPosture;
    MappingArrives(w.rules, p, got, "capability", CapabilityEntry(c, a.capability));
    TextArrives(w.rules, CapabilityEntry(c, a.capability), got["capability"].fields, "id", a.capability);
    MappingArrives(w.rules, p, got, "target_scope", TargetScope(a.targets));
    TargetsArrive(w.rules, a.targets, got["target_scope"].fields);
  }

  lemma DecisionShown(w: Clearance.World, d: Decision)
    requires HostWorld(w) && (d.AskEachTime? || d.AskOncePerSession?)
    ensures !w.rules.secret(DecisionText(d)) && DecisionText(d) != ""
  {
  }

  lemma ApprovalRead(w: Clearance.World, c: Capability, a: ApprovalRequest, provider: string, got: map<string, Value>)
    requires HostWorld(w) && (a.decision.AskEachTime? || a.decision.AskOncePerSession?)
    requires Arrives(w.rules, ApprovalDict(w.time, c, a, provider), got)
    ensures ApprovalArrives(w, c, a, provider, got)
  {
    ApprovalNames(w.time, c, a, provider);
    ApprovalTexts(w.time, c, a, provider);
    DecisionShown(w, a.decision);
    hide Arrives, Open, Token, ApprovalDict, CapabilityEntry, TargetScope, NestedArrives, DecisionText;
    var p := ApprovalDict(w.time, c, a, provider);
    NestedRead(w, c, a, p, got);
    TextArrives(w.rules, p, got, "id", a.id);
    TextArrives(w.rules, p, got, "session_id", a.session);
    TextArrives(w.rules, p, got, "provider_id", provider);
    TextArrives(w.rules, p, got, "expires_at", w.time.iso(a.expiresAt));
    TextArrives(w.rules, p, got, "policy_decision", DecisionText(a.decision));
    MessageArrives(w.rules, p, got, "operator_message", a.operatorMessage);
  }

  lemma RequiredReads(p: map<string, Value>, k: string, text: string)
    requires Has(p, k, Str(text))
    ensures RequiredStr(p, k).Ok? <==> text != ""
    ensures text != "" ==> RequiredStr(p, k) == Ok(text)
  {
  }

  lemma SubReads(p: map<string, Value>, k: string)
    requires k in p && p[k].Dict?
    ensures SubMapping(p, k) == Ok(p[k].fields)
  {
  }

  lemma TargetReads(w: Clearance.World, scope: map<string, Value>, target: string)
    requires HostWorld(w) && "targets" in scope && scope["targets"].List?
    requires scope["targets"].items != [] && scope["targets"].items[0] == Str(target)
    ensures FirstTarget(w, scope) == Ok(target)
  {
  }

  lemma RestReads(w: Clearance.World, got: map<string, Value>, approval: map<string, Value>, fingerprint: string,
                  expiresAt: int, now: int)
    requires HostWorld(w) && fingerprint != "" && Has(got, "params_fingerprint", Str(fingerprint))
    requires Has(approval, "expires_at", Str(w.time.iso(expiresAt)))
    ensures GivenFingerprint(got, fingerprint) == Ok(fingerprint)
    ensures ExpiryOf(w.time, Get(approval, "expires_at"), now) == Ok(expiresAt)
  {
    hide HostKeys;
  }

  /** The host reads the approval back, its target as it is shown, exactly when nothing it needs is empty. */
  lemma HostReads(w: Clearance.World, c: Capability, a: ApprovalRequest, provider: string, got: map<string, Value>,
                  approval: map<string, Value>, fingerprint: string, now: int)
    requires HostWorld(w) && a.targets != [] && fingerprint != "" && a.operatorMessage != ""
    requires a.decision.AskEachTime? || a.decision.AskOncePerSession?
    requires ApprovalArrives(w, c, a, provider, approval)
    requires Has(got, "approval_request", Dict(approval)) && Has(got, "params_fingerprint", Str(fingerprint))
    requires "params_preview" in got && got["params_preview"].Dict?
    ensures var kept := FromHostResult(w, got, fingerprint, now);
      && (kept.Ok? <==> Named(a, provider, Shown(w.rules, a.targets[0])))
      && (kept.Ok? ==>
            kept.value == HostApproval(a.id, Binding(a.capability, a.session, Shown(w.rules, a.targets[0]), provider,
                                                     fingerprint), a.expiresAt))
  {
    hide RequiredStr, SubMapping, FirstTarget, GivenFingerprint, ExpiryOf, HostWorld, DecisionText, Shown;
    DecisionShown(w, a.decision);
    SubReads(got, "approval_request");
    SubReads(got, "params_preview");
    SubReads(approval, "target_scope");
    SubReads(approval, "capability");
    TargetReads(w, approval["target_scope"].fields, Shown(w.rules, a.targets[0]));
    RequiredReads(approval, "id", a.id);
    RequiredReads(approval, "session_id", a.session);
    RequiredReads(approval, "provider_id", provider);
    RequiredReads(approval["capability"].fields, "id", a.capability);
    RequiredReads(approval, "policy_decision", DecisionText(a.decision));
    MessageReads(approval, a.operatorMessage);
    RestReads(w, got, approval, fingerprint, a.expiresAt, now);
  }

  lemma MessageReads(approval: map<string, Value>, message: string)
    requires message != ""
    requires Has(approval, "operator_message", Str(message)) || Has(approval, "operator_message", Str(REDACTED))
    ensures RequiredStr(approval, "operator_message").Ok?
  {
  }

  /** A call with a name for everything that a kept approval cannot do without. */
  predicate Presentable(plane: Plane, request: Request, env: Env)
  {
    && env.freshId != "" && request.session != "" && request.target != "" && plane.provider != ""
    && request.capability != ""
  }

  /** The action as the host sees it. */
  function ShownBinding(plane: Plane, request: Request): Binding
  {
    BindingOf(plane, request).(target := Shown(plane.world.rules, request.target))
  }

  lemma AskedFields(plane: Plane, request: Request, env: Env)
    requires Decide(plane, request).RequiresApproval()
    ensures var asked := AskedOf(plane, request, env);
      && asked.Ok? && asked.value.id == env.freshId && asked.value.session == request.session
      && asked.value.capability == request.capability && asked.value.targets == [request.target]
      && asked.value.createdAt == env.requestNow && asked.value.expiresAt == env.requestNow + 900
      && asked.value.requester == request.requester && asked.value.operatorMessage != ""
      && asked.value.decision == Decide(plane, request).decision && asked.value.provider == Some(plane.provider)
      && asked.value.risks == (if Decide(plane, request).risks == [] then ["operator approval required"]
                               else Decide(plane, request).risks)
  {
    hide Decide, JoinNames, DecisionText;
  }

  /** What the operator is shown of a call that must ask. */
  lemma AskedMessage(plane: Plane, request: Request, env: Env)
    requires Decide(plane, request).RequiresApproval()
    ensures AskedOf(plane, request, env).Ok?
    ensures AskedOf(plane, request, env).value.operatorMessage
         == request.requester.id + " requests " + request.capability + " for targets " + request.target
            + ". Intended effect: " + request.effect + ". Policy decision: "
            + (if Decide(plane, request).decision.AskEachTime? then "ask_each_time" else "ask_once_per_session") + "."
  {
    hide Decide;
    assert JoinNames([request.target]) == request.target;
  }

  lemma FingerprintNamed(plane: Plane, request: Request)
    requires HostWorld(plane.world)
    ensures BindingOf(plane, request).fingerprint != ""
  {
    hide HostKeys;
  }

  /**
   What is kept of a call that must ask: an approval exactly when everything has a name and no byte string of the
   parameters survives redaction, and then that of the call's own action with the target as it is shown.
   */
  lemma KeptExactly(plane: Plane, request: Request, env: Env)
    requires HostWorld(plane.world) && request.capability in plane.registry
    requires Decide(plane, request).RequiresApproval()
    ensures var kept := KeptApproval(plane, request, env);
      && (kept.Ok? <==> Presentable(plane, request, env) && !KeepsBytesIn(plane.world.rules, request.parameters))
      && (kept.Ok? ==> kept.value == HostApproval(env.freshId, ShownBinding(plane, request), env.requestNow + 900))
  {
    hide Decide, AskedOf, HostWorld, BindingOf, FromHostResult, ApprovalDict, Delivered, ResultData, NoBytes;
    hide ApprovalArrives, KeepsBytesIn, Arrives, Shown;
    var w := plane.world;
    var c := plane.registry[request.capability];
    AskedFields(plane, request, env);
    FingerprintNamed(plane, request);
    var a := AskedOf(plane, request, env).value;
    var fingerprint := BindingOf(plane, request).fingerprint;
    var approval := ApprovalDict(w.time, c, a, plane.provider);
    ApprovalNoBytes(w.time, c, a, plane.provider);
    DataNoBytes(w.rules, approval, request.parameters, fingerprint, DecisionText(a.decision));
    if KeepsBytesIn(w.rules, request.parameters) {
      NotDelivered(w.rules, DataOf(plane, request, a));
    } else {
      KeptRead(w, c, a, plane.provider, request.parameters, fingerprint, env.requestNow);
      BindingParts(plane, request);
      ShownNamed(w, request.target);
    }
  }

  lemma NotDelivered(rules: Rules, data: map<string, Value>)
    requires !NoBytes(Dict(data))
    ensures Delivered(rules, data).Err?
  {
  }

  lemma BindingParts(plane: Plane, request: Request)
    ensures var b := BindingOf(plane, request);
      && b.capability == request.capability && b.session == request.session && b.target == request.target
      && b.provider == plane.provider
      && b.fingerprint == StoreFingerprint(plane.world.sha, request.parameters, plane.world.bytesText)
  {
  }

  lemma KeptRead(w: Clearance.World, c: Capability, a: ApprovalRequest, provider: string,
                 parameters: map<string, Value>, fingerprint: string, now: int)
    requires HostWorld(w) && |a.targets| == 1 && fingerprint != "" && a.operatorMessage != ""
    requires (a.decision.AskEachTime? || a.decision.AskOncePerSession?) && !KeepsBytesIn(w.rules, parameters)
    ensures var data := ResultData(w.rules, ApprovalDict(w.time, c, a, provider), parameters, fingerprint,
                                   DecisionText(a.decision));
      && Delivered(w.rules, data).Ok?
      && var kept := FromHostResult(w, Delivered(w.rules, data).value, fingerprint, now);
      && (kept.Ok? <==> Named(a, provider, Shown(w.rules, a.targets[0])))
      && (kept.Ok? ==>
            kept.value == HostApproval(a.id, Binding(a.capability, a.session, Shown(w.rules, a.targets[0]), provider,
                                                     fingerprint), a.expiresAt))
  {
    hide FromHostResult, ApprovalDict, Delivered, ResultData, NoBytes, ApprovalArrives, KeepsBytesIn, Arrives;
    hide DecisionText, NoPosture, Open, Token, RedactMapping;
    var approval := ApprovalDict(w.time, c, a, provider);
    var data := ResultData(w.rules, approval, parameters, fingerprint, DecisionText(a.decision));
    ApprovalNoBytes(w.time, c, a, provider);
    ApprovalNoPosture(w.time, c, a, provider);
    DataNoBytes(w.rules, approval, parameters, fingerprint, DecisionText(a.decision));
    DataEntries(w.rules, approval, parameters, fingerprint, DecisionText(a.decision));
    DeliveredArrives(w.rules, data);
    var got := Delivered(w.rules, data).value;
    MappingArrives(w.rules, data, got, "approval_request", approval);
    ApprovalRead(w, c, a, provider, got["approval_request"].fields);
    TextArrives(w.rules, data, got, "params_fingerprint", fingerprint);
    PreviewArrives(w.rules, data, got, RedactMapping(w.rules, parameters));
    HostReads(w, c, a, provider, got, got["approval_request"].fields, fingerprint, now);
  }

  lemma PreviewArrives(rules: Rules, data: map<string, Value>, got: map<string, Value>, preview: map<string, Value>)
    requires Arrives(rules, data, got) && Has(data, "params_preview", Dict(preview)) && Open(rules, "params_preview")
    ensures "params_preview" in got && got["params_preview"].Dict?
  {
    hide RedactFields;
  }
}
