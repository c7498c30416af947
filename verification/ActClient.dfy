/**
 The aircraft's side of an ACT clearance: the payload it sends, the response it
 parses, and the verifier's checks (`act_http_client.py`, `clearance.py`,
 `act_client.py`). The main result is the honest exchange, end to end.
 */
module ActClient {
  import opened Wrappers
  import opened Values
  import opened CanonicalJson
  import opened Fingerprints
  import opened Clock
  import opened OperatorMessage
  import opened Clearance
  import opened ClearanceProof
  import Signatures
  import Ed25519

  datatype Status = ClearanceRequired | Cleared | Denied | Expired | Invalid | TowerUnavailable | VerificationFailed

  datatype Response = Response(
    status: Status, requestId: string, sessionId: string, target: string, provider: string, capability: string,
    fingerprint: string, riskFamily: string, shortCode: string, expiresAt: Option<int>, towerId: Value,
    proof: Option<map<string, Value>>, correlationId: string, operatorMessage: string, reason: string,
    contractVersion: string, material: Option<Material>)

  const CONTRACT_V2 := "act.clearance.v2"

  // ---------------------------------------------------------------- sending

  /** `act_wire_risk_family` */
  function WireFamily(family: string): string
  {
    if family == "high_risk" then "external_effect" else if family == "low_risk" then "routine" else family
  }

  /** `clearance_request_to_act_payload` */
  function ActPayload(r: ClearanceRequest, agentId: string, expiresIn: int): map<string, Value>
  {
    map["requested_tool" := Str(r.capability), "capability" := Str(r.capability),
        "risk_level" := Str(if r.riskFamily == "high_risk" then "high" else "low"),
        "risk_family" := Str(WireFamily(r.riskFamily)), "summary" := Str(r.riskSummary),
        "payload_redacted" := PayloadRedacted(r.capability), "agent_id" := Str(agentId),
        "session_id" := Str(r.sessionId), "expires_in_seconds" := Int(expiresIn),
        "operator_message" := Str(r.operatorMessage), "short_code" := Str(r.shortCode),
        "audit_correlation_id" := Str(r.correlationId), "action_id" := Str(r.requestId),
        "extensions" := Extensions(RequestEnvelope(r))]
  }

  /** The payload as the tower decodes it. */
  function Wire(payload: map<string, Value>): map<string, Value>
  {
    map k | k in payload :: Reload(payload[k])
  }

  // ---------------------------------------------------------------- parsing

  predicate Truthy(v: Value)
  {
    match v
    case Null => false
    case Bool(b) => b
    case Int(n) => n != 0
    case Str(s) => s != ""
    case Bytes(data) => data != []
    case List(items) => items != []
    case Tuple(items) => items != []
    case Dict(fields) => fields != map[]
  }

  /** `a or b` */
  function Either(a: Value, b: Value): Value
  {
    if Truthy(a) then a else b
  }

  /** `str(p.get(k, otherwise))` */
  function TextAt(w: World, p: map<string, Value>, k: string, otherwise: string): string
  {
    if k in p then w.text(p[k]) else otherwise
  }

  function StatusOf(state: string): Status
  {
    if state == "pending" then ClearanceRequired
    else if state == "approved" then Cleared
    else if state == "denied" then Denied
    else if state == "expired" then Expired
    else if state == "cancelled" then Denied
    else VerificationFailed
  }

  /** `_parse_act_datetime` */
  function ParseActTime(time: TimeText, text: string): Option<int>
  {
    if text != "" && text[|text| - 1] == 'Z' then time.parse(text[..|text| - 1] + "+00:00") else time.parse(text)
  }

  /** `extensions.agentickvm`, or nothing. */
  function EnvelopeIn(p: map<string, Value>): map<string, Value>
  {
    var extensions := Get(p, "extensions");
    if extensions.Dict? && Get(extensions.fields, "agentickvm").Dict? then Get(extensions.fields, "agentickvm").fields
      else map[]
  }

  /** A core field, or the one echoed in the envelope. */
  function Echoed(w: World, p: map<string, Value>, k: string): string
  {
    w.text(Either(Either(Get(p, k), Get(EnvelopeIn(p), k)), Str("")))
  }

  function RequestIdIn(w: World, p: map<string, Value>): string
  {
    w.text(Either(Either(Get(p, "request_id"), Get(p, "approval_id")), Str("")))
  }

  /** The strings the tower signed, exactly as they arrived. */
  function BoundMaterial(w: World, p: map<string, Value>, proof: map<string, Value>): Material
  {
    map["approval_id" := w.text(Either(Get(p, "approval_id"), Str(RequestIdIn(w, p)))),
        "params_fingerprint" := TextAt(w, p, "params_fingerprint", ""),
        "short_code" := TextAt(w, p, "short_code", ""),
        "risk_family" := TextAt(w, p, "risk_family", ""),
        "expires_at" := w.text(Either(Get(p, "expires_at"), Str(""))),
        "tower_id" := TextAt(w, p, "tower_id", ""),
        "contract_version" := TextAt(w, p, "contract_version", CONTRACT_V2),
        "extensions_digest" := TextAt(w, proof, "extensions_digest", "")]
  }

  function ResponseError(r: Response): Option<string>
  {
    if r.fingerprint == "" then Some("clearance params_fingerprint is required")
    else if !KnownFamily(r.riskFamily) then Some("unknown clearance risk_family")
    else if r.shortCode == "" then Some("clearance short_code is required")
    else if HasDoublePeriod(r.operatorMessage) then Some("operator message must not contain double periods")
    else None
  }

  function ProofIn(p: map<string, Value>): Option<map<string, Value>>
  {
    if Get(p, "proof").Dict? then Some(Get(p, "proof").fields) else None
  }

  function ResponseFields(w: World, p: map<string, Value>, expiresAt: Option<int>): Response
  {
    var proof := ProofIn(p);
    Response(
      StatusOf(w.lower(TextAt(w, p, "state", ""))), RequestIdIn(w, p), Echoed(w, p, "session_id"),
      Echoed(w, p, "target"), Echoed(w, p, "provider"), Echoed(w, p, "capability"),
      TextAt(w, p, "params_fingerprint", ""), TextAt(w, p, "risk_family", ""), TextAt(w, p, "short_code", ""),
      expiresAt, Get(p, "tower_id"), proof, w.text(Either(Get(p, "audit_correlation_id"), Str(""))),
      w.text(Either(Get(p, "operator_message"), Str(""))), w.text(Either(Get(p, "reason"), Str(""))),
      TextAt(w, p, "contract_version", CONTRACT_V2),
      if proof.Some? then Some(BoundMaterial(w, p, proof.value)) else None)
  }

  /** `clearance_response_from_act_payload` */
  function ParseResponse(w: World, p: map<string, Value>): Result<Response>
  {
    var raw := Get(p, "expires_at");
    var expiresAt := if Truthy(raw) then ParseActTime(w.time, w.text(raw)) else None;
    if Truthy(raw) && expiresAt.None? then Err("invalid isoformat string")
    else
      var r := ResponseFields(w, p, expiresAt);
      match ResponseError(r)
      case Some(e) => Err(e)
      case None => Ok(r)
  }

  // -------------------------------------------------------------- verifying

  datatype ProofChecker = Pending | Mock | Real(crypto: Crypto, keys: map<string, seq<Ed25519.Byte>>)

  datatype Verifier = Verifier(tower: string, checker: ProofChecker, testMode: bool)

  datatype Verification = Verification(valid: bool, status: Status, reason: string)

  /** `verify_proof` of the three proof verifiers. */
  predicate CheckProof(checker: ProofChecker, r: Response)
  {
    match checker
    case Pending => false
    case Mock => r.proof.Some? && Get(r.proof.value, "mock_act_proof") == Str("verified")
    case Real(crypto, keys) =>
      r.proof.Some? && r.proof.value != map[] && r.material.Some?
          && VerifyProof(crypto, r.material.value, r.proof.value, keys)
  }

  /** `_first_mismatch` over the bound fields. */
  function Mismatch(request: ClearanceRequest, r: Response): Option<string>
  {
    if r.requestId != request.requestId then Some("request_id")
    else if r.sessionId != request.sessionId then Some("session_id")
    else if r.target != request.target then Some("target")
    else if r.provider != request.provider then Some("provider")
    else if r.capability != request.capability then Some("capability")
    else if r.fingerprint != request.fingerprint then Some("params_fingerprint")
    else if r.shortCode != request.shortCode then Some("short_code")
    else if r.correlationId != request.correlationId then Some("audit_correlation_id")
    else if r.riskFamily in AIRCRAFT_FAMILIES && r.riskFamily != request.riskFamily then Some("risk_family")
    else None
  }

  /** `ACTClearanceVerifier.verify` */
  function VerifyClearance(v: Verifier, request: ClearanceRequest, r: Response, now: int): Verification
  {
    if r.status != Cleared then
      Verification(false, r.status, if r.reason != "" then r.reason else "clearance is not cleared")
    else if r.towerId != Str(v.tower) then Verification(false, VerificationFailed, "tower identity mismatch")
    else if Mismatch(request, r).Some?
      then Verification(false, VerificationFailed, Mismatch(request, r).value + " mismatch")
    else if r.expiresAt.None? then Verification(false, VerificationFailed, "clearance expiry is required")
    else if now >= r.expiresAt.value then Verification(false, Expired, "clearance expired")
    else if r.proof.None? then Verification(false, VerificationFailed, "ACT clearance proof is required")
    else if !v.testMode && v.checker.Mock?
      then Verification(false, VerificationFailed, "mock ACT proof verifier is test-only")
    else if !CheckProof(v.checker, r)
      then Verification(false, VerificationFailed, "ACT clearance proof verification failed")
    else Verification(true, Cleared, "ACT clearance verified")
  }

  /** Every field the response binds is the request's own. */
  predicate BoundTo(request: ClearanceRequest, r: Response)
  {
    && r.requestId == request.requestId && r.sessionId == request.sessionId && r.target == request.target
    && r.provider == request.provider && r.capability == request.capability && r.fingerprint == request.fingerprint
    && r.shortCode == request.shortCode && r.correlationId == request.correlationId
    && (r.riskFamily == "low_risk" || r.riskFamily == "high_risk" ==> r.riskFamily == request.riskFamily)
  }

  /** What each kind of checker accepts: nothing, the test marker in test mode, or a real proof over its material. */
  predicate Proved(v: Verifier, r: Response)
  {
    match v.checker
    case Pending => false
    case Mock => v.testMode && r.proof.Some? && Get(r.proof.value, "mock_act_proof") == Str("verified")
    case Real(crypto, keys) =>
      && r.proof.Some? && r.proof.value != map[] && r.material.Some?
      && VerifyProof(crypto, r.material.value, r.proof.value, keys)
  }

  /** A clearance is valid exactly when it is cleared, bound, unexpired and proved by a checker in its proper mode. */
  lemma ValidExactly(v: Verifier, request: ClearanceRequest, r: Response, now: int)
    ensures VerifyClearance(v, request, r, now).valid
       <==> (r.status == Cleared && r.towerId == Str(v.tower) && BoundTo(request, r)
             && r.expiresAt.Some? && now < r.expiresAt.value && Proved(v, r))
    ensures VerifyClearance(v, request, r, now).valid ==> VerifyClearance(v, request, r, now).status == Cleared
    ensures Proved(v, r) <==> CheckProof(v.checker, r) && (v.checker.Mock? ==> v.testMode)
  {
    hide KnownFamily, VerifyProof;
  }

  /** What an invalid clearance is reported as: the tower's own status, expiry, or a failed verification. */
  lemma InvalidStatus(v: Verifier, request: ClearanceRequest, r: Response, now: int)
    requires !VerifyClearance(v, request, r, now).valid
    ensures VerifyClearance(v, request, r, now).status
         == if r.status != Cleared then r.status
            else if r.towerId == Str(v.tower) && BoundTo(request, r) && r.expiresAt.Some? && now >= r.expiresAt.value
              then Expired
            else VerificationFailed
  {
    hide KnownFamily, CheckProof;
  }

  // ------------------------------------------------------------ the payload and the states

  /** The tower's words for the aircraft's risk families. */
  predicate RiskWords(family: string, level: string, wire: string)
  {
    if family == "high_risk" then level == "high" && wire == "external_effect"
    else level == "low" && wire == (if family == "low_risk" then "routine" else family)
  }

  /** What the tower is sent about a request. */
  lemma PayloadExactly(r: ClearanceRequest, agentId: string, expiresIn: int)
    ensures var p := ActPayload(r, agentId, expiresIn);
      && Has(p, "requested_tool", Str(r.capability)) && Has(p, "capability", Str(r.capability))
      && Has(p, "agent_id", Str(agentId)) && Has(p, "session_id", Str(r.sessionId))
      && Has(p, "expires_in_seconds", Int(expiresIn)) && Has(p, "summary", Str(r.riskSummary))
  {
    hide PayloadRedacted, Extensions, RequestEnvelope, WireFamily;
  }

  lemma PayloadRest(r: ClearanceRequest, agentId: string, expiresIn: int)
    ensures var p := ActPayload(r, agentId, expiresIn);
      && Has(p, "operator_message", Str(r.operatorMessage)) && Has(p, "short_code", Str(r.shortCode))
      && Has(p, "audit_correlation_id", Str(r.correlationId)) && Has(p, "action_id", Str(r.requestId))
      && "risk_level" in p && p["risk_level"].Str? && "risk_family" in p && p["risk_family"].Str?
      && RiskWords(r.riskFamily, p["risk_level"].s, p["risk_family"].s)
  {
    hide PayloadRedacted, Extensions, RequestEnvelope;
  }

  /** What the aircraft makes of the tower's states. */
  lemma StatusExactly(state: string)
    ensures StatusOf(state) == Cleared <==> state == "approved"
    ensures StatusOf(state) == Denied <==> state == "denied" || state == "cancelled"
    ensures StatusOf(state) == Expired <==> state == "expired"
    ensures StatusOf(state) == ClearanceRequired <==> state == "pending"
    ensures StatusOf(state) != Invalid && StatusOf(state) != TowerUnavailable
  {
  }

  /** What Python's `or` passes over. */
  lemma TruthyExactly(v: Value)
    ensures Truthy(v)
       <==> !(v == Null || v == Bool(false) || v == Int(0) || v == Str("") || v == Bytes([]) || v == List([])
              || v == Tuple([]) || v == Dict(map[]))
  {
  }

  /** A trailing Z stands for +00:00. */
  lemma TimeExactly(time: TimeText, text: string)
    ensures ParseActTime(time, text + "Z") == time.parse(text + "+00:00")
    ensures (text == "" || text[|text| - 1] != 'Z') ==> ParseActTime(time, text) == time.parse(text)
  {
    assert (text + "Z")[..|text|] == text;
  }

  /** A reply is refused exactly for an unreadable expiry, a missing binding, an unknown family or a double period. */
  lemma ParsesExactly(w: World, p: map<string, Value>)
    ensures ParseResponse(w, p).Ok?
       <==> ((Truthy(Get(p, "expires_at")) ==> ParseActTime(w.time, w.text(Get(p, "expires_at"))).Some?)
             && "params_fingerprint" in p && w.text(p["params_fingerprint"]) != ""
             && "short_code" in p && w.text(p["short_code"]) != ""
             && "risk_family" in p && Family(w.text(p["risk_family"]))
             && !HasDoublePeriod(w.text(if Truthy(Get(p, "operator_message")) then p["operator_message"] else Str(""))))
    ensures ParseResponse(w, p).Ok? ==>
      ParseResponse(w, p).value.status == StatusOf(w.lower(if "state" in p then w.text(p["state"]) else ""))
  {
    hide KnownFamily, Family, HasDoublePeriod, ParseActTime, StatusOf, BoundMaterial, Echoed, RequestIdIn;
    FamiliesExactly(TextAt(w, p, "risk_family", ""));
    NoFamily();
  }

  /** The text under a key, or the empty one where there is nothing to read. */
  function Said(w: World, p: map<string, Value>, k: string): string
  {
    w.text(if k in p && Truthy(p[k]) then p[k] else Str(""))
  }

  /** What a reply says beside its binding; without a version it is of the second. */
  lemma ParsedTexts(w: World, p: map<string, Value>)
    requires ParseResponse(w, p).Ok?
    ensures var r := ParseResponse(w, p).value;
      var version := if "contract_version" in p then w.text(p["contract_version"]) else "act.clearance.v2";
      && r.contractVersion == version && r.correlationId == Said(w, p, "audit_correlation_id")
      && r.operatorMessage == Said(w, p, "operator_message") && r.reason == Said(w, p, "reason")
      && (r.material.Some? ==>
            "contract_version" in r.material.value && r.material.value["contract_version"] == version)
  {
    hide KnownFamily, HasDoublePeriod, ParseActTime, StatusOf, Echoed, RequestIdIn, Truthy, BoundMaterial, Said;
    SaidIs(w, p, "audit_correlation_id");
    SaidIs(w, p, "operator_message");
    SaidIs(w, p, "reason");
    if ProofIn(p).Some? { BoundVersion(w, p, ProofIn(p).value); }
  }

  lemma SaidIs(w: World, p: map<string, Value>, k: string)
    ensures w.text(Either(Get(p, k), Str(""))) == Said(w, p, k)
  {
  }

  lemma BoundVersion(w: World, p: map<string, Value>, proof: map<string, Value>)
    ensures "contract_version" in BoundMaterial(w, p, proof)
    ensures BoundMaterial(w, p, proof)["contract_version"]
         == if "contract_version" in p then w.text(p["contract_version"]) else "act.clearance.v2"
  {
    hide Truthy, RequestIdIn;
  }

  lemma NoFamily()
    ensures !Family("")
  {
  }
}
