/**
 Clearance requests as the aircraft builds them (`clearance.py`), including the
 fingerprints and short codes predicted the way the tower computes them
 (`act_fingerprint.py`).
 */
module Clearance {
  import opened Wrappers
  import opened Values
  import opened CanonicalJson
  import opened Fingerprints
  import Redaction
  import opened Clock
  import opened OperatorMessage

  /** What is taken from outside: SHA-256, ISO texts, `str()`, and `str.lower`. */
  datatype World = World(sha: Hash, time: TimeText, text: Value -> string, bytesText: seq<bv8> -> string,
                         lower: string -> string, rules: Redaction.Rules)

  /** `str(s)` of a string is the string itself; ISO texts round trip; the hash is injective. */
  ghost predicate Sensible(w: World)
  {
    && CollisionFree(w.sha) && RoundTrips(w.time)
    && (forall s :: w.text(Str(s)) == s)
    && w.lower("approved") == "approved"
  }

  const DEFAULT_TIMEOUT := 20
  const AIRCRAFT_FAMILIES: set<string> := {"low_risk", "high_risk"}
  const TOWER_FAMILIES: set<string> := {
    "observe", "read_only", "routine", "external_effect", "destructive",
    "credential_or_secret", "safety_critical", "irreversible"
  }

  predicate KnownFamily(family: string)
  {
    family in AIRCRAFT_FAMILIES || family in TOWER_FAMILIES
  }

  // ------------------------------------------------------------- ACT parity

  /** `act_canonical_json` */
  function ActCanonicalJson(w: World, v: Value): string
  {
    StoreCanonicalPlain(v, w.bytesText);
    ReloadFixed(StoreCanonical(v, w.bytesText));
    Dumps(StoreCanonical(v, w.bytesText))
  }

  function ActContentHash(w: World, v: Value): string
  {
    w.sha(ActCanonicalJson(w, v))
  }

  function FingerprintMaterial(payload: Value, extensions: Value): Value
  {
    Dict(map["payload_redacted" := payload, "extensions" := extensions])
  }

  /** `act_params_fingerprint` */
  function ActFingerprint(w: World, payload: Value, extensions: Value): string
  {
    ActContentHash(w, FingerprintMaterial(payload, extensions))
  }

  function Take(s: string, n: nat): string
  {
    if |s| <= n then s else s[..n]
  }

  function UpperChar(c: char): char
  {
    if 'a' <= c <= 'z' then c - 32 as char else c
  }

  /** `str.upper` on hexadecimal digits. */
  function Upper(s: string): (r: string)
    ensures |r| == |s|
  {
    seq(|s|, i requires 0 <= i < |s| => UpperChar(s[i]))
  }

  /** `act_short_code` */
  function ActShortCode(w: World, approvalId: string, fingerprint: string): string
  {
    Upper(Take(w.sha(approvalId + ":" + fingerprint), 10))
  }

  /** `_short_code` of the local mirror. */
  function LocalShortCode(w: World, requestId: string, fingerprint: string): string
  {
    var raw := Upper(Take(w.sha(requestId + ":" + fingerprint), 8));
    Take(raw, 4) + "-" + raw[|Take(raw, 4)|..]
  }

  /** The binding carried under `extensions.agentickvm`. */
  datatype Envelope = Envelope(target: string, provider: string, capability: string, sessionId: string,
                               summary: string, context: map<string, Value>)

  function EnvelopeFields(e: Envelope): map<string, Value>
  {
    map["target" := Str(e.target), "provider" := Str(e.provider), "capability" := Str(e.capability),
        "session_id" := Str(e.sessionId), "risk_summary" := Str(e.summary), "policy_context" := Dict(e.context)]
  }

  /** `act_agentickvm_extensions` */
  function Extensions(e: Envelope): Value
  {
    Dict(map["agentickvm" := Dict(EnvelopeFields(e))])
  }

  /** `act_payload_redacted` */
  function PayloadRedacted(capability: string): Value
  {
    Dict(map["capability" := Str(capability)])
  }

  // ----------------------------------------------------------------- requests

  datatype ClearanceRequest = ClearanceRequest(
    requestId: string, sessionId: string, target: string, provider: string, capability: string,
    fingerprint: string, riskFamily: string, riskSummary: string, materialRisks: seq<string>,
    operatorMessage: string, requestedBy: string, createdAt: int, expiresAt: int, shortCode: string,
    policyContext: map<string, Value>, correlationId: string)

  /** The arguments of `build_clearance_request`; `requestId` is the given or the fresh one. */
  datatype Arguments = Arguments(
    sessionId: string, target: string, provider: string, capability: string, parameters: map<string, Value>,
    riskFamily: string, riskSummary: string, materialRisks: seq<string>, effect: string, requestedBy: string,
    correlationId: string, policyContext: map<string, Value>, now: int, ttl: int, requestId: string, parity: bool)

  function EnvelopeOf(a: Arguments): Envelope
  {
    Envelope(a.target, a.provider, a.capability, a.sessionId, a.riskSummary, a.policyContext)
  }

  /** The extensions `act_request_extensions` recomputes from a finished request. */
  function RequestEnvelope(r: ClearanceRequest): Envelope
  {
    Envelope(r.target, r.provider, r.capability, r.sessionId, r.riskSummary, r.policyContext)
  }

  function OperatorText(code: string, a: Arguments): string
  {
    "Clearance " + code + " required for " + a.capability + " on target " + a.target + " through provider "
    + a.provider + ". Intended effect: " + a.effect + ". Risk: " + a.riskSummary
    + ". Surface this code to the operator and retry with identical parameters after approval."
  }

  /** `build_operator_message` */
  method BuildOperatorMessage(code: string, a: Arguments) returns (message: string)
    ensures message == Collapse(OperatorText(code, a)) && !HasDoublePeriod(message)
  {
    message := Settle(OperatorText(code, a));
  }

  function RequestFingerprint(w: World, a: Arguments): Result<string>
  {
    if a.parity then Ok(ActFingerprint(w, PayloadRedacted(a.capability), Extensions(EnvelopeOf(a))))
    else FingerprintParameters(w.sha, a.parameters)
  }

  function RequestShortCode(w: World, a: Arguments, fingerprint: string): string
  {
    if a.parity then ActShortCode(w, a.requestId, fingerprint) else LocalShortCode(w, a.requestId, fingerprint)
  }

  /** `ClearanceRequest.__post_init__` */
  predicate Complete(r: ClearanceRequest)
  {
    && r.requestId != "" && r.sessionId != "" && r.target != "" && r.provider != "" && r.capability != ""
    && r.fingerprint != "" && r.operatorMessage != "" && r.requestedBy != "" && r.shortCode != ""
    && r.correlationId != ""
  }

  function RequestError(r: ClearanceRequest): Option<string>
  {
    if !Complete(r) then Some("clearance request missing required fields")
    else if HasDoublePeriod(r.operatorMessage) then Some("operator message must not contain double periods")
    else if r.expiresAt <= r.createdAt then Some("clearance expiry must be after creation")
    else None
  }

  function Assemble(a: Arguments, fingerprint: string, code: string): ClearanceRequest
  {
    ClearanceRequest(a.requestId, a.sessionId, a.target, a.provider, a.capability, fingerprint, a.riskFamily,
                     a.riskSummary, a.materialRisks, Collapse(OperatorText(code, a)), a.requestedBy, a.now,
                     a.now + a.ttl, code, a.policyContext, a.correlationId)
  }

  /** `build_clearance_request` */
  function BuildRequest(w: World, a: Arguments): Result<ClearanceRequest>
  {
    if a.ttl < 0 then Err("clearance ttl cannot be negative")
    else if a.ttl > DEFAULT_TIMEOUT then Err("clearance ttl cannot exceed default without explicit policy")
    else
      var fingerprint := RequestFingerprint(w, a);
      if fingerprint.Err? then Err(fingerprint.error)
      else if fingerprint.value == "" then Err("clearance params_fingerprint is required")
      else
        var code := RequestShortCode(w, a, fingerprint.value);
        if code == "" then Err("clearance short_code is required")
        else if !KnownFamily(a.riskFamily) then Err("unknown clearance risk_family")
        else if a.riskSummary == "" then Err("risk summary is required")
        else
          var r := Assemble(a, fingerprint.value, code);
          match RequestError(r)
          case Some(e) => Err(e)
          case None => Ok(r)
  }

  /** The names a caller must supply. */
  predicate Named(a: Arguments)
  {
    && a.requestId != "" && a.sessionId != "" && a.target != "" && a.provider != "" && a.capability != ""
    && a.requestedBy != "" && a.correlationId != "" && a.riskSummary != ""
  }

  /** The risk families of the aircraft and of the tower. */
  predicate Family(name: string)
  {
    || name == "low_risk" || name == "high_risk"
    || name == "observe" || name == "read_only" || name == "routine" || name == "external_effect"
    || name == "destructive" || name == "credential_or_secret" || name == "safety_critical" || name == "irreversible"
  }

  lemma FamiliesExactly(name: string)
    ensures KnownFamily(name) <==> Family(name)
  {
  }

  /** The request says what its arguments say, and lasts for the asked lifetime. */
  predicate Carries(r: ClearanceRequest, a: Arguments)
  {
    && r.requestId == a.requestId && r.sessionId == a.sessionId && r.target == a.target && r.provider == a.provider
    && r.capability == a.capability && r.riskFamily == a.riskFamily && r.riskSummary == a.riskSummary
    && r.materialRisks == a.materialRisks
    && r.requestedBy == a.requestedBy && r.correlationId == a.correlationId && r.policyContext == a.policyContext
    && r.createdAt == a.now && r.expiresAt - r.createdAt == a.ttl
  }

  /** What the operator is told: the code, the action, its effect and its risk. */
  function Told(r: ClearanceRequest, effect: string): string
  {
    "Clearance " + r.shortCode + " required for " + r.capability + " on target " + r.target + " through provider "
    + r.provider + ". Intended effect: " + effect + ". Risk: " + r.riskSummary
    + ". Surface this code to the operator and retry with identical parameters after approval."
  }

  // ------------------------------------------------------------- main results

  lemma ShortCodeNonEmpty(w: World, a: Arguments, fingerprint: string)
    requires CollisionFree(w.sha)
    ensures RequestShortCode(w, a, fingerprint) != ""
  {
    assert w.sha(a.requestId + ":" + fingerprint) != "";
  }

  /** The first characters of a digest in upper case: ten for the tower, two groups of four for the aircraft. */
  lemma CodesExactly(w: World, id: string, fingerprint: string)
    requires |w.sha(id + ":" + fingerprint)| >= 10
    ensures var digest := w.sha(id + ":" + fingerprint);
      && ActShortCode(w, id, fingerprint) == Upper(digest[..10])
      && LocalShortCode(w, id, fingerprint) == Upper(digest[..4]) + "-" + Upper(digest[4..8])
  {
    var digest := w.sha(id + ":" + fingerprint);
    assert digest[..8][..4] == digest[..4] && digest[..8][4..] == digest[4..8];
    assert Upper(digest[..8])[..4] == Upper(digest[..4]) && Upper(digest[..8])[4..] == Upper(digest[4..8]);
  }

  /** Upper case keeps decimal digits and turns the hexadecimal letters into capitals. */
  lemma UpperHex()
    ensures Upper("0123456789abcdef") == "0123456789ABCDEF"
  {
  }

  /**
   Exactly which requests can be built. The double-period check never fails: the
   message has been collapsed. A lifetime of zero passes the range check and then
   fails, because the expiry is not after the creation.
   */
  lemma BuildExactly(w: World, a: Arguments)
    requires CollisionFree(w.sha)
    ensures BuildRequest(w, a).Ok?
       <==> (0 < a.ttl <= 20 && Named(a) && Family(a.riskFamily)
             && (a.parity || NoBytes(Dict(a.parameters))))
    ensures BuildRequest(w, a).Ok? ==> !HasDoublePeriod(BuildRequest(w, a).value.operatorMessage)
    ensures BuildRequest(w, a).Ok? ==> Carries(BuildRequest(w, a).value, a)
    ensures BuildRequest(w, a).Ok? ==>
      BuildRequest(w, a).value.operatorMessage == Collapse(Told(BuildRequest(w, a).value, a.effect))
  {
    hide RequestFingerprint, RequestShortCode, OperatorText, KnownFamily, Family, HasDoublePeriod, Collapse, Told;
    FamiliesExactly(a.riskFamily);
    var fingerprint := RequestFingerprint(w, a);
    FingerprintExists(w, a);
    if fingerprint.Ok? {
      ShortCodeNonEmpty(w, a, fingerprint.value);
      FingerprintNonEmpty(w, a);
      var code := RequestShortCode(w, a, fingerprint.value);
      CollapseHasNone(OperatorText(code, a));
      OperatorTextStarts(code, a);
      if BuildRequest(w, a).Ok? { ToldExactly(BuildRequest(w, a).value, a); }
    }
  }

  lemma ToldExactly(r: ClearanceRequest, a: Arguments)
    requires Carries(r, a)
    ensures Told(r, a.effect) == OperatorText(r.shortCode, a)
  {
  }

  lemma OperatorTextStarts(code: string, a: Arguments)
    ensures OperatorText(code, a) != ""
  {
  }

  lemma FingerprintExists(w: World, a: Arguments)
    requires CollisionFree(w.sha)
    ensures RequestFingerprint(w, a).Ok? <==> a.parity || NoBytes(Dict(a.parameters))
  {
    FingerprintBinds(w.sha, a.parameters, a.parameters);
  }

  lemma FingerprintNonEmpty(w: World, a: Arguments)
    requires CollisionFree(w.sha) && RequestFingerprint(w, a).Ok?
    ensures RequestFingerprint(w, a).value != ""
  {
    if !a.parity {
      assert CanonicalText(Dict(a.parameters)).Ok?;
    }
  }

  /** A local fingerprint binds the parameters; a parity fingerprint binds the envelope the tower sees. */
  lemma LocalRequestBindsParameters(w: World, a: Arguments, b: Arguments)
    requires CollisionFree(w.sha) && !a.parity && !b.parity
    requires BuildRequest(w, a).Ok? && BuildRequest(w, b).Ok?
    ensures BuildRequest(w, a).value.fingerprint == BuildRequest(w, b).value.fingerprint
       <==> Reload(Dict(a.parameters)) == Reload(Dict(b.parameters))
  {
    hide BuildRequest;
    BuiltFrom(w, a);
    BuiltFrom(w, b);
    FingerprintBinds(w.sha, a.parameters, b.parameters);
  }

  /** A local request is bound to its parameters, a parity request to its envelope; the code is that of the binding. */
  lemma BindingExactly(w: World, a: Arguments)
    requires BuildRequest(w, a).Ok?
    ensures var r := BuildRequest(w, a).value;
      if a.parity then
        && r.fingerprint == ActFingerprint(w, PayloadRedacted(a.capability), Extensions(EnvelopeOf(a)))
        && r.shortCode == ActShortCode(w, r.requestId, r.fingerprint)
      else
        && FingerprintParameters(w.sha, a.parameters) == Ok(r.fingerprint)
        && r.shortCode == LocalShortCode(w, r.requestId, r.fingerprint)
  {
    hide BuildRequest, ActFingerprint, FingerprintParameters, ActShortCode, LocalShortCode, OperatorText;
    BuiltFrom(w, a);
  }

  /** A built request carries the arguments, the fingerprint and the matching short code. */
  lemma BuiltFrom(w: World, a: Arguments)
    requires BuildRequest(w, a).Ok?
    ensures RequestFingerprint(w, a).Ok?
    ensures var fp := RequestFingerprint(w, a).value;
      BuildRequest(w, a).value == Assemble(a, fp, RequestShortCode(w, a, fp))
    ensures 0 < a.ttl <= DEFAULT_TIMEOUT && KnownFamily(a.riskFamily)
  {
    hide RequestFingerprint, RequestShortCode, OperatorText, KnownFamily;
  }

  lemma ActHashBinds(w: World, v: Value, u: Value)
    requires CollisionFree(w.sha)
    ensures ActContentHash(w, v) == ActContentHash(w, u)
        <==> StoreCanonical(v, w.bytesText) == StoreCanonical(u, w.bytesText)
  {
    StoreCanonicalPlain(v, w.bytesText);
    StoreCanonicalPlain(u, w.bytesText);
    ReloadFixed(StoreCanonical(v, w.bytesText));
    ReloadFixed(StoreCanonical(u, w.bytesText));
    if ActContentHash(w, v) == ActContentHash(w, u) {
      DumpsInjective(StoreCanonical(v, w.bytesText), StoreCanonical(u, w.bytesText));
    }
  }

  lemma FieldCanonical(w: World, fields: map<string, Value>, k: string)
    requires k in fields
    ensures var v := StoreCanonical(Dict(fields), w.bytesText);
      v.Dict? && k in v.fields && v.fields[k] == StoreCanonical(fields[k], w.bytesText)
  {
  }

  /** Equal parity fingerprints mean equal target, provider, capability, session and summary. */
  lemma ParityFingerprintBinds(w: World, c: string, e: Envelope, d: string, f: Envelope)
    requires CollisionFree(w.sha)
    requires ActFingerprint(w, PayloadRedacted(c), Extensions(e))
        == ActFingerprint(w, PayloadRedacted(d), Extensions(f))
    ensures c == d && e.target == f.target && e.provider == f.provider && e.capability == f.capability
         && e.sessionId == f.sessionId && e.summary == f.summary
  {
    hide StoreCanonical, FingerprintMaterial, PayloadRedacted, Extensions, EnvelopeFields, ActContentHash;
    ActHashBinds(w, FingerprintMaterial(PayloadRedacted(c), Extensions(e)),
                 FingerprintMaterial(PayloadRedacted(d), Extensions(f)));
    OpenMaterial(w, c, e);
    OpenMaterial(w, d, f);
    OpenEnvelope(w, e);
    OpenEnvelope(w, f);
  }

  function InnerField(v: Value, k: string): Value
  {
    if v.Dict? then Get(v.fields, k) else Null
  }

  /** The parts of canonical fingerprint material, as they are read back from it. */
  lemma OpenMaterial(w: World, c: string, e: Envelope)
    ensures var v := StoreCanonical(FingerprintMaterial(PayloadRedacted(c), Extensions(e)), w.bytesText);
      && v.Dict?
      && InnerField(Get(v.fields, "payload_redacted"), "capability") == Str(c)
      && InnerField(Get(v.fields, "extensions"), "agentickvm") == StoreCanonical(Dict(EnvelopeFields(e)), w.bytesText)
  {
    hide EnvelopeFields;
    FieldCanonical(w, FingerprintMaterial(PayloadRedacted(c), Extensions(e)).fields, "payload_redacted");
    FieldCanonical(w, FingerprintMaterial(PayloadRedacted(c), Extensions(e)).fields, "extensions");
    FieldCanonical(w, PayloadRedacted(c).fields, "capability");
    FieldCanonical(w, Extensions(e).fields, "agentickvm");
  }

  lemma OpenEnvelope(w: World, e: Envelope)
    ensures var v := StoreCanonical(Dict(EnvelopeFields(e)), w.bytesText);
      && v.Dict?
      && Get(v.fields, "target") == Str(e.target) && Get(v.fields, "provider") == Str(e.provider)
      && Get(v.fields, "capability") == Str(e.capability) && Get(v.fields, "session_id") == Str(e.sessionId)
      && Get(v.fields, "risk_summary") == Str(e.summary)
  {
    hide EnvelopeFields;
    EnvelopeEntries(e);
    var fields := EnvelopeFields(e);
    FieldCanonical(w, fields, "target");
    FieldCanonical(w, fields, "provider");
    FieldCanonical(w, fields, "capability");
    FieldCanonical(w, fields, "session_id");
    FieldCanonical(w, fields, "risk_summary");
  }

  lemma EnvelopeEntries(e: Envelope)
    ensures Has(EnvelopeFields(e), "target", Str(e.target)) && Has(EnvelopeFields(e), "provider", Str(e.provider))
    ensures Has(EnvelopeFields(e), "capability", Str(e.capability))
    ensures Has(EnvelopeFields(e), "session_id", Str(e.sessionId))
    ensures Has(EnvelopeFields(e), "risk_summary", Str(e.summary))
    ensures Has(EnvelopeFields(e), "policy_context", Dict(e.context))
  {
  }
}
