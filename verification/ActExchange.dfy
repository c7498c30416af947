/**
 The honest exchange: a tower that computes fingerprint, short code and digest
 from exactly the payload it received, echoes the envelope, and signs the bound
 material is believed by the aircraft until the clearance expires.
 */
module ActExchange {
  import opened Wrappers
  import opened Values
  import opened Fingerprints
  import opened Clock
  import opened OperatorMessage
  import opened Clearance
  import opened ClearanceProof
  import opened ActClient
  import opened Signatures
  import opened Rfc8032
  import opened Ed25519

  /** What the tower decides: its name, the resolved family, and the expiry it writes. */
  datatype Tower = Tower(id: string, family: string, expiresText: string)

  function ReceivedFingerprint(w: World, body: map<string, Value>): string
  {
    ActFingerprint(w, Get(body, "payload_redacted"), Get(body, "extensions"))
  }

  /** Nothing is said under this key, or something Python's `or` passes over. */
  predicate Silent(p: map<string, Value>, k: string)
  {
    !Truthy(Get(p, k))
  }

  /** The reply names the approval, under one key or both. */
  predicate Identifies(reply: map<string, Value>, id: Value)
  {
    && (Silent(reply, "request_id") || Get(reply, "request_id") == id)
    && (Silent(reply, "approval_id") || Get(reply, "approval_id") == id)
    && !(Silent(reply, "request_id") && Silent(reply, "approval_id"))
  }

  /** A field of the request, said outright or left to the echoed envelope. */
  predicate Restates(reply: map<string, Value>, k: string, v: Value)
  {
    Get(reply, k) == v || (Silent(reply, k) && Get(EnvelopeIn(reply), k) == v)
  }

  function VersionOf(w: World, reply: map<string, Value>): string
  {
    TextAt(w, reply, "contract_version", CONTRACT_V2)
  }

  function MessageOf(w: World, reply: map<string, Value>): string
  {
    w.text(Either(Get(reply, "operator_message"), Str("")))
  }

  /** The identity part of an honest reply, in any supported version and with any well-formed message. */
  predicate HonestIdentity(w: World, reply: map<string, Value>, body: map<string, Value>)
  {
    var sent := EnvelopeIn(body);
    && Has(reply, "state", Str("approved")) && VersionOf(w, reply) in SUPPORTED_VERSIONS
    && Identifies(reply, Get(body, "action_id"))
    && Restates(reply, "target", Get(sent, "target")) && Restates(reply, "provider", Get(sent, "provider"))
    && Restates(reply, "capability", Get(sent, "capability")) && Restates(reply, "session_id", Get(sent, "session_id"))
    && Has(reply, "audit_correlation_id", Get(body, "audit_correlation_id"))
    && !HasDoublePeriod(MessageOf(w, reply))
  }

  /** The part an honest tower computes from the payload, never from the aircraft's own claims. */
  predicate HonestComputation(w: World, t: Tower, reply: map<string, Value>, body: map<string, Value>)
  {
    var id := Get(body, "action_id");
    && id.Str?
    && Has(reply, "params_fingerprint", Str(ReceivedFingerprint(w, body)))
    && Has(reply, "short_code", Str(ActShortCode(w, id.s, ReceivedFingerprint(w, body))))
    && Has(reply, "risk_family", Str(t.family)) && Has(reply, "tower_id", Str(t.id))
    && Has(reply, "expires_at", Str(t.expiresText)) && ProofIn(reply).Some?
  }

  /** A parity request was built, put on the wire, and answered honestly. */
  ghost predicate HonestExchange(w: World, t: Tower, a: Arguments, agentId: string, expiresIn: int,
                                 reply: map<string, Value>)
  {
    && Sensible(w) && a.parity && BuildRequest(w, a).Ok? && NoBytes(Dict(a.policyContext))
    && t.expiresText != "" && ParseActTime(w.time, t.expiresText).Some?
    && KnownFamily(t.family) && (t.family in AIRCRAFT_FAMILIES ==> t.family == a.riskFamily)
    && var body := Wire(ActPayload(BuildRequest(w, a).value, agentId, expiresIn));
       HonestIdentity(w, reply, body) && HonestComputation(w, t, reply, body)
  }

  /** The parsed response says what the request says, plus what the tower decided. */
  predicate Mirrors(w: World, t: Tower, request: ClearanceRequest, reply: map<string, Value>, r: Response)
  {
    && r.status == Cleared && r.towerId == Str(t.id)
    && r.requestId == request.requestId && r.sessionId == request.sessionId && r.target == request.target
    && r.provider == request.provider && r.capability == request.capability && r.fingerprint == request.fingerprint
    && r.shortCode == request.shortCode && r.correlationId == request.correlationId
    && r.riskFamily == t.family && r.expiresAt == ParseActTime(w.time, t.expiresText)
    && ProofIn(reply).Some? && r.proof == ProofIn(reply)
    && r.material == Some(BoundMaterial(w, reply, ProofIn(reply).value))
  }

  // ------------------------------------------------------------ on the wire

  lemma WireEntries(r: ClearanceRequest, agentId: string, expiresIn: int)
    ensures var body := Wire(ActPayload(r, agentId, expiresIn));
      && Get(body, "action_id") == Str(r.requestId) && Get(body, "audit_correlation_id") == Str(r.correlationId)
      && Get(body, "payload_redacted") == Reload(PayloadRedacted(r.capability))
      && Has(body, "extensions", Reload(Extensions(RequestEnvelope(r))))
  {
    hide Reload;
    var payload := ActPayload(r, agentId, expiresIn);
    PayloadEntries(r, agentId, expiresIn);
    assert Reload(Str(r.requestId)) == Str(r.requestId) by { ReloadStr(r.requestId); }
    assert Reload(Str(r.correlationId)) == Str(r.correlationId) by { ReloadStr(r.correlationId); }
  }

  lemma ReloadStr(s: string)
    ensures Reload(Str(s)) == Str(s)
  {
  }

  lemma PayloadEntries(r: ClearanceRequest, agentId: string, expiresIn: int)
    ensures var payload := ActPayload(r, agentId, expiresIn);
      && Has(payload, "action_id", Str(r.requestId)) && Has(payload, "audit_correlation_id", Str(r.correlationId))
      && Has(payload, "payload_redacted", PayloadRedacted(r.capability))
      && Has(payload, "extensions", Extensions(RequestEnvelope(r)))
  {
  }

  lemma EnvelopeNoBytes(e: Envelope)
    requires NoBytes(Dict(e.context))
    ensures NoBytes(Extensions(e))
  {
    var fields := EnvelopeFields(e);
    assert NoBytes(Dict(fields)) by {
      forall k | k in fields ensures NoBytes(fields[k]) {
        assert fields[k].Str? || fields[k] == Dict(e.context);
      }
    }
  }

  /** Decoding does not change what ACT hashes. */
  lemma CanonicalSurvivesWire(w: World, v: Value)
    requires NoBytes(v)
    ensures StoreCanonical(Reload(v), w.bytesText) == StoreCanonical(v, w.bytesText)
  {
    ReloadPlain(v);
    ReloadFixed(Reload(v));
    StoreCanonicalPlain(v, w.bytesText);
    StoreCanonicalPlain(Reload(v), w.bytesText);
  }

  lemma MaterialCanonical(w: World, p: Value, x: Value, p': Value, x': Value)
    requires StoreCanonical(p, w.bytesText) == StoreCanonical(p', w.bytesText)
    requires StoreCanonical(x, w.bytesText) == StoreCanonical(x', w.bytesText)
    ensures ActFingerprint(w, p, x) == ActFingerprint(w, p', x')
  {
    hide StoreCanonical, FingerprintMaterial;
    CanonicalMaterial(w, p, x);
    CanonicalMaterial(w, p', x');
  }

  lemma CanonicalMaterial(w: World, p: Value, x: Value)
    ensures StoreCanonical(FingerprintMaterial(p, x), w.bytesText)
         == FingerprintMaterial(StoreCanonical(p, w.bytesText), StoreCanonical(x, w.bytesText))
  {
    var fields := FingerprintMaterial(p, x).fields;
    FieldCanonical(w, fields, "payload_redacted");
    FieldCanonical(w, fields, "extensions");
  }

  /** Parity: the tower's fingerprint over the decoded payload is the one the request already carries. */
  lemma FingerprintParity(w: World, a: Arguments, agentId: string, expiresIn: int)
    requires a.parity && BuildRequest(w, a).Ok? && NoBytes(Dict(a.policyContext))
    ensures var r := BuildRequest(w, a).value;
      var body := Wire(ActPayload(r, agentId, expiresIn));
      && ReceivedFingerprint(w, body) == r.fingerprint
      && ActShortCode(w, r.requestId, ReceivedFingerprint(w, body)) == r.shortCode
      && r.requestId == a.requestId && RequestEnvelope(r) == EnvelopeOf(a)
  {
    hide BuildRequest, ActFingerprint, StoreCanonical, Reload, ActPayload, OperatorText, Collapse;
    BuiltFrom(w, a);
    var r := BuildRequest(w, a).value;
    WireEntries(r, agentId, expiresIn);
    EnvelopeNoBytes(EnvelopeOf(a));
    CanonicalSurvivesWire(w, Extensions(EnvelopeOf(a)));
    assert NoBytes(PayloadRedacted(a.capability));
    CanonicalSurvivesWire(w, PayloadRedacted(a.capability));
    MaterialCanonical(w, Reload(PayloadRedacted(a.capability)), Reload(Extensions(EnvelopeOf(a))),
                      PayloadRedacted(a.capability), Extensions(EnvelopeOf(a)));
  }

  // ----------------------------------------------------------- reading back

  lemma EchoedEnvelope(p: map<string, Value>, e: Envelope)
    requires Has(p, "extensions", Reload(Extensions(e)))
    ensures Has(EnvelopeIn(p), "target", Str(e.target)) && Has(EnvelopeIn(p), "provider", Str(e.provider))
    ensures Has(EnvelopeIn(p), "capability", Str(e.capability)) && Has(EnvelopeIn(p), "session_id", Str(e.sessionId))
  {
    hide EnvelopeFields;
    var fields := EnvelopeFields(e);
    EnvelopeEntries(e);
    assert Reload(Extensions(e)) == Dict(map["agentickvm" := Reload(Dict(fields))]);
    assert Get(Reload(Extensions(e)).fields, "agentickvm") == Reload(Dict(fields));
    assert EnvelopeIn(p) == Reload(Dict(fields)).fields;
    ReloadEntry(fields, "target", e.target);
    ReloadEntry(fields, "provider", e.provider);
    ReloadEntry(fields, "capability", e.capability);
    ReloadEntry(fields, "session_id", e.sessionId);
  }

  lemma ReloadEntry(fields: map<string, Value>, k: string, s: string)
    requires Has(fields, k, Str(s))
    ensures Has(Reload(Dict(fields)).fields, k, Str(s))
  {
  }

  lemma EchoReads(w: World, p: map<string, Value>, k: string, s: string)
    requires Sensible(w) && Restates(p, k, Str(s)) && s != ""
    ensures Echoed(w, p, k) == s
  {
  }

  lemma IdReads(w: World, p: map<string, Value>, s: string)
    requires Sensible(w) && Identifies(p, Str(s)) && s != ""
    ensures RequestIdIn(w, p) == s && w.text(Either(Get(p, "approval_id"), Str(RequestIdIn(w, p)))) == s
  {
  }

  lemma TextReads(w: World, p: map<string, Value>, k: string, s: string, otherwise: string)
    requires Sensible(w) && Has(p, k, Str(s))
    ensures TextAt(w, p, k, otherwise) == s
  {
  }

  /** An honest reply parses, and says exactly what the request says. */
  lemma HonestReplyParses(w: World, t: Tower, a: Arguments, agentId: string, expiresIn: int, reply: map<string, Value>)
    requires HonestExchange(w, t, a, agentId, expiresIn, reply)
    ensures ParseResponse(w, reply).Ok? && Mirrors(w, t, BuildRequest(w, a).value, reply, ParseResponse(w, reply).value)
  {
    var request := BuildRequest(w, a).value;
    var body := Wire(ActPayload(request, agentId, expiresIn));
    FingerprintParity(w, a, agentId, expiresIn);
    RequestComplete(w, a);
    WireEntries(request, agentId, expiresIn);
    EchoedEnvelope(body, RequestEnvelope(request));
    ReplyReads(w, t, request, reply);
  }

  lemma RequestComplete(w: World, a: Arguments)
    requires BuildRequest(w, a).Ok?
    ensures Complete(BuildRequest(w, a).value)
  {
    hide RequestFingerprint, RequestShortCode, OperatorText, KnownFamily;
  }

  lemma ReplyReads(w: World, t: Tower, request: ClearanceRequest, reply: map<string, Value>)
    requires Sensible(w) && Complete(request) && KnownFamily(t.family)
    requires t.expiresText != "" && ParseActTime(w.time, t.expiresText).Some?
    requires Has(reply, "state", Str("approved")) && Identifies(reply, Str(request.requestId))
    requires Restates(reply, "target", Str(request.target)) && Restates(reply, "provider", Str(request.provider))
    requires Restates(reply, "capability", Str(request.capability))
    requires Restates(reply, "session_id", Str(request.sessionId))
    requires Has(reply, "audit_correlation_id", Str(request.correlationId)) && !HasDoublePeriod(MessageOf(w, reply))
    requires Has(reply, "params_fingerprint", Str(request.fingerprint))
        && Has(reply, "short_code", Str(request.shortCode))
    requires Has(reply, "risk_family", Str(t.family)) && Has(reply, "tower_id", Str(t.id))
    requires Has(reply, "expires_at", Str(t.expiresText)) && ProofIn(reply).Some?
    ensures ParseResponse(w, reply).Ok? && Mirrors(w, t, request, reply, ParseResponse(w, reply).value)
  {
    hide EnvelopeIn, ProofIn, BoundMaterial, KnownFamily, ParseActTime, Echoed, RequestIdIn, TextAt, HasDoublePeriod;
    hide Restates, Identifies;
    EchoReads(w, reply, "target", request.target);
    EchoReads(w, reply, "provider", request.provider);
    EchoReads(w, reply, "capability", request.capability);
    EchoReads(w, reply, "session_id", request.sessionId);
    IdReads(w, reply, request.requestId);
    TextReads(w, reply, "state", "approved", "");
    TextReads(w, reply, "params_fingerprint", request.fingerprint, "");
    TextReads(w, reply, "short_code", request.shortCode, "");
    TextReads(w, reply, "risk_family", t.family, "");
  }

  predicate Holds(m: Material, k: string, s: string)
  {
    k in m && m[k] == s
  }

  /** What the aircraft checks the signature over is what the tower wrote about this request, field by field. */
  lemma SignedMaterial(w: World, t: Tower, a: Arguments, agentId: string, expiresIn: int, reply: map<string, Value>)
    requires HonestExchange(w, t, a, agentId, expiresIn, reply)
    ensures ProofIn(reply).Some?
    ensures var request := BuildRequest(w, a).value;
      var m := BoundMaterial(w, reply, ProofIn(reply).value);
      && Holds(m, "approval_id", request.requestId) && Holds(m, "params_fingerprint", request.fingerprint)
      && Holds(m, "short_code", request.shortCode) && Holds(m, "risk_family", t.family)
      && Holds(m, "expires_at", t.expiresText) && Holds(m, "tower_id", t.id)
      && Holds(m, "contract_version", VersionOf(w, reply)) && VersionOf(w, reply) in SUPPORTED_VERSIONS
      && Holds(m, "extensions_digest", TextAt(w, ProofIn(reply).value, "extensions_digest", ""))
  {
    hide BuildRequest, KnownFamily, ParseActTime, ActPayload, TextAt, RequestIdIn, Identifies, Restates,
        HasDoublePeriod;
    var request := BuildRequest(w, a).value;
    FingerprintParity(w, a, agentId, expiresIn);
    RequestComplete(w, a);
    WireEntries(request, agentId, expiresIn);
    TextReads(w, reply, "params_fingerprint", request.fingerprint, "");
    TextReads(w, reply, "short_code", request.shortCode, "");
    TextReads(w, reply, "risk_family", t.family, "");
    TextReads(w, reply, "tower_id", t.id, "");
    IdReads(w, reply, request.requestId);
    MaterialEntries(w, reply, ProofIn(reply).value);
  }

  lemma MaterialEntries(w: World, p: map<string, Value>, proof: map<string, Value>)
    ensures var m := BoundMaterial(w, p, proof);
      && Holds(m, "approval_id", w.text(Either(Get(p, "approval_id"), Str(RequestIdIn(w, p)))))
      && Holds(m, "params_fingerprint", TextAt(w, p, "params_fingerprint", ""))
      && Holds(m, "short_code", TextAt(w, p, "short_code", ""))
      && Holds(m, "risk_family", TextAt(w, p, "risk_family", ""))
      && Holds(m, "expires_at", w.text(Either(Get(p, "expires_at"), Str(""))))
      && Holds(m, "tower_id", TextAt(w, p, "tower_id", ""))
      && Holds(m, "contract_version", TextAt(w, p, "contract_version", CONTRACT_V2))
      && Holds(m, "extensions_digest", TextAt(w, proof, "extensions_digest", ""))
  {
    hide TextAt, RequestIdIn, Either;
  }

  // ------------------------------------------------------------ main result

  /** The material an honest tower signed, and a signature that solves the equation for it. */
  ghost predicate HonestSignature(w: World, crypto: Crypto, keys: map<string, seq<Byte>>, reply: map<string, Value>,
                                  a: nat, r: nat, response: seq<Byte>)
    requires ProofIn(reply).Some?
  {
    var proof := ProofIn(reply).value;
    var material := BoundMaterial(w, reply, proof);
    && proof != map[] && |response| == 32
    && WellShaped(material, proof) && SignedWith(crypto, proof, keys, a, r, response) && HasSignedFields(material)
    && var text := crypto.utf8(SignedText(material));
       FromBytes(response) % Order()
           == (r + a * FromBytes(crypto.sha512(EncodedScalar(r) + EncodedScalar(a) + text))) % Order()
  }

  /**
   ACT parity, end to end: the reply of an honest tower, signed with the key aB
   that the aircraft has registered, is parsed and verified as cleared at every
   instant before the expiry it names, and expired from that instant on.
   */
  lemma HonestTowerClears(w: World, t: Tower, a: Arguments, agentId: string, expiresIn: int, reply: map<string, Value>,
                          crypto: Crypto, keys: map<string, seq<Byte>>, secret: nat, nonce: nat, response: seq<Byte>,
                          testMode: bool, now: int)
    requires Ed25519Group() && HonestExchange(w, t, a, agentId, expiresIn, reply)
    requires HonestSignature(w, crypto, keys, reply, secret, nonce, response)
    ensures ParseResponse(w, reply).Ok?
    ensures var v := Verifier(t.id, Real(crypto, keys), testMode);
      var verdict := VerifyClearance(v, BuildRequest(w, a).value, ParseResponse(w, reply).value, now);
      if now < ParseActTime(w.time, t.expiresText).value then verdict.valid && verdict.status == Cleared
      else !verdict.valid && verdict.status == Expired
  {
    hide *;
    HonestReplyParses(w, t, a, agentId, expiresIn, reply);
    MirroredClears(w, t, a, agentId, expiresIn, reply, ParseResponse(w, reply).value, crypto, keys, secret, nonce,
                   response,
                   testMode, now);
  }

  lemma MirroredClears(w: World, t: Tower, a: Arguments, agentId: string, expiresIn: int, reply: map<string, Value>,
                       r: Response, crypto: Crypto, keys: map<string, seq<Byte>>, secret: nat, nonce: nat,
                       response: seq<Byte>, testMode: bool, now: int)
    requires Ed25519Group() && HonestExchange(w, t, a, agentId, expiresIn, reply)
    requires Mirrors(w, t, BuildRequest(w, a).value, reply, r)
    requires HonestSignature(w, crypto, keys, reply, secret, nonce, response)
    ensures var verdict := VerifyClearance(Verifier(t.id, Real(crypto, keys), testMode), BuildRequest(w, a).value, r,
                                           now);
      if now < ParseActTime(w.time, t.expiresText).value then verdict.valid && verdict.status == Cleared
      else !verdict.valid && verdict.status == Expired
  {
    hide BuildRequest, HonestSignature, VerifyClearance, VerifyProof, HonestIdentity, HonestComputation;
    hide KnownFamily, ParseActTime, BoundMaterial, ProofIn, Wire, ActPayload, NoBytes, Ed25519Group;
    BuiltFamily(w, a);
    HonestSignatureVerifies(w, crypto, keys, reply, secret, nonce, response);
    BoundResponseClears(Verifier(t.id, Real(crypto, keys), testMode), BuildRequest(w, a).value, r, now);
  }

  lemma HonestSignatureVerifies(w: World, crypto: Crypto, keys: map<string, seq<Byte>>, reply: map<string, Value>,
                                a: nat, r: nat, response: seq<Byte>)
    requires Ed25519Group() && ProofIn(reply).Some?
    requires HonestSignature(w, crypto, keys, reply, a, r, response)
    ensures var proof := ProofIn(reply).value;
      proof != map[] && VerifyProof(crypto, BoundMaterial(w, reply, proof), proof, keys)
  {
    hide BoundMaterial, ProofIn, FromBytes, WellShaped, SignedWith, SignedText, HasSignedFields, VerifyProof;
    hide EncodedScalar, Order, Ed25519Group;
    var proof := ProofIn(reply).value;
    ProofExactly(crypto, BoundMaterial(w, reply, proof), proof, keys, a, r, response);
  }

  lemma BoundResponseClears(v: Verifier, request: ClearanceRequest, r: Response, now: int)
    requires v.checker.Real? && r.status == Cleared && r.towerId == Str(v.tower) && BoundTo(request, r)
    requires r.expiresAt.Some? && r.proof.Some? && CheckProof(v.checker, r)
    ensures var verdict := VerifyClearance(v, request, r, now);
      if now < r.expiresAt.value then verdict.valid && verdict.status == Cleared
      else !verdict.valid && verdict.status == Expired
  {
    hide CheckProof;
  }

  lemma BuiltFamily(w: World, a: Arguments)
    requires BuildRequest(w, a).Ok?
    ensures BuildRequest(w, a).value.riskFamily == a.riskFamily
  {
    hide RequestFingerprint, RequestShortCode, OperatorText, KnownFamily, Complete;
  }
}
