/**
 What the aircraft knows once it has accepted a reply, whoever sent it: what the tower signed is the request's
 fingerprint and short code, in the tower's name and until an instant still to come. The approval id that was signed
 is the request's only if the reply does not name one id for the comparison and another for the signature.
 */
module ActAcceptance {
  import opened Wrappers
  import opened Values
  import opened Clearance
  import opened ClearanceProof
  import opened ActClient
  import opened ActExchange
  import OperatorMessage

  /** The reply parses and a verifier of real proofs finds it valid for the request. */
  predicate Accepts(w: World, v: Verifier, request: ClearanceRequest, p: map<string, Value>, now: int)
  {
    v.checker.Real? && ParseResponse(w, p).Ok? && VerifyClearance(v, request, ParseResponse(w, p).value, now).valid
  }

  /** The tower said when the clearance ends, and it has not ended. */
  predicate Lasts(w: World, p: map<string, Value>, now: int)
  {
    && !Silent(p, "expires_at")
    && var end := ParseActTime(w.time, w.text(Get(p, "expires_at"))); end.Some? && now < end.value
  }

  /** The reply approves, and the identity it states, in its own fields or the echoed envelope, is the request's. */
  predicate Names(w: World, request: ClearanceRequest, p: map<string, Value>)
  {
    && w.lower(TextAt(w, p, "state", "")) == "approved" && RequestIdIn(w, p) == request.requestId
    && Echoed(w, p, "session_id") == request.sessionId && Echoed(w, p, "target") == request.target
    && Echoed(w, p, "provider") == request.provider && Echoed(w, p, "capability") == request.capability
  }

  lemma ParsedFields(w: World, p: map<string, Value>)
    requires ParseResponse(w, p).Ok?
    ensures var r := ParseResponse(w, p).value;
      && r.status == StatusOf(w.lower(TextAt(w, p, "state", ""))) && r.requestId == RequestIdIn(w, p)
      && r.sessionId == Echoed(w, p, "session_id") && r.target == Echoed(w, p, "target")
      && r.provider == Echoed(w, p, "provider") && r.capability == Echoed(w, p, "capability")
      && r.fingerprint == TextAt(w, p, "params_fingerprint", "") && r.shortCode == TextAt(w, p, "short_code", "")
      && r.towerId == Get(p, "tower_id") && r.proof == ProofIn(p)
      && (r.proof.Some? ==> r.material == Some(BoundMaterial(w, p, r.proof.value)))
      && (r.expiresAt.Some? ==> !Silent(p, "expires_at")
                                && r.expiresAt == ParseActTime(w.time, w.text(Get(p, "expires_at"))))
  {
    hide Echoed, RequestIdIn, TextAt, BoundMaterial, ProofIn, ParseActTime, StatusOf, ResponseError;
  }

  /**
   An accepted reply is signed by a registered key for the request's fingerprint and short code, in the verifier's
   tower's name, with the expiry that was checked; and for the request's own approval id exactly when the reply gives
   no other `approval_id` beside the `request_id` that was compared.
   */
  lemma AcceptedIsSigned(w: World, v: Verifier, request: ClearanceRequest, p: map<string, Value>, now: int)
    requires Sensible(w) && Accepts(w, v, request, p, now)
    ensures Names(w, request, p) && Lasts(w, p, now) && ProofIn(p).Some?
    ensures var proof := ProofIn(p).value;
      var m := BoundMaterial(w, p, proof);
      && VerifyProof(v.checker.crypto, m, proof, v.checker.keys)
      && Holds(m, "params_fingerprint", request.fingerprint) && Holds(m, "short_code", request.shortCode)
      && Holds(m, "tower_id", v.tower) && Holds(m, "expires_at", w.text(Get(p, "expires_at")))
      && (Holds(m, "approval_id", request.requestId)
          <==> Silent(p, "approval_id") || w.text(Get(p, "approval_id")) == request.requestId)
  {
    hide ParseResponse, VerifyClearance, VerifyProof, BoundMaterial, ProofIn, ParseActTime, RequestIdIn, Echoed;
    hide TextAt;
    var r := ParseResponse(w, p).value;
    ParsedFields(w, p);
    ValidExactly(v, request, r, now);
    MaterialEntries(w, p, ProofIn(p).value);
    TowerReads(w, p, v.tower);
  }

  lemma TowerReads(w: World, p: map<string, Value>, tower: string)
    requires Sensible(w) && Get(p, "tower_id") == Str(tower)
    ensures TextAt(w, p, "tower_id", "") == tower
  {
  }

  /** The reply with another `approval_id` and the proof that goes with it. */
  function Renamed(p: map<string, Value>, other: string, proof: map<string, Value>): map<string, Value>
  {
    p["approval_id" := Str(other)]["proof" := Dict(proof)]
  }

  /** Two replies that agree outside the approval id and the proof. */
  ghost predicate AgreesElsewhere(p: map<string, Value>, q: map<string, Value>)
  {
    forall k :: k != "approval_id" && k != "proof" ==> (k in p <==> k in q) && Get(p, k) == Get(q, k)
  }

  lemma SameText(w: World, p: map<string, Value>, q: map<string, Value>, k: string, otherwise: string)
    requires AgreesElsewhere(p, q) && k != "approval_id" && k != "proof"
    ensures TextAt(w, q, k, otherwise) == TextAt(w, p, k, otherwise) && Get(q, k) == Get(p, k)
  {
  }

  lemma SameEcho(w: World, p: map<string, Value>, q: map<string, Value>, k: string)
    requires AgreesElsewhere(p, q) && k != "approval_id" && k != "proof"
    ensures Echoed(w, q, k) == Echoed(w, p, k)
  {
    assert Get(q, "extensions") == Get(p, "extensions");
  }

  lemma RenamedAgrees(p: map<string, Value>, other: string, proof: map<string, Value>)
    ensures AgreesElsewhere(p, Renamed(p, other, proof))
    ensures Get(Renamed(p, other, proof), "proof") == Dict(proof)
    ensures Get(Renamed(p, other, proof), "approval_id") == Str(other)
  {
  }

  lemma SameTexts(w: World, p: map<string, Value>, q: map<string, Value>)
    requires AgreesElsewhere(p, q)
    ensures TextAt(w, q, "state", "") == TextAt(w, p, "state", "")
    ensures TextAt(w, q, "params_fingerprint", "") == TextAt(w, p, "params_fingerprint", "")
    ensures TextAt(w, q, "risk_family", "") == TextAt(w, p, "risk_family", "")
    ensures TextAt(w, q, "short_code", "") == TextAt(w, p, "short_code", "")
    ensures TextAt(w, q, "contract_version", CONTRACT_V2) == TextAt(w, p, "contract_version", CONTRACT_V2)
    ensures Get(q, "request_id") == Get(p, "request_id") && Get(q, "expires_at") == Get(p, "expires_at")
    ensures Get(q, "tower_id") == Get(p, "tower_id") && Get(q, "reason") == Get(p, "reason")
    ensures Get(q, "audit_correlation_id") == Get(p, "audit_correlation_id")
    ensures Get(q, "operator_message") == Get(p, "operator_message")
  {
    hide AgreesElsewhere, TextAt;
    SameText(w, p, q, "state", "");
    SameText(w, p, q, "params_fingerprint", "");
    SameText(w, p, q, "risk_family", "");
    SameText(w, p, q, "short_code", "");
    SameText(w, p, q, "contract_version", CONTRACT_V2);
    SameText(w, p, q, "request_id", "");
    SameText(w, p, q, "expires_at", "");
    SameText(w, p, q, "tower_id", "");
    SameText(w, p, q, "audit_correlation_id", "");
    SameText(w, p, q, "operator_message", "");
    SameText(w, p, q, "reason", "");
  }

  lemma RenamedFields(w: World, p: map<string, Value>, other: string, proof: map<string, Value>, end: Option<int>)
    requires !Silent(p, "request_id")
    ensures var q := Renamed(p, other, proof);
      ResponseFields(w, q, end)
          == ResponseFields(w, p, end).(proof := Some(proof), material := Some(BoundMaterial(w, q, proof)))
  {
    hide BoundMaterial, StatusOf, Truthy, TextAt, Echoed, AgreesElsewhere, Get, Renamed;
    var q := Renamed(p, other, proof);
    RenamedAgrees(p, other, proof);
    SameTexts(w, p, q);
    SameEcho(w, p, q, "session_id");
    SameEcho(w, p, q, "target");
    SameEcho(w, p, q, "provider");
    SameEcho(w, p, q, "capability");
  }

  /** A changed `approval_id` changes nothing that is compared. */
  lemma RenamedReads(w: World, p: map<string, Value>, other: string, proof: map<string, Value>)
    requires ParseResponse(w, p).Ok? && !Silent(p, "request_id")
    ensures var q := Renamed(p, other, proof);
      ParseResponse(w, q) == Ok(ParseResponse(w, p).value.(proof := Some(proof),
                                                           material := Some(BoundMaterial(w, q, proof))))
  {
    hide BoundMaterial, ParseActTime, Truthy, KnownFamily, AgreesElsewhere, Get, Renamed, ResponseFields;
    hide OperatorMessage.HasDoublePeriod;
    var q := Renamed(p, other, proof);
    RenamedAgrees(p, other, proof);
    SameText(w, p, q, "expires_at", "");
    var raw := Get(p, "expires_at");
    RenamedFields(w, p, other, proof, if Truthy(raw) then ParseActTime(w.time, w.text(raw)) else None);
  }

  /**
   Where the two ids differ: a reply that names the request under `request_id` and another approval under
   `approval_id` is accepted on a signature for that other approval's id.
   */
  lemma OtherApprovalAccepted(w: World, v: Verifier, request: ClearanceRequest, p: map<string, Value>, now: int,
                              other: string, proof: map<string, Value>)
    requires Sensible(w) && Accepts(w, v, request, p, now) && !Silent(p, "request_id")
    requires other != "" && other != request.requestId && proof != map[]
    requires VerifyProof(v.checker.crypto, BoundMaterial(w, Renamed(p, other, proof), proof), proof, v.checker.keys)
    ensures Accepts(w, v, request, Renamed(p, other, proof), now)
    ensures Holds(BoundMaterial(w, Renamed(p, other, proof), proof), "approval_id", other)
  {
    hide ParseResponse, VerifyClearance, VerifyProof, BoundMaterial, RequestIdIn;
    var q := Renamed(p, other, proof);
    RenamedReads(w, p, other, proof);
    ValidExactly(v, request, ParseResponse(w, p).value, now);
    ValidExactly(v, request, ParseResponse(w, q).value, now);
    MaterialEntries(w, q, proof);
    RenamedAgrees(p, other, proof);
  }
}
