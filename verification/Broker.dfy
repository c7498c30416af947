/** Signed approval grants and their verification (`grants.py`, `approval_broker.py`). */
module Broker {
  import opened Wrappers
  import opened Values
  import opened CanonicalJson
  import opened Fingerprints
  import opened Clock
  import Approvals

  datatype Channel = HostNative | OutOfBand | WatchTui | Conversational | TestChannel

  datatype GrantPayload = GrantPayload(
    grantId: string, requestId: string, session: string, target: string, provider: string, capability: string,
    fingerprint: string, riskFamily: string, channel: Channel, expiresAt: int, oneTime: bool, consumedAt: Option<int>,
    constraints: map<string, Value>, signerKeyId: string, version: string)

  datatype SignedGrant = SignedGrant(payload: GrantPayload, signature: string, algorithm: string)

  datatype Status = Valid | Rejected | Expired | Consumed | Unsigned

  datatype Verification = Verification(status: Status, reason: string, requestId: string, grantId: string,
                                       signerKeyId: string)

  /** The binding a verifier expects, and the instant of the check. */
  datatype Context = Context(requestId: string, session: string, target: string, provider: string, capability: string,
                             fingerprint: string, riskFamily: string, now: int)

  const BANNED_CONVERSATIONAL: set<string> := {
    "power", "input", "boot", "media", "provider_mutation", "credentials", "policy", "audit", "emergency_stop"
  }
  const ALLOWED_CONVERSATIONAL: set<string> := {"observe", "runtime"}

  // ------------------------------------------------------------------ signing

  function ChannelText(c: Channel): string
  {
    match c
    case HostNative => "host_native"
    case OutOfBand => "out_of_band"
    case WatchTui => "watch_tui"
    case Conversational => "conversational"
    case TestChannel => "test"
  }

  function TimeValue(time: TimeText, t: Option<int>): Value
  {
    if t.Some? then Str(time.iso(t.value)) else Null
  }

  /** `GrantPayload.to_dict` */
  function PayloadDict(time: TimeText, p: GrantPayload): map<string, Value>
  {
    map["payload_version" := Str(p.version), "grant_id" := Str(p.grantId), "request_id" := Str(p.requestId),
        "session_id" := Str(p.session), "target" := Str(p.target), "provider" := Str(p.provider),
        "capability" := Str(p.capability), "params_fingerprint" := Str(p.fingerprint),
        "risk_family" := Str(p.riskFamily),
        "channel" := Str(ChannelText(p.channel)), "expires_at" := Str(time.iso(p.expiresAt)),
        "one_time" := Bool(p.oneTime),
        "consumed_at" := TimeValue(time, p.consumedAt), "policy_constraints" := Dict(p.constraints),
        "signer_key_id" := Str(p.signerKeyId)]
  }

  /** HMAC-SHA256 of a text under a key, as a hexadecimal digest. */
  type Hmac = (seq<bv8>, string) -> string

  datatype Signer = Signer(keyId: string, secret: seq<bv8>)

  const HMAC_ALGORITHM := "hmac-sha256"

  /** `HMACDevelopmentSigner.sign`: byte strings in the constraints cannot be encoded. */
  function Sign(hmac: Hmac, time: TimeText, signer: Signer, p: GrantPayload): Result<SignedGrant>
  {
    if p.signerKeyId != signer.keyId then Err("payload signer key id does not match signer")
    else
      match CanonicalText(Dict(PayloadDict(time, p)))
      case Ok(text) => Ok(SignedGrant(p, hmac(signer.secret, text), HMAC_ALGORITHM))
      case Err(e) => Err(e)
  }

  /** `HMACDevelopmentSigner.verify` */
  predicate Check(hmac: Hmac, time: TimeText, signer: Signer, g: SignedGrant)
  {
    && g.algorithm == HMAC_ALGORITHM && g.payload.signerKeyId == signer.keyId
    && var text := CanonicalText(Dict(PayloadDict(time, g.payload)));
       text.Ok? && hmac(signer.secret, text.value) == g.signature
  }

  // ------------------------------------------------------------- verification

  /** The trusted signers by key id, and the signature check each performs. */
  datatype Verifier = Verifier(trusted: set<string>, checks: SignedGrant -> bool)

  function Mismatch(p: GrantPayload, c: Context): Option<string>
  {
    if p.requestId != c.requestId then Some("request_id")
    else if p.session != c.session then Some("session_id")
    else if p.target != c.target then Some("target")
    else if p.provider != c.provider then Some("provider")
    else if p.capability != c.capability then Some("capability")
    else if p.fingerprint != c.fingerprint then Some("params_fingerprint")
    else if p.riskFamily != c.riskFamily then Some("risk_family")
    else None
  }

  /** `ApprovalGrantVerifier.verify` of a present grant. */
  function Verify(v: Verifier, g: SignedGrant, c: Context): Verification
  {
    var p := g.payload;
    var (status, reason) :=
      if p.signerKeyId !in v.trusted then (Rejected, "untrusted signer key id")
      else if !v.checks(g) then (Rejected, "invalid signature")
      else if Mismatch(p, c).Some? then (Rejected, Mismatch(p, c).value + " mismatch")
      else if p.capability in Approvals.BLOCKED then (Rejected, "hard invariant capability cannot be approved")
      else if c.now >= p.expiresAt then (Expired, "grant expired")
      else if p.oneTime && p.consumedAt.Some? then (Consumed, "one-time grant already consumed")
      else if p.channel.Conversational? && p.riskFamily in BANNED_CONVERSATIONAL then
        (Rejected, "conversational approval banned for risk family")
      else if p.channel.Conversational? && p.riskFamily !in ALLOWED_CONVERSATIONAL then
        (Rejected, "conversational approval not allowed for risk family")
      else (Valid, "grant verified");
    Verification(status, reason, p.requestId, p.grantId, p.signerKeyId)
  }

  /** The grant names exactly the action of the context. */
  predicate Bound(p: GrantPayload, c: Context)
  {
    && p.requestId == c.requestId && p.session == c.session && p.target == c.target && p.provider == c.provider
    && p.capability == c.capability && p.fingerprint == c.fingerprint && p.riskFamily == c.riskFamily
  }

  // ------------------------------------------------------------- main results

  /** A grant is valid exactly under these conditions; a conversational grant needs an allowed family. */
  lemma ValidExactly(v: Verifier, g: SignedGrant, c: Context)
    ensures Verify(v, g, c).status == Valid
       <==> (g.payload.signerKeyId in v.trusted && v.checks(g) && Bound(g.payload, c)
             && !Approvals.Unapprovable(g.payload.capability) && c.now < g.payload.expiresAt
             && (g.payload.oneTime ==> g.payload.consumedAt.None?)
             && (g.payload.channel.Conversational? ==>
                   g.payload.riskFamily == "observe" || g.payload.riskFamily == "runtime"))
    ensures Verify(v, g, c).requestId == g.payload.requestId && Verify(v, g, c).grantId == g.payload.grantId
    ensures Verify(v, g, c).signerKeyId == g.payload.signerKeyId
  {
    ConversationalExactly(g.payload.riskFamily);
    Approvals.BlockedExactly(g.payload.capability);
    hide Approvals.BLOCKED, Approvals.Unapprovable, ALLOWED_CONVERSATIONAL, BANNED_CONVERSATIONAL;
  }

  /** Only looking and the runtime's own requests can be approved in conversation. */
  lemma ConversationalExactly(family: string)
    ensures family in ALLOWED_CONVERSATIONAL && family !in BANNED_CONVERSATIONAL
       <==> family == "observe" || family == "runtime"
  {
  }

  /** No two messages share a digest under one key. */
  ghost predicate MacInjective(hmac: Hmac)
  {
    forall k, a, b :: hmac(k, a) == hmac(k, b) ==> a == b
  }

  /** Signing is for payloads under the signer's own key id that JSON can encode. */
  lemma SignsExactly(hmac: Hmac, time: TimeText, signer: Signer, p: GrantPayload)
    ensures Sign(hmac, time, signer, p).Ok? <==> p.signerKeyId == signer.keyId && NoBytes(Dict(p.constraints))
    ensures Sign(hmac, time, signer, p).Ok? ==>
      && Sign(hmac, time, signer, p).value.payload == p && Sign(hmac, time, signer, p).value.algorithm == "hmac-sha256"
  {
    hide PayloadDict, NoBytes;
    PayloadEncodes(time, p);
  }

  lemma PayloadEncodes(time: TimeText, p: GrantPayload)
    ensures NoBytes(Dict(PayloadDict(time, p))) <==> NoBytes(Dict(p.constraints))
  {
    var d := PayloadDict(time, p);
    PayloadEntriesRest(time, p);
    forall k | k in d && k != "policy_constraints" ensures NoBytes(d[k]) {
      PlainEntry(time, p, k);
      hide PayloadDict;
    }
    hide PayloadDict;
    assert "policy_constraints" in d && d["policy_constraints"] == Dict(p.constraints);
  }

  lemma PlainEntry(time: TimeText, p: GrantPayload, k: string)
    requires k in PayloadDict(time, p) && k != "policy_constraints"
    ensures var v := PayloadDict(time, p)[k]; v.Str? || v.Bool? || v.Null?
  {
  }

  /** A grant checks if and only if signing its payload gives that grant. */
  lemma CheckExactly(hmac: Hmac, time: TimeText, signer: Signer, g: SignedGrant)
    ensures Check(hmac, time, signer, g) <==> Sign(hmac, time, signer, g.payload) == Ok(g)
  {
    hide PayloadDict;
  }

  lemma SignedChecks(hmac: Hmac, time: TimeText, signer: Signer, p: GrantPayload)
    ensures Sign(hmac, time, signer, p).Ok? ==> Check(hmac, time, signer, Sign(hmac, time, signer, p).value)
  {
    hide PayloadDict;
  }

  lemma PayloadEntries(time: TimeText, p: GrantPayload)
    ensures var d := PayloadDict(time, p);
      && Has(d, "payload_version", Str(p.version)) && Has(d, "grant_id", Str(p.grantId))
      && Has(d, "request_id", Str(p.requestId)) && Has(d, "session_id", Str(p.session))
      && Has(d, "target", Str(p.target)) && Has(d, "provider", Str(p.provider))
      && Has(d, "capability", Str(p.capability)) && Has(d, "params_fingerprint", Str(p.fingerprint))
  {
  }

  lemma PayloadEntriesRest(time: TimeText, p: GrantPayload)
    ensures var d := PayloadDict(time, p);
      && Has(d, "risk_family", Str(p.riskFamily)) && Has(d, "channel", Str(ChannelText(p.channel)))
      && Has(d, "expires_at", Str(time.iso(p.expiresAt))) && Has(d, "one_time", Bool(p.oneTime))
      && Has(d, "consumed_at", TimeValue(time, p.consumedAt)) && Has(d, "policy_constraints", Dict(p.constraints))
      && Has(d, "signer_key_id", Str(p.signerKeyId))
  {
  }

  /** Reading a scalar entry back from the canonical form. */
  lemma ScalarEntry(fields: map<string, Value>, k: string, v: Value)
    requires Has(fields, k, v) && (v.Str? || v.Bool? || v.Null?)
    ensures Has(Reload(Dict(fields)).fields, k, v)
  {
  }

  lemma NestedEntry(fields: map<string, Value>, k: string, v: Value)
    requires Has(fields, k, v)
    ensures Has(Reload(Dict(fields)).fields, k, Reload(v))
  {
  }

  lemma ChannelsDistinct(c: Channel, d: Channel)
    requires ChannelText(c) == ChannelText(d)
    ensures c == d
  {
    assert |ChannelText(HostNative)| == 11 && |ChannelText(OutOfBand)| == 11 && |ChannelText(WatchTui)| == 9;
    assert |ChannelText(Conversational)| == 14 && |ChannelText(TestChannel)| == 4;
    assert ChannelText(HostNative)[0] == 'h' && ChannelText(OutOfBand)[0] == 'o';
  }

  lemma TimesDistinct(time: TimeText, a: Option<int>, b: Option<int>)
    requires RoundTrips(time) && TimeValue(time, a) == TimeValue(time, b)
    ensures a == b
  {
    if a.Some? && b.Some? {
      var (m, n) := (a.value, b.value);
      assert time.iso(m) == time.iso(n);
      assert time.parse(time.iso(m)) == Some(m) && time.parse(time.iso(n)) == Some(n);
    }
  }

  /** All fields agree, the constraints up to tuples becoming lists. */
  predicate SameGrant(p: GrantPayload, q: GrantPayload)
  {
    && q == p.(constraints := q.constraints) && Reload(Dict(p.constraints)) == Reload(Dict(q.constraints))
  }

  lemma SameDictSameGrant(time: TimeText, p: GrantPayload, q: GrantPayload)
    requires RoundTrips(time)
    requires Reload(Dict(PayloadDict(time, p))) == Reload(Dict(PayloadDict(time, q)))
    ensures SameGrant(p, q)
  {
    SameTexts(time, p, q);
    SameRest(time, p, q);
  }

  lemma SameTexts(time: TimeText, p: GrantPayload, q: GrantPayload)
    requires Reload(Dict(PayloadDict(time, p))) == Reload(Dict(PayloadDict(time, q)))
    ensures p.version == q.version && p.grantId == q.grantId && p.requestId == q.requestId && p.session == q.session
    ensures p.target == q.target && p.provider == q.provider && p.capability == q.capability
        && p.fingerprint == q.fingerprint
  {
    hide PayloadDict, Reload;
    var (d, e) := (PayloadDict(time, p), PayloadDict(time, q));
    PayloadEntries(time, p);
    PayloadEntries(time, q);
    SameScalar(d, e, "payload_version", Str(p.version), Str(q.version));
    SameScalar(d, e, "grant_id", Str(p.grantId), Str(q.grantId));
    SameScalar(d, e, "request_id", Str(p.requestId), Str(q.requestId));
    SameScalar(d, e, "session_id", Str(p.session), Str(q.session));
    SameScalar(d, e, "target", Str(p.target), Str(q.target));
    SameScalar(d, e, "provider", Str(p.provider), Str(q.provider));
    SameScalar(d, e, "capability", Str(p.capability), Str(q.capability));
    SameScalar(d, e, "params_fingerprint", Str(p.fingerprint), Str(q.fingerprint));
  }

  lemma SameRest(time: TimeText, p: GrantPayload, q: GrantPayload)
    requires RoundTrips(time)
    requires Reload(Dict(PayloadDict(time, p))) == Reload(Dict(PayloadDict(time, q)))
    ensures p.riskFamily == q.riskFamily && p.channel == q.channel && p.expiresAt == q.expiresAt
        && p.oneTime == q.oneTime
    ensures p.consumedAt == q.consumedAt && p.signerKeyId == q.signerKeyId
    ensures Reload(Dict(p.constraints)) == Reload(Dict(q.constraints))
  {
    hide PayloadDict, Reload, ChannelText;
    var (d, e) := (PayloadDict(time, p), PayloadDict(time, q));
    PayloadEntriesRest(time, p);
    PayloadEntriesRest(time, q);
    SameScalar(d, e, "risk_family", Str(p.riskFamily), Str(q.riskFamily));
    SameScalar(d, e, "channel", Str(ChannelText(p.channel)), Str(ChannelText(q.channel)));
    ChannelsDistinct(p.channel, q.channel);
    SameScalar(d, e, "expires_at", Str(time.iso(p.expiresAt)), Str(time.iso(q.expiresAt)));
    TimesDistinct(time, Some(p.expiresAt), Some(q.expiresAt));
    SameScalar(d, e, "one_time", Bool(p.oneTime), Bool(q.oneTime));
    SameScalar(d, e, "consumed_at", TimeValue(time, p.consumedAt), TimeValue(time, q.consumedAt));
    TimesDistinct(time, p.consumedAt, q.consumedAt);
    SameScalar(d, e, "signer_key_id", Str(p.signerKeyId), Str(q.signerKeyId));
    NestedEntry(d, "policy_constraints", Dict(p.constraints));
    NestedEntry(e, "policy_constraints", Dict(q.constraints));
  }

  lemma SameScalar(d: map<string, Value>, e: map<string, Value>, k: string, v: Value, u: Value)
    requires Reload(Dict(d)) == Reload(Dict(e)) && Has(d, k, v) && Has(e, k, u)
    requires (v.Str? || v.Bool? || v.Null?) && (u.Str? || u.Bool? || u.Null?)
    ensures v == u
  {
    hide Reload;
    ScalarEntry(d, k, v);
    ScalarEntry(e, k, u);
  }

  /**
   A signature binds the whole grant: two grants that check under one signer with one
   signature agree in every field, so no field can be altered after signing.
   */
  lemma SignatureBindsGrant(hmac: Hmac, time: TimeText, signer: Signer, g: SignedGrant, h: SignedGrant)
    requires MacInjective(hmac) && RoundTrips(time)
    requires Check(hmac, time, signer, g) && Check(hmac, time, signer, h) && g.signature == h.signature
    ensures SameGrant(g.payload, h.payload) && g.algorithm == h.algorithm
  {
    hide PayloadDict, Reload, NoBytes;
    var (p, q) := (Dict(PayloadDict(time, g.payload)), Dict(PayloadDict(time, h.payload)));
    CanonicalTextInjective(p, q);
    SameDictSameGrant(time, g.payload, h.payload);
  }
}
