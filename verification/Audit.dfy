/**
 Audit events and the hash-chained log (`audit.py`). A record is a JSON object;
 a log is the sequence of the records in the file.
 */
module Audit {
  import opened Wrappers
  import opened Values
  import opened CanonicalJson
  import opened Fingerprints
  import opened Redaction
  import opened RedactionLaws
  import opened HashChain
  import Text

  type Record = map<string, Value>

  // ------------------------------------------------------------ events

  datatype ProviderRef = ProviderRef(id: string, kind: string, isRealHardware: bool)

  datatype AuditEvent = AuditEvent(
    id: string, timestamp: string, eventType: string, correlationId: string, sessionId: string,
    actorType: string, actorId: string,
    capabilityId: string, capabilityFamily: string, capabilityAction: string,
    policyDecision: string, redactions: set<string>,
    targetId: Option<string>, approval: Option<map<string, Value>>, provider: Option<ProviderRef>,
    request: Option<map<string, Value>>, result: Option<map<string, Value>>,
    materialRisks: seq<string>)

  /** A field that is left out of the dictionary when the attribute is `None`. */
  function Optional(key: string, v: Option<Value>): map<string, Value>
  {
    match v case Some(x) => map[key := x] case None => map[]
  }

  function Section(fields: Option<map<string, Value>>): Option<Value>
  {
    match fields case Some(f) => Some(Dict(f)) case None => None
  }

  function ActorDict(e: AuditEvent): map<string, Value>
  {
    map["type" := Str(e.actorType), "id" := Str(e.actorId)]
  }

  function CapabilityDict(e: AuditEvent): map<string, Value>
  {
    map["id" := Str(e.capabilityId), "family" := Str(e.capabilityFamily), "action" := Str(e.capabilityAction)]
  }

  function ProviderDict(p: ProviderRef): map<string, Value>
  {
    map["id" := Str(p.id), "kind" := Str(p.kind), "is_real_hardware" := Bool(p.isRealHardware)]
  }

  /** The fields that every event has. */
  function EventHead(e: AuditEvent): map<string, Value>
  {
    map[
      "id" := Str(e.id),
      "timestamp" := Str(e.timestamp),
      "event_type" := Str(e.eventType),
      "correlation_id" := Str(e.correlationId),
      "session_id" := Str(e.sessionId),
      "actor" := Dict(ActorDict(e)),
      "capability" := Dict(CapabilityDict(e)),
      "policy_decision" := Str(e.policyDecision),
      "redactions" := Texts(Text.SortSet(e.redactions))
    ]
  }

  function TargetField(e: AuditEvent): Option<Value>
  {
    match e.targetId case Some(t) => Some(Str(t)) case None => None
  }

  function ProviderField(e: AuditEvent): Option<Value>
  {
    match e.provider case Some(p) => Some(Dict(ProviderDict(p))) case None => None
  }

  function RisksField(e: AuditEvent): Option<Value>
  {
    if e.materialRisks == [] then None else Some(Texts(e.materialRisks))
  }

  /** `AuditEvent.to_dict`. */
  function EventDict(e: AuditEvent): map<string, Value>
  {
    EventHead(e)
    + Optional("target_id", TargetField(e))
    + Optional("approval", Section(e.approval))
    + Optional("provider", ProviderField(e))
    + Optional("request", Section(e.request))
    + Optional("result", Section(e.result))
    + Optional("material_risks", RisksField(e))
  }

  function SectionPaths(rules: Rules, section: string, fields: Option<map<string, Value>>): set<string>
  {
    match fields
    case Some(f) => PrefixAll(section, MappingReported(rules, f))
    case None => {}
  }

  function PrefixAll(section: string, paths: set<string>): set<string>
  {
    set p | p in paths :: section + "." + p
  }

  function RedactSection(rules: Rules, fields: Option<map<string, Value>>): Option<map<string, Value>>
  {
    match fields case Some(f) => Some(RedactMapping(rules, f)) case None => None
  }

  /** The event as `_redacted_event_payload` writes it. */
  function RedactedEvent(rules: Rules, e: AuditEvent): AuditEvent
  {
    e.(request := RedactSection(rules, e.request),
       result := RedactSection(rules, e.result),
       approval := RedactSection(rules, e.approval),
       redactions := e.redactions + SectionPaths(rules, "request", e.request)
         + SectionPaths(rules, "result", e.result) + SectionPaths(rules, "approval", e.approval))
  }

  // ------------------------------------------------------------ the chain

  /** The hashed part of a record. */
  function Unsigned(previous: Value, event: Value): Value
  {
    Dict(map["previous_hash" := previous, "event" := event])
  }

  /** `_hash_mapping` of the hashed part; a decoded record holds no byte string. */
  function RecordHash(sha: Hash, previous: Value, event: Value): Value
  {
    if NoBytes(Unsigned(previous, event)) then Str(sha(Dumps(Unsigned(previous, event)))) else Null
  }

  function Digesting(sha: Hash): Digest<Value>
  {
    (p, e) => RecordHash(sha, p, e)
  }

  /** What the verifiers read of a record; a missing field reads as `None`. */
  function View(r: Record): Entry<Value>
  {
    Entry(Get(r, "previous_hash"), Get(r, "event"), Get(r, "event_hash"))
  }

  function Views(log: seq<Record>): (views: seq<Entry<Value>>)
    ensures |views| == |log|
  {
    seq(|log|, i requires 0 <= i < |log| => View(log[i]))
  }

  /** The records of a file: decoded JSON objects. */
  ghost predicate AllDecoded(log: seq<Record>)
  {
    forall i :: 0 <= i < |log| ==> Plain(Dict(log[i]))
  }

  predicate ChainOk(sha: Hash, log: seq<Record>)
  {
    Chain(Digesting(sha), Null, Views(log))
  }

  /** `verify_audit_chain` over the records of the file. */
  method VerifyAuditChain(sha: Hash, log: seq<Record>) returns (ok: bool)
    ensures ok <==> ChainOk(sha, log)
  {
    var previousHash: Value := Null;
    for i := 0 to |log|
      invariant previousHash == LastHash(Null, Views(log)[..i])
      invariant Chain(Digesting(sha), Null, Views(log)[..i])
    {
      ChainStep(Digesting(sha), Null, Views(log), i);
      var record := View(log[i]);
      if record.previous != previousHash {
        return false;
      }
      if record.hash != Digesting(sha)(record.previous, record.event) {
        return false;
      }
      previousHash := record.hash;
    }
    assert Views(log)[..|log|] == Views(log);
    return true;
  }

  /** `verify_audit_chain_records`, which forgets a hash that is not a string. */
  method VerifyAuditChainRecords(sha: Hash, log: seq<Record>) returns (ok: bool)
    ensures ok <==> ChainOk(sha, log)
  {
    var previousHash: Value := Null;
    for i := 0 to |log|
      invariant previousHash == LastHash(Null, Views(log)[..i])
      invariant Chain(Digesting(sha), Null, Views(log)[..i])
    {
      ChainStep(Digesting(sha), Null, Views(log), i);
      var record := View(log[i]);
      if record.previous != previousHash {
        return false;
      }
      if record.hash != Digesting(sha)(record.previous, record.event) {
        return false;
      }
      previousHash := if record.hash.Str? then record.hash else Null;
    }
    assert Views(log)[..|log|] == Views(log);
    return true;
  }

  lemma AllDecodedAdmissible(log: seq<Record>)
    requires AllDecoded(log)
    ensures Admissible(Views(log), v => Plain(v))
  {
    forall i | 0 <= i < |log| ensures Plain(View(log[i]).previous) && Plain(View(log[i]).event) {
      assert Plain(Dict(log[i]));
    }
  }

  lemma UnsignedPlain(p: Value, e: Value)
    requires Plain(p) && Plain(e)
    ensures Plain(Unsigned(p, e)) && NoBytes(Unsigned(p, e))
  {
    ReloadFixed(Unsigned(p, e));
  }

  /** The hash of a record is free of collisions because its canonical text is. */
  lemma DigestingCollisionFree(sha: Hash)
    requires CollisionFree(sha)
    ensures CollisionFreeOn(Digesting(sha), v => Plain(v))
  {
    forall p, e, q, f | Plain(p) && Plain(e) && Plain(q) && Plain(f) && RecordHash(sha, p, e) == RecordHash(sha, q, f)
      ensures p == q && e == f
    {
      UnsignedPlain(p, e);
      UnsignedPlain(q, f);
      DumpsInjective(Unsigned(p, e), Unsigned(q, f));
      assert Unsigned(p, e).fields["previous_hash"] == p && Unsigned(p, e).fields["event"] == e;
      assert Unsigned(q, f).fields["previous_hash"] == q && Unsigned(q, f).fields["event"] == f;
    }
  }

  // ------------------------------------------------------------ the sink

  function EventValue(e: AuditEvent): Value { Dict(EventDict(e)) }

  /** The record written for an event payload, as it is read back from the file. */
  function WrittenRecord(sha: Hash, previous: Value, payload: Value): Record
  {
    map["previous_hash" := previous, "event" := Reload(payload), "event_hash" := RecordHash(sha, previous, payload)]
  }

  /** The hash is computed before tuples become lists, and is the same after. */
  lemma RecordHashReload(sha: Hash, previous: Value, payload: Value)
    requires NoBytes(payload) && Plain(previous)
    ensures RecordHash(sha, previous, payload).Str?
    ensures RecordHash(sha, previous, Reload(payload)) == RecordHash(sha, previous, payload)
  {
    ReloadUnsigned(previous, payload);
    DumpsReload(Unsigned(previous, payload));
  }

  lemma ReloadUnsigned(previous: Value, payload: Value)
    requires NoBytes(payload) && Plain(previous)
    ensures NoBytes(Unsigned(previous, payload))
    ensures Reload(Unsigned(previous, payload)) == Unsigned(previous, Reload(payload))
  {
    ReloadFixed(previous);
    var u := Unsigned(previous, payload);
    assert Reload(u).fields == Unsigned(previous, Reload(payload)).fields;
  }

  lemma WrittenRecordPlain(sha: Hash, previous: Value, payload: Value)
    requires NoBytes(payload) && Plain(previous)
    ensures Plain(Dict(WrittenRecord(sha, previous, payload)))
  {
    hide RecordHash, Reload, NoBytes;
    ReloadPlain(payload);
    RecordHashReload(sha, previous, payload);
    assert Plain(RecordHash(sha, previous, payload));
    var r := WrittenRecord(sha, previous, payload);
    forall k | k in r ensures Plain(r[k]) {
      assert k == "previous_hash" || k == "event" || k == "event_hash";
    }
  }

  lemma WrittenRecordView(sha: Hash, previous: Value, payload: Value)
    ensures View(WrittenRecord(sha, previous, payload)) ==
      Entry(previous, Reload(payload), RecordHash(sha, previous, payload))
  {
  }

  /** A written record continues the chain. */
  lemma WrittenRecordLinks(sha: Hash, previous: Value, payload: Value)
    requires NoBytes(payload) && Plain(previous)
    ensures Plain(Dict(WrittenRecord(sha, previous, payload)))
    ensures Link(Digesting(sha), previous, View(WrittenRecord(sha, previous, payload)))
  {
    WrittenRecordPlain(sha, previous, payload);
    WrittenRecordView(sha, previous, payload);
    RecordHashReload(sha, previous, payload);
  }

  /** `LocalJSONLAuditSink`: the records of its file and the hash it remembers. */
  class JsonlAuditSink {
    const rules: Rules
    const sha: Hash
    var records: seq<Record>
    var previousHash: Value

    /** The remembered hash is the last one in the file. */
    ghost predicate Valid()
      reads this
    {
      AllDecoded(records) && previousHash == LastHash(Null, Views(records))
    }

    /** Opens a file with the given records. */
    constructor (rules: Rules, sha: Hash, existing: seq<Record>)
      requires AllDecoded(existing)
      ensures Valid() && records == existing && this.rules == rules && this.sha == sha
    {
      this.rules, this.sha, records := rules, sha, existing;
      previousHash := if existing == [] then Null else Get(existing[|existing| - 1], "event_hash");
    }

    /** Appends one redacted event; a payload that `json` cannot encode raises instead. */
    method Emit(e: AuditEvent) returns (written: bool)
      requires Valid()
      modifies this
      ensures Valid()
      ensures written <==> NoBytes(EventValue(RedactedEvent(rules, e)))
      ensures records == if written
        then old(records) + [WrittenRecord(sha, LastHash(Null, Views(old(records))),
                                           EventValue(RedactedEvent(rules, e)))]
        else old(records)
    {
      var payload := RedactedEventPayload(rules, e);
      hide RedactedEvent, EventValue, NoBytes, WrittenRecord, RecordHash;
      if !NoBytes(EventValue(payload)) {
        return false;
      }
      LastHashPlain(records);
      ViewsAppend(records, WrittenRecord(sha, previousHash, EventValue(payload)));
      WrittenRecordPlain(sha, previousHash, EventValue(payload));
      WrittenRecordView(sha, previousHash, EventValue(payload));
      var eventHash := RecordHash(sha, previousHash, EventValue(payload));
      records := records + [WrittenRecord(sha, previousHash, EventValue(payload))];
      previousHash := eventHash;
      return true;
    }
  }

  lemma ViewsAppend(log: seq<Record>, r: Record)
    ensures Views(log + [r]) == Views(log) + [View(r)]
  {
  }

  lemma LastHashPlain(log: seq<Record>)
    requires AllDecoded(log)
    ensures Plain(LastHash(Null, Views(log)))
  {
    if log != [] { assert Plain(Dict(log[|log| - 1])); }
  }

  /** `_redacted_event_payload`. */
  method RedactedEventPayload(rules: Rules, e: AuditEvent) returns (payload: AuditEvent)
    ensures payload == RedactedEvent(rules, e)
  {
    hide RedactMapping, MappingReported, PrefixAll, Elements;
    payload := e;
    if e.request.Some? {
      var redacted, paths := RedactTopLevel(rules, e.request.value);
      payload := payload.(request := Some(redacted), redactions := payload.redactions + Prefixed("request", paths));
    }
    if e.result.Some? {
      var redacted, paths := RedactTopLevel(rules, e.result.value);
      payload := payload.(result := Some(redacted), redactions := payload.redactions + Prefixed("result", paths));
    }
    if e.approval.Some? {
      var redacted, paths := RedactTopLevel(rules, e.approval.value);
      payload := payload.(approval := Some(redacted), redactions := payload.redactions + Prefixed("approval", paths));
    }
  }

  function Prefixed(section: string, paths: seq<string>): (r: set<string>)
    ensures r == PrefixAll(section, Elements(paths))
  {
    set p | p in paths :: section + "." + p
  }

  /** `build_audit_event` redacts the request and the result first. */
  method BuildAuditEvent(rules: Rules, e: AuditEvent) returns (r: AuditEvent)
    requires e.redactions == {} && e.approval.None?
    ensures r == RedactedEvent(rules, e)
  {
    hide RedactMapping, MappingReported, PrefixAll, Elements;
    r := e;
    if e.request.Some? {
      var redacted, paths := RedactTopLevel(rules, e.request.value);
      r := r.(request := Some(redacted), redactions := Prefixed("request", paths));
    }
    if e.result.Some? {
      var redacted, paths := RedactTopLevel(rules, e.result.value);
      r := r.(result := Some(redacted), redactions := r.redactions + Prefixed("result", paths));
    }
  }

  /** Writing one more record keeps a sound chain and only extends the file. */
  lemma WriteKeepsChain(sha: Hash, log: seq<Record>, payload: Value)
    requires AllDecoded(log) && ChainOk(sha, log) && NoBytes(payload)
    ensures
      var after := log + [WrittenRecord(sha, LastHash(Null, Views(log)), payload)];
      AllDecoded(after) && ChainOk(sha, after) && Views(log) <= Views(after)
  {
    var r := WrittenRecord(sha, LastHash(Null, Views(log)), payload);
    LastHashPlain(log);
    WrittenRecordLinks(sha, LastHash(Null, Views(log)), payload);
    ChainAppend(Digesting(sha), Null, Views(log), View(r));
    assert Views(log + [r]) == Views(log) + [View(r)];
  }

  /** The log after a series of writes. */
  function WriteAll(sha: Hash, log: seq<Record>, payloads: seq<Value>): seq<Record>
    decreases |payloads|
  {
    if payloads == [] then log
    else WriteAll(sha, log + [WrittenRecord(sha, LastHash(Null, Views(log)), payloads[0])], payloads[1..])
  }

  lemma {:induction false} WriteAllKeepsChain(sha: Hash, log: seq<Record>, payloads: seq<Value>)
    requires AllDecoded(log) && ChainOk(sha, log)
    requires forall i :: 0 <= i < |payloads| ==> NoBytes(payloads[i])
    ensures
      var after := WriteAll(sha, log, payloads);
      AllDecoded(after) && ChainOk(sha, after) && Views(log) <= Views(after)
    decreases |payloads|
  {
    if payloads != [] {
      WriteKeepsChain(sha, log, payloads[0]);
      WriteAllKeepsChain(sha, log + [WrittenRecord(sha, LastHash(Null, Views(log)), payloads[0])], payloads[1..]);
    }
  }
}
