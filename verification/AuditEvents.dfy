/**
 What the log says of an event (`AuditEvent.to_dict`, `_redacted_event_payload`), field by field under the source's
 names, and what redaction changes of it.
 */
module AuditEvents {
  import opened Wrappers
  import opened Values
  import opened Redaction
  import opened CanonicalJson
  import opened Fingerprints
  import opened Audit
  import Text

  /** The entry is there exactly when the attribute is, and holds it. */
  predicate Holds(d: map<string, Value>, k: string, v: Option<Value>)
  {
    if v.None? then k !in d else k in d && d[k] == v.value
  }

  /** The same entry, or none, in both. */
  predicate SameAt(d: map<string, Value>, e: map<string, Value>, k: string)
  {
    (k in d <==> k in e) && (k in d ==> d[k] == e[k])
  }

  lemma OneMore(d: map<string, Value>, k: string, v: Option<Value>, j: string)
    ensures j == k && k !in d ==> Holds(d + Optional(k, v), k, v)
    ensures j != k ==> SameAt(d + Optional(k, v), d, j)
  {
  }

  /** A field that an event may lack. */
  function OptionalField(e: AuditEvent, k: string): Option<Value>
  {
    match k
    case "target_id" => TargetField(e)
    case "approval" => Section(e.approval)
    case "provider" => ProviderField(e)
    case "request" => Section(e.request)
    case "result" => Section(e.result)
    case "material_risks" => RisksField(e)
    case _ => None
  }

  const OPTIONAL_NAMES: seq<string> := ["target_id", "approval", "provider", "request", "result", "material_risks"]

  const HEAD_NAMES: seq<string> := [
    "id", "timestamp", "event_type", "correlation_id", "session_id", "policy_decision", "actor", "capability",
    "redactions"
  ]

  /** The head with the first n optional fields. */
  function Partial(e: AuditEvent, n: nat): map<string, Value>
    requires n <= |OPTIONAL_NAMES|
  {
    if n == 0 then EventHead(e)
    else Partial(e, n - 1) + Optional(OPTIONAL_NAMES[n - 1], OptionalField(e, OPTIONAL_NAMES[n - 1]))
  }

  lemma PartialIsDict(e: AuditEvent)
    ensures Partial(e, 6) == EventDict(e)
  {
    hide EventHead, Optional, TargetField, Section, ProviderField, RisksField;
    var d := EventHead(e);
    assert Partial(e, 1) == d + Optional("target_id", TargetField(e));
    assert Partial(e, 2) == Partial(e, 1) + Optional("approval", Section(e.approval));
    assert Partial(e, 3) == Partial(e, 2) + Optional("provider", ProviderField(e));
    assert Partial(e, 4) == Partial(e, 3) + Optional("request", Section(e.request));
    assert Partial(e, 5) == Partial(e, 4) + Optional("result", Section(e.result));
    assert Partial(e, 6) == Partial(e, 5) + Optional("material_risks", RisksField(e));
  }

  /** The optional fields do not disturb the others, nor each other. */
  lemma {:induction false} PartialFields(e: AuditEvent, n: nat, j: string)
    requires n <= |OPTIONAL_NAMES| && (j in OPTIONAL_NAMES ==> j !in EventHead(e))
    ensures j !in OPTIONAL_NAMES[..n] ==> SameAt(Partial(e, n), EventHead(e), j)
    ensures j in OPTIONAL_NAMES[..n] ==> Holds(Partial(e, n), j, OptionalField(e, j))
  {
    hide EventHead, Optional, OptionalField, OPTIONAL_NAMES;
    if n > 0 {
      var k := OPTIONAL_NAMES[n - 1];
      PartialFields(e, n - 1, j);
      OneMore(Partial(e, n - 1), k, OptionalField(e, k), j);
      OptionalNamesDistinct(n - 1);
      assert OPTIONAL_NAMES[..n] == OPTIONAL_NAMES[..n - 1] + [k];
    }
  }

  lemma OptionalNamesDistinct(n: nat)
    requires n < |OPTIONAL_NAMES|
    ensures OPTIONAL_NAMES[n] !in OPTIONAL_NAMES[..n]
  {
  }

  lemma HeadHasNone(e: AuditEvent)
    ensures forall k :: k in OPTIONAL_NAMES ==> k !in EventHead(e)
  {
  }

  lemma FieldOf(e: AuditEvent, j: string)
    ensures j !in OPTIONAL_NAMES ==> SameAt(EventDict(e), EventHead(e), j)
    ensures j in OPTIONAL_NAMES ==> Holds(EventDict(e), j, OptionalField(e, j))
  {
    HeadHasNone(e);
    PartialIsDict(e);
    PartialFields(e, 6, j);
    assert OPTIONAL_NAMES[..6] == OPTIONAL_NAMES;
  }

  lemma NotOptional()
    ensures forall k :: k in HEAD_NAMES ==> k !in OPTIONAL_NAMES
  {
  }

  lemma HeadNames(e: AuditEvent)
    ensures var d := EventHead(e);
      && Has(d, "id", Str(e.id)) && Has(d, "timestamp", Str(e.timestamp)) && Has(d, "event_type", Str(e.eventType))
      && Has(d, "correlation_id", Str(e.correlationId)) && Has(d, "session_id", Str(e.sessionId))
      && Has(d, "policy_decision", Str(e.policyDecision))
  {
    hide Text.SortSet, Texts, ActorDict, CapabilityDict;
  }

  lemma HeadParts(e: AuditEvent)
    ensures var d := EventHead(e);
      && Has(d, "actor", Dict(ActorDict(e))) && Has(d, "capability", Dict(CapabilityDict(e)))
      && Has(d, "redactions", Texts(Text.SortSet(e.redactions)))
  {
    hide Text.SortSet, Texts, ActorDict, CapabilityDict;
  }

  /** What an event's dictionary says, under the source's names. */
  lemma EventExactly(e: AuditEvent)
    ensures var d := EventDict(e);
      && Has(d, "id", Str(e.id)) && Has(d, "timestamp", Str(e.timestamp)) && Has(d, "event_type", Str(e.eventType))
      && Has(d, "correlation_id", Str(e.correlationId)) && Has(d, "session_id", Str(e.sessionId))
      && Has(d, "policy_decision", Str(e.policyDecision))
      && Has(d, "actor", Dict(map["type" := Str(e.actorType), "id" := Str(e.actorId)]))
      && Has(d, "capability", Dict(map["id" := Str(e.capabilityId), "family" := Str(e.capabilityFamily),
                                       "action" := Str(e.capabilityAction)]))
      && Has(d, "redactions", Texts(Text.SortSet(e.redactions)))
  {
    NotOptional();
    hide EventDict, EventHead, Text.SortSet, Texts, OPTIONAL_NAMES;
    FieldOf(e, "id");
    FieldOf(e, "timestamp");
    FieldOf(e, "event_type");
    FieldOf(e, "correlation_id");
    FieldOf(e, "session_id");
    FieldOf(e, "policy_decision");
    FieldOf(e, "actor");
    FieldOf(e, "capability");
    FieldOf(e, "redactions");
    HeadNames(e);
    HeadParts(e);
  }

  /** And the fields it has only where the event does. */
  lemma EventOptions(e: AuditEvent)
    ensures var d := EventDict(e);
      && Holds(d, "target_id", match e.targetId case Some(t) => Some(Str(t)) case None => None)
      && Holds(d, "approval", match e.approval case Some(m) => Some(Dict(m)) case None => None)
      && Holds(d, "request", match e.request case Some(m) => Some(Dict(m)) case None => None)
      && Holds(d, "result", match e.result case Some(m) => Some(Dict(m)) case None => None)
      && Holds(d, "material_risks", if e.materialRisks == [] then None else Some(Texts(e.materialRisks)))
      && Holds(d, "provider",
               match e.provider
               case Some(p) => Some(Dict(map["id" := Str(p.id), "kind" := Str(p.kind),
                                             "is_real_hardware" := Bool(p.isRealHardware)]))
               case None => None)
  {
    hide EventDict, EventHead, Texts;
    FieldOf(e, "target_id");
    FieldOf(e, "approval");
    FieldOf(e, "provider");
    FieldOf(e, "request");
    FieldOf(e, "result");
    FieldOf(e, "material_risks");
  }

  /** What is written of an event: its three sections redacted, their paths added, and nothing else changed. */
  lemma RedactedExactly(rules: Rules, e: AuditEvent)
    ensures var p := RedactedEvent(rules, e);
      && p == e.(request := p.request, result := p.result, approval := p.approval, redactions := p.redactions)
      && p.request == (match e.request case Some(m) => Some(RedactMapping(rules, m)) case None => None)
      && p.result == (match e.result case Some(m) => Some(RedactMapping(rules, m)) case None => None)
      && p.approval == (match e.approval case Some(m) => Some(RedactMapping(rules, m)) case None => None)
      && forall x :: x in p.redactions <==>
           || x in e.redactions
           || (e.request.Some? && Below("request", MappingReported(rules, e.request.value), x))
           || (e.result.Some? && Below("result", MappingReported(rules, e.result.value), x))
           || (e.approval.Some? && Below("approval", MappingReported(rules, e.approval.value), x))
  {
    hide RedactMapping, MappingReported;
  }

  /** The path of something replaced in a section. */
  ghost predicate Below(section: string, paths: set<string>, x: string)
  {
    exists q :: q in paths && x == section + "." + q
  }

  /** What a record of the log holds, and what its hash is taken of. */
  lemma RecordExactly(sha: Hash, previous: Value, payload: Value)
    requires NoBytes(payload) && NoBytes(previous)
    ensures var r := WrittenRecord(sha, previous, payload);
      var content := Dict(map["previous_hash" := previous, "event" := payload]);
      && NoBytes(content) && Has(r, "previous_hash", previous) && Has(r, "event", Reload(payload))
      && Has(r, "event_hash", Str(sha(Dumps(content)))) && |r.Keys| == 3
  {
    hide Reload;
    var r := WrittenRecord(sha, previous, payload);
    assert r.Keys == {"previous_hash", "event", "event_hash"};
    ThreeNames();
  }

  lemma ThreeNames()
    ensures |{"previous_hash", "event", "event_hash"}| == 3
  {
    assert |"previous_hash"| == 13 && |"event"| == 5 && |"event_hash"| == 10;
  }
}
