/**
 The export round trip: a log written by the sink, exported and verified. The
 heart of the proof is that every record is a fixed point of redaction.
 */
module AuditExportLaws {
  import opened Wrappers
  import opened Values
  import opened Fingerprints
  import opened Redaction
  import opened RedactionLaws
  import opened RedactionReports
  import opened HashChain
  import opened Audit
  import opened AuditCheckpoint
  import opened AuditExport
  import opened Clock
  import Text

  // ------------------------------------------------------------ the envelope's own keys

  ghost predicate EventKeys(rules: Rules)
  {
    && Token(rules, "id") && Token(rules, "correlation_id") && Token(rules, "session_id") && Token(rules, "target_id")
    && Open(rules, "timestamp") && Open(rules, "event_type") && Open(rules, "policy_decision")
    && Open(rules, "actor") && Open(rules, "type")
    && Open(rules, "capability") && Open(rules, "family") && Open(rules, "action")
    && Open(rules, "provider") && Open(rules, "kind") && Open(rules, "is_real_hardware")
    && Open(rules, "approval") && Open(rules, "request") && Open(rules, "result") && Open(rules, "material_risks")
    && rules.pathList("redactions")
  }

  ghost predicate BundleKeys(rules: Rules)
  {
    && Token(rules, "previous_hash") && Token(rules, "event_hash") && Open(rules, "event")
    && Open(rules, "version") && Token(rules, "export_id") && Token(rules, "audit_log_id")
    && Open(rules, "records") && Open(rules, "checkpoint") && Open(rules, "record_count")
    && Token(rules, "last_event_hash") && Token(rules, "checkpoint_id") && Token(rules, "previous_checkpoint_hash")
    && Token(rules, "checkpoint_hash") && Open(rules, "last_event_index") && Open(rules, "event_count")
    && Open(rules, "created_at") && !rules.structural("created_at") && Open(rules, "metadata")
    && Open(rules, "chain_verified") && Open(rules, "checkpoint_verified") && Open(rules, "redaction_summary")
    && Open(rules, "record_redaction_count") && Open(rules, "checkpoint_redaction_count")
  }

  // ------------------------------------------------------------ fixed points

  /** Every field of a mapping is left alone. */
  ghost predicate FieldsFixed(rules: Rules, m: map<string, Value>)
  {
    forall k :: k in m ==> FixedPoint(rules, m[k], k)
  }

  lemma FixedDict(rules: Rules, m: map<string, Value>, key: string)
    requires Open(rules, key) && !ChildCapture(rules, m, false) && FieldsFixed(rules, m)
    ensures FixedPoint(rules, Dict(m), key)
  {
    FixedMapping(rules, Dict(m), key);
  }

  lemma FixedText(rules: Rules, s: string, key: string)
    requires Token(rules, key) || (Open(rules, key) && !rules.secret(s))
    ensures FixedPoint(rules, Str(s), key)
  {
  }

  lemma FixedTexts(rules: Rules, s: seq<string>, key: string)
    requires rules.pathList(key) || (Open(rules, key) && forall i :: 0 <= i < |s| ==> !rules.secret(s[i]))
    ensures FixedPoint(rules, Texts(s), key)
  {
    if !rules.pathList(key) {
      FixedSequence(rules, Texts(s), key);
      forall i | 0 <= i < |s| ensures FixedPoint(rules, Texts(s).items[i], key) {
        FixedText(rules, s[i], key);
      }
    }
  }

  lemma FixedReload(rules: Rules, v: Value, key: string)
    requires FixedPoint(rules, v, key)
    ensures FixedPoint(rules, Reload(v), key)
  {
    RedactReload(rules, v, key, false);
  }

  // ------------------------------------------------------------ events

  /** A section in the default posture whose byte strings, if any, are masked as such. */
  ghost predicate CleanSection(rules: Rules, fields: Option<map<string, Value>>)
  {
    fields.Some? ==>
      DefaultMapping(rules, fields.value) && !HidBytesIn(rules, fields.value) && !KeepsBytesIn(rules, fields.value)
  }

  /** Identity fields that do not look like secrets; ids may look like anything. */
  ghost predicate CleanIdentity(rules: Rules, e: AuditEvent)
  {
    && !rules.secret(e.timestamp) && !rules.secret(e.eventType) && !rules.secret(e.policyDecision)
    && !rules.secret(e.actorType) && !rules.secret(e.capabilityFamily) && !rules.secret(e.capabilityAction)
    && (e.provider.Some? ==> !rules.secret(e.provider.value.kind))
    && (forall i :: 0 <= i < |e.materialRisks| ==> !rules.secret(e.materialRisks[i]))
  }

  ghost predicate CleanEvent(rules: Rules, e: AuditEvent)
  {
    && CleanIdentity(rules, e)
    && CleanSection(rules, e.request) && CleanSection(rules, e.result) && CleanSection(rules, e.approval)
  }

  lemma ActorFixed(rules: Rules, e: AuditEvent)
    requires EventKeys(rules) && !rules.secret(e.actorType)
    ensures FixedPoint(rules, Dict(ActorDict(e)), "actor")
  {
    var m := ActorDict(e);
    assert NoPosture(m);
    FixedText(rules, e.actorType, "type");
    FixedText(rules, e.actorId, "id");
    FixedDict(rules, m, "actor");
  }

  lemma CapabilityFixed(rules: Rules, e: AuditEvent)
    requires EventKeys(rules) && !rules.secret(e.capabilityFamily) && !rules.secret(e.capabilityAction)
    ensures FixedPoint(rules, Dict(CapabilityDict(e)), "capability")
  {
    var m := CapabilityDict(e);
    assert NoPosture(m);
    FixedText(rules, e.capabilityId, "id");
    FixedText(rules, e.capabilityFamily, "family");
    FixedText(rules, e.capabilityAction, "action");
    FixedDict(rules, m, "capability");
  }

  lemma ProviderFixed(rules: Rules, p: ProviderRef)
    requires EventKeys(rules) && !rules.secret(p.kind)
    ensures FixedPoint(rules, Dict(ProviderDict(p)), "provider")
  {
    var m := ProviderDict(p);
    assert NoPosture(m);
    FixedText(rules, p.id, "id");
    FixedText(rules, p.kind, "kind");
    FixedDict(rules, m, "provider");
  }

  lemma HeadFixed(rules: Rules, e: AuditEvent)
    requires EventKeys(rules) && CleanIdentity(rules, e)
    ensures FieldsFixed(rules, EventHead(e)) && NoPosture(EventHead(e))
  {
    hide FixedPoint, Open, Token, ActorDict, CapabilityDict, Texts;
    FixedText(rules, e.id, "id");
    FixedText(rules, e.timestamp, "timestamp");
    FixedText(rules, e.eventType, "event_type");
    FixedText(rules, e.correlationId, "correlation_id");
    FixedText(rules, e.sessionId, "session_id");
    FixedText(rules, e.policyDecision, "policy_decision");
    ActorFixed(rules, e);
    CapabilityFixed(rules, e);
    FixedTexts(rules, Text.SortSet(e.redactions), "redactions");
  }

  lemma HeadNoBytes(e: AuditEvent)
    ensures NoBytes(Dict(EventHead(e)))
  {
    TextsPlain(Text.SortSet(e.redactions));
    ReloadFixed(Texts(Text.SortSet(e.redactions)));
    forall k | k in ActorDict(e) ensures NoBytes(ActorDict(e)[k]) {}
    forall k | k in CapabilityDict(e) ensures NoBytes(CapabilityDict(e)[k]) {}
    forall k | k in EventHead(e) ensures NoBytes(EventHead(e)[k]) {}
  }

  /** A mapping that redaction leaves alone and `json` can write. */
  ghost predicate Settled(rules: Rules, m: map<string, Value>)
  {
    FieldsFixed(rules, m) && NoPosture(m) && NoBytes(Dict(m))
  }

  lemma SettledMerge(rules: Rules, a: map<string, Value>, b: map<string, Value>)
    requires Settled(rules, a) && Settled(rules, b)
    ensures Settled(rules, a + b)
  {
  }

  lemma SettledOptional(rules: Rules, key: string, v: Option<Value>)
    requires v.Some? ==> FixedPoint(rules, v.value, key) && NoBytes(v.value)
    requires NoPosture(map[key := Null])
    ensures Settled(rules, Optional(key, v))
  {
  }

  lemma SettledSection(rules: Rules, key: string, fields: Option<map<string, Value>>)
    requires MasksInert(rules) && PostureKeysOpen(rules) && Open(rules, key) && CleanSection(rules, fields)
    requires NoPosture(map[key := Null])
    ensures Settled(rules, Optional(key, Section(RedactSection(rules, fields))))
  {
    if fields.Some? {
      MappingIdempotent(rules, fields.value);
      RedactNoBytesExactly(rules, fields.value);
      FixedDict(rules, RedactMapping(rules, fields.value), key);
    }
    SettledOptional(rules, key, Section(RedactSection(rules, fields)));
  }

  lemma SettledTarget(rules: Rules, e: AuditEvent)
    requires EventKeys(rules)
    ensures Settled(rules, Optional("target_id", TargetField(e)))
  {
    if e.targetId.Some? { FixedText(rules, e.targetId.value, "target_id"); }
    SettledOptional(rules, "target_id", TargetField(e));
  }

  lemma SettledProvider(rules: Rules, e: AuditEvent)
    requires EventKeys(rules) && CleanIdentity(rules, e)
    ensures Settled(rules, Optional("provider", ProviderField(e)))
  {
    if e.provider.Some? {
      ProviderFixed(rules, e.provider.value);
      assert NoBytes(Dict(ProviderDict(e.provider.value)));
    }
    SettledOptional(rules, "provider", ProviderField(e));
  }

  lemma SettledRisks(rules: Rules, e: AuditEvent)
    requires EventKeys(rules) && CleanIdentity(rules, e)
    ensures Settled(rules, Optional("material_risks", RisksField(e)))
  {
    FixedTexts(rules, e.materialRisks, "material_risks");
    TextsPlain(e.materialRisks);
    ReloadFixed(Texts(e.materialRisks));
    SettledOptional(rules, "material_risks", RisksField(e));
  }

  lemma SettledHead(rules: Rules, e: AuditEvent)
    requires EventKeys(rules) && CleanIdentity(rules, e)
    ensures Settled(rules, EventHead(e))
  {
    HeadFixed(rules, e);
    HeadNoBytes(e);
  }

  /** Whatever the sink writes for a clean event, a second redaction leaves alone. */
  lemma WrittenEventFixed(rules: Rules, e: AuditEvent)
    requires MasksInert(rules) && PostureKeysOpen(rules) && EventKeys(rules) && Open(rules, "event")
    requires CleanEvent(rules, e)
    ensures
      var payload := EventValue(RedactedEvent(rules, e));
      NoBytes(payload) && FixedPoint(rules, payload, "event")
  {
    var r := RedactedEvent(rules, e);
    SettledHead(rules, r);
    SettledTarget(rules, r);
    SettledProvider(rules, r);
    SettledRisks(rules, r);
    SettledSection(rules, "approval", e.approval);
    SettledSection(rules, "request", e.request);
    SettledSection(rules, "result", e.result);
    SettledUnion(rules, EventHead(r), Optional("target_id", TargetField(r)), Optional("approval", Section(r.approval)),
                 Optional("provider", ProviderField(r)), Optional("request", Section(r.request)),
                 Optional("result", Section(r.result)), Optional("material_risks", RisksField(r)));
    FixedDict(rules, EventDict(r), "event");
  }

  lemma SettledUnion(rules: Rules, a: map<string, Value>, b: map<string, Value>, c: map<string, Value>,
                     d: map<string, Value>, e: map<string, Value>, f: map<string, Value>, g: map<string, Value>)
    requires Settled(rules, a) && Settled(rules, b) && Settled(rules, c) && Settled(rules, d)
    requires Settled(rules, e) && Settled(rules, f) && Settled(rules, g)
    ensures Settled(rules, a + b + c + d + e + f + g)
  {
    SettledMerge(rules, a, b);
    SettledMerge(rules, a + b, c);
    SettledMerge(rules, a + b + c, d);
    SettledMerge(rules, a + b + c + d, e);
    SettledMerge(rules, a + b + c + d + e, f);
    SettledMerge(rules, a + b + c + d + e + f, g);
  }

  // ------------------------------------------------------------ records and checkpoints

  lemma RecordMapFixed(rules: Rules, previous: Value, event: Value, hash: string)
    requires BundleKeys(rules) && FixedPoint(rules, event, "event")
    requires previous.Null? || previous.Str?
    ensures FixedPoint(rules, Dict(map["previous_hash" := previous, "event" := event, "event_hash" := Str(hash)]),
                       "records")
  {
    var r := map["previous_hash" := previous, "event" := event, "event_hash" := Str(hash)];
    assert NoPosture(r);
    assert FixedPoint(rules, previous, "previous_hash");
    FixedText(rules, hash, "event_hash");
    FixedDict(rules, r, "records");
  }

  lemma RecordFixed(rules: Rules, sha: Hash, previous: Value, payload: Value)
    requires BundleKeys(rules) && NoBytes(payload) && FixedPoint(rules, payload, "event")
    requires previous.Null? || previous.Str?
    ensures FixedPoint(rules, Dict(WrittenRecord(sha, previous, payload)), "records")
  {
    RecordHashReload(sha, previous, payload);
    FixedReload(rules, payload, "event");
    RecordMapFixed(rules, previous, Reload(payload), RecordHash(sha, previous, payload).s);
  }

  /** Logs built by the sink from clean events, starting from an empty file. */
  ghost predicate AllFixed(rules: Rules, log: seq<Record>)
  {
    forall i :: 0 <= i < |log| ==> FixedPoint(rules, Dict(log[i]), "records")
  }

  function SinkLog(rules: Rules, sha: Hash, events: seq<AuditEvent>): seq<Record>
  {
    WriteAll(sha, [], seq(|events|, i requires 0 <= i < |events| => EventValue(RedactedEvent(rules, events[i]))))
  }

  lemma {:induction false} WriteAllFixed(rules: Rules, sha: Hash, log: seq<Record>, payloads: seq<Value>)
    requires BundleKeys(rules) && AllDecoded(log) && ChainOk(sha, log) && AllFixed(rules, log)
    requires LastHash(Null, Views(log)).Null? || LastHash(Null, Views(log)).Str?
    requires forall i :: 0 <= i < |payloads| ==> NoBytes(payloads[i]) && FixedPoint(rules, payloads[i], "event")
    ensures AllDecoded(WriteAll(sha, log, payloads)) && ChainOk(sha, WriteAll(sha, log, payloads))
    ensures AllFixed(rules, WriteAll(sha, log, payloads))
    decreases |payloads|
  {
    hide RecordHash, FixedPoint, NoBytes, Plain, Chain, BundleKeys, WrittenRecord;
    if payloads != [] {
      var previous := LastHash(Null, Views(log));
      var r := WrittenRecord(sha, previous, payloads[0]);
      WriteKeepsChain(sha, log, payloads[0]);
      RecordFixed(rules, sha, previous, payloads[0]);
      RecordHashReload(sha, previous, payloads[0]);
      WrittenRecordView(sha, previous, payloads[0]);
      assert Views(log + [r])[|log|] == View(r);
      WriteAllFixed(rules, sha, log + [r], payloads[1..]);
    }
  }

  lemma SinkLogFixed(rules: Rules, sha: Hash, events: seq<AuditEvent>)
    requires MasksInert(rules) && PostureKeysOpen(rules) && EventKeys(rules) && BundleKeys(rules)
    requires forall i :: 0 <= i < |events| ==> CleanEvent(rules, events[i])
    ensures
      var log := SinkLog(rules, sha, events);
      AllDecoded(log) && ChainOk(sha, log) && AllFixed(rules, log)
  {
    forall i | 0 <= i < |events|
      ensures
        var payload := EventValue(RedactedEvent(rules, events[i]));
        NoBytes(payload) && FixedPoint(rules, payload, "event")
    {
      WrittenEventFixed(rules, events[i]);
    }
    WriteAllFixed(rules, sha, [],
      seq(|events|, i requires 0 <= i < |events| => EventValue(RedactedEvent(rules, events[i]))));
  }

  lemma RecordListFixed(rules: Rules, log: seq<Record>)
    requires Open(rules, "records") && AllFixed(rules, log)
    ensures FixedPoint(rules, RecordList(log), "records")
  {
    FixedSequence(rules, RecordList(log), "records");
  }

  lemma UnsignedFixed(rules: Rules, time: TimeText, c: Checkpoint)
    requires BundleKeys(rules) && rules.pathList("redactions") && !rules.secret(time.iso(c.createdAt))
    requires FixedPoint(rules, Dict(c.metadata), "metadata")
    ensures FieldsFixed(rules, UnsignedPayload(time, c))
  {
    hide FixedPoint, Open, Token, Texts, OptionalText;
    FixedText(rules, c.checkpointId, "checkpoint_id");
    FixedText(rules, c.auditLogId, "audit_log_id");
    FixedText(rules, time.iso(c.createdAt), "created_at");
    FixedTexts(rules, Text.SortSet(c.redactions), "redactions");
    FixedOptionalText(rules, c.lastEventHash, "last_event_hash");
    FixedOptionalText(rules, c.previousCheckpointHash, "previous_checkpoint_hash");
    FixedInt(rules, c.lastEventIndex, "last_event_index");
    FixedInt(rules, c.eventCount, "event_count");
  }

  lemma FixedOptionalText(rules: Rules, o: Option<string>, key: string)
    requires Token(rules, key)
    ensures FixedPoint(rules, OptionalText(o), key)
  {
  }

  lemma FixedInt(rules: Rules, n: int, key: string)
    requires Open(rules, key)
    ensures FixedPoint(rules, Int(n), key)
  {
  }

  lemma UnsignedNoPosture(time: TimeText, c: Checkpoint)
    ensures NoPosture(UnsignedPayload(time, c))
  {
  }

  lemma CheckpointFixed(rules: Rules, time: TimeText, c: Checkpoint)
    requires BundleKeys(rules) && rules.pathList("redactions") && !rules.secret(time.iso(c.createdAt))
    requires FixedPoint(rules, Dict(c.metadata), "metadata")
    ensures FixedPoint(rules, Dict(JsonDict(time, c)), "checkpoint")
  {
    UnsignedFixed(rules, time, c);
    UnsignedNoPosture(time, c);
    var u := UnsignedPayload(time, c);
    var signed := u["checkpoint_hash" := Str(c.checkpointHash)];
    FixedText(rules, c.checkpointHash, "checkpoint_hash");
    assert NoPosture(map["checkpoint_hash" := Null]);
    assert NoPosture(signed);
    FixedDict(rules, signed, "checkpoint");
    FixedReload(rules, Dict(signed), "checkpoint");
  }

  // ------------------------------------------------------------ the round trip

  /** A checkpoint built from metadata in the default posture. */
  ghost predicate CleanCheckpoint(env: Env, c0: Checkpoint, c: Checkpoint)
  {
    && DefaultMapping(env.rules, c0.metadata) && Construct(env, c0, false) == Ok(c)
    && !env.rules.secret(env.time.iso(c.createdAt))
  }

  /** What the export relies on: facts of the patterns, and of hashing and dates. */
  ghost predicate ExportEnv(env: Env)
  {
    && CollisionFree(env.sha) && RoundTrips(env.time)
    && MasksInert(env.rules) && PostureKeysOpen(env.rules)
    && EventKeys(env.rules) && BundleKeys(env.rules) && !env.rules.secret(EXPORT_VERSION)
  }

  predicate Quiet(m: map<string, Value>) { NoPosture(m) && "redactions" !in m }

  lemma HeadQuiet(env: Env, log: seq<Record>, args: ExportArgs)
    ensures Quiet(PayloadHead(env, log, args))
  {
  }

  lemma TailQuiet(createdAt: string, chain: bool, fits: bool, summary: map<string, Value>, metadata: map<string, Value>)
    ensures Quiet(PayloadTail(createdAt, chain, fits, summary, metadata))
  {
  }

  lemma QuietMerge(rules: Rules, a: map<string, Value>, b: map<string, Value>)
    requires Quiet(a) && Quiet(b)
    ensures Quiet(a + b) && !ChildCapture(rules, a + b, false)
  {
  }

  lemma PayloadQuiet(env: Env, log: seq<Record>, args: ExportArgs, fits: bool)
    ensures !ChildCapture(env.rules, Payload(env, log, args, fits), false)
    ensures "redactions" !in Payload(env, log, args, fits)
  {
    var summary := RedactionSummary(RecordRedactions(log), RedactionCount(CheckpointValue(env, args)));
    HeadQuiet(env, log, args);
    TailQuiet(env.time.iso(args.now), ChainOk(env.sha, log), fits, summary, args.metadata);
    QuietMerge(env.rules, PayloadHead(env, log, args),
               PayloadTail(env.time.iso(args.now), ChainOk(env.sha, log), fits, summary, args.metadata));
  }

  lemma PayloadFields(env: Env, log: seq<Record>, args: ExportArgs, fits: bool)
    ensures
      var p := Payload(env, log, args, fits);
      && Has(p, "version", Str(EXPORT_VERSION)) && Has(p, "export_id", Str(args.exportId))
      && Has(p, "audit_log_id", Str(args.auditLogId)) && Has(p, "records", RecordList(log))
      && Has(p, "checkpoint", CheckpointValue(env, args)) && Has(p, "record_count", Int(|log|))
      && Has(p, "last_event_hash", LastText(log))
  {
    hide PayloadHead, RecordList, CheckpointValue, LastText, RedactionSummary, RedactionCount, RecordRedactions;
    HeadFields(env, log, args);
  }

  lemma HeadFields(env: Env, log: seq<Record>, args: ExportArgs)
    ensures
      var p := PayloadHead(env, log, args);
      && Has(p, "version", Str(EXPORT_VERSION)) && Has(p, "export_id", Str(args.exportId))
      && Has(p, "audit_log_id", Str(args.auditLogId)) && Has(p, "records", RecordList(log))
      && Has(p, "checkpoint", CheckpointValue(env, args)) && Has(p, "record_count", Int(|log|))
      && Has(p, "last_event_hash", LastText(log))
  {
  }

  /** A field that redaction and JSON both leave alone reaches the bundle unchanged. */
  lemma BundleField(rules: Rules, p: map<string, Value>, k: string, v: Value)
    requires "redactions" !in p && !ChildCapture(rules, p, false)
    requires Has(p, k, v) && FixedPoint(rules, v, k) && Reload(v) == v
    ensures Has(Bundle(rules, p), k, v)
  {
  }

  lemma HeadNoByteStrings(env: Env, log: seq<Record>, args: ExportArgs)
    requires AllDecoded(log) && NoBytes(CheckpointValue(env, args))
    ensures NoBytes(Dict(PayloadHead(env, log, args)))
  {
    RecordListPlain(log);
    forall k | k in PayloadHead(env, log, args) ensures NoBytes(PayloadHead(env, log, args)[k]) {}
  }

  lemma TailNoByteStrings(createdAt: string, chain: bool, fits: bool, summary: map<string, Value>,
                          metadata: map<string, Value>)
    requires NoBytes(Dict(summary)) && NoBytes(Dict(metadata))
    ensures NoBytes(Dict(PayloadTail(createdAt, chain, fits, summary, metadata)))
  {
    var t := PayloadTail(createdAt, chain, fits, summary, metadata);
    forall k | k in t ensures NoBytes(t[k]) {}
  }

  lemma SummaryNoByteStrings(records: nat, checkpoint: nat)
    ensures NoBytes(Dict(RedactionSummary(records, checkpoint)))
  {
  }

  lemma NoBytesMerge(a: map<string, Value>, b: map<string, Value>)
    requires NoBytes(Dict(a)) && NoBytes(Dict(b))
    ensures NoBytes(Dict(a + b))
  {
  }

  lemma PayloadNoBytes(env: Env, log: seq<Record>, args: ExportArgs, fits: bool)
    requires AllDecoded(log) && NoBytes(CheckpointValue(env, args)) && NoBytes(Dict(args.metadata))
    ensures NoBytes(Dict(Payload(env, log, args, fits)))
  {
    var summary := RedactionSummary(RecordRedactions(log), RedactionCount(CheckpointValue(env, args)));
    HeadNoByteStrings(env, log, args);
    SummaryNoByteStrings(RecordRedactions(log), RedactionCount(CheckpointValue(env, args)));
    TailNoByteStrings(env.time.iso(args.now), ChainOk(env.sha, log), fits, summary, args.metadata);
    NoBytesMerge(PayloadHead(env, log, args),
                 PayloadTail(env.time.iso(args.now), ChainOk(env.sha, log), fits, summary, args.metadata));
  }

  lemma RecordListPlain(log: seq<Record>)
    requires AllDecoded(log)
    ensures Plain(RecordList(log)) && NoBytes(RecordList(log)) && Reload(RecordList(log)) == RecordList(log)
  {
    assert Plain(RecordList(log));
    ReloadFixed(RecordList(log));
  }

  lemma BundlePlain(rules: Rules, p: map<string, Value>)
    requires NoBytes(Dict(p))
    ensures Plain(Dict(Bundle(rules, p)))
  {
    RedactNoBytesMapping(rules, p);
    var paths := Text.SortSet(MappingReported(rules, p));
    TextsPlain(paths);
    ReloadFixed(Texts(paths));
    var m := RedactMapping(rules, p)["redactions" := Texts(paths)];
    assert NoBytes(Dict(m)) by {
      forall k | k in m ensures NoBytes(m[k]) {
        assert k in RedactMapping(rules, p) || k == "redactions";
      }
    }
    ReloadPlain(Dict(m));
  }

  /** The seven fields that verification reads reach the bundle unchanged. */
  lemma BundleCarries(env: Env, log: seq<Record>, args: ExportArgs, fits: bool)
    requires ExportEnv(env) && AllDecoded(log) && AllFixed(env.rules, log)
    requires FixedPoint(env.rules, CheckpointValue(env, args), "checkpoint") && Plain(CheckpointValue(env, args))
    ensures
      var b := Bundle(env.rules, Payload(env, log, args, fits));
      && Has(b, "version", Str(EXPORT_VERSION)) && Has(b, "export_id", Str(args.exportId))
      && Has(b, "audit_log_id", Str(args.auditLogId)) && Has(b, "records", RecordList(log))
      && Has(b, "checkpoint", CheckpointValue(env, args)) && Has(b, "record_count", Int(|log|))
      && Has(b, "last_event_hash", LastText(log))
  {
    var p := Payload(env, log, args, fits);
    PayloadQuiet(env, log, args, fits);
    PayloadFields(env, log, args, fits);
    FixedText(env.rules, EXPORT_VERSION, "version");
    BundleField(env.rules, p, "version", Str(EXPORT_VERSION));
    FixedText(env.rules, args.exportId, "export_id");
    BundleField(env.rules, p, "export_id", Str(args.exportId));
    FixedText(env.rules, args.auditLogId, "audit_log_id");
    BundleField(env.rules, p, "audit_log_id", Str(args.auditLogId));
    RecordListFixed(env.rules, log);
    RecordListPlain(log);
    BundleField(env.rules, p, "records", RecordList(log));
    ReloadFixed(CheckpointValue(env, args));
    BundleField(env.rules, p, "checkpoint", CheckpointValue(env, args));
    FixedInt(env.rules, |log|, "record_count");
    BundleField(env.rules, p, "record_count", Int(|log|));
    LastTextFixed(env.rules, log);
    BundleField(env.rules, p, "last_event_hash", LastText(log));
  }

  /** What else an exported bundle says: both verdicts, when it was made, its own metadata, and what was redacted. */
  ghost predicate Says(env: Env, b: map<string, Value>, log: seq<Record>, args: ExportArgs, fits: bool)
  {
    && Has(b, "redactions", Texts(Text.SortSet(MappingReported(env.rules, Payload(env, log, args, fits)))))
    && Has(b, "chain_verified", Bool(ChainOk(env.sha, log))) && Has(b, "checkpoint_verified", Bool(fits))
    && Has(b, "created_at", Str(if env.rules.secret(env.time.iso(args.now)) then REDACTED else env.time.iso(args.now)))
    && Has(b, "metadata", Reload(Dict(RedactMapping(env.rules, args.metadata))))
    && Has(b, "redaction_summary",
           Dict(map["record_redaction_count" := Int(RecordRedactions(log)),
                    "checkpoint_redaction_count" := Int(RedactionCount(CheckpointValue(env, args)))]))
  }

  lemma TailFields(createdAt: string, chain: bool, fits: bool, summary: map<string, Value>,
                   metadata: map<string, Value>, head: map<string, Value>)
    ensures
      var p := head + PayloadTail(createdAt, chain, fits, summary, metadata);
      && Has(p, "chain_verified", Bool(chain)) && Has(p, "checkpoint_verified", Bool(fits))
      && Has(p, "created_at", Str(createdAt)) && Has(p, "metadata", Dict(metadata))
      && Has(p, "redaction_summary", Dict(summary))
  {
  }

  lemma PayloadSays(env: Env, log: seq<Record>, args: ExportArgs, fits: bool)
    ensures
      var p := Payload(env, log, args, fits);
      var summary := RedactionSummary(RecordRedactions(log), RedactionCount(CheckpointValue(env, args)));
      && Has(p, "chain_verified", Bool(ChainOk(env.sha, log))) && Has(p, "checkpoint_verified", Bool(fits))
      && Has(p, "created_at", Str(env.time.iso(args.now))) && Has(p, "metadata", Dict(args.metadata))
      && Has(p, "redaction_summary", Dict(summary))
  {
    hide PayloadHead, PayloadTail, RedactionSummary, RecordRedactions, RedactionCount, CheckpointValue, ChainOk;
    TailFields(env.time.iso(args.now), ChainOk(env.sha, log), fits,
               RedactionSummary(RecordRedactions(log), RedactionCount(CheckpointValue(env, args))), args.metadata,
               PayloadHead(env, log, args));
  }

  /** A field of the payload in the bundle. */
  lemma BundleHolds(rules: Rules, p: map<string, Value>, k: string, v: Value)
    requires "redactions" !in p && !ChildCapture(rules, p, false) && Has(p, k, v)
    ensures Has(Bundle(rules, p), k, Reload(Redact(rules, v, k, false)))
  {
  }

  lemma BundleLists(rules: Rules, p: map<string, Value>)
    ensures Has(Bundle(rules, p), "redactions", Texts(Text.SortSet(MappingReported(rules, p))))
  {
    hide RedactMapping, MappingReported, Text.SortSet;
    TextsPlain(Text.SortSet(MappingReported(rules, p)));
  }

  lemma BundleSays(env: Env, log: seq<Record>, args: ExportArgs, fits: bool)
    requires BundleKeys(env.rules)
    ensures Says(env, Bundle(env.rules, Payload(env, log, args, fits)), log, args, fits)
  {
    hide Payload, Bundle, Redact, Reload, RedactionSummary, BundleKeys, RedactMapping, RecordRedactions, ChildCapture;
    hide RedactionCount, CheckpointValue, ChainOk;
    var p := Payload(env, log, args, fits);
    var summary := RedactionSummary(RecordRedactions(log), RedactionCount(CheckpointValue(env, args)));
    PayloadQuiet(env, log, args, fits);
    PayloadSays(env, log, args, fits);
    TailPasses(env.rules, args, summary);
    SummaryPasses(env.rules, RecordRedactions(log), RedactionCount(CheckpointValue(env, args)));
    BundleLists(env.rules, p);
    BundleHolds(env.rules, p, "chain_verified", Bool(ChainOk(env.sha, log)));
    BundleHolds(env.rules, p, "checkpoint_verified", Bool(fits));
    BundleHolds(env.rules, p, "created_at", Str(env.time.iso(args.now)));
    BundleHolds(env.rules, p, "metadata", Dict(args.metadata));
    BundleHolds(env.rules, p, "redaction_summary", Dict(summary));
  }

  lemma TailPasses(rules: Rules, args: ExportArgs, summary: map<string, Value>)
    requires BundleKeys(rules)
    ensures forall b :: Reload(Redact(rules, Bool(b), "chain_verified", false)) == Bool(b)
    ensures forall b :: Reload(Redact(rules, Bool(b), "checkpoint_verified", false)) == Bool(b)
    ensures forall s ::
      Reload(Redact(rules, Str(s), "created_at", false)) == Str(if rules.secret(s) then REDACTED else s)
    ensures Redact(rules, Dict(args.metadata), "metadata", false) == Dict(RedactMapping(rules, args.metadata))
  {
  }

  lemma SummaryPasses(rules: Rules, records: nat, checkpoint: nat)
    requires BundleKeys(rules)
    ensures var summary := RedactionSummary(records, checkpoint);
      && summary == map["record_redaction_count" := Int(records), "checkpoint_redaction_count" := Int(checkpoint)]
      && Reload(Redact(rules, Dict(summary), "redaction_summary", false)) == Dict(summary)
  {
    var summary := RedactionSummary(records, checkpoint);
    FixedInt(rules, records, "record_redaction_count");
    FixedInt(rules, checkpoint, "checkpoint_redaction_count");
    SummaryPlain(records, checkpoint);
    hide Redact, Reload;
    FixedDict(rules, summary, "redaction_summary");
  }

  lemma SummaryPlain(records: nat, checkpoint: nat)
    ensures NoPosture(RedactionSummary(records, checkpoint))
    ensures Reload(Dict(RedactionSummary(records, checkpoint))) == Dict(RedactionSummary(records, checkpoint))
  {
    var summary := RedactionSummary(records, checkpoint);
    assert Reload(Dict(summary)).fields == summary;
  }

  lemma LastTextFixed(rules: Rules, log: seq<Record>)
    requires Token(rules, "last_event_hash")
    ensures FixedPoint(rules, LastText(log), "last_event_hash") && Reload(LastText(log)) == LastText(log)
  {
  }

  /** A bundle that carries the log and a fitting checkpoint verifies. */
  lemma CarriedBundleVerifies(env: Env, log: seq<Record>, args: ExportArgs, b: map<string, Value>)
    requires ChainOk(env.sha, log) && args.exportId != "" && args.auditLogId != ""
    requires Has(b, "version", Str(EXPORT_VERSION)) && Has(b, "export_id", Str(args.exportId))
    requires Has(b, "audit_log_id", Str(args.auditLogId)) && Has(b, "records", RecordList(log))
    requires Has(b, "checkpoint", CheckpointValue(env, args)) && Has(b, "record_count", Int(|log|))
    requires Has(b, "last_event_hash", LastText(log))
    requires args.checkpoint.Some? ==>
      CheckpointFits(env, log, JsonDict(env.time, args.checkpoint.value)) == Ok(true)
    ensures VerifyExport(env, b) ==
      ExportVerification(true, "audit export verified", |log|, true, args.checkpoint.Some?)
  {
    assert BundleRecords(b) == Ok(log) by {
      assert seq(|log|, i requires 0 <= i < |log| => RecordList(log).items[i].fields) == log;
    }
    assert RequiredStr(b, "export_id").Ok? && RequiredStr(b, "audit_log_id").Ok?;
    assert RequiredInt(b, "record_count") == Ok(|log|);
  }

  /** The metadata was redacted without leaving a byte string, and parses back. */
  ghost predicate Exportable(rules: Rules, c0: Checkpoint)
  {
    !KeepsBytesIn(rules, c0.metadata) && ParsesBack(rules, c0)
  }

  lemma ParsedFits(env: Env, log: seq<Record>, p: map<string, Value>, c: Checkpoint)
    requires FromDict(env, p) == Ok(c) && Accepts(env.sha, log, c)
    ensures CheckpointFits(env, log, p) == Ok(true)
  {
    hide FromDict, ChainOk;
    ParsedFields(env, p, c);
  }

  lemma CleanCheckpointFits(env: Env, log: seq<Record>, c0: Checkpoint, c: Checkpoint)
    requires ExportEnv(env) && CleanCheckpoint(env, c0, c) && Accepts(env.sha, log, c) && Exportable(env.rules, c0)
    ensures ToDict(env.time, c) == Ok(JsonDict(env.time, c))
    ensures CheckpointFits(env, log, JsonDict(env.time, c)) == Ok(true)
  {
    hide Construct, JsonDict, FromDict, DefaultMapping, NoBytes, KeepsBytesIn, HidBytesIn, Reload, ParsesBack;
    hide Settles, ChainOk, CheckpointFits, EventKeys, BundleKeys, MasksInert, PostureKeysOpen;
    CheckpointRoundTrip(env, c0, c);
    ParsedFits(env, log, JsonDict(env.time, c), Reread(c));
  }

  lemma CleanMetadata(env: Env, c0: Checkpoint, c: Checkpoint)
    requires CleanCheckpoint(env, c0, c) && Exportable(env.rules, c0)
    ensures c.metadata == RedactMapping(env.rules, c0.metadata) && NoBytes(Dict(c.metadata))
    ensures !HidBytesIn(env.rules, c0.metadata) && DefaultMapping(env.rules, c0.metadata)
    ensures !env.rules.secret(env.time.iso(c.createdAt))
  {
    hide RedactMapping, NoBytes, HidBytesIn, KeepsBytesIn, DefaultMapping, ContentHash, EmptyPathLasts;
    RedactNoBytesExactly(env.rules, c0.metadata);
  }

  lemma CleanCheckpointFixed(env: Env, c0: Checkpoint, c: Checkpoint)
    requires ExportEnv(env) && CleanCheckpoint(env, c0, c) && Exportable(env.rules, c0)
    ensures Plain(Dict(JsonDict(env.time, c))) && FixedPoint(env.rules, Dict(JsonDict(env.time, c)), "checkpoint")
  {
    hide JsonDict, FixedPoint, Plain, NoBytes, HidBytesIn, BundleKeys, CleanCheckpoint, Exportable, Open, Token;
    CleanMetadata(env, c0, c);
    JsonDictPlain(env.time, c);
    MetadataFixed(env, c0.metadata);
    CheckpointFixed(env.rules, env.time, c);
  }

  lemma MetadataFixed(env: Env, metadata: map<string, Value>)
    requires ExportEnv(env) && DefaultMapping(env.rules, metadata) && !HidBytesIn(env.rules, metadata)
    ensures FixedPoint(env.rules, Dict(RedactMapping(env.rules, metadata)), "metadata")
  {
    hide FixedPoint, HidBytesIn, DefaultMapping, RedactMapping;
    MappingIdempotent(env.rules, metadata);
    FixedDict(env.rules, RedactMapping(env.rules, metadata), "metadata");
  }

  /** A checkpoint that cannot be written or does not parse back makes the export raise. */
  lemma ExportRefused(env: Env, log: seq<Record>, args: ExportArgs, c0: Checkpoint)
    requires ExportEnv(env) && args.checkpoint.Some? && CleanCheckpoint(env, c0, args.checkpoint.value)
    requires !Exportable(env.rules, c0)
    ensures Export(env, log, args).Err?
  {
    hide Construct, JsonDict, FromDict, DefaultMapping, ParsesBack, KeepsBytesIn, ToDict, Payload, Bundle;
    CheckpointRoundTrip(env, c0, args.checkpoint.value);
  }

  /** Export round trip: unless the checkpoint makes it raise, the records and the checkpoint leave the
      export as they entered it, although the bundle is redacted again, and the bundle verifies. */
  lemma ExportRoundTrip(env: Env, events: seq<AuditEvent>, args: ExportArgs, c0: Checkpoint)
    requires ExportEnv(env) && args.exportId != "" && args.auditLogId != "" && NoBytes(Dict(args.metadata))
    requires forall i :: 0 <= i < |events| ==> CleanEvent(env.rules, events[i])
    requires args.checkpoint.Some? ==>
      CleanCheckpoint(env, c0, args.checkpoint.value)
      && Accepts(env.sha, SinkLog(env.rules, env.sha, events), args.checkpoint.value)
    ensures
      var log := SinkLog(env.rules, env.sha, events);
      var r := Export(env, log, args);
      && (r.Ok? <==> (args.checkpoint.Some? ==> Exportable(env.rules, c0)))
      && (r.Ok? ==>
            && Plain(Dict(r.value)) && Says(env, r.value, log, args, args.checkpoint.Some?)
            && Has(r.value, "records", RecordList(log)) && Has(r.value, "checkpoint", CheckpointValue(env, args))
            && VerifyExport(env, r.value) ==
                 ExportVerification(true, "audit export verified", |log|, true, args.checkpoint.Some?))
  {
    hide Exportable, VerifyExport, Bundle, Payload, CleanCheckpoint, FixedPoint, Plain, NoBytes, RecordList;
    hide JsonDict, ToDict, CheckpointFits, Says;
    var log := SinkLog(env.rules, env.sha, events);
    if args.checkpoint.Some? && !Exportable(env.rules, c0) {
      ExportRefused(env, log, args, c0);
    } else {
      if args.checkpoint.Some? {
        CleanCheckpointFits(env, log, c0, args.checkpoint.value);
        CleanCheckpointFixed(env, c0, args.checkpoint.value);
      }
      BundleVerifies(env, events, args);
    }
  }

  lemma BundleVerifies(env: Env, events: seq<AuditEvent>, args: ExportArgs)
    requires ExportEnv(env) && args.exportId != "" && args.auditLogId != "" && NoBytes(Dict(args.metadata))
    requires forall i :: 0 <= i < |events| ==> CleanEvent(env.rules, events[i])
    requires args.checkpoint.Some? ==>
      var p := JsonDict(env.time, args.checkpoint.value);
      && Plain(Dict(p)) && FixedPoint(env.rules, Dict(p), "checkpoint")
      && CheckpointFits(env, SinkLog(env.rules, env.sha, events), p) == Ok(true)
    ensures
      var log := SinkLog(env.rules, env.sha, events);
      var b := Bundle(env.rules, Payload(env, log, args, args.checkpoint.Some?));
      && Plain(Dict(b)) && Says(env, b, log, args, args.checkpoint.Some?)
      && Has(b, "records", RecordList(log)) && Has(b, "checkpoint", CheckpointValue(env, args))
      && VerifyExport(env, b) == ExportVerification(true, "audit export verified", |log|, true, args.checkpoint.Some?)
  {
    hide VerifyExport, Bundle, Payload, RecordList, JsonDict, CheckpointFits, Says;
    var log := SinkLog(env.rules, env.sha, events);
    SinkLogFixed(env.rules, env.sha, events);
    if args.checkpoint.None? { assert FixedPoint(env.rules, Null, "checkpoint"); }
    ReloadFixed(CheckpointValue(env, args));
    PayloadNoBytes(env, log, args, args.checkpoint.Some?);
    BundlePlain(env.rules, Payload(env, log, args, args.checkpoint.Some?));
    BundleCarries(env, log, args, args.checkpoint.Some?);
    BundleSays(env, log, args, args.checkpoint.Some?);
    CarriedBundleVerifies(env, log, args, Bundle(env.rules, Payload(env, log, args, args.checkpoint.Some?)));
  }

  /**
   Any export, of any log: it says whether the chain is sound, and whether the checkpoint, read back from its own
   dictionary, is held by the log; it fails exactly when that dictionary cannot be written or does not parse.
   */
  lemma ExportSays(env: Env, log: seq<Record>, args: ExportArgs)
    requires BundleKeys(env.rules)
    ensures var r := Export(env, log, args);
      && (args.checkpoint.None? ==> r.Ok? && Says(env, r.value, log, args, false))
      && (args.checkpoint.Some? ==>
            var written := ToDict(env.time, args.checkpoint.value);
            && (r.Ok? <==> written.Ok? && FromDict(env, written.value).Ok?)
            && (r.Ok? ==>
                  var c := FromDict(env, written.value).value;
                  Says(env, r.value, log, args, c.eventCount <= |log| && Keeps(log, c))))
  {
    hide ToDict, FromDict, Says, Bundle, Payload;
    match args.checkpoint
    case None => BundleSays(env, log, args, false);
    case Some(c) =>
      var written := ToDict(env.time, c);
      if written.Ok? && FromDict(env, written.value).Ok? {
        var back := FromDict(env, written.value).value;
        ParsedFields(env, written.value, back);
        BundleSays(env, log, args, back.eventCount <= |log| && Keeps(log, back));
      }
  }

  /** The log still holds the checkpointed hash at its place. */
  predicate Keeps(log: seq<Record>, c: Checkpoint)
    requires c.eventCount <= |log|
  {
    c.eventCount > 0 ==> Get(log[c.eventCount - 1], "event_hash") == OptionalText(c.lastEventHash)
  }

  /** Rereading a checkpoint does not change what is exported of it. */
  lemma RereadExports(env: Env, log: seq<Record>, args: ExportArgs, c: Checkpoint)
    requires NoBytes(Dict(c.metadata))
    ensures Export(env, log, args.(checkpoint := Some(Reread(c)))) == Export(env, log, args.(checkpoint := Some(c)))
  {
    hide CheckpointFits, Bundle, ChainOk, RecordList, RecordRedactions, RedactionCount, LastText, Reload, NoBytes;
    RereadNoBytes(c);
    JsonDictReread(env.time, c);
    hide JsonDict, Reread;
    var a, b := args.(checkpoint := Some(Reread(c))), args.(checkpoint := Some(c));
    assert CheckpointValue(env, a) == CheckpointValue(env, b);
    assert forall fits :: Payload(env, log, a, fits) == Payload(env, log, b, fits);
  }

  lemma JsonDictReread(time: TimeText, c: Checkpoint)
    requires NoBytes(Dict(c.metadata))
    ensures JsonDict(time, Reread(c)) == JsonDict(time, c)
  {
    RereadTwice(c);
    PayloadReload(time, c);
    PayloadReload(time, Reread(c));
    var u, w := UnsignedPayload(time, c), UnsignedPayload(time, Reread(c));
    hide UnsignedPayload, Reread;
    ReloadUpdate(u, "checkpoint_hash", Str(c.checkpointHash));
    ReloadUpdate(w, "checkpoint_hash", Str(c.checkpointHash));
    assert Reread(c).checkpointHash == c.checkpointHash by { RereadKeepsHash(c); }
  }

  lemma RereadKeepsHash(c: Checkpoint)
    ensures Reread(c).checkpointHash == c.checkpointHash
  {
  }

  lemma ReloadUpdate(u: map<string, Value>, k: string, v: Value)
    ensures Reload(Dict(u[k := v])).fields == Reload(Dict(u)).fields[k := Reload(v)]
  {
  }

  /** Exporting the dictionary of a checkpoint is exporting the checkpoint, failures included. */
  lemma MappingFormAgrees(env: Env, log: seq<Record>, args: ExportArgs, c0: Checkpoint, c: Checkpoint)
    requires ExportEnv(env) && CleanCheckpoint(env, c0, c) && ToDict(env.time, c).Ok?
    ensures ExportMapping(env, log, args, ToDict(env.time, c).value)
         == Export(env, log, args.(checkpoint := Some(c)))
  {
    hide FromDict, ParsesBack, KeepsBytesIn, DefaultMapping, Bundle, Payload, JsonDict, NoBytes, ExportEnv;
    hide CleanCheckpoint, Reread;
    MappingParses(env, c0, c);
    if ParsesBack(env.rules, c0) { RereadExports(env, log, args, c); }
  }

  lemma MappingParses(env: Env, c0: Checkpoint, c: Checkpoint)
    requires ExportEnv(env) && CleanCheckpoint(env, c0, c) && ToDict(env.time, c).Ok?
    ensures FromDict(env, ToDict(env.time, c).value)
         == if ParsesBack(env.rules, c0) then Ok(Reread(c)) else Err(HASH_MISMATCH)
  {
    hide FromDict, ParsesBack, KeepsBytesIn, DefaultMapping, Construct, ToDict, EventKeys, BundleKeys, Reread;
    CheckpointRoundTrip(env, c0, c);
  }
}
