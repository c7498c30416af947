/**
 Export bundles (`audit_export.py`). An export redacts the whole bundle, records
 that are already hashed included, so it verifies only because redaction leaves
 what the sink and the checkpoint wrote alone.
 */
module AuditExport {
  import opened Wrappers
  import opened Values
  import opened Fingerprints
  import opened Redaction
  import opened RedactionLaws
  import opened HashChain
  import opened Audit
  import opened AuditCheckpoint
  import Text

  const EXPORT_VERSION := "agentickvm.audit.export.v1"

  // ------------------------------------------------------------ exporting

  /** `_verify_checkpoint_records`. */
  function CheckpointFits(env: Env, records: seq<Record>, p: map<string, Value>): Result<bool>
  {
    match FromDict(env, p)
    case Err(e) => Err(e)
    case Ok(c) =>
      ParsedFields(env, p, c);
      if |records| < c.eventCount then Ok(false)
      else if c.eventCount == 0 then Ok(true)
      else Ok(Get(records[c.lastEventIndex], "event_hash") == OptionalText(c.lastEventHash))
  }

  /** `_last_event_hash`: a hash that is not a string reads as `None`. */
  function LastText(records: seq<Record>): Value
  {
    var last := LastHash(Null, Views(records));
    if last.Str? then last else Null
  }

  function RecordList(records: seq<Record>): Value
  {
    List(seq(|records|, i requires 0 <= i < |records| => Dict(records[i])))
  }

  function RedactionCount(v: Value): nat
  {
    if v.Dict? && Get(v.fields, "redactions").List? then |v.fields["redactions"].items| else 0
  }

  /** The total of `_redaction_summary` over the records. */
  method CountRedactions(records: seq<Record>) returns (n: nat)
    ensures n == RecordRedactions(records)
  {
    n := 0;
    for i := 0 to |records|
      invariant n == RecordRedactions(records[..i])
    {
      assert records[..i + 1][..i] == records[..i];
      n := n + RedactionCount(Get(records[i], "event"));
    }
    assert records[..|records|] == records;
  }

  function RecordRedactions(records: seq<Record>): nat
  {
    if records == [] then 0
    else RecordRedactions(records[..|records| - 1]) + RedactionCount(Get(records[|records| - 1], "event"))
  }

  datatype ExportArgs = ExportArgs(
    exportId: string, auditLogId: string, now: int, checkpoint: Option<Checkpoint>, metadata: map<string, Value>)

  function CheckpointValue(env: Env, args: ExportArgs): Value
  {
    match args.checkpoint case Some(c) => Dict(JsonDict(env.time, c)) case None => Null
  }

  /** The fields of the payload that verification reads. */
  function PayloadHead(env: Env, log: seq<Record>, args: ExportArgs): map<string, Value>
  {
    map[
      "version" := Str(EXPORT_VERSION),
      "export_id" := Str(args.exportId),
      "audit_log_id" := Str(args.auditLogId),
      "records" := RecordList(log),
      "checkpoint" := CheckpointValue(env, args),
      "record_count" := Int(|log|),
      "last_event_hash" := LastText(log)
    ]
  }

  function RedactionSummary(records: nat, checkpoint: nat): map<string, Value>
  {
    map["record_redaction_count" := Int(records), "checkpoint_redaction_count" := Int(checkpoint)]
  }

  function PayloadTail(createdAt: string, chain: bool, fits: bool, summary: map<string, Value>,
                       metadata: map<string, Value>): map<string, Value>
  {
    map[
      "created_at" := Str(createdAt),
      "chain_verified" := Bool(chain),
      "checkpoint_verified" := Bool(fits),
      "redaction_summary" := Dict(summary),
      "metadata" := Dict(metadata)
    ]
  }

  /** The payload before redaction. */
  function Payload(env: Env, log: seq<Record>, args: ExportArgs, fits: bool): map<string, Value>
  {
    PayloadHead(env, log, args)
    + PayloadTail(env.time.iso(args.now), ChainOk(env.sha, log), fits,
                  RedactionSummary(RecordRedactions(log), RedactionCount(CheckpointValue(env, args))), args.metadata)
  }

  /** The redacted payload with the list of what was redacted, as JSON. */
  function Bundle(rules: Rules, payload: map<string, Value>): map<string, Value>
  {
    var paths := Texts(Text.SortSet(MappingReported(rules, payload)));
    Reload(Dict(RedactMapping(rules, payload)["redactions" := paths])).fields
  }

  /** `export_audit_log`; a checkpoint that cannot be written, or does not parse back, raises. */
  function Export(env: Env, log: seq<Record>, args: ExportArgs): Result<map<string, Value>>
  {
    match args.checkpoint
    case None => Ok(Bundle(env.rules, Payload(env, log, args, false)))
    case Some(c) =>
      var written := ToDict(env.time, c);
      if written.Err? then Err(written.error)
      else
        match CheckpointFits(env, log, written.value)
        case Err(e) => Err(e)
        case Ok(fits) => Ok(Bundle(env.rules, Payload(env, log, args, fits)))
  }

  /** `export_audit_log` for a checkpoint given as a mapping, which is parsed first. */
  function ExportMapping(env: Env, log: seq<Record>, args: ExportArgs, p: map<string, Value>)
    : Result<map<string, Value>>
  {
    match FromDict(env, p)
    case Err(e) => Err(e)
    case Ok(c) => Export(env, log, args.(checkpoint := Some(c)))
  }

  // ------------------------------------------------------------ verifying

  /** `_records_from_bundle`. */
  method RecordsFromBundle(bundle: map<string, Value>) returns (r: Result<seq<Record>>)
    ensures r == BundleRecords(bundle)
  {
    var records := Get(bundle, "records");
    if !records.List? {
      return Err("records must be a list");
    }
    var parsed: seq<Record> := [];
    for i := 0 to |records.items|
      invariant |parsed| == i
      invariant forall j :: 0 <= j < i ==> records.items[j].Dict? && parsed[j] == records.items[j].fields
    {
      if !records.items[i].Dict? {
        return Err("export record must be an object");
      }
      parsed := parsed + [records.items[i].fields];
    }
    assert BundleRecords(bundle).Ok? && parsed == BundleRecords(bundle).value;
    return Ok(parsed);
  }

  function BundleRecords(bundle: map<string, Value>): Result<seq<Record>>
  {
    var records := Get(bundle, "records");
    if !records.List? then Err("records must be a list")
    else if exists i :: 0 <= i < |records.items| && !records.items[i].Dict? then Err("export record must be an object")
    else Ok(seq(|records.items|, i requires 0 <= i < |records.items| => records.items[i].fields))
  }

  datatype ExportVerification = ExportVerification(
    ok: bool, reason: string, recordCount: nat, chainVerified: bool, checkpointVerified: bool)

  function Failed(reason: string): ExportVerification
  {
    ExportVerification(false, "audit export verification failed: " + reason, 0, false, false)
  }

  /** `verify_audit_export`. */
  function VerifyExport(env: Env, bundle: map<string, Value>): ExportVerification
  {
    if Get(bundle, "version") != Str(EXPORT_VERSION) then Failed("unsupported audit export version")
    else if RequiredStr(bundle, "export_id").Err? then Failed("export_id")
    else if RequiredStr(bundle, "audit_log_id").Err? then Failed("audit_log_id")
    else
      match BundleRecords(bundle)
      case Err(e) => Failed(e)
      case Ok(records) =>
        if RequiredInt(bundle, "record_count").Err? then Failed("record_count")
        else if RequiredInt(bundle, "record_count").value != |records| then
          ExportVerification(false, "audit export record count mismatch", |records|, false, false)
        else if !ChainOk(env.sha, records) then
          ExportVerification(false, "audit export chain failed", |records|, false, false)
        else if Get(bundle, "last_event_hash") != LastText(records) then
          ExportVerification(false, "audit export last hash mismatch", |records|, true, false)
        else
          VerifyBundledCheckpoint(env, records, Get(bundle, "checkpoint"))
  }

  function VerifyBundledCheckpoint(env: Env, records: seq<Record>, checkpoint: Value): ExportVerification
  {
    match checkpoint
    case Null => ExportVerification(true, "audit export verified", |records|, true, false)
    case Dict(p) =>
      (match CheckpointFits(env, records, p)
       case Err(e) => Failed(e)
       case Ok(fits) =>
         if fits then ExportVerification(true, "audit export verified", |records|, true, true)
         else ExportVerification(false, "audit export checkpoint failed", |records|, true, false))
    case _ => Failed("checkpoint must be an object")
  }
}
