/**
 What an accepted export is, whoever made it (`verify_audit_export`): the checks spelled out, and what they say about
 the log behind a bundle that carries a checkpoint.
 */
module AuditExportMeaning {
  import opened Wrappers
  import opened Values
  import opened Fingerprints
  import opened HashChain
  import opened Audit
  import opened AuditCheckpoint
  import opened AuditExport

  /** A text that is there and not empty. */
  predicate Named(b: map<string, Value>, k: string)
  {
    Get(b, k).Str? && Get(b, k) != Str("")
  }

  /** The bundle's records are this log of JSON objects. */
  predicate Lists(b: map<string, Value>, log: seq<Record>)
  {
    && Get(b, "records").List? && |Get(b, "records").items| == |log|
    && forall i :: 0 <= i < |log| ==> Get(b, "records").items[i] == Dict(log[i])
  }

  /** Version, ids, and the count and last hash of this log. */
  predicate Heads(b: map<string, Value>, log: seq<Record>)
  {
    && Get(b, "version") == Str("agentickvm.audit.export.v1") && Named(b, "export_id") && Named(b, "audit_log_id")
    && Get(b, "record_count") == Int(|log|)
    && Get(b, "last_event_hash") == (if log == [] then Null else Get(log[|log| - 1], "event_hash"))
  }

  /** No checkpoint, or one that parses and that the log still holds. */
  predicate Checkpointed(env: Env, b: map<string, Value>, log: seq<Record>)
  {
    match Get(b, "checkpoint")
    case Null => true
    case Dict(p) => FromDict(env, p).Ok? && Accepts(env.sha, log, FromDict(env, p).value)
    case _ => false
  }

  lemma ListsExactly(b: map<string, Value>)
    ensures BundleRecords(b).Ok? ==> Lists(b, BundleRecords(b).value)
    ensures forall log :: Lists(b, log) ==> BundleRecords(b) == Ok(log)
  {
    forall log | Lists(b, log) ensures BundleRecords(b) == Ok(log) {
      assert BundleRecords(b).Ok? && BundleRecords(b).value == log;
    }
  }

  lemma HeadsExactly(b: map<string, Value>)
    ensures RequiredStr(b, "export_id").Ok? <==> Named(b, "export_id")
    ensures RequiredStr(b, "audit_log_id").Ok? <==> Named(b, "audit_log_id")
    ensures forall n: nat :: RequiredInt(b, "record_count") == Ok(n) <==> Get(b, "record_count") == Int(n)
    ensures EXPORT_VERSION == "agentickvm.audit.export.v1"
  {
  }

  /** In a sound chain the last hash is a text, or absent. */
  lemma LastTextExactly(sha: Hash, log: seq<Record>)
    requires ChainOk(sha, log)
    ensures LastText(log) == if log == [] then Null else Get(log[|log| - 1], "event_hash")
  {
    hide NoBytes;
    if log != [] {
      var views := Views(log);
      assert views[|log| - 1] == View(log[|log| - 1]);
    }
  }

  lemma CheckpointedExactly(env: Env, b: map<string, Value>, log: seq<Record>)
    requires ChainOk(env.sha, log)
    ensures VerifyBundledCheckpoint(env, log, Get(b, "checkpoint")).ok <==> Checkpointed(env, b, log)
    ensures var v := VerifyBundledCheckpoint(env, log, Get(b, "checkpoint"));
      v.ok ==> v.recordCount == |log| && v.chainVerified && (v.checkpointVerified <==> Get(b, "checkpoint").Dict?)
  {
    hide FromDict, ChainOk, Accepts, CheckpointFits;
    match Get(b, "checkpoint")
    case Dict(p) => FitsExactly(env, log, p);
    case _ =>
  }

  lemma FitsExactly(env: Env, log: seq<Record>, p: map<string, Value>)
    requires ChainOk(env.sha, log)
    ensures CheckpointFits(env, log, p)
         == if FromDict(env, p).Err? then Err(FromDict(env, p).error)
            else Ok(Accepts(env.sha, log, FromDict(env, p).value))
  {
    hide FromDict, ChainOk;
    if FromDict(env, p).Ok? { ParsedFields(env, p, FromDict(env, p).value); }
  }

  /**
   Exactly the accepted bundles: a supported version, both ids, and records that are a sound chain with the stated
   count and last hash and, if there is a checkpoint, one that parses and is accepted by them. The verdict counts the
   records and tells whether there was a checkpoint.
   */
  lemma VerifyExportExactly(env: Env, b: map<string, Value>)
    ensures VerifyExport(env, b).ok
       <==> exists log :: Lists(b, log) && Heads(b, log) && ChainOk(env.sha, log) && Checkpointed(env, b, log)
    ensures forall log :: VerifyExport(env, b).ok && Lists(b, log) ==>
      && VerifyExport(env, b).recordCount == |log| && VerifyExport(env, b).chainVerified
      && (VerifyExport(env, b).checkpointVerified <==> Get(b, "checkpoint").Dict?)
  {
    hide BundleRecords, ChainOk, VerifyBundledCheckpoint, RequiredStr, RequiredInt, LastText, Checkpointed, Named;
    hide EXPORT_VERSION, Lists;
    ListsExactly(b);
    HeadsExactly(b);
    if BundleRecords(b).Ok? {
      var log := BundleRecords(b).value;
      if ChainOk(env.sha, log) {
        LastTextExactly(env.sha, log);
        CheckpointedExactly(env, b, log);
      }
      assert VerifyExport(env, b).ok
        <==> Lists(b, log) && Heads(b, log) && ChainOk(env.sha, log) && Checkpointed(env, b, log);
    }
  }

  /**
   What acceptance says about the log: a bundle with the checkpoint that was taken on `log` is accepted exactly when its
   head is in order and its records are a sound chain that begins with `log`.
   */
  lemma AcceptedBeginsWithLog(env: Env, b: map<string, Value>, records: seq<Record>, p: map<string, Value>,
                              log: seq<Record>, id: string, auditLogId: string, metadata: map<string, Value>,
                              previous: Option<string>, now: int, c: Checkpoint)
    requires CollisionFree(env.sha) && AllDecoded(log) && AllDecoded(records) && Lists(b, records)
    requires Create(env, log, id, auditLogId, metadata, previous, now) == Ok(c)
    requires Get(b, "checkpoint") == Dict(p) && FromDict(env, p) == Ok(Reread(c))
    ensures VerifyExport(env, b).ok <==> Heads(b, records) && ChainOk(env.sha, records) && Views(log) <= Views(records)
  {
    hide Create, FromDict, ChainOk, Heads, Lists, Views, VerifyExport, AllDecoded;
    VerifyExportExactly(env, b);
    CheckpointMeaning(env, log, id, auditLogId, metadata, previous, now, c, records);
    RereadAccepts(env.sha, records, c);
    OneList(b, records);
  }

  lemma RereadAccepts(sha: Hash, records: seq<Record>, c: Checkpoint)
    ensures Accepts(sha, records, Reread(c)) <==> Accepts(sha, records, c)
  {
    hide ChainOk;
  }

  lemma OneList(b: map<string, Value>, records: seq<Record>)
    requires Lists(b, records)
    ensures forall log :: Lists(b, log) ==> log == records
  {
    forall log | Lists(b, log) ensures log == records {
      assert forall i :: 0 <= i < |log| ==> Dict(log[i]) == Dict(records[i]);
    }
  }
}
