/**
 Checkpoints of a log (`audit_checkpoint.py`): what they record, how they are
 parsed back, and exactly what a successful verification says.
 */
module AuditCheckpoint {
  import opened Wrappers
  import opened Values
  import opened CanonicalJson
  import opened Fingerprints
  import opened Redaction
  import opened RedactionLaws
  import opened RedactionReports
  import opened HashChain
  import opened Audit
  import opened Clock
  import Text

  /** The parts of the environment a checkpoint depends on; `text` is Python's `str`. */
  datatype Env = Env(rules: Rules, sha: Hash, time: TimeText, text: Value -> string)

  datatype Checkpoint = Checkpoint(
    checkpointId: string, auditLogId: string, lastEventIndex: int, eventCount: int,
    lastEventHash: Option<string>, createdAt: int, previousCheckpointHash: Option<string>,
    metadata: map<string, Value>, redactions: set<string>, checkpointHash: string)

  function OptionalText(o: Option<string>): Value
  {
    match o case Some(s) => Str(s) case None => Null
  }

  /** `_unsigned_payload`: everything but the hash. */
  function UnsignedPayload(time: TimeText, c: Checkpoint): map<string, Value>
  {
    map[
      "checkpoint_id" := Str(c.checkpointId),
      "audit_log_id" := Str(c.auditLogId),
      "last_event_index" := Int(c.lastEventIndex),
      "event_count" := Int(c.eventCount),
      "last_event_hash" := OptionalText(c.lastEventHash),
      "created_at" := Str(time.iso(c.createdAt)),
      "previous_checkpoint_hash" := OptionalText(c.previousCheckpointHash),
      "metadata" := Dict(c.metadata),
      "redactions" := Texts(Text.SortSet(c.redactions))
    ]
  }

  /** The content as `json.dumps` with `default=str` sees it. */
  function Content(env: Env, c: Checkpoint): (v: Value)
    ensures Plain(v) && NoBytes(v)
  {
    var bytesText := (data: seq<bv8>) => env.text(Bytes(data));
    StoreCanonicalPlain(Dict(UnsignedPayload(env.time, c)), bytesText);
    ReloadFixed(StoreCanonical(Dict(UnsignedPayload(env.time, c)), bytesText));
    StoreCanonical(Dict(UnsignedPayload(env.time, c)), bytesText)
  }

  function ContentHash(env: Env, c: Checkpoint): string
  {
    env.sha(Dumps(Content(env, c)))
  }

  lemma UnsignedNoBytes(time: TimeText, c: Checkpoint)
    requires NoBytes(Dict(c.metadata))
    ensures NoBytes(Dict(UnsignedPayload(time, c)))
  {
    var u := UnsignedPayload(time, c);
    forall k | k in u ensures NoBytes(u[k]) {
      assert NoBytes(OptionalText(c.lastEventHash)) && NoBytes(OptionalText(c.previousCheckpointHash));
    }
  }

  /** The checks of `__post_init__` before anything is hashed. */
  function FieldError(c: Checkpoint): Option<string>
  {
    if c.checkpointId == "" then Some("checkpoint_id is required")
    else if c.auditLogId == "" then Some("audit_log_id is required")
    else if c.eventCount < 0 then Some("event_count cannot be negative")
    else if c.lastEventIndex != c.eventCount - 1 then Some("last_event_index must match event_count")
    else if c.eventCount == 0 && c.lastEventHash.Some? then Some("empty checkpoint cannot have last_event_hash")
    else if c.eventCount > 0 && (c.lastEventHash.None? || c.lastEventHash.value == "") then
      Some("non-empty checkpoint requires last_event_hash")
    else None
  }

  function MetadataPaths(rules: Rules, metadata: map<string, Value>): set<string>
  {
    Listed("metadata.", MappingReported(rules, metadata))
  }

  /** The constructor: metadata is redacted, and a given hash must match the content. */
  function Construct(env: Env, c: Checkpoint, expectHash: bool): Result<Checkpoint>
  {
    if FieldError(c).Some? then Err(FieldError(c).value)
    else
      var safe := Safe(env.rules, c);
      if expectHash && c.checkpointHash != ContentHash(env, safe) then Err(HASH_MISMATCH)
      else Ok(safe.(checkpointHash := ContentHash(env, safe)))
  }

  const HASH_MISMATCH := "checkpoint_hash does not match content"

  /** The checkpoint with its metadata redacted. */
  function Safe(rules: Rules, c: Checkpoint): Checkpoint
  {
    c.(metadata := RedactMapping(rules, c.metadata), redactions := c.redactions + MetadataPaths(rules, c.metadata))
  }

  /** The JSON object that stands for a checkpoint. */
  function JsonDict(time: TimeText, c: Checkpoint): map<string, Value>
  {
    Reload(Dict(UnsignedPayload(time, c)["checkpoint_hash" := Str(c.checkpointHash)])).fields
  }

  /** `to_dict`. Unlike the hash it has no text for byte strings. */
  function ToDict(time: TimeText, c: Checkpoint): Result<map<string, Value>>
  {
    if NoBytes(Dict(c.metadata)) then Ok(JsonDict(time, c)) else Err("bytes are not JSON serializable")
  }

  // ------------------------------------------------------------ parsing

  function RequiredInt(p: map<string, Value>, key: string): Result<int>
  {
    var v := Get(p, key);
    if v.Int? then Ok(v.n) else Err(key + " must be an integer")
  }

  function OptionalStr(v: Value): Result<Option<string>>
  {
    match v
    case Null => Ok(None)
    case Str(s) => Ok(Some(s))
    case _ => Err("optional checkpoint string fields must be strings")
  }

  function Instant(time: TimeText, v: Value): Result<int>
  {
    if !v.Str? || v.s == "" then Err("created_at must be an ISO datetime string")
    else match time.parse(v.s)
      case Some(n) => Ok(n)
      case None => Err("Invalid isoformat string")
  }

  /** `tuple(str(item) for item in v)`, as a set. */
  function PathSet(text: Value -> string, v: Value): Result<set<string>>
  {
    match v
    case List(items) => Ok(set i | 0 <= i < |items| :: EntryText(text, items[i]))
    case Tuple(items) => Ok(set i | 0 <= i < |items| :: EntryText(text, items[i]))
    case Dict(fields) => Ok(fields.Keys)
    case Str(s) => Ok(set i | 0 <= i < |s| :: [s[i]])
    case Bytes(data) => Ok(set i | 0 <= i < |data| :: text(Int(data[i] as int)))
    case _ => Err("object is not iterable")
  }

  function EntryText(text: Value -> string, v: Value): string
  {
    if v.Str? then v.s else text(v)
  }

  function Metadata(v: Value): Result<map<string, Value>>
  {
    match v
    case Dict(fields) => Ok(fields)
    case _ => Err("metadata must be an object")
  }

  /** `from_dict`, with the errors in the source's order. */
  function FromDict(env: Env, p: map<string, Value>): Result<Checkpoint>
  {
    var id := RequiredStr(p, "checkpoint_id");
    if id.Err? then Err(id.error) else
    var log := RequiredStr(p, "audit_log_id");
    if log.Err? then Err(log.error) else
    var index := RequiredInt(p, "last_event_index");
    if index.Err? then Err(index.error) else
    var count := RequiredInt(p, "event_count");
    if count.Err? then Err(count.error) else
    var last := OptionalStr(Get(p, "last_event_hash"));
    if last.Err? then Err(last.error) else
    var created := Instant(env.time, Get(p, "created_at"));
    if created.Err? then Err(created.error) else
    var previous := OptionalStr(Get(p, "previous_checkpoint_hash"));
    if previous.Err? then Err(previous.error) else
    var metadata := Metadata(if "metadata" in p then p["metadata"] else Dict(map[]));
    if metadata.Err? then Err(metadata.error) else
    var hash := RequiredStr(p, "checkpoint_hash");
    if hash.Err? then Err(hash.error) else
    var redactions := PathSet(env.text, if "redactions" in p then p["redactions"] else List([]));
    if redactions.Err? then Err(redactions.error) else
    Construct(env, Checkpoint(id.value, log.value, index.value, count.value, last.value, created.value,
                              previous.value, metadata.value, redactions.value, hash.value), true)
  }

  // ------------------------------------------------------------ parsing what was written

  /** The checkpoint with its metadata as JSON returns it: tuples are lists. */
  function Reread(c: Checkpoint): Checkpoint
  {
    c.(metadata := Reload(Dict(c.metadata)).fields)
  }

  /** Whatever can be iterated has paths: its items, its keys, its characters, or its bytes as numbers. */
  lemma PathSetExactly(text: Value -> string, v: Value, p: string)
    ensures PathSet(text, v).Ok? <==> v.List? || v.Tuple? || v.Dict? || v.Str? || v.Bytes?
    ensures v.List? || v.Tuple? ==>
      (p in PathSet(text, v).value <==> exists i ::
         0 <= i < |v.items| && p == if v.items[i].Str? then v.items[i].s else text(v.items[i]))
    ensures v.Dict? ==> (p in PathSet(text, v).value <==> p in v.fields)
    ensures v.Str? ==> (p in PathSet(text, v).value <==> exists i :: 0 <= i < |v.s| && p == [v.s[i]])
    ensures v.Bytes? ==>
      (p in PathSet(text, v).value <==> exists i :: 0 <= i < |v.data| && p == text(Int(v.data[i] as int)))
  {
    if v.List? || v.Tuple? {
      assert forall i :: 0 <= i < |v.items| ==>
        EntryText(text, v.items[i]) == if v.items[i].Str? then v.items[i].s else text(v.items[i]);
    }
  }

  lemma PathSetReads(text: Value -> string, paths: set<string>)
    ensures PathSet(text, Texts(Text.SortSet(paths))) == Ok(paths)
  {
    var sorted := Text.SortSet(paths);
    var items := Texts(sorted).items;
    assert forall i :: 0 <= i < |items| ==> EntryText(text, items[i]) == sorted[i];
    assert (set i | 0 <= i < |items| :: EntryText(text, items[i])) == paths;
  }

  lemma PayloadReload(time: TimeText, c: Checkpoint)
    ensures Reload(Dict(UnsignedPayload(time, c))) == Dict(UnsignedPayload(time, Reread(c)))
  {
    TextsPlain(Text.SortSet(c.redactions));
    var u, w := UnsignedPayload(time, c), UnsignedPayload(time, Reread(c));
    forall k | k in u ensures Reload(u[k]) == w[k] {
      assert Reload(OptionalText(c.lastEventHash)) == OptionalText(c.lastEventHash);
      assert Reload(OptionalText(c.previousCheckpointHash)) == OptionalText(c.previousCheckpointHash);
    }
    assert Reload(Dict(u)).fields == w;
  }

  lemma RereadNoBytes(c: Checkpoint)
    requires NoBytes(Dict(c.metadata))
    ensures NoBytes(Dict(Reread(c).metadata))
  {
    ReloadPlain(Dict(c.metadata));
    ReloadFixed(Reload(Dict(c.metadata)));
  }

  /** Without byte strings the hashed content is what JSON returns. */
  lemma ContentReload(env: Env, c: Checkpoint)
    requires NoBytes(Dict(c.metadata))
    ensures Content(env, c) == Reload(Dict(UnsignedPayload(env.time, c))) == Dict(UnsignedPayload(env.time, Reread(c)))
  {
    UnsignedNoBytes(env.time, c);
    StoreCanonicalPlain(Dict(UnsignedPayload(env.time, c)), (data: seq<bv8>) => env.text(Bytes(data)));
    PayloadReload(env.time, c);
  }

  lemma RereadTwice(c: Checkpoint)
    requires NoBytes(Dict(c.metadata))
    ensures Reread(Reread(c)) == Reread(c)
  {
    ReloadPlain(Dict(c.metadata));
    ReloadFixed(Reload(Dict(c.metadata)));
  }

  lemma RereadHash(env: Env, c: Checkpoint)
    requires NoBytes(Dict(c.metadata))
    ensures NoBytes(Dict(Reread(c).metadata)) && ContentHash(env, Reread(c)) == ContentHash(env, c)
  {
    hide Content, UnsignedPayload, Reread, NoBytes;
    RereadNoBytes(c);
    RereadTwice(c);
    ContentReload(env, c);
    ContentReload(env, Reread(c));
  }

  /** One hash fixes the metadata as JSON returns it, and the redacted paths. */
  lemma SameHash(env: Env, c: Checkpoint, d: Checkpoint)
    requires CollisionFree(env.sha) && NoBytes(Dict(c.metadata)) && NoBytes(Dict(d.metadata))
    requires ContentHash(env, c) == ContentHash(env, d)
    ensures Reread(c).metadata == Reread(d).metadata && c.redactions == d.redactions
  {
    DumpsInjective(Content(env, c), Content(env, d));
    ContentReload(env, c);
    ContentReload(env, d);
    UnsignedHoldsRest(env.time, Reread(c));
    UnsignedHoldsRest(env.time, Reread(d));
    hide Content, UnsignedPayload, Texts, Reload;
    PathSetReads(env.text, c.redactions);
    PathSetReads(env.text, d.redactions);
  }

  /** The object `p` holds the fields of `c`. */
  ghost predicate Holds(time: TimeText, p: map<string, Value>, c: Checkpoint)
  {
    && Has(p, "checkpoint_id", Str(c.checkpointId))
    && Has(p, "audit_log_id", Str(c.auditLogId))
    && Has(p, "last_event_index", Int(c.lastEventIndex))
    && Has(p, "event_count", Int(c.eventCount))
    && HoldsRest(time, p, c)
  }

  ghost predicate HoldsRest(time: TimeText, p: map<string, Value>, c: Checkpoint)
  {
    && Has(p, "last_event_hash", OptionalText(c.lastEventHash))
    && Has(p, "created_at", Str(time.iso(c.createdAt)))
    && Has(p, "previous_checkpoint_hash", OptionalText(c.previousCheckpointHash))
    && Has(p, "metadata", Dict(c.metadata))
    && Has(p, "redactions", Texts(Text.SortSet(c.redactions)))
  }

  lemma UnsignedHolds(time: TimeText, c: Checkpoint)
    ensures Holds(time, UnsignedPayload(time, c), c)
  {
    UnsignedHoldsRest(time, c);
  }

  lemma UnsignedHoldsRest(time: TimeText, c: Checkpoint)
    ensures HoldsRest(time, UnsignedPayload(time, c), c)
  {
  }

  lemma HoldsAgrees(time: TimeText, p: map<string, Value>, q: map<string, Value>, c: Checkpoint)
    requires Holds(time, p, c)
    requires forall k :: k in p ==> k in q && q[k] == p[k]
    ensures Holds(time, q, c)
  {
  }

  lemma JsonDictHolds(time: TimeText, c: Checkpoint)
    ensures Holds(time, JsonDict(time, c), Reread(c))
  {
    UnsignedHolds(time, Reread(c));
    PayloadReload(time, c);
    NoHashYet(time, c);
    hide Holds, UnsignedPayload, Reload, Reread;
    var u, w, p := UnsignedPayload(time, c), UnsignedPayload(time, Reread(c)), JsonDict(time, c);
    ToDictExtends(u, c.checkpointHash);
    ReloadFields(u);
    HoldsAgrees(time, w, p, Reread(c));
  }

  lemma NoHashYet(time: TimeText, c: Checkpoint)
    ensures "checkpoint_hash" !in UnsignedPayload(time, c)
  {
  }

  lemma ToDictExtends(u: map<string, Value>, hash: string)
    requires "checkpoint_hash" !in u
    ensures
      var p := Reload(Dict(u["checkpoint_hash" := Str(hash)])).fields;
      Has(p, "checkpoint_hash", Str(hash)) && forall k :: k in u ==> k in p && p[k] == Reload(u[k])
  {
  }

  lemma HeadReads(time: TimeText, p: map<string, Value>, c: Checkpoint)
    requires Holds(time, p, c) && FieldError(c).None?
    ensures RequiredStr(p, "checkpoint_id") == Ok(c.checkpointId) && RequiredStr(p, "audit_log_id") == Ok(c.auditLogId)
    ensures RequiredInt(p, "last_event_index") == Ok(c.lastEventIndex)
    ensures RequiredInt(p, "event_count") == Ok(c.eventCount)
  {
    hide HoldsRest;
  }

  lemma RestReads(env: Env, p: map<string, Value>, c: Checkpoint)
    requires RoundTrips(env.time) && HoldsRest(env.time, p, c)
    ensures OptionalStr(Get(p, "last_event_hash")) == Ok(c.lastEventHash)
    ensures OptionalStr(Get(p, "previous_checkpoint_hash")) == Ok(c.previousCheckpointHash)
    ensures Instant(env.time, Get(p, "created_at")) == Ok(c.createdAt)
    ensures "metadata" in p && Metadata(p["metadata"]) == Ok(c.metadata)
    ensures "redactions" in p && PathSet(env.text, p["redactions"]) == Ok(c.redactions)
  {
    hide PathSet;
    PathSetReads(env.text, c.redactions);
  }

  /** Parsing reads exactly the fields the object holds. */
  lemma FromDictReads(env: Env, p: map<string, Value>, c: Checkpoint)
    requires RoundTrips(env.time) && Holds(env.time, p, c)
    requires Has(p, "checkpoint_hash", Str(c.checkpointHash)) && c.checkpointHash != ""
    requires FieldError(c).None?
    ensures FromDict(env, p) == Construct(env, c, true)
  {
    hide OptionalStr, RequiredInt, Instant, Metadata, PathSet, Construct, HoldsRest, FieldError, RoundTrips;
    HeadReads(env.time, p, c);
    RestReads(env, p, c);
    assert RequiredStr(p, "checkpoint_hash") == Ok(c.checkpointHash);
  }

  /** What must hold of the metadata for its checkpoint to parse back. */
  ghost predicate ParsesBack(rules: Rules, c0: Checkpoint)
  {
    Settles(rules, c0.metadata, "metadata.", c0.redactions)
  }

  /** Redacting the written metadata once more leaves the checkpoint as it is exactly when it parses back. */
  lemma SafeTwice(rules: Rules, c0: Checkpoint)
    requires MasksInert(rules) && PostureKeysOpen(rules) && DefaultMapping(rules, c0.metadata)
    ensures var c := Safe(rules, c0);
      var again := Safe(rules, Reread(c));
      && (ParsesBack(rules, c0) ==> again == Reread(c))
      && (!ParsesBack(rules, c0) ==> again.metadata != Reread(c).metadata || again.redactions != c.redactions)
  {
    hide RedactMapping, MappingReported, Reload, Settles, DefaultMapping, Listed;
    SecondPassSettles(rules, c0.metadata, "metadata.", c0.redactions);
    var c := Safe(rules, c0);
    var paths := MetadataPaths(rules, Reread(c).metadata);
    assert paths <= c.redactions <==> c.redactions + paths == c.redactions;
  }

  /** A second construction from the written metadata finds nothing to change, or another hash. */
  lemma SecondConstruction(env: Env, c0: Checkpoint, c: Checkpoint)
    requires CollisionFree(env.sha) && MasksInert(env.rules) && PostureKeysOpen(env.rules)
    requires DefaultMapping(env.rules, c0.metadata) && Construct(env, c0, false) == Ok(c) && NoBytes(Dict(c.metadata))
    ensures Construct(env, Reread(c), true) == if ParsesBack(env.rules, c0) then Ok(Reread(c)) else Err(HASH_MISMATCH)
  {
    hide Content, ParsesBack, MasksInert, PostureKeysOpen, DefaultMapping, RedactMapping, NoBytes, MetadataPaths;
    var safe := Safe(env.rules, c0);
    assert c == safe.(checkpointHash := ContentHash(env, safe));
    HashIgnored(env, safe, c.checkpointHash);
    RereadHash(env, c);
    var again := Safe(env.rules, Reread(c));
    assert again == Safe(env.rules, Reread(safe)).(checkpointHash := c.checkpointHash);
    SafeTwice(env.rules, c0);
    if ParsesBack(env.rules, c0) {
      assert again == Reread(c);
    } else {
      RereadNoBytes(c);
      SafeNoBytes(env.rules, Reread(c));
      if ContentHash(env, again) == ContentHash(env, c) {
        SameHash(env, again, c);
        RereadTwice(c);
        RereadSafe(env.rules, Reread(c));
      }
    }
  }

  lemma HashIgnored(env: Env, c: Checkpoint, hash: string)
    ensures ContentHash(env, c.(checkpointHash := hash)) == ContentHash(env, c)
  {
    assert UnsignedPayload(env.time, c.(checkpointHash := hash)) == UnsignedPayload(env.time, c);
  }

  lemma SafeNoBytes(rules: Rules, c: Checkpoint)
    requires NoBytes(Dict(c.metadata))
    ensures NoBytes(Dict(Safe(rules, c).metadata))
  {
    RedactNoBytesMapping(rules, c.metadata);
  }

  /** Redaction leaves what JSON returned in the form JSON returns. */
  lemma RereadSafe(rules: Rules, c: Checkpoint)
    requires Reread(c) == c
    ensures Reread(Safe(rules, c)) == Safe(rules, c)
  {
    MappingReload(rules, c.metadata);
  }

  lemma JsonDictHasHash(time: TimeText, c: Checkpoint)
    ensures Has(JsonDict(time, c), "checkpoint_hash", Str(c.checkpointHash))
  {
    ToDictExtends(UnsignedPayload(time, c), c.checkpointHash);
  }

  lemma ConstructedFields(env: Env, c0: Checkpoint, c: Checkpoint)
    requires CollisionFree(env.sha) && Construct(env, c0, false) == Ok(c)
    ensures FieldError(c).None? && FieldError(Reread(c)).None? && c.checkpointHash != ""
  {
  }

  /**
   A checkpoint of metadata in the default posture can be written exactly when redaction left no byte
   string in it, and parses back from its own `to_dict` exactly under the condition above. Otherwise
   the parser finds another hash.
   */
  lemma CheckpointRoundTrip(env: Env, c0: Checkpoint, c: Checkpoint)
    requires CollisionFree(env.sha) && RoundTrips(env.time)
    requires MasksInert(env.rules) && PostureKeysOpen(env.rules) && DefaultMapping(env.rules, c0.metadata)
    requires Construct(env, c0, false) == Ok(c)
    ensures ToDict(env.time, c).Ok? <==> !KeepsBytesIn(env.rules, c0.metadata)
    ensures ToDict(env.time, c).Ok? ==>
      FromDict(env, ToDict(env.time, c).value)
      == if ParsesBack(env.rules, c0) then Ok(Reread(c)) else Err(HASH_MISMATCH)
  {
    hide JsonDict, FromDict, ParsesBack, Content, KeepsBytesIn, NoBytes, RedactMapping, Reload;
    RedactNoBytesExactly(env.rules, c0.metadata);
    if ToDict(env.time, c).Ok? {
      SecondConstruction(env, c0, c);
      ConstructedFields(env, c0, c);
      JsonDictHolds(env.time, c);
      JsonDictHasHash(env.time, c);
      FromDictReads(env, JsonDict(env.time, c), Reread(c));
    }
  }

  /** Metadata without byte strings can be written, and only an empty key can keep it from parsing back. */
  lemma BytesFreeParsesBack(rules: Rules, c0: Checkpoint)
    requires NoBytes(Dict(c0.metadata))
    ensures !KeepsBytesIn(rules, c0.metadata)
    ensures ParsesBack(rules, c0) <==> "metadata." in c0.redactions || EmptyPathLasts(rules, c0.metadata)
    ensures "" !in c0.metadata ==> ParsesBack(rules, c0)
  {
    hide NoBytes, HidBytesIn, KeepsBytesIn, RedactMapping;
    NoBytesNoHidBytesIn(rules, c0.metadata);
    RedactNoBytesMapping(rules, c0.metadata);
    RedactNoBytesExactly(rules, c0.metadata);
  }

  /** Metadata on which the parser refuses what the constructor wrote. */
  lemma CheckpointRefused(env: Env, c0: Checkpoint, c: Checkpoint, secret: string, password: string)
    requires CollisionFree(env.sha) && RoundTrips(env.time) && MasksInert(env.rules) && PostureKeysOpen(env.rules)
    requires LosingKeys(env.rules, secret)
    requires c0.metadata == map["" := Dict(LosingMapping(secret, password))] && c0.redactions == {}
    requires Construct(env, c0, false) == Ok(c)
    ensures ToDict(env.time, c).Ok? && FromDict(env, ToDict(env.time, c).value) == Err(HASH_MISMATCH)
  {
    hide FromDict, ToDict, Construct, LosingKeys, LosingMapping, EmptyPathLasts, HidBytesIn, KeepsBytesIn, NoBytes;
    EmptyPathAppears(env.rules, secret, password);
    BytesFreeParsesBack(env.rules, c0);
    CheckpointRoundTrip(env, c0, c);
  }

  lemma JsonDictPlain(time: TimeText, c: Checkpoint)
    requires NoBytes(Dict(c.metadata))
    ensures Plain(Dict(JsonDict(time, c)))
  {
    var u := UnsignedPayload(time, c)["checkpoint_hash" := Str(c.checkpointHash)];
    UnsignedNoBytes(time, c);
    assert NoBytes(Dict(u)) by {
      forall k | k in u ensures NoBytes(u[k]) {
        assert k in UnsignedPayload(time, c) || k == "checkpoint_hash";
      }
    }
    ReloadPlain(Dict(u));
  }

  // ------------------------------------------------------------ taking and verifying

  /** `create_audit_checkpoint`. */
  function Create(env: Env, log: seq<Record>, id: string, auditLogId: string, metadata: map<string, Value>,
                  previous: Option<string>, now: int): Result<Checkpoint>
  {
    var last := LastHash(Null, Views(log));
    if !ChainOk(env.sha, log) then Err("cannot checkpoint malformed audit chain")
    else if last != Null && !last.Str? then Err("last event hash must be a string")
    else Construct(env, Checkpoint(id, auditLogId, |log| - 1, |log|,
                                   if last.Str? then Some(last.s) else None,
                                   now, previous, metadata, {}, ""), false)
  }

  datatype Verification = Verification(
    ok: bool, reason: string, eventCount: nat, lastEventHash: Option<string>, chainVerified: bool)

  /** The log is sound and still holds the checkpointed hash at its place. */
  predicate Accepts(sha: Hash, log: seq<Record>, c: Checkpoint)
  {
    && ChainOk(sha, log)
    && c.eventCount <= |log|
    && (0 < c.eventCount ==> Get(log[c.eventCount - 1], "event_hash") == OptionalText(c.lastEventHash))
  }

  /** `verify_audit_checkpoint` for a parsed checkpoint. */
  method VerifyCheckpoint(env: Env, log: seq<Record>, c: Checkpoint) returns (r: Verification)
    requires FieldError(c).None?
    ensures r.ok <==> Accepts(env.sha, log, c)
    ensures r.eventCount == |log| && (r.chainVerified <==> ChainOk(env.sha, log))
    ensures OptionalText(r.lastEventHash)
         == if log != [] && Get(log[|log| - 1], "event_hash").Str? then Get(log[|log| - 1], "event_hash") else Null
  {
    var last := LastHash(Null, Views(log));
    var lastText := if last.Str? then Some(last.s) else None;
    var chainVerified := VerifyAuditChain(env.sha, log);
    var recheck := VerifyAuditChainRecords(env.sha, log);
    if !chainVerified {
      return Verification(false, "audit chain failed", |log|, lastText, recheck);
    }
    if |log| < c.eventCount {
      return Verification(false, "audit log tail truncated", |log|, lastText, recheck);
    }
    if c.eventCount == 0 {
      return Verification(true, "checkpoint verified", |log|, lastText, recheck);
    }
    if Get(log[c.lastEventIndex], "event_hash") != OptionalText(c.lastEventHash) {
      return Verification(false, "checkpoint event hash mismatch", |log|, lastText, recheck);
    }
    return Verification(true, "checkpoint verified", |log|, lastText, recheck);
  }

  /** `verify_audit_checkpoint` for a mapping: a parse error is a failed verification. */
  method VerifyCheckpointObject(env: Env, log: seq<Record>, p: map<string, Value>) returns (r: Verification)
    ensures r.ok <==> FromDict(env, p).Ok? && Accepts(env.sha, log, FromDict(env, p).value)
  {
    match FromDict(env, p)
    case Err(e) =>
      return Verification(false, "checkpoint verification failed: " + e, 0, None, false);
    case Ok(c) =>
      ParsedFields(env, p, c);
      r := VerifyCheckpoint(env, log, c);
  }

  lemma ParsedFields(env: Env, p: map<string, Value>, c: Checkpoint)
    requires FromDict(env, p) == Ok(c)
    ensures FieldError(c).None?
  {
    hide RequiredStr, RequiredInt, OptionalStr, Instant, Metadata, PathSet, FieldError, Construct;
    forall parsed { ConstructChecks(env, parsed); }
  }

  lemma ConstructChecks(env: Env, c: Checkpoint)
    ensures Construct(env, c, true).Ok? ==> FieldError(Construct(env, c, true).value).None?
  {
    hide RedactMapping, MetadataPaths, ContentHash;
  }

  /** What a checkpoint keeps of the log it was taken on. */
  lemma CreatedFields(env: Env, log: seq<Record>, id: string, auditLogId: string, metadata: map<string, Value>,
                      previous: Option<string>, now: int, c: Checkpoint)
    requires Create(env, log, id, auditLogId, metadata, previous, now) == Ok(c)
    ensures ChainOk(env.sha, log) && c.eventCount == |log|
    ensures log != [] ==> OptionalText(c.lastEventHash) == LastHash(Null, Views(log))
  {
  }

  /** What every checkpoint satisfies: names, a count with its last index, and a last hash unless it is empty. */
  predicate WellFormed(c: Checkpoint)
  {
    && c.checkpointId != "" && c.auditLogId != "" && c.eventCount >= 0 && c.lastEventIndex == c.eventCount - 1
    && (c.eventCount == 0 ==> c.lastEventHash == None)
    && (c.eventCount > 0 ==> c.lastEventHash.Some? && c.lastEventHash != Some(""))
  }

  lemma WellFormedExactly(c: Checkpoint)
    ensures FieldError(c).None? <==> WellFormed(c)
  {
  }

  /** The checkpoint with its metadata redacted, hashed over everything else it says. */
  predicate Sealed(env: Env, given: Checkpoint, c: Checkpoint)
  {
    && c.checkpointId == given.checkpointId && c.auditLogId == given.auditLogId
    && c.lastEventIndex == given.lastEventIndex && c.eventCount == given.eventCount
    && c.lastEventHash == given.lastEventHash && c.createdAt == given.createdAt
    && c.previousCheckpointHash == given.previousCheckpointHash
    && c.metadata == RedactMapping(env.rules, given.metadata)
    && c.redactions == given.redactions + MetadataPaths(env.rules, given.metadata)
    && c.checkpointHash == ContentHash(env, c)
  }

  lemma ConstructExactly(env: Env, given: Checkpoint, expectHash: bool)
    ensures var r := Construct(env, given, expectHash);
      && (r.Ok? ==> WellFormed(given) && Sealed(env, given, r.value))
      && (r.Ok? && expectHash ==> r.value.checkpointHash == given.checkpointHash)
      && (!expectHash ==> (r.Ok? <==> WellFormed(given)))
  {
    hide RedactMapping, MetadataPaths, ContentHash, WellFormed, FieldError;
    WellFormedExactly(given);
    if Construct(env, given, expectHash).Ok? {
      HashIgnored(env, Safe(env.rules, given), ContentHash(env, Safe(env.rules, given)));
    }
  }

  /** The last record's hash, if there is one. */
  function LastOf(log: seq<Record>): Value
  {
    if log == [] then Null else Get(log[|log| - 1], "event_hash")
  }

  /**
   Exactly what `create_audit_checkpoint` takes: a sound chain with text hashes, under two names; and what it keeps: the
   count and last hash of the log, the given names, link and time, and the metadata redacted.
   */
  lemma CreateExactly(env: Env, log: seq<Record>, id: string, auditLogId: string, metadata: map<string, Value>,
                      previous: Option<string>, now: int)
    ensures var r := Create(env, log, id, auditLogId, metadata, previous, now);
      && (r.Ok? <==>
            && ChainOk(env.sha, log) && id != "" && auditLogId != ""
            && (log != [] ==> LastOf(log).Str? && LastOf(log) != Str("")))
      && (r.Ok? ==>
            && r.value.checkpointId == id && r.value.auditLogId == auditLogId && r.value.eventCount == |log|
            && r.value.previousCheckpointHash == previous && r.value.createdAt == now
            && OptionalText(r.value.lastEventHash) == LastOf(log)
            && r.value.metadata == RedactMapping(env.rules, metadata)
            && r.value.redactions == MetadataPaths(env.rules, metadata)
            && r.value.checkpointHash == ContentHash(env, r.value))
  {
    hide ChainOk, Construct, RedactMapping, MetadataPaths, ContentHash;
    var last := LastHash(Null, Views(log));
    assert last == LastOf(log) by {
      if log != [] { assert Views(log)[|log| - 1] == View(log[|log| - 1]); }
    }
    ConstructExactly(env, Checkpoint(id, auditLogId, |log| - 1, |log|, if last.Str? then Some(last.s) else None,
                                     now, previous, metadata, {}, ""), false);
  }

  /** A parsed checkpoint says what its dictionary says, and carries the hash of exactly that. */
  lemma ParsedIsSealed(env: Env, p: map<string, Value>)
    requires FromDict(env, p).Ok?
    ensures var c := FromDict(env, p).value;
      && WellFormed(c) && c.checkpointHash == ContentHash(env, c)
      && Has(p, "checkpoint_hash", Str(c.checkpointHash)) && Has(p, "checkpoint_id", Str(c.checkpointId))
      && Has(p, "audit_log_id", Str(c.auditLogId)) && Has(p, "last_event_index", Int(c.lastEventIndex))
      && Has(p, "event_count", Int(c.eventCount)) && Get(p, "last_event_hash") == OptionalText(c.lastEventHash)
      && Get(p, "previous_checkpoint_hash") == OptionalText(c.previousCheckpointHash)
      && Get(p, "created_at").Str? && env.time.parse(Get(p, "created_at").s) == Some(c.createdAt)
      && c.metadata == RedactMapping(env.rules, if "metadata" in p && p["metadata"].Dict? then p["metadata"].fields
                                                else map[])
  {
    hide Construct, RedactMapping, MetadataPaths, ContentHash, PathSet, WellFormed;
    forall given { ConstructExactly(env, given, true); }
    forall given, c ensures WellFormed(given) && Sealed(env, given, c) ==> WellFormed(c) {
      SealedWellFormed(env, given, c);
    }
  }

  lemma SealedWellFormed(env: Env, given: Checkpoint, c: Checkpoint)
    ensures WellFormed(given) && Sealed(env, given, c) ==> WellFormed(c)
  {
    hide RedactMapping, MetadataPaths, ContentHash;
  }

  /** Soundness and completeness: a checkpoint taken on `log` verifies against
      `later` exactly when `later` is a sound chain that begins with `log`. */
  lemma CheckpointMeaning(env: Env, log: seq<Record>, id: string, auditLogId: string, metadata: map<string, Value>,
                          previous: Option<string>, now: int, c: Checkpoint, later: seq<Record>)
    requires CollisionFree(env.sha) && AllDecoded(log) && AllDecoded(later)
    requires Create(env, log, id, auditLogId, metadata, previous, now) == Ok(c)
    ensures Accepts(env.sha, later, c) <==> ChainOk(env.sha, later) && Views(log) <= Views(later)
  {
    hide Create, RecordHash, Plain, NoBytes, Chain, Construct;
    CreatedFields(env, log, id, auditLogId, metadata, previous, now, c);
    if ChainOk(env.sha, later) && 0 < |log| <= |later| {
      DigestingCollisionFree(env.sha);
      AllDecodedAdmissible(log);
      AllDecodedAdmissible(later);
      HashVouchesForPrefix(Digesting(env.sha), v => Plain(v), Null, Views(log), Views(later));
      assert Views(later)[|log| - 1].hash == Get(later[|log| - 1], "event_hash");
    }
  }

  /** Whatever is written afterwards, the checkpoint keeps verifying. */
  lemma CheckpointSurvivesWrites(env: Env, log: seq<Record>, id: string, auditLogId: string,
                                 metadata: map<string, Value>, previous: Option<string>, now: int, c: Checkpoint,
                                 payloads: seq<Value>)
    requires CollisionFree(env.sha) && AllDecoded(log)
    requires Create(env, log, id, auditLogId, metadata, previous, now) == Ok(c)
    requires forall i :: 0 <= i < |payloads| ==> NoBytes(payloads[i])
    ensures Accepts(env.sha, WriteAll(env.sha, log, payloads), c)
  {
    CreatedFields(env, log, id, auditLogId, metadata, previous, now, c);
    WriteAllKeepsChain(env.sha, log, payloads);
    CheckpointMeaning(env, log, id, auditLogId, metadata, previous, now, c, WriteAll(env.sha, log, payloads));
  }
}
