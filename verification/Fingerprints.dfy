/**
 Parameter fingerprints. The broker (`fingerprints.py`) refuses byte strings;
 the approval store (`approvals.py`) turns whatever `json` cannot encode into
 text first. SHA-256 is a function parameter, assumed collision free.
 */
module Fingerprints {
  import opened Wrappers
  import opened Values
  import opened CanonicalJson

  /** SHA-256 of a UTF-8 text, as a hexadecimal digest. */
  type Hash = string -> string

  /** No two texts share a digest, and no digest is empty. */
  ghost predicate CollisionFree(sha: Hash)
  {
    && (forall a, b :: sha(a) == sha(b) ==> a == b)
    && (forall a :: sha(a) != "")
  }

  const BYTES_REFUSED := "raw bytes cannot be fingerprinted for approval payloads"

  /** `_normalize`, filling the normalized mapping item by item. */
  method Normalize(v: Value) returns (r: Result<Value>)
    ensures r == if NoBytes(v) then Ok(Reload(v)) else Err(BYTES_REFUSED)
    decreases v
  {
    match v
    case Bytes(_) => return Err(BYTES_REFUSED);
    case Dict(fields) =>
      var normalized: map<string, Value> := map[];
      var todo := fields.Keys;
      while todo != {}
        invariant todo <= fields.Keys && normalized.Keys == fields.Keys - todo
        invariant forall k :: k in normalized ==> NoBytes(fields[k]) && normalized[k] == Reload(fields[k])
        decreases |todo|
      {
        var k :| k in todo;
        var item := Normalize(fields[k]);
        if item.Err? {
          return item;
        }
        normalized := normalized[k := item.value];
        todo := todo - {k};
      }
      assert normalized == Reload(v).fields;
      return Ok(Dict(normalized));
    case List(items) =>
      r := NormalizeItems(items);
    case Tuple(items) =>
      r := NormalizeItems(items);
    case _ => return Ok(v);
  }

  method NormalizeItems(items: seq<Value>) returns (r: Result<Value>)
    ensures r == if NoBytes(List(items)) then Ok(Reload(List(items))) else Err(BYTES_REFUSED)
    decreases items
  {
    var done: seq<Value> := [];
    for i := 0 to |items|
      invariant |done| == i
      invariant forall j :: 0 <= j < i ==> NoBytes(items[j]) && done[j] == Reload(items[j])
    {
      var item := Normalize(items[i]);
      if item.Err? {
        return item;
      }
      done := done + [item.value];
    }
    assert done == Reload(List(items)).items;
    return Ok(List(done));
  }

  /** `canonical_json`. */
  function CanonicalText(v: Value): Result<string>
  {
    if NoBytes(v) then
      DumpsReload(v);
      Ok(Dumps(Reload(v)))
    else Err(BYTES_REFUSED)
  }

  /** The broker's `fingerprint_parameters`. */
  function FingerprintParameters(sha: Hash, parameters: map<string, Value>): Result<string>
  {
    match CanonicalText(Dict(parameters))
    case Ok(text) => Ok(sha(text))
    case Err(e) => Err(e)
  }

  /**
   The approval store's `_canonical_json_value` followed by `default=str`:
   sequences become lists and byte strings become their text.
   */
  function StoreCanonical(v: Value, bytesText: seq<bv8> -> string): Value
  {
    match v
    case Bytes(data) => Str(bytesText(data))
    case List(items) => List(seq(|items|, i requires 0 <= i < |items| => StoreCanonical(items[i], bytesText)))
    case Tuple(items) => List(seq(|items|, i requires 0 <= i < |items| => StoreCanonical(items[i], bytesText)))
    case Dict(fields) => Dict(map k | k in fields :: StoreCanonical(fields[k], bytesText))
    case _ => v
  }

  lemma {:induction false} StoreCanonicalPlain(v: Value, bytesText: seq<bv8> -> string)
    ensures Plain(StoreCanonical(v, bytesText))
    ensures NoBytes(v) ==> StoreCanonical(v, bytesText) == Reload(v)
  {
    match v
    case List(items) =>
      forall i | 0 <= i < |items|
        ensures Plain(StoreCanonical(items[i], bytesText))
        ensures NoBytes(items[i]) ==> StoreCanonical(items[i], bytesText) == Reload(items[i])
      { StoreCanonicalPlain(items[i], bytesText); }
    case Tuple(items) =>
      forall i | 0 <= i < |items|
        ensures Plain(StoreCanonical(items[i], bytesText))
        ensures NoBytes(items[i]) ==> StoreCanonical(items[i], bytesText) == Reload(items[i])
      { StoreCanonicalPlain(items[i], bytesText); }
    case Dict(fields) =>
      forall k | k in fields
        ensures Plain(StoreCanonical(fields[k], bytesText))
        ensures NoBytes(fields[k]) ==> StoreCanonical(fields[k], bytesText) == Reload(fields[k])
      { StoreCanonicalPlain(fields[k], bytesText); }
    case _ =>
  }

  /** Byte strings become their text, sequences lists, and everything else stays, at every depth. */
  lemma StoreCanonicalForms(v: Value, bytesText: seq<bv8> -> string)
    ensures var c := StoreCanonical(v, bytesText);
      && (v.Null? || v.Bool? || v.Int? || v.Str? ==> c == v)
      && (v.Bytes? ==> c == Str(bytesText(v.data)))
      && (v.List? || v.Tuple? ==>
            && c.List? && |c.items| == |v.items|
            && forall i :: 0 <= i < |v.items| ==> c.items[i] == StoreCanonical(v.items[i], bytesText))
      && (v.Dict? ==>
            && c.Dict? && c.fields.Keys == v.fields.Keys
            && forall k :: k in v.fields ==> c.fields[k] == StoreCanonical(v.fields[k], bytesText))
  {
  }

  /** The store's fingerprint identifies the parameters up to that. */
  lemma StoreFingerprintBinds(sha: Hash, p: map<string, Value>, q: map<string, Value>, bytesText: seq<bv8> -> string)
    requires CollisionFree(sha)
    ensures StoreFingerprint(sha, p, bytesText) == StoreFingerprint(sha, q, bytesText)
       <==> StoreCanonical(Dict(p), bytesText) == StoreCanonical(Dict(q), bytesText)
  {
    StoreCanonicalPlain(Dict(p), bytesText);
    StoreCanonicalPlain(Dict(q), bytesText);
    var (c, d) := (StoreCanonical(Dict(p), bytesText), StoreCanonical(Dict(q), bytesText));
    ReloadFixed(c);
    ReloadFixed(d);
    if StoreFingerprint(sha, p, bytesText) == StoreFingerprint(sha, q, bytesText) { DumpsInjective(c, d); }
  }

  /** The approval store's `fingerprint_parameters`. */
  function StoreFingerprint(sha: Hash, parameters: map<string, Value>, bytesText: seq<bv8> -> string): string
  {
    var canonical := StoreCanonical(Dict(parameters), bytesText);
    StoreCanonicalPlain(Dict(parameters), bytesText);
    ReloadFixed(canonical);
    sha(Dumps(canonical))
  }

  // ------------------------------------------------------------ main results

  /** Canonical texts are equal exactly when the normal forms are. */
  lemma CanonicalTextInjective(v: Value, w: Value)
    requires NoBytes(v) && NoBytes(w)
    ensures CanonicalText(v) == CanonicalText(w) <==> Reload(v) == Reload(w)
  {
    ReloadPlain(v);
    ReloadPlain(w);
    DumpsReload(v);
    DumpsReload(w);
    if CanonicalText(v) == CanonicalText(w) {
      DumpsInjective(Reload(v), Reload(w));
    }
  }

  /** A fingerprint exists exactly without byte strings, and identifies the parameters. */
  lemma FingerprintBinds(sha: Hash, p: map<string, Value>, q: map<string, Value>)
    requires CollisionFree(sha)
    ensures FingerprintParameters(sha, p).Ok? <==> NoBytes(Dict(p))
    ensures FingerprintParameters(sha, p).Ok? && FingerprintParameters(sha, q).Ok? ==>
      (FingerprintParameters(sha, p) == FingerprintParameters(sha, q) <==> Reload(Dict(p)) == Reload(Dict(q)))
  {
    if NoBytes(Dict(p)) && NoBytes(Dict(q)) {
      CanonicalTextInjective(Dict(p), Dict(q));
    }
  }

  /** Broker and approval store compute one fingerprint wherever the broker computes any. */
  lemma FingerprintsAgree(sha: Hash, p: map<string, Value>, bytesText: seq<bv8> -> string)
    ensures NoBytes(Dict(p)) ==> FingerprintParameters(sha, p) == Ok(StoreFingerprint(sha, p, bytesText))
    ensures !NoBytes(Dict(p)) ==> FingerprintParameters(sha, p).Err?
  {
    StoreCanonicalPlain(Dict(p), bytesText);
  }
}
