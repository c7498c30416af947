/**
 Redaction of local results and audit records (`redaction.py`). The regular
 expressions, `str.lower` and the opt-in words are parameters of the model.
 */
module Redaction {
  import opened Text
  import opened Values

  const REDACTED := "[REDACTED]"
  const REDACTED_BYTES := "[REDACTED-BYTES]"

  const HID_TEXT_KEYS: set<string> :=
    {"text", "typed_text", "hid_text", "keyboard_text", "screen_text", "screen_content", "content"}

  const CREDENTIAL_FIELD_KEYS: set<string> := {
    "password", "passphrase", "pin", "otp", "totp", "mfa", "mfa_code", "recovery_key", "secret",
    "token", "api_key", "api_token", "access_token", "refresh_token", "auth_token", "private_key",
    "credential", "credential_ref", "bearer", "session_cookie", "otp_secret", "token_example"
  }

  const RAW_ARTIFACT_KEYS: set<string> :=
    {"raw_bytes", "image_bytes", "raw_image", "screenshot_bytes", "bytes"}

  const STRUCTURAL_TOKEN_KEYS: set<string> := {
    "id", "event_hash", "previous_hash", "last_event_hash", "checkpoint_hash",
    "params_fingerprint", "fingerprint", "cert_fingerprint", "sha256_fingerprint"
  }

  /** The classes of keys and of texts that decide what is redacted. */
  datatype Rules = Rules(
    pathList: string -> bool,        // the key of a list of redacted paths
    masked: string -> bool,          // is_credential_field_key, or a raw artifact
    hidText: string -> bool,         // is_hid_text_key
    structural: string -> bool,      // is_structural_token_key
    secret: string -> bool,          // contains_secret_pattern
    optIn: string -> bool,           // the words explicit_full_capture_enabled accepts
    strip: string -> string          // _strip_secret_text
  )

  predicate EndsWith(s: string, suffix: string)
  {
    |suffix| <= |s| && s[|s| - |suffix|..] == suffix
  }

  /** The source's classes, over `str.lower` and the compiled patterns. */
  function SourceRules(lower: string -> string, secret: string -> bool, optIn: string -> bool,
                       strip: string -> string): Rules
  {
    Rules(
      key => lower(key) == "redactions",
      key => lower(key) in CREDENTIAL_FIELD_KEYS || lower(key) in RAW_ARTIFACT_KEYS,
      key => lower(key) in HID_TEXT_KEYS,
      key => lower(key) in STRUCTURAL_TOKEN_KEYS
             || EndsWith(lower(key), "_id") || EndsWith(lower(key), "_hash")
             || EndsWith(lower(key), "_fingerprint"),
      secret, optIn, strip)
  }

  /** The two masks are neither secret-shaped nor opt-in words. */
  ghost predicate MasksInert(rules: Rules)
  {
    && !rules.secret(REDACTED) && !rules.secret(REDACTED_BYTES)
    && !rules.optIn(REDACTED) && !rules.optIn(REDACTED_BYTES)
  }

  // ------------------------------------------------------------ capture posture

  function OptInValue(rules: Rules, v: Value): bool
  {
    match v
    case Bool(b) => b
    case Str(s) => rules.optIn(s)
    case _ => false
  }

  /** `_mapping_full_capture`: the posture the children of a mapping inherit. */
  function ChildCapture(rules: Rules, fields: map<string, Value>, inherited: bool): bool
  {
    if Get(fields, "hid_capture").Dict? then
      OptInValue(rules, Get(fields["hid_capture"].fields, "full_capture"))
    else if "PIKVM_FULL_CAPTURE" in fields then OptInValue(rules, fields["PIKVM_FULL_CAPTURE"])
    else if "pikvm_full_capture" in fields then OptInValue(rules, fields["pikvm_full_capture"])
    else if "full_capture" in fields then OptInValue(rules, fields["full_capture"])
    else inherited
  }

  // ------------------------------------------------------------ specification

  /** What happens to one node, given the key it is stored under. */
  datatype Action = Keep | Replace(mask: Value) | Descend

  function ActionOn(rules: Rules, v: Value, key: string, capture: bool): Action
  {
    if rules.pathList(key) && (v.List? || v.Tuple?) then Keep
    else if rules.masked(key) then Replace(Str(REDACTED))
    else match v
      case Str(s) =>
        if rules.hidText(key) then
          if !capture then Replace(Str(REDACTED))
          else if rules.strip(s) == s then Keep
          else Replace(Str(rules.strip(s)))
        else if !rules.structural(key) && rules.secret(s) then Replace(Str(REDACTED))
        else Keep
      case Bytes(_) => Replace(Str(REDACTED_BYTES))
      case Dict(_) => Descend
      case List(_) => Descend
      case Tuple(_) => Descend
      case _ => Keep
  }

  /** The value of `redact_value`. */
  function Redact(rules: Rules, v: Value, key: string, capture: bool): Value
    decreases v, 1
  {
    match ActionOn(rules, v, key, capture)
    case Keep => v
    case Replace(mask) => mask
    case Descend =>
      if v.Dict? then Dict(RedactFields(rules, v, ChildCapture(rules, v.fields, capture)))
      else
        var items := seq(|v.items|, i requires 0 <= i < |v.items| => Redact(rules, v.items[i], key, capture));
        if v.List? then List(items) else Tuple(items)
  }

  function RedactFields(rules: Rules, v: Value, capture: bool): (m: map<string, Value>)
    requires v.Dict?
    ensures m.Keys == v.fields.Keys
    decreases v, 0
  {
    map k | k in v.fields :: Redact(rules, v.fields[k], k, capture)
  }

  /** `redact_mapping(values)[0]` in the default posture. */
  function RedactMapping(rules: Rules, fields: map<string, Value>): map<string, Value>
  {
    RedactFields(rules, Dict(fields), ChildCapture(rules, fields, false))
  }

  // ------------------------------------------------------------ reported paths

  function ChildPath(path: string, key: string): string
  {
    if path == "" then key else path + "." + key
  }

  function ItemPath(path: string, index: nat): string
  {
    path + "[" + Decimal(index) + "]"
  }

  /** The paths of the nodes that are replaced at or below `v`. */
  ghost function Paths(rules: Rules, v: Value, key: string, path: string, capture: bool): set<string>
    decreases v, 2
  {
    match ActionOn(rules, v, key, capture)
    case Keep => {}
    case Replace(_) => {path}
    case Descend =>
      if v.Dict? then FieldPaths(rules, v, path, ChildCapture(rules, v.fields, capture))
      else ItemPaths(rules, v, |v.items|, key, path, capture)
  }

  /** The paths replaced below the first `n` items of a list or tuple. */
  ghost function ItemPaths(rules: Rules, v: Value, n: nat, key: string, path: string, capture: bool): set<string>
    requires (v.List? || v.Tuple?) && n <= |v.items|
    decreases v, 0
  {
    set i: nat, p | i < n && p in Paths(rules, v.items[i], key, ItemPath(path, i), capture) :: p
  }

  /** The paths replaced below the fields `keys` of a mapping. */
  ghost function FieldPathsOver(
      rules: Rules, v: Value, keys: set<string>, path: string, capture: bool): set<string>
    requires v.Dict? && keys <= v.fields.Keys
    decreases v, 0
  {
    set k, p | k in keys && p in Paths(rules, v.fields[k], k, ChildPath(path, k), capture) :: p
  }

  ghost function FieldPaths(rules: Rules, v: Value, path: string, capture: bool): set<string>
    requires v.Dict?
    decreases v, 1
  {
    FieldPathsOver(rules, v, v.fields.Keys, path, capture)
  }

  /** A reported path lies at or below a given one. */
  predicate Under(path: string, p: string)
  {
    p == path || StartsWith(p, path + ".") || StartsWith(p, path + "[")
  }

  /** What a caller keeps of the paths a child reports: those at or below the
      child, or the child itself when none is (`nested_paths or (child_path,)`). */
  function Kept(paths: set<string>, path: string): set<string>
  {
    var nested := set p | p in paths && Under(path, p);
    if paths != {} && nested == {} then {path} else nested
  }

  /** The paths `redact_value` reports, through its string matching. */
  function Reported(rules: Rules, v: Value, key: string, path: string, capture: bool): set<string>
    decreases v, 2
  {
    match ActionOn(rules, v, key, capture)
    case Keep => {}
    case Replace(_) => {path}
    case Descend =>
      if v.Dict? then FieldsReported(rules, v, v.fields.Keys, path, ChildCapture(rules, v.fields, capture))
      else ItemsReported(rules, v, |v.items|, key, path, capture)
  }

  function ItemsReported(rules: Rules, v: Value, n: nat, key: string, path: string, capture: bool): set<string>
    requires (v.List? || v.Tuple?) && n <= |v.items|
    decreases v, 0
  {
    set i: nat, p | i < n
        && p in Kept(Reported(rules, v.items[i], key, ItemPath(path, i), capture), ItemPath(path, i)) :: p
  }

  function FieldsReported(
      rules: Rules, v: Value, keys: set<string>, path: string, capture: bool): set<string>
    requires v.Dict? && keys <= v.fields.Keys
    decreases v, 0
  {
    set k, p | k in keys
        && p in Kept(Reported(rules, v.fields[k], k, ChildPath(path, k), capture), ChildPath(path, k)) :: p
  }

  /** `redact_mapping(values)[1]` in the default posture, as a set. */
  function MappingReported(rules: Rules, fields: map<string, Value>): set<string>
  {
    FieldsReported(rules, Dict(fields), fields.Keys, "", ChildCapture(rules, fields, false))
  }

  /** With an empty path, a mapping must not use the empty key. */
  predicate Nameable(v: Value, path: string)
  {
    path != "" || (v.Dict? ==> "" !in v.fields)
  }

  lemma UnderTransitive(a: string, b: string, c: string)
    requires Under(a, b) && Under(b, c)
    ensures Under(a, c)
  {
  }

  lemma {:induction false} PathsUnder(rules: Rules, v: Value, key: string, path: string, capture: bool, p: string)
    requires path != "" && p in Paths(rules, v, key, path, capture)
    ensures Under(path, p)
  {
    if ActionOn(rules, v, key, capture).Descend? {
      if v.Dict? {
        var child := ChildCapture(rules, v.fields, capture);
        assert p in FieldPathsOver(rules, v, v.fields.Keys, path, child);
        var k :| k in v.fields && p in Paths(rules, v.fields[k], k, ChildPath(path, k), child);
        PathsUnder(rules, v.fields[k], k, ChildPath(path, k), child, p);
        assert path + "." <= ChildPath(path, k);
        UnderTransitive(path, ChildPath(path, k), p);
      } else {
        var i: nat :| i < |v.items| && p in Paths(rules, v.items[i], key, ItemPath(path, i), capture);
        PathsUnder(rules, v.items[i], key, ItemPath(path, i), capture, p);
        assert path + "[" <= ItemPath(path, i);
        UnderTransitive(path, ItemPath(path, i), p);
      }
    }
  }

  // ------------------------------------------------------------ the source's loops

  /** `RedactionResult`: the reasons are paths for containers, a label otherwise. */
  datatype RedactionResult = RedactionResult(value: Value, redacted: bool, reasons: seq<string>)

  /** A label such as `credential_field`, which no path below a node can be. */
  predicate IsLabel(s: string) { '.' !in s && '[' !in s }

  datatype Cause = CredentialField | HidTextDefault | CredentialBackstop | SecretPattern | ByteString

  /** The label the source gives for a replaced node. */
  function LabelOf(cause: Cause): (s: string)
    ensures IsLabel(s)
  {
    match cause
    case CredentialField => "credential_field"
    case HidTextDefault => "hid_text_default"
    case CredentialBackstop => "credential_backstop"
    case SecretPattern => "secret_pattern"
    case ByteString => "bytes"
  }

  function Masked(mask: Value, cause: Cause): RedactionResult
  {
    RedactionResult(mask, true, [LabelOf(cause)])
  }

  /** The reasons that are paths at or below `path`. */
  function NestedReasons(reasons: seq<string>, path: string): seq<string>
  {
    if reasons == [] then []
    else
      var last := |reasons| - 1;
      NestedReasons(reasons[..last], path) + (if Under(path, reasons[last]) then [reasons[last]] else [])
  }

  /** `nested_paths or (child_path,)`. */
  function ReportedPaths(child: RedactionResult, path: string): seq<string>
  {
    if !child.redacted then []
    else if NestedReasons(child.reasons, path) == [] then [path]
    else NestedReasons(child.reasons, path)
  }

  lemma {:induction false} NestedReasonsElements(reasons: seq<string>, path: string, p: string)
    ensures p in NestedReasons(reasons, path) <==> p in reasons && Under(path, p)
  {
    if reasons != [] {
      var last := |reasons| - 1;
      NestedReasonsElements(reasons[..last], path, p);
      assert reasons == reasons[..last] + [reasons[last]];
    }
  }

  ghost function Elements(s: seq<string>): set<string> { set p | p in s }

  /** Why a value is replaced: its name, the text of a screen or a secret left in it, a secret's look, or its bytes. */
  function Label(rules: Rules, v: Value, key: string, capture: bool): (s: string)
    ensures IsLabel(s)
  {
    if rules.masked(key) then "credential_field"
    else if v.Bytes? then "bytes"
    else if !rules.hidText(key) then "secret_pattern"
    else if capture then "credential_backstop"
    else "hid_text_default"
  }

  /** What `redact_value` returns, told by the specification. */
  ghost predicate Describes(r: RedactionResult, rules: Rules, v: Value, key: string, path: string, capture: bool)
  {
    && r.value == Redact(rules, v, key, capture)
    && (r.redacted <==> Reported(rules, v, key, path, capture) != {})
    && (ActionOn(rules, v, key, capture).Replace? ==> r.reasons == [Label(rules, v, key, capture)])
    && (ActionOn(rules, v, key, capture).Descend? ==>
          Elements(r.reasons) == Reported(rules, v, key, path, capture))
  }

  lemma UnderHasMark(path: string, p: string)
    requires Under(path, p) && p != path
    ensures !IsLabel(p)
  {
    assert path + "." <= p || path + "[" <= p;
    assert p[|path|] == '.' || p[|path|] == '[';
  }

  lemma ElementsConcat(a: seq<string>, b: seq<string>)
    ensures Elements(a + b) == Elements(a) + Elements(b)
    ensures a + b == [] <==> a == [] && b == []
  {
  }

  lemma ElementsEmpty(a: seq<string>)
    ensures Elements(a) == {} <==> a == []
  {
    if a != [] { assert a[0] in Elements(a); }
  }

  /** The caller's filter over a child's reasons keeps what `Kept` says. */
  lemma ReportedPathsExact(r: RedactionResult, rules: Rules, v: Value, key: string, path: string, capture: bool)
    requires Describes(r, rules, v, key, path, capture)
    ensures Elements(ReportedPaths(r, path)) == Kept(Reported(rules, v, key, path, capture), path)
  {
    var paths := Reported(rules, v, key, path, capture);
    var nested := NestedReasons(r.reasons, path);
    forall p ensures p in nested <==> p in r.reasons && Under(path, p) {
      NestedReasonsElements(r.reasons, path, p);
    }
    ElementsEmpty(nested);
    match ActionOn(rules, v, key, capture)
    case Keep =>
    case Replace(_) =>
      if Under(path, r.reasons[0]) && r.reasons[0] != path { UnderHasMark(path, r.reasons[0]); }
      assert forall p :: p in nested ==> p == r.reasons[0];
      assert path in paths && Under(path, path);
    case Descend =>
      assert Elements(nested) == set p | p in paths && Under(path, p);
  }

  /** `redact_value`. The iteration order of a mapping is arbitrary. */
  method RedactValue(rules: Rules, v: Value, key: string, path: string, capture: bool)
    returns (r: RedactionResult)
    ensures Describes(r, rules, v, key, path, capture)
    decreases v, 1
  {
    hide Describes, Redact, Reported, ChildCapture;
    if rules.pathList(key) && (v.List? || v.Tuple?) {
      DescribesKept(rules, v, key, path, capture);
      return RedactionResult(v, false, []);
    }
    if rules.masked(key) {
      DescribesMasked(Str(REDACTED), CredentialField, rules, v, key, path, capture);
      return Masked(Str(REDACTED), CredentialField);
    }
    if v.Str? && rules.hidText(key) {
      if !capture {
        DescribesMasked(Str(REDACTED), HidTextDefault, rules, v, key, path, capture);
        return Masked(Str(REDACTED), HidTextDefault);
      }
      var stripped := rules.strip(v.s);
      if stripped == v.s {
        DescribesKept(rules, v, key, path, capture);
        return RedactionResult(v, false, []);
      }
      DescribesMasked(Str(stripped), CredentialBackstop, rules, v, key, path, capture);
      return Masked(Str(stripped), CredentialBackstop);
    }
    if v.Str? && !rules.structural(key) && rules.secret(v.s) {
      DescribesMasked(Str(REDACTED), SecretPattern, rules, v, key, path, capture);
      return Masked(Str(REDACTED), SecretPattern);
    }
    if v.Bytes? {
      DescribesMasked(Str(REDACTED_BYTES), ByteString, rules, v, key, path, capture);
      return Masked(Str(REDACTED_BYTES), ByteString);
    }
    if v.Dict? {
      var fields, redactions := RedactItems(rules, v, path, ChildCapture(rules, v.fields, capture));
      r := RedactionResult(Dict(fields), redactions != [], redactions);
      ElementsEmpty(redactions);
      DescribesMapping(r, rules, v, key, path, capture);
      return;
    }
    if v.List? || v.Tuple? {
      var items, redactions := RedactSequence(rules, v, key, path, capture);
      r := RedactionResult(if v.List? then List(items) else Tuple(items), redactions != [], redactions);
      ElementsEmpty(redactions);
      DescribesSequence(r, rules, v, items, key, path, capture);
      return;
    }
    DescribesKept(rules, v, key, path, capture);
    return RedactionResult(v, false, []);
  }

  lemma DescribesKept(rules: Rules, v: Value, key: string, path: string, capture: bool)
    requires ActionOn(rules, v, key, capture).Keep?
    ensures Describes(RedactionResult(v, false, []), rules, v, key, path, capture)
  {
  }

  lemma DescribesMasked(mask: Value, cause: Cause, rules: Rules, v: Value, key: string, path: string, capture: bool)
    requires ActionOn(rules, v, key, capture) == Replace(mask) && LabelOf(cause) == Label(rules, v, key, capture)
    ensures Describes(Masked(mask, cause), rules, v, key, path, capture)
  {
    hide ActionOn, Label;
  }

  lemma DescribesMapping(r: RedactionResult, rules: Rules, v: Value, key: string, path: string, capture: bool)
    requires ActionOn(rules, v, key, capture).Descend? && v.Dict?
    requires r.value == Dict(RedactFields(rules, v, ChildCapture(rules, v.fields, capture)))
    requires r.redacted <==> Elements(r.reasons) != {}
    requires Elements(r.reasons) ==
      FieldsReported(rules, v, v.fields.Keys, path, ChildCapture(rules, v.fields, capture))
    ensures Describes(r, rules, v, key, path, capture)
  {
  }

  lemma DescribesSequence(r: RedactionResult, rules: Rules, v: Value, items: seq<Value>,
                          key: string, path: string, capture: bool)
    requires ActionOn(rules, v, key, capture).Descend? && !v.Dict?
    requires |items| == |v.items|
    requires forall j :: 0 <= j < |items| ==> items[j] == Redact(rules, v.items[j], key, capture)
    requires r.value == if v.List? then List(items) else Tuple(items)
    requires r.redacted <==> Elements(r.reasons) != {}
    requires Elements(r.reasons) == ItemsReported(rules, v, |v.items|, key, path, capture)
    ensures Describes(r, rules, v, key, path, capture)
  {
    var redacted := seq(|v.items|, i requires 0 <= i < |v.items| => Redact(rules, v.items[i], key, capture));
    assert items == redacted;
  }

  /** The loop over a list; tuples go through it as lists. */
  method RedactSequence(rules: Rules, v: Value, key: string, path: string, capture: bool)
    returns (items: seq<Value>, redactions: seq<string>)
    requires v.List? || v.Tuple?
    ensures |items| == |v.items|
    ensures forall j :: 0 <= j < |items| ==> items[j] == Redact(rules, v.items[j], key, capture)
    ensures Elements(redactions) == ItemsReported(rules, v, |v.items|, key, path, capture)
    decreases v, 0
  {
    items, redactions := [], [];
    for i := 0 to |v.items|
      invariant |items| == i
      invariant forall j :: 0 <= j < i ==> items[j] == Redact(rules, v.items[j], key, capture)
      invariant Elements(redactions) == ItemsReported(rules, v, i, key, path, capture)
    {
      var child := RedactValue(rules, v.items[i], key, ItemPath(path, i), capture);
      var reported := ReportedPaths(child, ItemPath(path, i));
      ReportedPathsExact(child, rules, v.items[i], key, ItemPath(path, i), capture);
      ItemsReportedStep(rules, v, i, key, path, capture);
      ElementsConcat(redactions, reported);
      items := items + [child.value];
      redactions := redactions + reported;
    }
  }

  lemma ItemsReportedStep(rules: Rules, v: Value, i: nat, key: string, path: string, capture: bool)
    requires (v.List? || v.Tuple?) && i < |v.items|
    ensures ItemsReported(rules, v, i + 1, key, path, capture) ==
      ItemsReported(rules, v, i, key, path, capture)
      + Kept(Reported(rules, v.items[i], key, ItemPath(path, i), capture), ItemPath(path, i))
  {
  }

  /** What the loop over a mapping has established once the keys `done` are behind it. */
  ghost predicate Progress(rules: Rules, v: Value, path: string, capture: bool, done: set<string>,
                           redacted: map<string, Value>, redactions: seq<string>)
    requires v.Dict? && done <= v.fields.Keys
  {
    && redacted.Keys == done
    && (forall k :: k in done ==> redacted[k] == Redact(rules, v.fields[k], k, capture))
    && Elements(redactions) == FieldsReported(rules, v, done, path, capture)
  }

  /** The loop over a mapping, shared by `redact_value` and `redact_mapping`. */
  method RedactItems(rules: Rules, v: Value, path: string, capture: bool)
    returns (redacted: map<string, Value>, redactions: seq<string>)
    requires v.Dict?
    ensures redacted == RedactFields(rules, v, capture)
    ensures Elements(redactions) == FieldsReported(rules, v, v.fields.Keys, path, capture)
    decreases v, 0
  {
    redacted, redactions := map[], [];
    var todo := v.fields.Keys;
    ghost var done: set<string> := {};
    while todo != {}
      invariant done <= v.fields.Keys && todo == v.fields.Keys - done
      invariant Progress(rules, v, path, capture, done, redacted, redactions)
      decreases todo
    {
      var k :| k in todo;
      var child := RedactValue(rules, v.fields[k], k, ChildPath(path, k), capture);
      ProgressStep(rules, v, path, capture, done, redacted, redactions, k, child);
      redacted := redacted[k := child.value];
      redactions := redactions + ReportedPaths(child, ChildPath(path, k));
      todo, done := todo - {k}, done + {k};
    }
    assert done == v.fields.Keys;
    ProgressDone(rules, v, path, capture, redacted, redactions);
  }

  lemma ProgressStep(rules: Rules, v: Value, path: string, capture: bool, done: set<string>,
                     redacted: map<string, Value>, redactions: seq<string>, k: string, child: RedactionResult)
    requires v.Dict? && done <= v.fields.Keys && k in v.fields
    requires Progress(rules, v, path, capture, done, redacted, redactions)
    requires Describes(child, rules, v.fields[k], k, ChildPath(path, k), capture)
    ensures Progress(rules, v, path, capture, done + {k}, redacted[k := child.value],
                     redactions + ReportedPaths(child, ChildPath(path, k)))
  {
    ReportedPathsExact(child, rules, v.fields[k], k, ChildPath(path, k), capture);
    FieldsReportedStep(rules, v, done, k, path, capture);
    ElementsConcat(redactions, ReportedPaths(child, ChildPath(path, k)));
  }

  lemma ProgressDone(rules: Rules, v: Value, path: string, capture: bool,
                     redacted: map<string, Value>, redactions: seq<string>)
    requires v.Dict? && Progress(rules, v, path, capture, v.fields.Keys, redacted, redactions)
    ensures redacted == RedactFields(rules, v, capture)
    ensures Elements(redactions) == FieldsReported(rules, v, v.fields.Keys, path, capture)
  {
  }

  lemma FieldsReportedStep(rules: Rules, v: Value, keys: set<string>, k: string, path: string, capture: bool)
    requires v.Dict? && keys <= v.fields.Keys && k in v.fields
    ensures FieldsReported(rules, v, keys + {k}, path, capture) ==
      FieldsReported(rules, v, keys, path, capture)
      + Kept(Reported(rules, v.fields[k], k, ChildPath(path, k), capture), ChildPath(path, k))
  {
  }

  /** `redact_mapping` without an explicit posture. */
  method RedactTopLevel(rules: Rules, values: map<string, Value>)
    returns (redacted: map<string, Value>, redactions: seq<string>)
    ensures redacted == RedactMapping(rules, values)
    ensures Elements(redactions) == MappingReported(rules, values)
  {
    redacted, redactions := RedactItems(rules, Dict(values), "", ChildCapture(rules, values, false));
  }

  // ------------------------------------------------------------ the matching is exact

  /** As long as no mapping at the empty path uses the empty key, the string
      matching recovers exactly the paths of the replaced nodes. */
  lemma {:induction false} ReportedArePaths(rules: Rules, v: Value, key: string, path: string, capture: bool)
    requires Nameable(v, path)
    ensures Reported(rules, v, key, path, capture) == Paths(rules, v, key, path, capture)
    decreases v, 1
  {
    if ActionOn(rules, v, key, capture).Descend? {
      if v.Dict? {
        FieldsReportedArePaths(rules, v, path, ChildCapture(rules, v.fields, capture));
      } else {
        forall i: nat | i < |v.items|
          ensures Kept(Reported(rules, v.items[i], key, ItemPath(path, i), capture), ItemPath(path, i))
               == Paths(rules, v.items[i], key, ItemPath(path, i), capture)
        {
          ReportedArePaths(rules, v.items[i], key, ItemPath(path, i), capture);
          PathsKept(rules, v.items[i], key, ItemPath(path, i), capture);
        }
        assert ItemsReported(rules, v, |v.items|, key, path, capture)
            == ItemPaths(rules, v, |v.items|, key, path, capture);
      }
    }
  }

  lemma {:induction false} FieldsReportedArePaths(rules: Rules, v: Value, path: string, capture: bool)
    requires v.Dict? && Nameable(v, path)
    ensures FieldsReported(rules, v, v.fields.Keys, path, capture) == FieldPaths(rules, v, path, capture)
    decreases v, 0
  {
    forall k | k in v.fields
      ensures Kept(Reported(rules, v.fields[k], k, ChildPath(path, k), capture), ChildPath(path, k))
           == Paths(rules, v.fields[k], k, ChildPath(path, k), capture)
    {
      assert ChildPath(path, k) != "";
      ReportedArePaths(rules, v.fields[k], k, ChildPath(path, k), capture);
      PathsKept(rules, v.fields[k], k, ChildPath(path, k), capture);
    }
  }

  lemma PathsKept(rules: Rules, v: Value, key: string, path: string, capture: bool)
    requires path != ""
    ensures Kept(Paths(rules, v, key, path, capture), path) == Paths(rules, v, key, path, capture)
  {
    forall p | p in Paths(rules, v, key, path, capture) ensures Under(path, p) {
      PathsUnder(rules, v, key, path, capture, p);
    }
  }
}
