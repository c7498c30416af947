/**
 Laws of redaction over whole trees: which nodes are replaced and what stays,
 when a second pass changes nothing, and what the output cannot depend on.
 */
module RedactionLaws {
  import opened Wrappers
  import opened Text
  import opened Values
  import opened Redaction

  // ------------------------------------------------------------ nodes of a tree

  /** A step from a node to one of its children. */
  datatype Step = Key(k: string) | Index(i: nat)

  /** A node together with the key and the posture that apply to it. */
  datatype Site = Site(v: Value, key: string, capture: bool)

  predicate HasChild(v: Value, step: Step)
  {
    match step
    case Key(k) => v.Dict? && k in v.fields
    case Index(i) => (v.List? || v.Tuple?) && i < |v.items|
  }

  function Child(v: Value, step: Step): (c: Value)
    requires HasChild(v, step)
    ensures c < v
  {
    match step
    case Key(k) => (match v case Dict(fields) => fields[k])
    case Index(i) => (match v case List(items) => items[i] case Tuple(items) => items[i])
  }

  function ChildSite(rules: Rules, s: Site, step: Step): Site
    requires HasChild(s.v, step)
  {
    match step
    case Key(k) => Site(Child(s.v, step), k, ChildCapture(rules, s.v.fields, s.capture))
    case Index(_) => Site(Child(s.v, step), s.key, s.capture)
  }

  function At(v: Value, steps: seq<Step>): Option<Value>
  {
    if steps == [] then Some(v)
    else if HasChild(v, steps[0]) then At(Child(v, steps[0]), steps[1..])
    else None
  }

  function SiteAction(rules: Rules, s: Site): Action
  {
    ActionOn(rules, s.v, s.key, s.capture)
  }

  /** The node at `steps`, unless redaction stops above it. */
  function Walk(rules: Rules, s: Site, steps: seq<Step>): Option<Site>
    decreases |steps|
  {
    if steps == [] then Some(s)
    else if SiteAction(rules, s).Descend? && HasChild(s.v, steps[0]) then
      Walk(rules, ChildSite(rules, s, steps[0]), steps[1..])
    else None
  }

  function StepPath(path: string, step: Step): string
  {
    match step
    case Key(k) => ChildPath(path, k)
    case Index(i) => ItemPath(path, i)
  }

  /** The path text of a position, as reported by the redactor. */
  function Render(path: string, steps: seq<Step>): string
    decreases |steps|
  {
    if steps == [] then path else Render(StepPath(path, steps[0]), steps[1..])
  }

  ghost predicate ReplacedAt(rules: Rules, s: Site, steps: seq<Step>)
  {
    var site := Walk(rules, s, steps);
    site.Some? && SiteAction(rules, site.value).Replace?
  }

  ghost predicate ReplacedPath(rules: Rules, s: Site, path: string, p: string)
  {
    exists steps :: ReplacedAt(rules, s, steps) && Render(path, steps) == p
  }

  lemma ReplacedBelow(rules: Rules, s: Site, path: string, p: string, step: Step)
    requires SiteAction(rules, s).Descend? && HasChild(s.v, step)
    requires ReplacedPath(rules, ChildSite(rules, s, step), StepPath(path, step), p)
    ensures ReplacedPath(rules, s, path, p)
  {
    var rest :| ReplacedAt(rules, ChildSite(rules, s, step), rest) && Render(StepPath(path, step), rest) == p;
    var steps := [step] + rest;
    assert steps[0] == step && steps[1..] == rest;
    assert ReplacedAt(rules, s, steps) && Render(path, steps) == p;
  }

  /** The reported paths are exactly the paths of the replaced nodes. */
  lemma {:induction false} ReportedExactly(rules: Rules, s: Site, path: string, p: string)
    ensures p in Paths(rules, s.v, s.key, path, s.capture) <==> ReplacedPath(rules, s, path, p)
    decreases s.v
  {
    if p in Paths(rules, s.v, s.key, path, s.capture) {
      ReportedIsReplaced(rules, s, path, p);
    }
    if ReplacedPath(rules, s, path, p) {
      var steps :| ReplacedAt(rules, s, steps) && Render(path, steps) == p;
      ReplacedIsReported(rules, s, path, steps);
    }
  }

  lemma {:induction false} ReportedIsReplaced(rules: Rules, s: Site, path: string, p: string)
    requires p in Paths(rules, s.v, s.key, path, s.capture)
    ensures ReplacedPath(rules, s, path, p)
    decreases s.v
  {
    if SiteAction(rules, s).Replace? {
      assert ReplacedAt(rules, s, []) && Render(path, []) == p;
    } else if s.v.Dict? {
      var child := ChildCapture(rules, s.v.fields, s.capture);
      assert p in FieldPathsOver(rules, s.v, s.v.fields.Keys, path, child);
      var k :| k in s.v.fields && p in Paths(rules, s.v.fields[k], k, ChildPath(path, k), child);
      ReportedIsReplaced(rules, ChildSite(rules, s, Key(k)), ChildPath(path, k), p);
      ReplacedBelow(rules, s, path, p, Key(k));
    } else {
      var i: nat :| i < |s.v.items| && p in Paths(rules, s.v.items[i], s.key, ItemPath(path, i), s.capture);
      ReportedIsReplaced(rules, ChildSite(rules, s, Index(i)), ItemPath(path, i), p);
      ReplacedBelow(rules, s, path, p, Index(i));
    }
  }

  lemma {:induction false} ReplacedIsReported(rules: Rules, s: Site, path: string, steps: seq<Step>)
    requires ReplacedAt(rules, s, steps)
    ensures Render(path, steps) in Paths(rules, s.v, s.key, path, s.capture)
    decreases |steps|
  {
    if steps != [] {
      ReplacedIsReported(rules, ChildSite(rules, s, steps[0]), StepPath(path, steps[0]), steps[1..]);
      if s.v.Dict? {
        assert Render(path, steps) in
          FieldPathsOver(rules, s.v, s.v.fields.Keys, path, ChildCapture(rules, s.v.fields, s.capture));
      }
    }
  }

  ghost predicate SameShape(v: Value, w: Value)
  {
    match v
    case Dict(fields) => w.Dict? && w.fields.Keys == fields.Keys
    case List(items) => w.List? && |w.items| == |items|
    case Tuple(items) => w.Tuple? && |w.items| == |items|
    case _ => w == v
  }

  /** The node found in the output where redaction reached one in the input. */
  ghost predicate Corresponds(rules: Rules, s: Site, w: Value)
  {
    match SiteAction(rules, s)
    case Keep => w == s.v
    case Replace(mask) => w == mask
    case Descend => SameShape(s.v, w)
  }

  /** Everything that is not replaced keeps its place, its kind and its keys. */
  lemma {:induction false} StructureKept(rules: Rules, s: Site, steps: seq<Step>)
    requires Walk(rules, s, steps).Some?
    ensures
      var out := At(Redact(rules, s.v, s.key, s.capture), steps);
      out.Some? && Corresponds(rules, Walk(rules, s, steps).value, out.value)
    decreases |steps|
  {
    if steps != [] {
      var child := ChildSite(rules, s, steps[0]);
      StructureKept(rules, child, steps[1..]);
      assert Child(Redact(rules, s.v, s.key, s.capture), steps[0]) == Redact(rules, child.v, child.key, child.capture);
    }
  }

  // ------------------------------------------------------------ non-interference

  /** The keys that set the capture posture are not themselves credential keys. */
  ghost predicate PostureKeysOpen(rules: Rules)
  {
    && !rules.masked("hid_capture") && !rules.masked("full_capture")
    && !rules.masked("PIKVM_FULL_CAPTURE") && !rules.masked("pikvm_full_capture")
  }

  predicate IsSequence(v: Value) { v.List? || v.Tuple? }

  /** Equal, except for what is stored under credential and raw-artifact keys. */
  predicate EqualButSecrets(rules: Rules, v: Value, w: Value, key: string)
  {
    if rules.pathList(key) && (IsSequence(v) || IsSequence(w)) then v == w
    else if rules.masked(key) then true
    else match v
      case Dict(fields) =>
        w.Dict? && w.fields.Keys == fields.Keys
        && forall k :: k in fields ==> EqualButSecrets(rules, fields[k], w.fields[k], k)
      case List(items) =>
        w.List? && |w.items| == |items|
        && forall i :: 0 <= i < |items| ==> EqualButSecrets(rules, items[i], w.items[i], key)
      case Tuple(items) =>
        w.Tuple? && |w.items| == |items|
        && forall i :: 0 <= i < |items| ==> EqualButSecrets(rules, items[i], w.items[i], key)
      case _ => v == w
  }

  lemma OptInAgrees(rules: Rules, v: Value, w: Value, key: string)
    requires !rules.masked(key) && EqualButSecrets(rules, v, w, key)
    ensures OptInValue(rules, v) == OptInValue(rules, w) && v.Dict? == w.Dict?
  {
  }

  lemma CaptureAgrees(rules: Rules, v: Value, w: Value, key: string, capture: bool)
    requires PostureKeysOpen(rules) && !rules.masked(key)
    requires v.Dict? && EqualButSecrets(rules, v, w, key)
    ensures ChildCapture(rules, v.fields, capture) == ChildCapture(rules, w.fields, capture)
  {
    var f, g := v.fields, w.fields;
    if "hid_capture" in f {
      OptInAgrees(rules, f["hid_capture"], g["hid_capture"], "hid_capture");
      if f["hid_capture"].Dict? && "full_capture" in f["hid_capture"].fields {
        OptInAgrees(rules, f["hid_capture"].fields["full_capture"],
                    g["hid_capture"].fields["full_capture"], "full_capture");
      }
    }
    if "PIKVM_FULL_CAPTURE" in f {
      OptInAgrees(rules, f["PIKVM_FULL_CAPTURE"], g["PIKVM_FULL_CAPTURE"], "PIKVM_FULL_CAPTURE");
    }
    if "pikvm_full_capture" in f {
      OptInAgrees(rules, f["pikvm_full_capture"], g["pikvm_full_capture"], "pikvm_full_capture");
    }
    if "full_capture" in f {
      OptInAgrees(rules, f["full_capture"], g["full_capture"], "full_capture");
    }
  }

  lemma {:induction false} SecretsDoNotLeakToValue(rules: Rules, v: Value, w: Value, key: string, capture: bool)
    requires PostureKeysOpen(rules) && EqualButSecrets(rules, v, w, key)
    ensures Redact(rules, v, key, capture) == Redact(rules, w, key, capture)
    decreases v
  {
    if ActionOn(rules, v, key, capture).Descend? {
      if v.Dict? {
        CaptureAgrees(rules, v, w, key, capture);
        var child := ChildCapture(rules, v.fields, capture);
        forall k | k in v.fields
          ensures Redact(rules, v.fields[k], k, child) == Redact(rules, w.fields[k], k, child)
        {
          SecretsDoNotLeakToValue(rules, v.fields[k], w.fields[k], k, child);
        }
        assert RedactFields(rules, v, child) == RedactFields(rules, w, child);
      } else {
        forall i: nat | i < |v.items|
          ensures Redact(rules, v.items[i], key, capture) == Redact(rules, w.items[i], key, capture)
        {
          SecretsDoNotLeakToValue(rules, v.items[i], w.items[i], key, capture);
        }
      }
    }
  }

  // ------------------------------------------------------------ keys

  /** A key that neither masks its value nor marks it as text from a screen. */
  ghost predicate Open(rules: Rules, key: string)
  {
    !rules.masked(key) && !rules.hidText(key) && !rules.pathList(key)
  }

  /** An open key whose value is structural metadata, however it looks. */
  ghost predicate Token(rules: Rules, key: string)
  {
    Open(rules, key) && rules.structural(key)
  }

  /** A mapping that does not speak about the capture posture. */
  predicate NoPosture(m: map<string, Value>)
  {
    "hid_capture" !in m && "PIKVM_FULL_CAPTURE" !in m && "pikvm_full_capture" !in m && "full_capture" !in m
  }

  // ------------------------------------------------------------ a second pass

  /** No mapping that redaction reaches opts in to full capture. */
  predicate DefaultPosture(rules: Rules, v: Value, key: string)
  {
    ActionOn(rules, v, key, false).Descend? ==>
      match v
      case Dict(fields) =>
        !ChildCapture(rules, fields, false)
        && forall k :: k in fields ==> DefaultPosture(rules, fields[k], k)
      case List(items) => forall i :: 0 <= i < |items| ==> DefaultPosture(rules, items[i], key)
      case Tuple(items) => forall i :: 0 <= i < |items| ==> DefaultPosture(rules, items[i], key)
  }

  /** A byte string is reached under a key for HID or screen text. */
  ghost predicate HidBytes(rules: Rules, v: Value, key: string)
  {
    match ActionOn(rules, v, key, false)
    case Keep => false
    case Replace(_) => v.Bytes? && !rules.masked(key) && rules.hidText(key)
    case Descend =>
      match v
      case Dict(fields) => exists k :: k in fields && HidBytes(rules, fields[k], k)
      case List(items) => exists i :: 0 <= i < |items| && HidBytes(rules, items[i], key)
      case Tuple(items) => exists i :: 0 <= i < |items| && HidBytes(rules, items[i], key)
  }

  /** Redaction never turns a value into an opt-in. */
  lemma OptInNotCreated(rules: Rules, v: Value, key: string)
    requires MasksInert(rules)
    ensures OptInValue(rules, Redact(rules, v, key, false)) ==> OptInValue(rules, v)
  {
  }

  lemma MappingsComeFromMappings(rules: Rules, v: Value, key: string)
    ensures Redact(rules, v, key, false).Dict? ==> v.Dict? && ActionOn(rules, v, key, false).Descend?
  {
  }

  /** A redacted mapping keeps the default posture. */
  lemma CaptureStaysDefault(rules: Rules, v: Value)
    requires MasksInert(rules) && PostureKeysOpen(rules) && v.Dict?
    requires !ChildCapture(rules, v.fields, false)
    requires "hid_capture" in v.fields ==> DefaultPosture(rules, v.fields["hid_capture"], "hid_capture")
    ensures !ChildCapture(rules, RedactFields(rules, v, false), false)
  {
    var f := v.fields;
    var g := RedactFields(rules, v, false);
    if "hid_capture" in f { MappingsComeFromMappings(rules, f["hid_capture"], "hid_capture"); }
    if Get(g, "hid_capture").Dict? {
      var p := f["hid_capture"];
      if "full_capture" in p.fields {
        OptInNotCreated(rules, p.fields["full_capture"], "full_capture");
      }
    }
    if "PIKVM_FULL_CAPTURE" in f { OptInNotCreated(rules, f["PIKVM_FULL_CAPTURE"], "PIKVM_FULL_CAPTURE"); }
    if "pikvm_full_capture" in f { OptInNotCreated(rules, f["pikvm_full_capture"], "pikvm_full_capture"); }
    if "full_capture" in f { OptInNotCreated(rules, f["full_capture"], "full_capture"); }
  }

  /** A value that redaction leaves alone. */
  ghost predicate FixedPoint(rules: Rules, v: Value, key: string)
  {
    Redact(rules, v, key, false) == v
  }

  lemma FixedMapping(rules: Rules, v: Value, key: string)
    requires v.Dict? && ActionOn(rules, v, key, false).Descend? && !ChildCapture(rules, v.fields, false)
    ensures FixedPoint(rules, v, key) <==> forall k :: k in v.fields ==> FixedPoint(rules, v.fields[k], k)
  {
    var f := RedactFields(rules, v, false);
    assert f == v.fields <==> forall k :: k in v.fields ==> f[k] == v.fields[k];
  }

  lemma FixedSequence(rules: Rules, v: Value, key: string)
    requires IsSequence(v) && ActionOn(rules, v, key, false).Descend?
    ensures FixedPoint(rules, v, key) <==> forall i :: 0 <= i < |v.items| ==> FixedPoint(rules, v.items[i], key)
  {
    var w := Redact(rules, v, key, false);
    assert w.items == v.items <==> forall i :: 0 <= i < |v.items| ==> w.items[i] == v.items[i];
  }

  /** In the default posture a second pass changes nothing, except a byte string
      under a HID-text key, whose first mask is itself text under such a key. */
  lemma {:induction false} IdempotentExactly(rules: Rules, v: Value, key: string)
    requires MasksInert(rules) && PostureKeysOpen(rules) && DefaultPosture(rules, v, key)
    ensures FixedPoint(rules, Redact(rules, v, key, false), key) <==> !HidBytes(rules, v, key)
    decreases v
  {
    if ActionOn(rules, v, key, false).Descend? {
      var once := Redact(rules, v, key, false);
      if v.Dict? {
        CaptureStaysDefault(rules, v);
        FixedMapping(rules, once, key);
        forall k | k in v.fields
          ensures FixedPoint(rules, once.fields[k], k) <==> !HidBytes(rules, v.fields[k], k)
        {
          IdempotentExactly(rules, v.fields[k], k);
        }
      } else {
        FixedSequence(rules, once, key);
        forall i: nat | i < |v.items|
          ensures FixedPoint(rules, once.items[i], key) <==> !HidBytes(rules, v.items[i], key)
        {
          IdempotentExactly(rules, v.items[i], key);
        }
      }
    }
  }

  /** The second pass reports no path that the first did not. */
  lemma {:induction false} SecondPassReportsLess(rules: Rules, v: Value, key: string, path: string, p: string)
    requires MasksInert(rules) && PostureKeysOpen(rules) && DefaultPosture(rules, v, key)
    requires p in Paths(rules, Redact(rules, v, key, false), key, path, false)
    ensures p in Paths(rules, v, key, path, false)
    decreases v
  {
    if ActionOn(rules, v, key, false).Descend? {
      var once := Redact(rules, v, key, false);
      if v.Dict? {
        CaptureStaysDefault(rules, v);
        assert p in FieldPathsOver(rules, once, once.fields.Keys, path, false);
        var k :| k in once.fields && p in Paths(rules, once.fields[k], k, ChildPath(path, k), false);
        SecondPassReportsLess(rules, v.fields[k], k, ChildPath(path, k), p);
        assert p in FieldPathsOver(rules, v, v.fields.Keys, path, false);
      } else {
        var i: nat :| i < |once.items| && p in Paths(rules, once.items[i], key, ItemPath(path, i), false);
        SecondPassReportsLess(rules, v.items[i], key, ItemPath(path, i), p);
      }
    }
  }

  /** The one family on which a second pass differs: bytes under a HID-text key. */
  lemma BytesUnderHidText(rules: Rules, key: string, data: seq<bv8>)
    requires rules.hidText(key) && !rules.masked(key)
    ensures Redact(rules, Bytes(data), key, false) == Str(REDACTED_BYTES)
    ensures Redact(rules, Str(REDACTED_BYTES), key, false) == Str(REDACTED)
    ensures HidBytes(rules, Bytes(data), key)
  {
  }

  lemma FieldShows(a: Value, b: Value, k: string)
    requires a.Dict? && b.Dict? && k in a.fields && k in b.fields && Reload(a.fields[k]) != Reload(b.fields[k])
    ensures Reload(a) != Reload(b)
  {
    assert Reload(a).fields[k] != Reload(b).fields[k];
  }

  lemma ItemShows(a: Value, b: Value, i: nat)
    requires IsSequence(a) && IsSequence(b) && i < |a.items| == |b.items| && Reload(a.items[i]) != Reload(b.items[i])
    ensures Reload(a) != Reload(b)
  {
    assert Reload(a).items[i] != Reload(b).items[i];
  }

  /** One pass over a mapping in the default posture, field by field. */
  lemma RedactedField(rules: Rules, v: Value, key: string)
    requires v.Dict? && ActionOn(rules, v, key, false).Descend? && !ChildCapture(rules, v.fields, false)
    ensures var w := Redact(rules, v, key, false);
      && w.Dict? && w.fields.Keys == v.fields.Keys && ActionOn(rules, w, key, false).Descend?
      && forall k :: k in v.fields ==> w.fields[k] == Redact(rules, v.fields[k], k, false)
  {
  }

  /** The difference is there after JSON, too. */
  lemma {:induction false} HidBytesShow(rules: Rules, v: Value, key: string)
    requires MasksInert(rules) && PostureKeysOpen(rules) && DefaultPosture(rules, v, key) && HidBytes(rules, v, key)
    ensures Reload(Redact(rules, Redact(rules, v, key, false), key, false)) != Reload(Redact(rules, v, key, false))
    decreases v, 1
  {
    if ActionOn(rules, v, key, false).Descend? {
      var once := Redact(rules, v, key, false);
      if v.Dict? {
        HidBytesShowBelow(rules, v, key);
      } else {
        var i :| 0 <= i < |v.items| && HidBytes(rules, v.items[i], key);
        HidBytesShow(rules, v.items[i], key);
        assert once.items[i] == Redact(rules, v.items[i], key, false);
        assert Redact(rules, once, key, false).items[i] == Redact(rules, once.items[i], key, false);
        hide Reload, Redact;
        ItemShows(Redact(rules, once, key, false), once, i);
      }
    }
  }

  lemma {:induction false} HidBytesShowBelow(rules: Rules, v: Value, key: string)
    requires MasksInert(rules) && PostureKeysOpen(rules) && v.Dict? && ActionOn(rules, v, key, false).Descend?
    requires DefaultPosture(rules, v, key) && HidBytes(rules, v, key)
    ensures Reload(Redact(rules, Redact(rules, v, key, false), key, false)) != Reload(Redact(rules, v, key, false))
    decreases v, 0
  {
    var once := Redact(rules, v, key, false);
    var k :| k in v.fields && HidBytes(rules, v.fields[k], k);
    HidBytesShow(rules, v.fields[k], k);
    CaptureStaysDefault(rules, v);
    hide Reload, Redact, HidBytes, MasksInert, PostureKeysOpen;
    RedactedField(rules, v, key);
    RedactedField(rules, once, key);
    FieldShows(Redact(rules, once, key, false), once, k);
  }

  lemma {:induction false} NoBytesNoHidBytes(rules: Rules, v: Value, key: string)
    requires NoBytes(v)
    ensures !HidBytes(rules, v, key)
    decreases v
  {
    if v.Dict? {
      forall k | k in v.fields ensures !HidBytes(rules, v.fields[k], k) { NoBytesNoHidBytes(rules, v.fields[k], k); }
    } else if IsSequence(v) {
      forall i | 0 <= i < |v.items| ensures !HidBytes(rules, v.items[i], key) {
        NoBytesNoHidBytes(rules, v.items[i], key);
      }
    }
  }

  // ------------------------------------------------------------ redaction and JSON

  lemma OptInReload(rules: Rules, v: Value)
    ensures OptInValue(rules, Reload(v)) == OptInValue(rules, v) && Reload(v).Dict? == v.Dict?
  {
  }

  lemma CaptureReload(rules: Rules, v: Value, capture: bool)
    requires v.Dict?
    ensures ChildCapture(rules, Reload(v).fields, capture) == ChildCapture(rules, v.fields, capture)
  {
    var f := v.fields;
    if "hid_capture" in f {
      var p := f["hid_capture"];
      OptInReload(rules, p);
      if p.Dict? && "full_capture" in p.fields { OptInReload(rules, p.fields["full_capture"]); }
    }
    if "PIKVM_FULL_CAPTURE" in f { OptInReload(rules, f["PIKVM_FULL_CAPTURE"]); }
    if "pikvm_full_capture" in f { OptInReload(rules, f["pikvm_full_capture"]); }
    if "full_capture" in f { OptInReload(rules, f["full_capture"]); }
  }

  lemma ActionReload(rules: Rules, v: Value, key: string, capture: bool)
    ensures ActionOn(rules, Reload(v), key, capture) == ActionOn(rules, v, key, capture)
  {
  }

  /** Only containers are descended into, and masks are texts. */
  lemma ActionKinds(rules: Rules, v: Value, key: string, capture: bool)
    ensures ActionOn(rules, v, key, capture).Descend? ==> v.Dict? || IsSequence(v)
    ensures ActionOn(rules, v, key, capture).Replace? ==> ActionOn(rules, v, key, capture).mask.Str?
  {
  }

  /** Redacting what was written and read back is reading back what was redacted. */
  lemma {:induction false} RedactReload(rules: Rules, v: Value, key: string, capture: bool)
    ensures Redact(rules, Reload(v), key, capture) == Reload(Redact(rules, v, key, capture))
    decreases v, 1
  {
    hide ActionOn, ChildCapture, RedactFields;
    ActionReload(rules, v, key, capture);
    ActionKinds(rules, v, key, capture);
    if ActionOn(rules, v, key, capture).Descend? {
      if v.Dict? {
        CaptureReload(rules, v, capture);
        RedactReloadFields(rules, v, ChildCapture(rules, v.fields, capture));
      } else {
        RedactReloadItems(rules, v, key, capture);
      }
    }
  }

  lemma {:induction false} RedactReloadFields(rules: Rules, v: Value, capture: bool)
    requires v.Dict?
    ensures Dict(RedactFields(rules, Reload(v), capture)) == Reload(Dict(RedactFields(rules, v, capture)))
    decreases v, 0
  {
    hide Redact, Reload;
    assert v == Dict(v.fields);
    ReloadFields(v.fields);
    var f, g := RedactFields(rules, Reload(v), capture), RedactFields(rules, v, capture);
    ReloadFields(g);
    forall k | k in v.fields ensures f[k] == Reload(g[k]) {
      RedactReload(rules, v.fields[k], k, capture);
    }
    assert f == Reload(Dict(g)).fields;
  }

  lemma {:induction false} RedactReloadItems(rules: Rules, v: Value, key: string, capture: bool)
    requires IsSequence(v) && ActionOn(rules, v, key, capture).Descend?
    ensures Redact(rules, Reload(v), key, capture) == Reload(Redact(rules, v, key, capture))
    decreases v, 0
  {
    ActionReload(rules, v, key, capture);
    var a := Redact(rules, Reload(v), key, capture);
    var b := Redact(rules, v, key, capture);
    forall i: nat | i < |v.items| ensures a.items[i] == Reload(b.items[i]) {
      RedactReload(rules, v.items[i], key, capture);
    }
    assert a.items == Reload(b).items;
  }

  // ------------------------------------------------------------ mappings as a whole

  /** A byte string sits where redaction keeps what it finds. */
  ghost predicate KeepsBytes(rules: Rules, v: Value, key: string, capture: bool)
  {
    match ActionOn(rules, v, key, capture)
    case Keep => !NoBytes(v)
    case Replace(_) => false
    case Descend =>
      match v
      case Dict(fields) =>
        exists k :: k in fields && KeepsBytes(rules, fields[k], k, ChildCapture(rules, fields, capture))
      case List(items) => exists i :: 0 <= i < |items| && KeepsBytes(rules, items[i], key, capture)
      case Tuple(items) => exists i :: 0 <= i < |items| && KeepsBytes(rules, items[i], key, capture)
  }

  lemma {:induction false} RedactNoBytes(rules: Rules, v: Value, key: string, capture: bool)
    ensures NoBytes(Redact(rules, v, key, capture)) <==> !KeepsBytes(rules, v, key, capture)
    decreases v
  {
    if ActionOn(rules, v, key, capture).Descend? {
      if v.Dict? {
        var child := ChildCapture(rules, v.fields, capture);
        forall k | k in v.fields
          ensures NoBytes(Redact(rules, v.fields[k], k, child)) <==> !KeepsBytes(rules, v.fields[k], k, child)
        {
          RedactNoBytes(rules, v.fields[k], k, child);
        }
      } else {
        forall i | 0 <= i < |v.items|
          ensures NoBytes(Redact(rules, v.items[i], key, capture)) <==> !KeepsBytes(rules, v.items[i], key, capture)
        {
          RedactNoBytes(rules, v.items[i], key, capture);
        }
        var w := Redact(rules, v, key, capture);
        assert forall i :: 0 <= i < |v.items| ==> w.items[i] == Redact(rules, v.items[i], key, capture);
      }
    }
  }

  lemma {:induction false} NoBytesNoneKept(rules: Rules, v: Value, key: string, capture: bool)
    requires NoBytes(v)
    ensures !KeepsBytes(rules, v, key, capture)
    decreases v
  {
    if v.Dict? {
      var child := ChildCapture(rules, v.fields, capture);
      forall k | k in v.fields ensures !KeepsBytes(rules, v.fields[k], k, child) {
        NoBytesNoneKept(rules, v.fields[k], k, child);
      }
    } else if IsSequence(v) {
      forall i | 0 <= i < |v.items| ensures !KeepsBytes(rules, v.items[i], key, capture) {
        NoBytesNoneKept(rules, v.items[i], key, capture);
      }
    }
  }

  /** A mapping in the default posture: nothing reached in it opts in to full capture. */
  predicate DefaultMapping(rules: Rules, fields: map<string, Value>)
  {
    !ChildCapture(rules, fields, false) && forall k :: k in fields ==> DefaultPosture(rules, fields[k], k)
  }

  ghost predicate KeepsBytesIn(rules: Rules, fields: map<string, Value>)
  {
    exists k :: k in fields && KeepsBytes(rules, fields[k], k, ChildCapture(rules, fields, false))
  }

  lemma RedactNoBytesExactly(rules: Rules, fields: map<string, Value>)
    ensures NoBytes(Dict(RedactMapping(rules, fields))) <==> !KeepsBytesIn(rules, fields)
  {
    var child := ChildCapture(rules, fields, false);
    forall k | k in fields
      ensures NoBytes(Redact(rules, fields[k], k, child)) <==> !KeepsBytes(rules, fields[k], k, child)
    {
      RedactNoBytes(rules, fields[k], k, child);
    }
    assert forall k :: k in fields ==> RedactMapping(rules, fields)[k] == Redact(rules, fields[k], k, child);
  }

  lemma RedactNoBytesMapping(rules: Rules, fields: map<string, Value>)
    requires NoBytes(Dict(fields))
    ensures NoBytes(Dict(RedactMapping(rules, fields)))
  {
    var child := ChildCapture(rules, fields, false);
    forall k | k in fields ensures !KeepsBytes(rules, fields[k], k, child) {
      NoBytesNoneKept(rules, fields[k], k, child);
    }
    RedactNoBytesExactly(rules, fields);
  }

  /** A byte string is reached under a key for HID or screen text. */
  ghost predicate HidBytesIn(rules: Rules, fields: map<string, Value>)
  {
    exists k :: k in fields && HidBytes(rules, fields[k], k)
  }

  lemma NoBytesNoHidBytesIn(rules: Rules, fields: map<string, Value>)
    requires NoBytes(Dict(fields))
    ensures !HidBytesIn(rules, fields)
  {
    forall k | k in fields ensures !HidBytes(rules, fields[k], k) { NoBytesNoHidBytes(rules, fields[k], k); }
  }

  /** Redacting a redacted mapping changes nothing, exactly when no byte string sat under a HID-text key. */
  lemma MappingIdempotent(rules: Rules, fields: map<string, Value>)
    requires MasksInert(rules) && PostureKeysOpen(rules) && DefaultMapping(rules, fields)
    ensures
      var once := RedactMapping(rules, fields);
      && !ChildCapture(rules, once, false)
      && (RedactMapping(rules, once) == once <==> !HidBytesIn(rules, fields))
      && (!HidBytesIn(rules, fields) ==> forall k :: k in once ==> FixedPoint(rules, once[k], k))
  {
    var once := RedactMapping(rules, fields);
    CaptureStaysDefault(rules, Dict(fields));
    forall k | k in fields ensures FixedPoint(rules, once[k], k) <==> !HidBytes(rules, fields[k], k) {
      IdempotentExactly(rules, fields[k], k);
    }
    assert RedactMapping(rules, once) == once <==> forall k :: k in once ==> FixedPoint(rules, once[k], k);
  }

  lemma HidBytesShowIn(rules: Rules, fields: map<string, Value>)
    requires MasksInert(rules) && PostureKeysOpen(rules) && DefaultMapping(rules, fields) && HidBytesIn(rules, fields)
    ensures
      var once := RedactMapping(rules, fields);
      Reload(Dict(RedactMapping(rules, once))) != Reload(Dict(once))
  {
    var once := RedactMapping(rules, fields);
    CaptureStaysDefault(rules, Dict(fields));
    var k :| k in fields && HidBytes(rules, fields[k], k);
    HidBytesShow(rules, fields[k], k);
    hide Reload, Redact, HidBytes, MasksInert, PostureKeysOpen, DefaultMapping;
    assert RedactMapping(rules, once)[k] == Redact(rules, once[k], k, false);
    FieldShows(Dict(RedactMapping(rules, once)), Dict(once), k);
  }

  /** Reading a mapping back from JSON commutes with redacting it. */
  lemma MappingReload(rules: Rules, fields: map<string, Value>)
    ensures Dict(RedactMapping(rules, Reload(Dict(fields)).fields)) == Reload(Dict(RedactMapping(rules, fields)))
  {
    CaptureReload(rules, Dict(fields), false);
    RedactReloadFields(rules, Dict(fields), ChildCapture(rules, fields, false));
  }
}
