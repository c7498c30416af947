/**
 What the redactor reports. A caller finds the paths of a child among its reasons by
 matching text, which is exact except below an empty key at the empty path; here is
 exactly what is reported there, on a first pass, on a second, and after JSON.
 */
module RedactionReports {
  import opened Wrappers
  import opened Text
  import opened Values
  import opened Redaction
  import opened RedactionLaws

  // ------------------------------------------------------------ what is touched

  /** Whether the replacement of a node counts: `late` counts those a second pass repeats. */
  predicate Counts(rules: Rules, key: string, late: bool)
  {
    !late || rules.masked(key) || rules.hidText(key)
  }

  /** Some node at or below `v` is replaced; with `late`, one that its key condemns whatever it holds. */
  ghost predicate Touched(rules: Rules, v: Value, key: string, capture: bool, late: bool)
  {
    match ActionOn(rules, v, key, capture)
    case Keep => false
    case Replace(_) => Counts(rules, key, late)
    case Descend =>
      match v
      case Dict(fields) =>
        exists k :: k in fields && Touched(rules, fields[k], k, ChildCapture(rules, fields, capture), late)
      case List(items) => exists i :: 0 <= i < |items| && Touched(rules, items[i], key, capture, late)
      case Tuple(items) => exists i :: 0 <= i < |items| && Touched(rules, items[i], key, capture, late)
  }

  /** A text that can be a path below the empty one. */
  predicate Marked(p: string)
  {
    p != "" && (p[0] == '.' || p[0] == '[')
  }

  /** The value under an empty key makes the redactor report the empty path. */
  ghost predicate EmptyReported(rules: Rules, v: Value, capture: bool, late: bool)
    decreases v, 1
  {
    match ActionOn(rules, v, "", capture)
    case Keep => false
    case Replace(_) => Counts(rules, "", late)
    case Descend => v.Dict? && EmptyReportedBelow(rules, v, ChildCapture(rules, v.fields, capture), late)
  }

  /** Its own empty key does, or something is replaced and no path says so. */
  ghost predicate EmptyReportedBelow(rules: Rules, v: Value, child: bool, late: bool)
    requires v.Dict?
    decreases v, 0
  {
    || ("" in v.fields && EmptyReported(rules, v.fields[""], child, late))
    || (&& (exists k :: k in v.fields && Touched(rules, v.fields[k], k, child, late))
        && (forall k :: k in v.fields && Touched(rules, v.fields[k], k, child, late) ==> k != "" && !Marked(k)))
  }

  lemma KeptEmpty(paths: set<string>, path: string)
    ensures Kept(paths, path) == {} <==> paths == {}
  {
    var nested := set p | p in paths && Under(path, p);
    if paths != {} && nested == {} {
      assert path in Kept(paths, path);
    }
  }

  /** Something is reported exactly when something is replaced. */
  lemma {:induction false} ReportedSome(rules: Rules, v: Value, key: string, path: string, capture: bool)
    ensures Reported(rules, v, key, path, capture) != {} <==> Touched(rules, v, key, capture, false)
    decreases v
  {
    if ActionOn(rules, v, key, capture).Descend? {
      if v.Dict? {
        var child := ChildCapture(rules, v.fields, capture);
        forall k | k in v.fields
          ensures Kept(Reported(rules, v.fields[k], k, ChildPath(path, k), child), ChildPath(path, k)) != {}
             <==> Touched(rules, v.fields[k], k, child, false)
        {
          ReportedSome(rules, v.fields[k], k, ChildPath(path, k), child);
          KeptEmpty(Reported(rules, v.fields[k], k, ChildPath(path, k), child), ChildPath(path, k));
        }
        FieldsReportedSome(rules, v, path, child);
      } else {
        forall i: nat | i < |v.items|
          ensures Kept(Reported(rules, v.items[i], key, ItemPath(path, i), capture), ItemPath(path, i)) != {}
             <==> Touched(rules, v.items[i], key, capture, false)
        {
          ReportedSome(rules, v.items[i], key, ItemPath(path, i), capture);
          KeptEmpty(Reported(rules, v.items[i], key, ItemPath(path, i), capture), ItemPath(path, i));
        }
        ItemsReportedSome(rules, v, key, path, capture);
      }
    }
  }

  lemma FieldsReportedSome(rules: Rules, v: Value, path: string, child: bool)
    requires v.Dict?
    requires forall k :: k in v.fields ==>
      (Kept(Reported(rules, v.fields[k], k, ChildPath(path, k), child), ChildPath(path, k)) != {}
       <==> Touched(rules, v.fields[k], k, child, false))
    ensures FieldsReported(rules, v, v.fields.Keys, path, child) != {}
       <==> exists k :: k in v.fields && Touched(rules, v.fields[k], k, child, false)
  {
    var all := FieldsReported(rules, v, v.fields.Keys, path, child);
    if all != {} {
      var p :| p in all;
      assert exists k :: k in v.fields && Touched(rules, v.fields[k], k, child, false);
    }
    if k :| k in v.fields && Touched(rules, v.fields[k], k, child, false) {
      var p :| p in Kept(Reported(rules, v.fields[k], k, ChildPath(path, k), child), ChildPath(path, k));
      assert p in all;
    }
  }

  lemma ItemsReportedSome(rules: Rules, v: Value, key: string, path: string, capture: bool)
    requires IsSequence(v)
    requires forall i: nat :: i < |v.items| ==>
      (Kept(Reported(rules, v.items[i], key, ItemPath(path, i), capture), ItemPath(path, i)) != {}
       <==> Touched(rules, v.items[i], key, capture, false))
    ensures ItemsReported(rules, v, |v.items|, key, path, capture) != {}
       <==> exists i :: 0 <= i < |v.items| && Touched(rules, v.items[i], key, capture, false)
  {
    var all := ItemsReported(rules, v, |v.items|, key, path, capture);
    if all != {} {
      var p :| p in all;
      var i: nat :| i < |v.items|
          && p in Kept(Reported(rules, v.items[i], key, ItemPath(path, i), capture), ItemPath(path, i));
      assert Touched(rules, v.items[i], key, capture, false);
    }
    if i :| 0 <= i < |v.items| && Touched(rules, v.items[i], key, capture, false) {
      var p :| p in Kept(Reported(rules, v.items[i], key, ItemPath(path, i), capture), ItemPath(path, i));
      assert p in all;
    }
  }

  // ------------------------------------------------------------ below an empty key

  lemma UnderEmpty(p: string)
    ensures Under("", p) <==> p == "" || Marked(p)
  {
    assert "" + "." == "." && "" + "[" == "[";
  }

  /** Below a named key the matching is exact, and paths begin like the key. */
  lemma NamedKeyReports(rules: Rules, v: Value, k: string, capture: bool)
    requires k != ""
    ensures Kept(Reported(rules, v, k, k, capture), k) == Paths(rules, v, k, k, capture)
    ensures forall p :: p in Paths(rules, v, k, k, capture) ==> p != "" && (Marked(p) <==> Marked(k))
  {
    ReportedArePaths(rules, v, k, k, capture);
    PathsKept(rules, v, k, k, capture);
    forall p | p in Paths(rules, v, k, k, capture) ensures p != "" && (Marked(p) <==> Marked(k)) {
      PathsUnder(rules, v, k, k, capture, p);
      assert p[0] == k[0];
    }
  }

  /** What a caller keeps of the value under an empty key. */
  ghost predicate EmptyKeyReports(rules: Rules, v: Value, capture: bool, p: string)
  {
    if p == "" then EmptyReported(rules, v, capture, false) else Marked(p) && p in Paths(rules, v, "", "", capture)
  }

  lemma {:induction false} EmptyKeyReportsExactly(rules: Rules, v: Value, capture: bool, p: string)
    ensures p in Kept(Reported(rules, v, "", "", capture), "") <==> EmptyKeyReports(rules, v, capture, p)
    decreases v, 3
  {
    if ActionOn(rules, v, "", capture).Descend? {
      if v.Dict? {
        EmptyMappingReports(rules, v, ChildCapture(rules, v.fields, capture), p);
      } else {
        EmptySequenceReports(rules, v, capture, p);
      }
    } else {
      UnderEmpty(p);
    }
  }

  lemma EmptySequenceReports(rules: Rules, v: Value, capture: bool, p: string)
    requires IsSequence(v) && ActionOn(rules, v, "", capture).Descend?
    ensures p in Kept(Reported(rules, v, "", "", capture), "") <==> EmptyKeyReports(rules, v, capture, p)
  {
    ReportedArePaths(rules, v, "", "", capture);
    forall q | q in Paths(rules, v, "", "", capture) ensures Marked(q) && Under("", q) {
      var i: nat :| i < |v.items| && q in Paths(rules, v.items[i], "", ItemPath("", i), capture);
      PathsUnder(rules, v.items[i], "", ItemPath("", i), capture, q);
      assert ItemPath("", i)[0] == '[' && q[0] == '[';
      UnderEmpty(q);
    }
  }

  /** What a mapping at the empty path reports for one of its fields. */
  ghost predicate FieldReports(rules: Rules, v: Value, child: bool, k: string, p: string)
    requires v.Dict? && k in v.fields
  {
    p in Kept(Reported(rules, v.fields[k], k, ChildPath("", k), child), ChildPath("", k))
  }

  lemma FieldReportsExactly(rules: Rules, v: Value, child: bool, k: string, p: string)
    requires v.Dict? && k in v.fields
    ensures FieldReports(rules, v, child, k, p) <==>
      if k == "" then EmptyKeyReports(rules, v.fields[k], child, p) else p in Paths(rules, v.fields[k], k, k, child)
    ensures FieldReports(rules, v, child, k, p) ==> Touched(rules, v.fields[k], k, child, false)
    ensures FieldReports(rules, v, child, k, p) ==> (Under("", p) <==> k == "" || Marked(k)) && (p == "" ==> k == "")
    decreases v, 1
  {
    UnderEmpty(p);
    ReportedSome(rules, v.fields[k], k, ChildPath("", k), child);
    KeptEmpty(Reported(rules, v.fields[k], k, ChildPath("", k), child), ChildPath("", k));
    if k == "" {
      EmptyKeyReportsExactly(rules, v.fields[k], child, p);
    } else {
      NamedKeyReports(rules, v.fields[k], k, child);
    }
  }

  lemma TouchedReports(rules: Rules, v: Value, child: bool, k: string) returns (p: string)
    requires v.Dict? && k in v.fields && Touched(rules, v.fields[k], k, child, false)
    ensures FieldReports(rules, v, child, k, p)
  {
    ReportedSome(rules, v.fields[k], k, ChildPath("", k), child);
    KeptEmpty(Reported(rules, v.fields[k], k, ChildPath("", k), child), ChildPath("", k));
    p :| p in Kept(Reported(rules, v.fields[k], k, ChildPath("", k), child), ChildPath("", k));
  }

  lemma FieldsReportedAre(rules: Rules, v: Value, child: bool, p: string)
    requires v.Dict?
    ensures p in FieldsReported(rules, v, v.fields.Keys, "", child)
       <==> exists k :: k in v.fields && FieldReports(rules, v, child, k, p)
  {
    hide Kept;
    if p in FieldsReported(rules, v, v.fields.Keys, "", child) {
      var k :| k in v.fields && p in Kept(Reported(rules, v.fields[k], k, ChildPath("", k), child), ChildPath("", k));
      assert FieldReports(rules, v, child, k, p);
    }
  }

  lemma FieldPathsAre(rules: Rules, v: Value, child: bool, p: string)
    requires v.Dict?
    ensures p in FieldPaths(rules, v, "", child)
        <==> exists k :: k in v.fields && p in Paths(rules, v.fields[k], k, k, child)
  {
    if p in FieldPathsOver(rules, v, v.fields.Keys, "", child) {
      var k :| k in v.fields && p in Paths(rules, v.fields[k], k, ChildPath("", k), child);
      assert ChildPath("", k) == k;
    }
    if k :| k in v.fields && p in Paths(rules, v.fields[k], k, k, child) {
      assert ChildPath("", k) == k;
      assert p in FieldPathsOver(rules, v, v.fields.Keys, "", child);
    }
  }

  lemma EmptyMappingReports(rules: Rules, v: Value, child: bool, p: string)
    requires v.Dict?
    ensures p in Kept(FieldsReported(rules, v, v.fields.Keys, "", child), "") <==>
      if p == "" then EmptyReportedBelow(rules, v, child, false)
      else Marked(p) && p in FieldPaths(rules, v, "", child)
    decreases v, 2
  {
    hide FieldsReported, FieldReports, Reported, Paths, FieldPaths, EmptyReportedBelow, EmptyReported;
    forall k, q | k in v.fields ensures FieldFacts(rules, v, child, k, q) {
      FieldReportsExactly(rules, v, child, k, q);
    }
    if p == "" {
      EmptyPathReported(rules, v, child);
    } else {
      FieldsReportedAre(rules, v, child, p);
      FieldPathsAre(rules, v, child, p);
      UnderEmpty(p);
      NonEmptyKept(FieldsReported(rules, v, v.fields.Keys, "", child), p);
      if k :| k in v.fields && FieldReports(rules, v, child, k, p) { assert FieldFacts(rules, v, child, k, p); }
      if k :| k in v.fields && p in Paths(rules, v.fields[k], k, k, child) { assert FieldFacts(rules, v, child, k, p); }
    }
  }

  lemma NonEmptyKept(all: set<string>, p: string)
    requires p != ""
    ensures p in Kept(all, "") <==> p in all && Under("", p)
  {
    assert p in (set q | q in all && Under("", q)) <==> p in all && Under("", p);
  }

  ghost predicate FieldFacts(rules: Rules, v: Value, child: bool, k: string, p: string)
    requires v.Dict? && k in v.fields
  {
    && (FieldReports(rules, v, child, k, p) <==>
        if k == "" then EmptyKeyReports(rules, v.fields[k], child, p) else p in Paths(rules, v.fields[k], k, k, child))
    && (FieldReports(rules, v, child, k, p) ==>
        Touched(rules, v.fields[k], k, child, false) && (Under("", p) <==> k == "" || Marked(k))
            && (p == "" ==> k == ""))
  }

  lemma EmptyKept(all: set<string>)
    ensures "" in Kept(all, "") <==> "" in all || (all != {} && forall p :: p in all ==> !Under("", p))
  {
    UnderEmpty("");
    var nested := set p | p in all && Under("", p);
    if exists p :: p in all && Under("", p) {
      var p :| p in all && Under("", p);
      assert p in nested;
    }
    if nested != {} {
      var p :| p in nested;
      assert p in all && Under("", p);
    }
  }

  lemma EmptyInFields(rules: Rules, v: Value, child: bool)
    requires v.Dict? && forall k, p | k in v.fields :: FieldFacts(rules, v, child, k, p)
    ensures "" in FieldsReported(rules, v, v.fields.Keys, "", child)
       <==> "" in v.fields && EmptyReported(rules, v.fields[""], child, false)
  {
    hide FieldsReported, FieldReports, Reported, Paths, EmptyReported, Touched, Under;
    FieldsReportedAre(rules, v, child, "");
    if "" in FieldsReported(rules, v, v.fields.Keys, "", child) {
      var k :| k in v.fields && FieldReports(rules, v, child, k, "");
      assert FieldFacts(rules, v, child, k, "");
    }
    if "" in v.fields { assert FieldFacts(rules, v, child, "", ""); }
  }

  /** A path is reported, or one below the empty one is, exactly when a field with such a key is touched. */
  lemma SomeFieldReported(rules: Rules, v: Value, child: bool, nested: bool)
    requires v.Dict? && forall k, p | k in v.fields :: FieldFacts(rules, v, child, k, p)
    ensures (exists p :: p in FieldsReported(rules, v, v.fields.Keys, "", child) && (nested ==> Under("", p)))
       <==> (exists k ::
               k in v.fields && Touched(rules, v.fields[k], k, child, false) && (nested ==> k == "" || Marked(k)))
  {
    hide FieldsReported, FieldReports, Reported, Paths, EmptyReported, Touched, Under;
    var all := FieldsReported(rules, v, v.fields.Keys, "", child);
    if p :| p in all && (nested ==> Under("", p)) {
      FieldsReportedAre(rules, v, child, p);
      var k :| k in v.fields && FieldReports(rules, v, child, k, p);
      assert FieldFacts(rules, v, child, k, p);
    }
    if k :| k in v.fields && Touched(rules, v.fields[k], k, child, false) && (nested ==> k == "" || Marked(k)) {
      var p := TouchedReports(rules, v, child, k);
      FieldsReportedAre(rules, v, child, p);
      assert FieldFacts(rules, v, child, k, p);
    }
  }

  /** The empty path is kept when it is reported, or when nothing below it is. */
  lemma EmptyPathReported(rules: Rules, v: Value, child: bool)
    requires v.Dict? && forall k, p | k in v.fields :: FieldFacts(rules, v, child, k, p)
    ensures "" in Kept(FieldsReported(rules, v, v.fields.Keys, "", child), "")
        <==> EmptyReportedBelow(rules, v, child, false)
  {
    EmptyKept(FieldsReported(rules, v, v.fields.Keys, "", child));
    hide FieldsReported, FieldReports, Reported, Paths, EmptyReported, Touched, Under, Kept, FieldFacts;
    EmptyInFields(rules, v, child);
    SomeFieldReported(rules, v, child, false);
    SomeFieldReported(rules, v, child, true);
  }

  /** `redact_mapping` reports exactly the replaced nodes, except below an empty key, where it
      reports those whose path begins with a mark, and the empty path as described. */
  lemma MappingReportsExactly(rules: Rules, fields: map<string, Value>, p: string)
    ensures
      var child := ChildCapture(rules, fields, false);
      p in MappingReported(rules, fields) <==>
        if p == "" then "" in fields && EmptyReported(rules, fields[""], child, false)
        else exists k :: k in fields && (k == "" ==> Marked(p)) && ReplacedPath(rules, Site(fields[k], k, child), k, p)
  {
    hide FieldReports, Paths, EmptyReported, Touched, ReplacedPath, FieldsReported;
    var child := ChildCapture(rules, fields, false);
    FieldsReportedAre(rules, Dict(fields), child, p);
    forall k | k in fields
      ensures FieldFacts(rules, Dict(fields), child, k, p)
      ensures p in Paths(rules, fields[k], k, k, child) <==> ReplacedPath(rules, Site(fields[k], k, child), k, p)
    {
      FieldReportsExactly(rules, Dict(fields), child, k, p);
      ReportedExactly(rules, Site(fields[k], k, child), k, p);
    }
  }

  // ------------------------------------------------------------ non-interference

  /** Nothing stored under a credential or raw-artifact key shows in what is reported. */
  lemma {:induction false} SecretsDoNotLeakToReports(
      rules: Rules, v: Value, w: Value, key: string, path: string, capture: bool)
    requires PostureKeysOpen(rules) && EqualButSecrets(rules, v, w, key)
    ensures Reported(rules, v, key, path, capture) == Reported(rules, w, key, path, capture)
    decreases v
  {
    if ActionOn(rules, v, key, capture).Descend? {
      if v.Dict? {
        CaptureAgrees(rules, v, w, key, capture);
        var child := ChildCapture(rules, v.fields, capture);
        forall k | k in v.fields
          ensures Reported(rules, v.fields[k], k, ChildPath(path, k), child)
               == Reported(rules, w.fields[k], k, ChildPath(path, k), child)
        {
          SecretsDoNotLeakToReports(rules, v.fields[k], w.fields[k], k, ChildPath(path, k), child);
        }
        assert FieldsReported(rules, v, v.fields.Keys, path, child)
            == FieldsReported(rules, w, w.fields.Keys, path, child);
      } else {
        forall i: nat | i < |v.items|
          ensures Reported(rules, v.items[i], key, ItemPath(path, i), capture)
               == Reported(rules, w.items[i], key, ItemPath(path, i), capture)
        {
          SecretsDoNotLeakToReports(rules, v.items[i], w.items[i], key, ItemPath(path, i), capture);
        }
        assert ItemsReported(rules, v, |v.items|, key, path, capture)
            == ItemsReported(rules, w, |w.items|, key, path, capture);
      }
    }
  }

  // ------------------------------------------------------------ after JSON

  /** What was written and read back is reported as before. */
  lemma {:induction false} ReportedReload(rules: Rules, v: Value, key: string, path: string, capture: bool)
    ensures Reported(rules, Reload(v), key, path, capture) == Reported(rules, v, key, path, capture)
    decreases v, 1
  {
    ActionReload(rules, v, key, capture);
    if ActionOn(rules, v, key, capture).Descend? {
      if v.Dict? {
        CaptureReload(rules, v, capture);
        FieldsReportedReload(rules, v, path, ChildCapture(rules, v.fields, capture));
      } else {
        ItemsReportedReload(rules, v, key, path, capture);
      }
    }
  }

  lemma {:induction false} FieldsReportedReload(rules: Rules, v: Value, path: string, capture: bool)
    requires v.Dict?
    ensures FieldsReported(rules, Reload(v), v.fields.Keys, path, capture)
         == FieldsReported(rules, v, v.fields.Keys, path, capture)
    decreases v, 0
  {
    var w := Reload(v);
    forall k | k in v.fields
      ensures Reported(rules, w.fields[k], k, ChildPath(path, k), capture)
           == Reported(rules, v.fields[k], k, ChildPath(path, k), capture)
    {
      ReportedReload(rules, v.fields[k], k, ChildPath(path, k), capture);
    }
  }

  lemma {:induction false} ItemsReportedReload(rules: Rules, v: Value, key: string, path: string, capture: bool)
    requires IsSequence(v)
    ensures ItemsReported(rules, Reload(v), |v.items|, key, path, capture)
         == ItemsReported(rules, v, |v.items|, key, path, capture)
    decreases v, 0
  {
    var w := Reload(v);
    forall i: nat | i < |v.items|
      ensures Reported(rules, w.items[i], key, ItemPath(path, i), capture)
           == Reported(rules, v.items[i], key, ItemPath(path, i), capture)
    {
      ReportedReload(rules, v.items[i], key, ItemPath(path, i), capture);
    }
    assert ItemsReported(rules, w, |v.items|, key, path, capture)
        == ItemsReported(rules, v, |v.items|, key, path, capture);
  }

  lemma MappingReportedReload(rules: Rules, fields: map<string, Value>)
    ensures MappingReported(rules, Reload(Dict(fields)).fields) == MappingReported(rules, fields)
  {
    CaptureReload(rules, Dict(fields), false);
    FieldsReportedReload(rules, Dict(fields), "", ChildCapture(rules, fields, false));
  }

  // ------------------------------------------------------------ a second pass

  /** A second pass touches what its key condemns whatever it holds. */
  lemma {:induction false} SecondPassTouches(rules: Rules, v: Value, key: string)
    requires MasksInert(rules) && PostureKeysOpen(rules) && DefaultPosture(rules, v, key)
    ensures Touched(rules, Redact(rules, v, key, false), key, false, false) <==> Touched(rules, v, key, false, true)
    decreases v
  {
    if ActionOn(rules, v, key, false).Descend? {
      var once := Redact(rules, v, key, false);
      if v.Dict? {
        CaptureStaysDefault(rules, v);
        forall k | k in v.fields
          ensures Touched(rules, once.fields[k], k, false, false) <==> Touched(rules, v.fields[k], k, false, true)
        {
          SecondPassTouches(rules, v.fields[k], k);
        }
      } else {
        forall i: nat | i < |v.items|
          ensures Touched(rules, once.items[i], key, false, false) <==> Touched(rules, v.items[i], key, false, true)
        {
          SecondPassTouches(rules, v.items[i], key);
        }
      }
    }
  }

  lemma {:induction false} SecondPassEmpty(rules: Rules, v: Value)
    requires MasksInert(rules) && PostureKeysOpen(rules) && DefaultPosture(rules, v, "")
    ensures EmptyReported(rules, Redact(rules, v, "", false), false, false) <==> EmptyReported(rules, v, false, true)
    decreases v
  {
    if ActionOn(rules, v, "", false).Descend? && v.Dict? {
      var once := Redact(rules, v, "", false);
      CaptureStaysDefault(rules, v);
      if "" in v.fields { SecondPassEmpty(rules, v.fields[""]); }
      forall k | k in v.fields
        ensures Touched(rules, once.fields[k], k, false, false) <==> Touched(rules, v.fields[k], k, false, true)
      {
        SecondPassTouches(rules, v.fields[k], k);
      }
    }
  }

  /** Below the empty key, what the keys alone condemn leaves the empty path to be reported only if all
      that is condemned does. */
  ghost predicate EmptyPathLasts(rules: Rules, fields: map<string, Value>)
  {
    "" in fields && EmptyReported(rules, fields[""], false, true) ==> EmptyReported(rules, fields[""], false, false)
  }

  /** The second pass reports no path that the first did not, but for the empty path below an empty key. */
  lemma SecondPassReportsExactly(rules: Rules, fields: map<string, Value>)
    requires MasksInert(rules) && PostureKeysOpen(rules) && DefaultMapping(rules, fields)
    ensures MappingReported(rules, RedactMapping(rules, fields)) - {""} <= MappingReported(rules, fields)
    ensures MappingReported(rules, RedactMapping(rules, fields)) <= MappingReported(rules, fields)
       <==> EmptyPathLasts(rules, fields)
  {
    hide FieldReports, Paths, EmptyReported, Touched, FieldsReported, MasksInert, PostureKeysOpen;
    var once := RedactMapping(rules, fields);
    CaptureStaysDefault(rules, Dict(fields));
    if "" in fields {
      SecondPassEmpty(rules, fields[""]);
    }
    ReportedByPaths(rules, fields, "");
    ReportedByPaths(rules, once, "");
    forall p | p in MappingReported(rules, once) && p != "" ensures p in MappingReported(rules, fields) {
      ReportedByPaths(rules, fields, p);
      ReportedByPaths(rules, once, p);
      var k :| k in once && (k == "" ==> Marked(p)) && p in Paths(rules, once[k], k, k, false);
      SecondPassReportsLess(rules, fields[k], k, k, p);
    }
  }

  lemma ReportedByPaths(rules: Rules, fields: map<string, Value>, p: string)
    requires !ChildCapture(rules, fields, false)
    ensures p in MappingReported(rules, fields) <==>
      if p == "" then "" in fields && EmptyReported(rules, fields[""], false, false)
      else exists k :: k in fields && (k == "" ==> Marked(p)) && p in Paths(rules, fields[k], k, k, false)
  {
    hide FieldReports, Paths, EmptyReported, Touched, FieldsReported;
    FieldsReportedAre(rules, Dict(fields), false, p);
    forall k | k in fields ensures FieldFacts(rules, Dict(fields), false, k, p) {
      FieldReportsExactly(rules, Dict(fields), false, k, p);
    }
  }

  /** Paths as they are listed in a record that keeps the redacted mapping under a name. */
  function Listed(prefix: string, paths: set<string>): set<string>
  {
    set p | p in paths :: prefix + p
  }

  lemma ListedHas(prefix: string, paths: set<string>, p: string)
    ensures prefix + p in Listed(prefix, paths) <==> p in paths
  {
    if prefix + p in Listed(prefix, paths) {
      var q :| q in paths && prefix + q == prefix + p;
      assert q == (prefix + q)[|prefix|..] == (prefix + p)[|prefix|..] == p;
    }
  }

  /**
   A record lists the paths of its redacted mapping after those in `known`. Redacted once more after JSON,
   it stays as it is unless a byte string was masked as text from a screen, or the empty path is new.
   */
  ghost predicate Settles(rules: Rules, fields: map<string, Value>, prefix: string, known: set<string>)
  {
    !HidBytesIn(rules, fields) && (prefix in known || EmptyPathLasts(rules, fields))
  }

  lemma PathsSettle(rules: Rules, fields: map<string, Value>, prefix: string, known: set<string>)
    requires MasksInert(rules) && PostureKeysOpen(rules) && DefaultMapping(rules, fields)
    ensures Listed(prefix, MappingReported(rules, RedactMapping(rules, fields)))
            <= known + Listed(prefix, MappingReported(rules, fields))
       <==> prefix in known || EmptyPathLasts(rules, fields)
  {
    hide RedactMapping, MappingReported, EmptyPathLasts, DefaultMapping;
    var first, second := MappingReported(rules, fields), MappingReported(rules, RedactMapping(rules, fields));
    SecondPassReportsExactly(rules, fields);
    assert prefix + "" == prefix;
    ListedHas(prefix, first, "");
    ListedHas(prefix, second, "");
    if prefix in known || EmptyPathLasts(rules, fields) {
      forall p | p in second ensures prefix + p in known + Listed(prefix, first) {
        ListedHas(prefix, first, p);
      }
    }
  }

  lemma SecondPassSettles(rules: Rules, fields: map<string, Value>, prefix: string, known: set<string>)
    requires MasksInert(rules) && PostureKeysOpen(rules) && DefaultMapping(rules, fields)
    ensures var back := Reload(Dict(RedactMapping(rules, fields))).fields;
      && Dict(RedactMapping(rules, back)) == Reload(Dict(RedactMapping(rules, RedactMapping(rules, fields))))
      && (Settles(rules, fields, prefix, known) <==>
            && RedactMapping(rules, back) == back
            && Listed(prefix, MappingReported(rules, back)) <= known + Listed(prefix, MappingReported(rules, fields)))
  {
    hide RedactMapping, MappingReported, EmptyPathLasts, HidBytesIn, Reload, DefaultMapping, Listed;
    var once := RedactMapping(rules, fields);
    MappingReload(rules, once);
    MappingReportedReload(rules, once);
    MappingIdempotent(rules, fields);
    PathsSettle(rules, fields, prefix, known);
    ReloadIsMapping(once);
    if HidBytesIn(rules, fields) { HidBytesShowIn(rules, fields); }
  }

  lemma ReloadIsMapping(fields: map<string, Value>)
    ensures Reload(Dict(fields)).Dict? && Dict(Reload(Dict(fields)).fields) == Reload(Dict(fields))
  {
  }

  /** A mapping whose credential's path is lost behind the path of a secret-shaped text. */
  function LosingMapping(secret: string, password: string): map<string, Value>
  {
    map[".a" := Str(secret), "password" := Str(password)]
  }

  /** The keys that the example uses mean what they say. */
  ghost predicate LosingKeys(rules: Rules, secret: string)
  {
    && !rules.masked("") && !rules.masked(".a") && !rules.hidText(".a") && !rules.structural(".a")
    && rules.secret(secret) && rules.masked("password")
  }

  lemma LosingTouches(rules: Rules, secret: string, password: string)
    requires LosingKeys(rules, secret)
    ensures var m := LosingMapping(secret, password);
      && Touched(rules, m[".a"], ".a", false, false) && !Touched(rules, m[".a"], ".a", false, true)
      && Touched(rules, m["password"], "password", false, true) && !Marked("password") && Marked(".a")
  {
  }

  lemma LosingReported(rules: Rules, secret: string, password: string)
    requires LosingKeys(rules, secret)
    ensures var inner := Dict(LosingMapping(secret, password));
      && !ChildCapture(rules, inner.fields, false) && DefaultPosture(rules, inner, "") && NoBytes(inner)
      && !EmptyReported(rules, inner, false, false) && EmptyReported(rules, inner, false, true)
  {
    LosingTouches(rules, secret, password);
    hide Touched, Marked;
    var inner := Dict(LosingMapping(secret, password));
    assert inner.fields.Keys == {".a", "password"};
    assert !EmptyReportedBelow(rules, inner, false, false);
    assert EmptyReportedBelow(rules, inner, false, true) by {
      assert exists k :: k in inner.fields && Touched(rules, inner.fields[k], k, false, true);
    }
  }

  /** The empty path is reported by the second pass alone. */
  lemma EmptyPathAppears(rules: Rules, secret: string, password: string)
    requires MasksInert(rules) && PostureKeysOpen(rules) && LosingKeys(rules, secret)
    ensures var fields := map["" := Dict(LosingMapping(secret, password))];
      && DefaultMapping(rules, fields) && NoBytes(Dict(fields)) && !EmptyPathLasts(rules, fields)
      && "" !in MappingReported(rules, fields) && "" in MappingReported(rules, RedactMapping(rules, fields))
  {
    LosingReported(rules, secret, password);
    hide LosingKeys, LosingMapping, EmptyReported, Touched, MasksInert, PostureKeysOpen, MappingReported;
    var fields := map["" := Dict(LosingMapping(secret, password))];
    SecondPassEmpty(rules, fields[""]);
    CaptureStaysDefault(rules, Dict(fields));
    ReportedByPaths(rules, fields, "");
    ReportedByPaths(rules, RedactMapping(rules, fields), "");
  }
}
