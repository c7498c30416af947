/**
 The source's own key classes satisfy what the export and host theorems assume of
 them: the names used by records, events, checkpoints, bundles and approval requests
 are not credential, raw-artifact or HID-text names, and the identifiers among them
 are structural.
 No name of the envelope shares its length, first and last letter with a name
 whose value is replaced, which is what keeps the comparison short.
 */
module RedactionSource {
  import opened Redaction
  import opened RedactionLaws
  import opened RedactionReports
  import opened AuditExportLaws
  import opened HostApprovals

  /** `str.lower` leaves lower-case names alone. */
  ghost predicate FixesNames(lower: string -> string)
  {
    forall s :: LowerName(s) ==> lower(s) == s
  }

  predicate LowerName(s: string)
  {
    forall i :: 0 <= i < |s| ==> 'a' <= s[i] <= 'z' || s[i] == '_'
  }

  /** Length, first and last letter of some name that is treated specially. */
  predicate SpecialSignature(n: nat, a: char, z: char)
  {
    match n
    case 3 => (a == 'm' && z == 'a') || (a == 'o' && z == 'p') || (a == 'p' && z == 'n')
    case 4 => (a == 't' && z == 'p') || (a == 't' && z == 't')
    case 5 => (a == 'b' && z == 's') || (a == 't' && z == 'n')
    case 6 => (a == 'b' && z == 'r') || (a == 's' && z == 't')
    case 7 => (a == 'a' && z == 'y') || (a == 'c' && z == 't')
    case 8 => (a == 'h' && z == 't') || (a == 'm' && z == 'e') || (a == 'p' && z == 'd')
    case 9 => (a == 'a' && z == 'n') || (a == 'r' && z == 'e') || (a == 'r' && z == 's')
    case 10 => (a == 'a' && z == 'n') || (a == 'c' && z == 'l') || (a == 'o' && z == 't') || (a == 'p' && z == 'e')
        || (a == 'r' && z == 's') || (a == 't' && z == 't')
    case 11 => (a == 'i' && z == 's') || (a == 'p' && z == 'y') || (a == 's' && z == 't')
    case 12 => (a == 'a' && z == 'n') || (a == 'r' && z == 'y')
    case 13 => (a == 'k' && z == 't') || (a == 'r' && z == 'n') || (a == 't' && z == 'e')
    case 14 => (a == 'c' && z == 'f') || (a == 's' && z == 'e') || (a == 's' && z == 't')
    case 16 => (a == 's' && z == 's')
    case _ => false
  }

  predicate SpecialName(k: string)
  {
    k in CREDENTIAL_FIELD_KEYS || k in RAW_ARTIFACT_KEYS || k in HID_TEXT_KEYS || k == "redactions"
  }

  lemma SpecialNamesSigned(k: string)
    requires SpecialName(k)
    ensures k != "" && SpecialSignature(|k|, k[0], k[|k| - 1])
  {
  }

  /** A lower-case name whose signature no special name has. */
  predicate EnvelopeName(k: string)
  {
    k != "" && LowerName(k) && !SpecialSignature(|k|, k[0], k[|k| - 1])
  }

  lemma EnvelopeNameOpen(lower: string -> string, secret: string -> bool, optIn: string -> bool,
                         strip: string -> string, k: string)
    requires FixesNames(lower) && EnvelopeName(k)
    ensures Open(SourceRules(lower, secret, optIn, strip), k)
  {
    if SpecialName(k) { SpecialNamesSigned(k); }
    assert lower(k) == k;
  }

  /** Structural names: the ids and hashes of the envelope. */
  predicate EnvelopeToken(k: string)
  {
    EnvelopeName(k) && (k == "id" || EndsWith(k, "_id") || EndsWith(k, "_hash") || EndsWith(k, "_fingerprint"))
  }

  lemma EnvelopeTokenStructural(lower: string -> string, secret: string -> bool, optIn: string -> bool,
                                strip: string -> string, k: string)
    requires FixesNames(lower) && EnvelopeToken(k)
    ensures Token(SourceRules(lower, secret, optIn, strip), k)
  {
    EnvelopeNameOpen(lower, secret, optIn, strip, k);
    assert lower(k) == k;
    IdIsStructural();
  }

  lemma IdIsStructural()
    ensures "id" in STRUCTURAL_TOKEN_KEYS
  {
  }

  lemma EndsWithSuffix(stem: string, suffix: string)
    ensures EndsWith(stem + suffix, suffix)
  {
  }

  lemma EnvelopeNames1()
    ensures EnvelopeName("id") && EnvelopeName("timestamp") && EnvelopeName("event_type")
        && EnvelopeName("policy_decision")
    ensures EnvelopeName("actor") && EnvelopeName("type") && EnvelopeName("capability")
  {
  }

  lemma EnvelopeNames2()
    ensures EnvelopeName("family") && EnvelopeName("action") && EnvelopeName("provider") && EnvelopeName("kind")
    ensures EnvelopeName("is_real_hardware") && EnvelopeName("approval") && EnvelopeName("request")
  {
  }

  lemma EnvelopeNames3()
    ensures EnvelopeName("result") && EnvelopeName("material_risks") && EnvelopeName("event") && EnvelopeName("version")
    ensures EnvelopeName("records") && EnvelopeName("checkpoint") && EnvelopeName("record_count")
  {
  }

  lemma EnvelopeNames4()
    ensures EnvelopeName("last_event_index") && EnvelopeName("event_count") && EnvelopeName("created_at")
        && EnvelopeName("metadata")
    ensures EnvelopeName("correlation_id") && EnvelopeName("session_id") && EnvelopeName("target_id")
  {
  }

  lemma EnvelopeNames5()
    ensures EnvelopeName("previous_hash") && EnvelopeName("event_hash") && EnvelopeName("export_id")
        && EnvelopeName("audit_log_id")
    ensures EnvelopeName("last_event_hash") && EnvelopeName("checkpoint_id") && EnvelopeName("previous_checkpoint_hash")
  {
  }

  lemma EnvelopeNames6()
    ensures EnvelopeName("checkpoint_hash") && EnvelopeName("hid_capture") && EnvelopeName("full_capture")
    ensures EnvelopeName("pikvm_full_capture")
  {
  }

  lemma EnvelopeNames7()
    ensures EnvelopeName("approval_request") && EnvelopeName("params_preview") && EnvelopeName("target_scope")
        && EnvelopeName("targets")
  {
  }

  lemma EnvelopeNames9()
    ensures EnvelopeName("chain_verified") && EnvelopeName("checkpoint_verified") && EnvelopeName("redaction_summary")
  {
  }

  lemma EnvelopeNames10()
    ensures EnvelopeName("record_redaction_count") && EnvelopeName("checkpoint_redaction_count")
  {
  }

  lemma EnvelopeNames8()
    ensures EnvelopeName("expires_at") && EnvelopeName("operator_message") && EnvelopeName("provider_id")
        && EnvelopeName("params_fingerprint")
  {
  }

  lemma TokenNames1()
    ensures EndsWith("correlation_id", "_id") && EndsWith("session_id", "_id") && EndsWith("target_id", "_id")
        && EndsWith("previous_hash", "_hash")
  {
    EndsWithSuffix("correlation", "_id");
    assert "correlation" + "_id" == "correlation_id";
    EndsWithSuffix("session", "_id");
    assert "session" + "_id" == "session_id";
    EndsWithSuffix("target", "_id");
    assert "target" + "_id" == "target_id";
    EndsWithSuffix("previous", "_hash");
    assert "previous" + "_hash" == "previous_hash";
  }

  lemma TokenNames2()
    ensures EndsWith("event_hash", "_hash") && EndsWith("export_id", "_id") && EndsWith("audit_log_id", "_id")
        && EndsWith("last_event_hash", "_hash")
  {
    EndsWithSuffix("event", "_hash");
    assert "event" + "_hash" == "event_hash";
    EndsWithSuffix("export", "_id");
    assert "export" + "_id" == "export_id";
    EndsWithSuffix("audit_log", "_id");
    assert "audit_log" + "_id" == "audit_log_id";
    EndsWithSuffix("last_event", "_hash");
    assert "last_event" + "_hash" == "last_event_hash";
  }

  lemma TokenNames3()
    ensures EndsWith("checkpoint_id", "_id") && EndsWith("previous_checkpoint_hash", "_hash")
        && EndsWith("checkpoint_hash", "_hash")
  {
    EndsWithSuffix("checkpoint", "_id");
    assert "checkpoint" + "_id" == "checkpoint_id";
    EndsWithSuffix("previous_checkpoint", "_hash");
    assert "previous_checkpoint" + "_hash" == "previous_checkpoint_hash";
    EndsWithSuffix("checkpoint", "_hash");
    assert "checkpoint" + "_hash" == "checkpoint_hash";
  }

  lemma TokenNames4()
    ensures EndsWith("provider_id", "_id") && EndsWith("params_fingerprint", "_fingerprint")
  {
    EndsWithSuffix("provider", "_id");
    assert "provider" + "_id" == "provider_id";
    EndsWithSuffix("params", "_fingerprint");
    assert "params" + "_fingerprint" == "params_fingerprint";
  }

  // ------------------------------------------------------------ the hypotheses, met

  lemma EventKeysMet(lower: string -> string, secret: string -> bool, optIn: string -> bool, strip: string -> string)
    requires FixesNames(lower)
    ensures EventKeys(SourceRules(lower, secret, optIn, strip))
  {
    hide EnvelopeName, Open, EndsWith, FixesNames;
    var rules := SourceRules(lower, secret, optIn, strip);
    EventTokensMet(lower, secret, optIn, strip);
    EventNamesMet(lower, secret, optIn, strip);
    RedactionsIsPathList(lower, secret, optIn, strip);
  }

  lemma RedactionsIsPathList(lower: string -> string, secret: string -> bool, optIn: string -> bool,
                             strip: string -> string)
    requires FixesNames(lower)
    ensures SourceRules(lower, secret, optIn, strip).pathList("redactions")
  {
    assert LowerName("redactions");
  }

  lemma EventTokensMet(lower: string -> string, secret: string -> bool, optIn: string -> bool, strip: string -> string)
    requires FixesNames(lower)
    ensures var rules := SourceRules(lower, secret, optIn, strip);
      Token(rules, "id") && Token(rules, "correlation_id") && Token(rules, "session_id") && Token(rules, "target_id")
  {
    EnvelopeNames1();
    EnvelopeNames4();
    TokenNames1();
    hide EnvelopeName, SourceRules, Token, EndsWith, FixesNames;
    EnvelopeTokenStructural(lower, secret, optIn, strip, "id");
    EnvelopeTokenStructural(lower, secret, optIn, strip, "correlation_id");
    EnvelopeTokenStructural(lower, secret, optIn, strip, "session_id");
    EnvelopeTokenStructural(lower, secret, optIn, strip, "target_id");
  }

  lemma EventNamesMet(lower: string -> string, secret: string -> bool, optIn: string -> bool, strip: string -> string)
    requires FixesNames(lower)
    ensures var rules := SourceRules(lower, secret, optIn, strip);
      && Open(rules, "timestamp") && Open(rules, "event_type") && Open(rules, "policy_decision")
      && Open(rules, "actor") && Open(rules, "type")
      && Open(rules, "capability") && Open(rules, "family") && Open(rules, "action")
      && Open(rules, "provider") && Open(rules, "kind") && Open(rules, "is_real_hardware")
      && Open(rules, "approval") && Open(rules, "request") && Open(rules, "result") && Open(rules, "material_risks")
  {
    EnvelopeNames1();
    EnvelopeNames2();
    EnvelopeNames3();
    hide EnvelopeName, SourceRules, Open, FixesNames;
    EnvelopeNameOpen(lower, secret, optIn, strip, "timestamp");
    EnvelopeNameOpen(lower, secret, optIn, strip, "event_type");
    EnvelopeNameOpen(lower, secret, optIn, strip, "policy_decision");
    EnvelopeNameOpen(lower, secret, optIn, strip, "actor");
    EnvelopeNameOpen(lower, secret, optIn, strip, "type");
    EnvelopeNameOpen(lower, secret, optIn, strip, "capability");
    EnvelopeNameOpen(lower, secret, optIn, strip, "family");
    EnvelopeNameOpen(lower, secret, optIn, strip, "action");
    EnvelopeNameOpen(lower, secret, optIn, strip, "provider");
    EnvelopeNameOpen(lower, secret, optIn, strip, "kind");
    EnvelopeNameOpen(lower, secret, optIn, strip, "is_real_hardware");
    EnvelopeNameOpen(lower, secret, optIn, strip, "approval");
    EnvelopeNameOpen(lower, secret, optIn, strip, "request");
    EnvelopeNameOpen(lower, secret, optIn, strip, "result");
    EnvelopeNameOpen(lower, secret, optIn, strip, "material_risks");
  }

  lemma BundleTokensMet(lower: string -> string, secret: string -> bool, optIn: string -> bool, strip: string -> string)
    requires FixesNames(lower)
    ensures var rules := SourceRules(lower, secret, optIn, strip);
      && Token(rules, "previous_hash") && Token(rules, "event_hash") && Token(rules, "export_id")
      && Token(rules, "audit_log_id")
      && Token(rules, "last_event_hash") && Token(rules, "checkpoint_id") && Token(rules, "previous_checkpoint_hash")
      && Token(rules, "checkpoint_hash")
  {
    EnvelopeNames5();
    EnvelopeNames6();
    TokenNames1();
    TokenNames2();
    TokenNames3();
    hide EnvelopeName, SourceRules, Token, EndsWith, FixesNames;
    EnvelopeTokenStructural(lower, secret, optIn, strip, "previous_hash");
    EnvelopeTokenStructural(lower, secret, optIn, strip, "event_hash");
    EnvelopeTokenStructural(lower, secret, optIn, strip, "export_id");
    EnvelopeTokenStructural(lower, secret, optIn, strip, "audit_log_id");
    EnvelopeTokenStructural(lower, secret, optIn, strip, "last_event_hash");
    EnvelopeTokenStructural(lower, secret, optIn, strip, "checkpoint_id");
    EnvelopeTokenStructural(lower, secret, optIn, strip, "previous_checkpoint_hash");
    EnvelopeTokenStructural(lower, secret, optIn, strip, "checkpoint_hash");
  }

  lemma BundleNamesMet(lower: string -> string, secret: string -> bool, optIn: string -> bool, strip: string -> string)
    requires FixesNames(lower)
    ensures var rules := SourceRules(lower, secret, optIn, strip);
      && Open(rules, "event") && Open(rules, "version") && Open(rules, "records") && Open(rules, "checkpoint")
      && Open(rules, "record_count") && Open(rules, "last_event_index") && Open(rules, "event_count")
      && Open(rules, "created_at") && Open(rules, "metadata")
      && Open(rules, "chain_verified") && Open(rules, "checkpoint_verified") && Open(rules, "redaction_summary")
      && Open(rules, "record_redaction_count") && Open(rules, "checkpoint_redaction_count")
  {
    EnvelopeNames3();
    EnvelopeNames4();
    EnvelopeNames9();
    EnvelopeNames10();
    hide EnvelopeName, SourceRules, Open, FixesNames;
    EnvelopeNameOpen(lower, secret, optIn, strip, "event");
    EnvelopeNameOpen(lower, secret, optIn, strip, "version");
    EnvelopeNameOpen(lower, secret, optIn, strip, "records");
    EnvelopeNameOpen(lower, secret, optIn, strip, "checkpoint");
    EnvelopeNameOpen(lower, secret, optIn, strip, "record_count");
    EnvelopeNameOpen(lower, secret, optIn, strip, "last_event_index");
    EnvelopeNameOpen(lower, secret, optIn, strip, "event_count");
    EnvelopeNameOpen(lower, secret, optIn, strip, "created_at");
    EnvelopeNameOpen(lower, secret, optIn, strip, "metadata");
    EnvelopeNameOpen(lower, secret, optIn, strip, "chain_verified");
    EnvelopeNameOpen(lower, secret, optIn, strip, "checkpoint_verified");
    EnvelopeNameOpen(lower, secret, optIn, strip, "redaction_summary");
    EnvelopeNameOpen(lower, secret, optIn, strip, "record_redaction_count");
    EnvelopeNameOpen(lower, secret, optIn, strip, "checkpoint_redaction_count");
  }

  lemma BundleKeysMet(lower: string -> string, secret: string -> bool, optIn: string -> bool, strip: string -> string)
    requires FixesNames(lower)
    ensures BundleKeys(SourceRules(lower, secret, optIn, strip))
  {
    BundleTokensMet(lower, secret, optIn, strip);
    BundleNamesMet(lower, secret, optIn, strip);
    CreatedAtNotStructural(lower, secret, optIn, strip);
    hide Open, Token, SourceRules;
  }

  lemma HostTokensMet(lower: string -> string, secret: string -> bool, optIn: string -> bool, strip: string -> string)
    requires FixesNames(lower)
    ensures var rules := SourceRules(lower, secret, optIn, strip);
      && Token(rules, "id") && Token(rules, "session_id") && Token(rules, "provider_id")
      && Token(rules, "params_fingerprint")
  {
    EnvelopeNames1();
    EnvelopeNames4();
    EnvelopeNames8();
    TokenNames1();
    TokenNames4();
    hide EnvelopeName, SourceRules, Token, EndsWith, FixesNames;
    EnvelopeTokenStructural(lower, secret, optIn, strip, "id");
    EnvelopeTokenStructural(lower, secret, optIn, strip, "session_id");
    EnvelopeTokenStructural(lower, secret, optIn, strip, "provider_id");
    EnvelopeTokenStructural(lower, secret, optIn, strip, "params_fingerprint");
  }

  lemma HostNamesMet(lower: string -> string, secret: string -> bool, optIn: string -> bool, strip: string -> string)
    requires FixesNames(lower)
    ensures var rules := SourceRules(lower, secret, optIn, strip);
      && Open(rules, "approval_request") && Open(rules, "params_preview") && Open(rules, "target_scope")
      && Open(rules, "capability") && Open(rules, "targets") && Open(rules, "expires_at")
      && Open(rules, "policy_decision") && Open(rules, "operator_message")
  {
    EnvelopeNames1();
    EnvelopeNames7();
    EnvelopeNames8();
    hide EnvelopeName, SourceRules, Open, FixesNames;
    EnvelopeNameOpen(lower, secret, optIn, strip, "approval_request");
    EnvelopeNameOpen(lower, secret, optIn, strip, "params_preview");
    EnvelopeNameOpen(lower, secret, optIn, strip, "target_scope");
    EnvelopeNameOpen(lower, secret, optIn, strip, "capability");
    EnvelopeNameOpen(lower, secret, optIn, strip, "targets");
    EnvelopeNameOpen(lower, secret, optIn, strip, "expires_at");
    EnvelopeNameOpen(lower, secret, optIn, strip, "policy_decision");
    EnvelopeNameOpen(lower, secret, optIn, strip, "operator_message");
  }

  lemma CreatedAtNotStructural(lower: string -> string, secret: string -> bool, optIn: string -> bool,
                               strip: string -> string)
    requires FixesNames(lower)
    ensures !SourceRules(lower, secret, optIn, strip).structural("created_at")
  {
    assert LowerName("created_at");
    assert "created_at" !in STRUCTURAL_TOKEN_KEYS;
  }

  lemma TargetsNotStructural(lower: string -> string, secret: string -> bool, optIn: string -> bool,
                             strip: string -> string)
    requires FixesNames(lower)
    ensures !SourceRules(lower, secret, optIn, strip).structural("targets")
  {
    assert LowerName("targets");
    assert "targets" !in STRUCTURAL_TOKEN_KEYS;
  }

  lemma HostKeysMet(lower: string -> string, secret: string -> bool, optIn: string -> bool, strip: string -> string)
    requires FixesNames(lower)
    ensures HostKeys(SourceRules(lower, secret, optIn, strip))
  {
    HostTokensMet(lower, secret, optIn, strip);
    HostNamesMet(lower, secret, optIn, strip);
    TargetsNotStructural(lower, secret, optIn, strip);
    hide Open, Token, SourceRules;
  }

  lemma PostureKeysMet(lower: string -> string, secret: string -> bool, optIn: string -> bool, strip: string -> string)
    requires FixesNames(lower) && lower("PIKVM_FULL_CAPTURE") == "pikvm_full_capture"
    ensures PostureKeysOpen(SourceRules(lower, secret, optIn, strip))
  {
    EnvelopeNames6();
    hide EnvelopeName, FixesNames;
    EnvelopeNameOpen(lower, secret, optIn, strip, "hid_capture");
    EnvelopeNameOpen(lower, secret, optIn, strip, "full_capture");
    EnvelopeNameOpen(lower, secret, optIn, strip, "pikvm_full_capture");
    assert lower("pikvm_full_capture") == "pikvm_full_capture" by { PikvmName(lower); }
    SameLowerSameMask(lower, secret, optIn, strip, "PIKVM_FULL_CAPTURE", "pikvm_full_capture");
  }

  lemma PikvmName(lower: string -> string)
    requires FixesNames(lower)
    ensures lower("pikvm_full_capture") == "pikvm_full_capture"
  {
    assert LowerName("pikvm_full_capture");
  }

  lemma SameLowerSameMask(lower: string -> string, secret: string -> bool, optIn: string -> bool,
                          strip: string -> string, k: string, m: string)
    requires lower(k) == lower(m)
    ensures var rules := SourceRules(lower, secret, optIn, strip); rules.masked(k) == rules.masked(m)
  {
  }

  /** The source's own key lists meet everything the redaction, export and host theorems assume about keys. */
  lemma SourceKeysMet(lower: string -> string, secret: string -> bool, optIn: string -> bool, strip: string -> string)
    requires FixesNames(lower) && lower("PIKVM_FULL_CAPTURE") == "pikvm_full_capture"
    ensures var rules := SourceRules(lower, secret, optIn, strip);
      EventKeys(rules) && BundleKeys(rules) && PostureKeysOpen(rules) && HostKeys(rules)
  {
    hide *;
    EventKeysMet(lower, secret, optIn, strip);
    BundleKeysMet(lower, secret, optIn, strip);
    PostureKeysMet(lower, secret, optIn, strip);
    HostKeysMet(lower, secret, optIn, strip);
  }

  /** A short key beginning with a dot is in none of the lists. */
  lemma DotKeyIsPlain()
    ensures ".a" !in CREDENTIAL_FIELD_KEYS && ".a" !in RAW_ARTIFACT_KEYS && ".a" !in HID_TEXT_KEYS
    ensures "" !in CREDENTIAL_FIELD_KEYS && "" !in RAW_ARTIFACT_KEYS
  {
    hide CREDENTIAL_FIELD_KEYS, RAW_ARTIFACT_KEYS, HID_TEXT_KEYS;
    if SpecialName(".a") { SpecialNamesSigned(".a"); }
    if SpecialName("") { SpecialNamesSigned(""); }
  }

  lemma StructuralNamesLonger(k: string)
    requires k in STRUCTURAL_TOKEN_KEYS
    ensures k != "" && k[0] != '.'
  {
  }

  lemma DotKeyNotStructural()
    ensures ".a" !in STRUCTURAL_TOKEN_KEYS
    ensures !EndsWith(".a", "_id") && !EndsWith(".a", "_hash") && !EndsWith(".a", "_fingerprint")
  {
    hide STRUCTURAL_TOKEN_KEYS;
    if ".a" in STRUCTURAL_TOKEN_KEYS { StructuralNamesLonger(".a"); }
  }

  lemma PasswordIsCredential()
    ensures "password" in CREDENTIAL_FIELD_KEYS && LowerName("password")
  {
  }

  /** The source's keys also allow the example in which a second pass reports the empty path for the first time. */
  lemma SourceLosesPath(lower: string -> string, secret: string -> bool, optIn: string -> bool,
                        strip: string -> string, text: string)
    requires FixesNames(lower) && lower("") == "" && lower(".a") == ".a" && secret(text)
    ensures LosingKeys(SourceRules(lower, secret, optIn, strip), text)
  {
    hide CREDENTIAL_FIELD_KEYS, RAW_ARTIFACT_KEYS, HID_TEXT_KEYS, STRUCTURAL_TOKEN_KEYS, EndsWith, LowerName;
    DotKeyIsPlain();
    DotKeyNotStructural();
    PasswordIsCredential();
    assert lower("password") == "password";
  }
}
