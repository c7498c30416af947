/**
 What the source's own key lists do to each kind of value, name by name (`redaction.py`): which keys are masked
 whatever they hold, which hold text from a screen, which are structural, and what becomes of everything else.
 */
module RedactionLeaves {
  import opened Values
  import opened Redaction
  import Text

  // ------------------------------------------------------------ the names

  /** A field that holds a credential. */
  predicate CredentialName(k: string)
  {
    || k == "password" || k == "passphrase" || k == "pin" || k == "otp" || k == "totp" || k == "mfa" || k == "mfa_code"
    || k == "recovery_key" || k == "secret" || k == "token" || k == "api_key" || k == "api_token"
    || k == "access_token" || k == "refresh_token" || k == "auth_token" || k == "private_key" || k == "credential"
    || k == "credential_ref" || k == "bearer" || k == "session_cookie" || k == "otp_secret" || k == "token_example"
  }

  /** A field that holds the bytes of an image. */
  predicate ArtifactName(k: string)
  {
    || k == "raw_bytes" || k == "image_bytes" || k == "raw_image" || k == "screenshot_bytes" || k == "bytes"
  }

  /** A field that holds text typed or seen on a screen. */
  predicate ScreenName(k: string)
  {
    || k == "text" || k == "typed_text" || k == "hid_text" || k == "keyboard_text" || k == "screen_text"
    || k == "screen_content" || k == "content"
  }

  predicate Ends(k: string, suffix: string)
  {
    exists n: nat :: n <= |k| && k[n..] == suffix
  }

  /** An identifier or a digest, however it looks. */
  predicate StructuralName(k: string)
  {
    || k == "id" || k == "event_hash" || k == "previous_hash" || k == "last_event_hash" || k == "checkpoint_hash"
    || k == "params_fingerprint" || k == "fingerprint" || k == "cert_fingerprint" || k == "sha256_fingerprint"
    || Ends(k, "_id") || Ends(k, "_hash") || Ends(k, "_fingerprint")
  }

  lemma CredentialsExactly(k: string)
    ensures k in CREDENTIAL_FIELD_KEYS <==> CredentialName(k)
  {
  }

  lemma ArtifactsExactly(k: string)
    ensures k in RAW_ARTIFACT_KEYS <==> ArtifactName(k)
  {
  }

  lemma ScreensExactly(k: string)
    ensures k in HID_TEXT_KEYS <==> ScreenName(k)
  {
  }

  lemma EndsExactly(k: string, suffix: string)
    ensures EndsWith(k, suffix) <==> Ends(k, suffix)
  {
  }

  lemma TokensExactly(k: string)
    ensures (k in STRUCTURAL_TOKEN_KEYS || EndsWith(k, "_id") || EndsWith(k, "_hash") || EndsWith(k, "_fingerprint"))
       <==> StructuralName(k)
  {
    EndsExactly(k, "_id");
    EndsExactly(k, "_hash");
    EndsExactly(k, "_fingerprint");
    hide EndsWith, Ends;
  }

  // ------------------------------------------------------------ the values

  /** What becomes of a value that holds no others, under a key in lower case. */
  function Leaf(v: Value, k: string, capture: bool, secret: string -> bool, strip: string -> string): Value
  {
    if CredentialName(k) || ArtifactName(k) then Str("[REDACTED]")
    else match v
      case Str(s) =>
        if ScreenName(k) then Str(if capture then strip(s) else "[REDACTED]")
        else Str(if secret(s) && !StructuralName(k) then "[REDACTED]" else s)
      case Bytes(_) => Str("[REDACTED-BYTES]")
      case _ => v
  }

  /** The source's rules do exactly that, and mask everything under a credential or an artifact but a list of paths. */
  lemma LeavesExactly(lower: string -> string, secret: string -> bool, optIn: string -> bool,
                      strip: string -> string, v: Value, key: string, capture: bool)
    ensures var rules := SourceRules(lower, secret, optIn, strip);
      var out := Redact(rules, v, key, capture);
      && (!v.List? && !v.Tuple? && !v.Dict? ==> out == Leaf(v, lower(key), capture, secret, strip))
      && ((v.List? || v.Tuple?) && lower(key) == "redactions" ==> out == v)
      && ((CredentialName(lower(key)) || ArtifactName(lower(key))) && lower(key) != "redactions"
          ==> out == Str("[REDACTED]"))
  {
    hide CREDENTIAL_FIELD_KEYS, RAW_ARTIFACT_KEYS, HID_TEXT_KEYS, STRUCTURAL_TOKEN_KEYS, EndsWith, StructuralName;
    hide CredentialName, ArtifactName, ScreenName;
    CredentialsExactly(lower(key));
    ArtifactsExactly(lower(key));
    ScreensExactly(lower(key));
    TokensExactly(lower(key));
  }

  /** Containers under other keys are redacted inside: items under the container's key, members under their own. */
  lemma ContainersExactly(lower: string -> string, secret: string -> bool, optIn: string -> bool,
                          strip: string -> string, v: Value, key: string, capture: bool)
    requires !CredentialName(lower(key)) && !ArtifactName(lower(key)) && lower(key) != "redactions"
    ensures var rules := SourceRules(lower, secret, optIn, strip);
      var out := Redact(rules, v, key, capture);
      && (v.Dict? ==>
            && out.Dict? && out.fields.Keys == v.fields.Keys
            && forall k :: k in v.fields ==>
                 out.fields[k] == Redact(rules, v.fields[k], k, ChildCapture(rules, v.fields, capture)))
      && (v.List? ==>
            && out.List? && |out.items| == |v.items|
            && forall i :: 0 <= i < |v.items| ==> out.items[i] == Redact(rules, v.items[i], key, capture))
      && (v.Tuple? ==>
            && out.Tuple? && |out.items| == |v.items|
            && forall i :: 0 <= i < |v.items| ==> out.items[i] == Redact(rules, v.items[i], key, capture))
  {
    hide CREDENTIAL_FIELD_KEYS, RAW_ARTIFACT_KEYS, HID_TEXT_KEYS, STRUCTURAL_TOKEN_KEYS, EndsWith, ChildCapture;
    hide CredentialName, ArtifactName;
    CredentialsExactly(lower(key));
    ArtifactsExactly(lower(key));
  }

  /** True, or one of the words that opt in. */
  predicate OptsIn(v: Value, optIn: string -> bool)
  {
    v == Bool(true) || (v.Str? && optIn(v.s))
  }

  /** Whether full capture holds below a mapping: its nested switch decides, then the first of three flat ones. */
  lemma PostureExactly(rules: Rules, m: map<string, Value>, inherited: bool)
    ensures ChildCapture(rules, m, inherited)
       <==> (if "hid_capture" in m && m["hid_capture"].Dict? then
               "full_capture" in m["hid_capture"].fields
               && OptsIn(m["hid_capture"].fields["full_capture"], rules.optIn)
             else if "PIKVM_FULL_CAPTURE" in m then OptsIn(m["PIKVM_FULL_CAPTURE"], rules.optIn)
             else if "pikvm_full_capture" in m then OptsIn(m["pikvm_full_capture"], rules.optIn)
             else if "full_capture" in m then OptsIn(m["full_capture"], rules.optIn)
             else inherited)
  {
  }

  /** How places are named: a member after a dot, an item by its index between brackets. */
  lemma PathsExactly(path: string, key: string, i: nat)
    ensures path != "" ==> ChildPath(path, key) == path + "." + key
    ensures ChildPath("", key) == key && ItemPath(path, i) == path + "[" + Text.Decimal(i) + "]"
  {
  }
}
