/**
 The tower's clearance proof (`act_proof.py`): the canonical text it signs and the
 checks the aircraft makes before the signature is accepted.
 */
module ClearanceProof {
  import opened Wrappers
  import opened Values
  import opened Ed25519
  import opened Signatures
  import opened Rfc8032

  const ALGORITHM := "Ed25519"
  const CANONICALIZATION := "ACT-CLEARANCE-PROOF-V1"
  const FIELD_ORDER: seq<string> := [
    "approval_id", "params_fingerprint", "short_code", "risk_family",
    "expires_at", "tower_id", "contract_version", "extensions_digest"
  ]
  const SUPPORTED_VERSIONS: set<string> := {"act.clearance.v1", "act.clearance.v2"}

  /** SHA-512, unpadded base64url and UTF-8, taken from outside. */
  datatype Crypto = Crypto(sha512: Sha512, fromBase64: string -> Option<seq<Byte>>, utf8: string -> seq<Byte>)

  type Material = map<string, string>

  // ------------------------------------------------------------ proof message

  /** The values of the named fields, or the first missing one. */
  function FieldLines(material: Material, names: seq<string>): (r: Result<seq<string>>)
    ensures r.Ok? ==> |r.value| == |names|
  {
    if names == [] then Ok([])
    else if names[0] !in material then Err("proof material missing field: " + names[0])
    else
      var rest := FieldLines(material, names[1..]);
      if rest.Err? then rest else Ok([material[names[0]]] + rest.value)
  }

  /** `"\n".join(lines)` */
  function JoinLines(lines: seq<string>): string
  {
    if lines == [] then "" else if |lines| == 1 then lines[0] else lines[0] + "\n" + JoinLines(lines[1..])
  }

  function ProofMessage(material: Material): Result<string>
  {
    var values := FieldLines(material, FIELD_ORDER);
    if values.Err? then Err(values.error) else Ok(JoinLines([CANONICALIZATION] + values.value))
  }

  lemma {:induction false} FieldLinesStep(material: Material, names: seq<string>, i: nat, lines: seq<string>)
    requires i < |names| && |lines| == i
    requires forall j :: 0 <= j < i ==> names[j] in material && lines[j] == material[names[j]]
    ensures names[i] !in material ==> FieldLines(material, names) == Err("proof material missing field: " + names[i])
  {
    if i > 0 {
      FieldLinesStep(material, names[1..], i - 1, lines[1..]);
    }
  }

  lemma {:induction false} FieldLinesAll(material: Material, names: seq<string>, lines: seq<string>)
    requires |lines| == |names|
    requires forall j :: 0 <= j < |names| ==> names[j] in material && lines[j] == material[names[j]]
    ensures FieldLines(material, names) == Ok(lines)
  {
    if names != [] {
      FieldLinesAll(material, names[1..], lines[1..]);
      assert lines == [material[names[0]]] + lines[1..];
    }
  }

  /** `build_clearance_proof_message`, before the UTF-8 encoding. */
  method BuildProofMessage(material: Material) returns (r: Result<string>)
    ensures r == ProofMessage(material)
  {
    var lines := [CANONICALIZATION];
    for i := 0 to |FIELD_ORDER|
      invariant |lines| == i + 1 && lines[0] == CANONICALIZATION
      invariant forall j :: 0 <= j < i ==> FIELD_ORDER[j] in material && lines[j + 1] == material[FIELD_ORDER[j]]
    {
      if FIELD_ORDER[i] !in material {
        FieldLinesStep(material, FIELD_ORDER, i, lines[1..]);
        return Err("proof material missing field: " + FIELD_ORDER[i]);
      }
      lines := lines + [material[FIELD_ORDER[i]]];
    }
    FieldLinesAll(material, FIELD_ORDER, lines[1..]);
    assert lines == [CANONICALIZATION] + lines[1..];
    return Ok(JoinLines(lines));
  }

  // ------------------------------------------ the message fixes the material

  predicate OneLine(s: string)
  {
    '\n' !in s
  }

  /** The number of line breaks in a text. */
  function Breaks(s: string): nat
  {
    if s == "" then 0 else (if s[0] == '\n' then 1 else 0) + Breaks(s[1..])
  }

  lemma {:induction false} BreaksAppend(a: string, b: string)
    ensures Breaks(a + b) == Breaks(a) + Breaks(b)
  {
    if a == "" {
      assert a + b == b;
    } else {
      BreaksAppend(a[1..], b);
      assert (a + b)[1..] == a[1..] + b;
    }
  }

  lemma {:induction false} NoBreaks(s: string)
    ensures Breaks(s) == 0 <==> OneLine(s)
  {
    if s != "" {
      NoBreaks(s[1..]);
      assert s == [s[0]] + s[1..];
    }
  }

  lemma BreaksJoin(a: string, b: string)
    ensures Breaks(a + "\n" + b) == Breaks(a) + 1 + Breaks(b)
  {
    BreaksAppend(a + "\n", b);
    BreaksAppend(a, "\n");
    assert Breaks("\n") == 1 + Breaks("") by { assert "\n"[1..] == ""; }
  }

  predicate AllOneLine(lines: seq<string>)
  {
    forall i :: 0 <= i < |lines| ==> OneLine(lines[i])
  }

  /** Joined lines hold one break fewer than there are lines exactly when no line holds one. */
  lemma {:induction false} BreaksOfLines(lines: seq<string>)
    requires lines != []
    ensures Breaks(JoinLines(lines)) >= |lines| - 1
    ensures Breaks(JoinLines(lines)) == |lines| - 1 <==> AllOneLine(lines)
  {
    NoBreaks(lines[0]);
    if |lines| > 1 {
      var rest := lines[1..];
      BreaksOfLines(rest);
      BreaksJoin(lines[0], JoinLines(rest));
      assert lines == [lines[0]] + rest;
      assert AllOneLine(lines) <==> OneLine(lines[0]) && AllOneLine(rest);
    }
  }

  lemma BreakInside(a: string, x: string, b: string, y: string)
    requires a + "\n" + x == b + "\n" + y && |a| < |b|
    ensures !OneLine(b)
  {
    assert (a + "\n" + x)[|a|] == '\n' && (b + "\n" + y)[|a|] == b[|a|];
  }

  /** Texts up to the first line break are determined by what follows them. */
  lemma FirstLine(a: string, x: string, b: string, y: string)
    requires OneLine(a) && OneLine(b) && a + "\n" + x == b + "\n" + y
    ensures a == b && x == y
  {
    var s := a + "\n" + x;
    if |a| < |b| { BreakInside(a, x, b, y); }
    if |b| < |a| { BreakInside(b, y, a, x); }
    assert a == s[..|a|] && b == s[..|b|];
    assert x == s[|a| + 1..] && y == s[|b| + 1..];
  }

  lemma {:induction false} JoinLinesInjective(a: seq<string>, b: seq<string>)
    requires |a| == |b| && AllOneLine(a) && AllOneLine(b) && JoinLines(a) == JoinLines(b)
    ensures a == b
  {
    if |a| > 1 {
      FirstLine(a[0], JoinLines(a[1..]), b[0], JoinLines(b[1..]));
      JoinLinesInjective(a[1..], b[1..]);
      assert a == [a[0]] + a[1..] && b == [b[0]] + b[1..];
    }
  }

  lemma {:induction false} FieldLinesAt(material: Material, names: seq<string>)
    requires FieldLines(material, names).Ok?
    ensures forall j :: 0 <= j < |names| ==>
      names[j] in material && FieldLines(material, names).value[j] == material[names[j]]
  {
    if names != [] {
      FieldLinesAt(material, names[1..]);
      assert forall j :: 0 < j < |names| ==> names[j] == names[1..][j - 1];
    }
  }

  /** Every field that is signed is a single line. */
  predicate SingleLine(m: Material)
  {
    forall f :: f in FIELD_ORDER ==> f in m && OneLine(m[f])
  }

  predicate SameFields(m: Material, n: Material)
  {
    forall f :: f in FIELD_ORDER ==> f in m && f in n && m[f] == n[f]
  }

  /** No other fields have the message of `m`. */
  ghost predicate Binds(m: Material)
  {
    forall n: Material :: ProofMessage(n) == ProofMessage(m) ==> SameFields(m, n)
  }

  /** The lines that are joined: the header and the fields. */
  function Signed(m: Material): seq<string>
    requires ProofMessage(m).Ok?
  {
    [CANONICALIZATION] + FieldLines(m, FIELD_ORDER).value
  }

  lemma CanonicalizationOneLine()
    ensures OneLine(CANONICALIZATION)
  {
  }

  lemma SignedLines(m: Material)
    requires ProofMessage(m).Ok?
    ensures |Signed(m)| == |FIELD_ORDER| + 1 && ProofMessage(m) == Ok(JoinLines(Signed(m)))
    ensures forall i :: 0 <= i < |FIELD_ORDER| ==> FIELD_ORDER[i] in m && Signed(m)[i + 1] == m[FIELD_ORDER[i]]
    ensures AllOneLine(Signed(m)) <==> SingleLine(m)
  {
    hide OneLine, JoinLines, FieldLines, FIELD_ORDER, CANONICALIZATION;
    FieldLinesAt(m, FIELD_ORDER);
    CanonicalizationOneLine();
    var lines := Signed(m);
    if AllOneLine(lines) {
      forall f | f in FIELD_ORDER ensures f in m && OneLine(m[f]) {
        var i :| 0 <= i < |FIELD_ORDER| && FIELD_ORDER[i] == f;
        assert OneLine(lines[i + 1]);
      }
    }
    if SingleLine(m) {
      forall i | 0 <= i < |lines| ensures OneLine(lines[i]) {
        if i > 0 { assert FIELD_ORDER[i - 1] in FIELD_ORDER; }
      }
    }
  }

  /** A message with single-line fields cannot be read as the message of any other fields. */
  lemma SingleLineBinds(m: Material, n: Material)
    requires ProofMessage(m).Ok? && SingleLine(m) && ProofMessage(n) == ProofMessage(m)
    ensures SameFields(m, n)
  {
    hide FIELD_ORDER, CANONICALIZATION, OneLine, JoinLines, FieldLines, ProofMessage;
    SignedLines(m);
    SignedLines(n);
    BreaksOfLines(Signed(m));
    BreaksOfLines(Signed(n));
    JoinLinesInjective(Signed(m), Signed(n));
    forall f | f in FIELD_ORDER ensures f in m && f in n && m[f] == n[f] {
      var i :| 0 <= i < |FIELD_ORDER| && FIELD_ORDER[i] == f;
      assert Signed(m)[i + 1] == Signed(n)[i + 1];
    }
  }

  /** Where the field ends is not part of the text: a break can move to the neighbouring field. */
  lemma {:induction false} JoinMoved(lines: seq<string>, i: nat, left: string, middle: string, right: string)
    requires i + 1 < |lines| && lines[i] == left && lines[i + 1] == middle + "\n" + right
    ensures JoinLines(lines[i := left + "\n" + middle][i + 1 := right]) == JoinLines(lines)
  {
    var moved := lines[i := left + "\n" + middle][i + 1 := right];
    if i > 0 {
      JoinMoved(lines[1..], i - 1, left, middle, right);
      assert moved[1..] == lines[1..][i - 1 := left + "\n" + middle][i := right];
    } else if |lines| == 2 {
      assert lines[1..] == [lines[1]] && moved[1..] == [moved[1]];
      assert left + "\n" + (middle + "\n" + right) == (left + "\n" + middle) + "\n" + right;
    } else {
      var rest := JoinLines(lines[2..]);
      assert lines[1..][1..] == lines[2..] && moved[1..][1..] == lines[2..];
      assert JoinLines(lines[1..]) == middle + "\n" + right + "\n" + rest;
      assert JoinLines(moved[1..]) == right + "\n" + rest;
      assert left + "\n" + (middle + "\n" + right + "\n" + rest)
          == left + "\n" + middle + "\n" + (right + "\n" + rest);
    }
  }

  lemma FieldNamesDistinct(i: nat, j: nat)
    requires i < j < |FIELD_ORDER|
    ensures FIELD_ORDER[i] != FIELD_ORDER[j]
  {
  }

  /** The material with two neighbouring fields rewritten. */
  function WithFields(m: Material, i: nat, x: string, y: string): Material
    requires i + 1 < |FIELD_ORDER|
  {
    m[FIELD_ORDER[i] := x][FIELD_ORDER[i + 1] := y]
  }

  lemma WithFieldsMessage(m: Material, i: nat, x: string, y: string)
    requires ProofMessage(m).Ok? && i + 1 < |FIELD_ORDER|
    ensures ProofMessage(WithFields(m, i, x, y)) == Ok(JoinLines(Signed(m)[i + 1 := x][i + 2 := y]))
  {
    hide JoinLines, FIELD_ORDER, CANONICALIZATION;
    SignedLines(m);
    var n := WithFields(m, i, x, y);
    var lines := Signed(m)[i + 1 := x][i + 2 := y];
    forall j | 0 <= j < |FIELD_ORDER| ensures FIELD_ORDER[j] in n && lines[1..][j] == n[FIELD_ORDER[j]] {
      if j < i { FieldNamesDistinct(j, i); }
      if i < j { FieldNamesDistinct(i, j); }
      if j < i + 1 { FieldNamesDistinct(j, i + 1); }
      if i + 1 < j { FieldNamesDistinct(i + 1, j); }
    }
    FieldLinesAll(n, FIELD_ORDER, lines[1..]);
    assert lines == [CANONICALIZATION] + lines[1..];
  }

  /** One message, two readings: the break belongs to either of two neighbouring fields. */
  lemma TwoReadings(m: Material, i: nat, left: string, middle: string, right: string)
    requires ProofMessage(m).Ok? && i + 1 < |FIELD_ORDER|
    ensures
      var early := WithFields(m, i, left, middle + "\n" + right);
      var late := WithFields(m, i, left + "\n" + middle, right);
      ProofMessage(early).Ok? && ProofMessage(early) == ProofMessage(late) && !SameFields(early, late)
  {
    hide JoinLines, FIELD_ORDER, CANONICALIZATION, Signed, ProofMessage;
    var early := WithFields(m, i, left, middle + "\n" + right);
    var late := WithFields(m, i, left + "\n" + middle, right);
    SignedLines(m);
    WithFieldsMessage(m, i, left, middle + "\n" + right);
    WithFieldsMessage(m, i, left + "\n" + middle, right);
    var lines := Signed(m)[i + 1 := left][i + 2 := middle + "\n" + right];
    JoinMoved(lines, i + 1, left, middle, right);
    assert lines[i + 1 := left + "\n" + middle][i + 2 := right]
        == Signed(m)[i + 1 := left + "\n" + middle][i + 2 := right];
    FieldNamesDistinct(i, i + 1);
    assert FIELD_ORDER[i] in FIELD_ORDER && |late[FIELD_ORDER[i]]| > |early[FIELD_ORDER[i]]|;
  }

  lemma SplitAtBreak(s: string) returns (left: string, right: string)
    requires !OneLine(s)
    ensures s == left + "\n" + right
  {
    var k :| 0 <= k < |s| && s[k] == '\n';
    left, right := s[..k], s[k + 1..];
  }

  lemma OwnFields(m: Material, i: nat)
    requires ProofMessage(m).Ok? && i + 1 < |FIELD_ORDER|
    ensures FIELD_ORDER[i] in m && FIELD_ORDER[i + 1] in m
    ensures WithFields(m, i, m[FIELD_ORDER[i]], m[FIELD_ORDER[i + 1]]) == m
  {
    hide JoinLines, FIELD_ORDER, CANONICALIZATION;
    SignedLines(m);
  }

  /** A line break in any field leaves room for a second reading. */
  lemma OtherReading(m: Material) returns (n: Material)
    requires ProofMessage(m).Ok? && !SingleLine(m)
    ensures ProofMessage(n) == ProofMessage(m) && !SameFields(m, n)
  {
    hide JoinLines, FIELD_ORDER, CANONICALIZATION, Signed, ProofMessage, OneLine, WithFields;
    SignedLines(m);
    var f :| f in FIELD_ORDER && !(f in m && OneLine(m[f]));
    var i :| 0 <= i < |FIELD_ORDER| && FIELD_ORDER[i] == f;
    var left, right := SplitAtBreak(m[f]);
    AtLeastTwoFields();
    if i + 1 < |FIELD_ORDER| {
      OwnFields(m, i);
      n := WithFields(m, i, left, right + "\n" + m[FIELD_ORDER[i + 1]]);
      TwoReadings(m, i, left, right, m[FIELD_ORDER[i + 1]]);
    } else {
      OwnFields(m, i - 1);
      n := WithFields(m, i - 1, m[FIELD_ORDER[i - 1]] + "\n" + left, right);
      TwoReadings(m, i - 1, m[FIELD_ORDER[i - 1]], left, right);
    }
  }

  lemma AtLeastTwoFields()
    ensures |FIELD_ORDER| >= 2
  {
  }

  /** The signed text fixes the fields exactly when each of them is a single line. */
  lemma MessageBindsExactly(m: Material)
    requires ProofMessage(m).Ok?
    ensures Binds(m) <==> SingleLine(m)
  {
    hide ProofMessage, SingleLine, SameFields;
    if SingleLine(m) {
      forall n: Material | ProofMessage(n) == ProofMessage(m) ensures SameFields(m, n) {
        SingleLineBinds(m, n);
      }
    } else {
      var n := OtherReading(m);
    }
  }

  // ------------------------------------------------------------ the signed text

  /** The eight fields the tower signs. */
  predicate HasSignedFields(m: Material)
  {
    && "approval_id" in m && "params_fingerprint" in m && "short_code" in m && "risk_family" in m
    && "expires_at" in m && "tower_id" in m && "contract_version" in m && "extensions_digest" in m
  }

  /** The text the tower signs, line by line. */
  function SignedText(m: Material): string
    requires HasSignedFields(m)
  {
    "ACT-CLEARANCE-PROOF-V1" + "\n" + (m["approval_id"] + "\n" + (m["params_fingerprint"] + "\n"
    + (m["short_code"] + "\n" + (m["risk_family"] + "\n" + (m["expires_at"] + "\n" + (m["tower_id"] + "\n"
    + (m["contract_version"] + "\n" + m["extensions_digest"])))))))
  }

  /** The field loop builds exactly that text, and raises exactly when a field is missing. */
  lemma ProofMessageText(m: Material)
    ensures ProofMessage(m).Ok? <==> HasSignedFields(m)
    ensures HasSignedFields(m) ==> ProofMessage(m) == Ok(SignedText(m))
  {
    FieldsInOrder(m);
    if HasSignedFields(m) {
      var lines := [m["approval_id"], m["params_fingerprint"], m["short_code"], m["risk_family"], m["expires_at"],
                    m["tower_id"], m["contract_version"], m["extensions_digest"]];
      FieldLinesAll(m, FIELD_ORDER, lines);
      JoinedLines(CANONICALIZATION, lines);
    } else if ProofMessage(m).Ok? {
      FieldLinesAt(m, FIELD_ORDER);
    }
  }

  lemma FieldsInOrder(m: Material)
    ensures FIELD_ORDER == ["approval_id", "params_fingerprint", "short_code", "risk_family", "expires_at", "tower_id",
                            "contract_version", "extensions_digest"]
    ensures HasSignedFields(m) <==> forall j :: 0 <= j < |FIELD_ORDER| ==> FIELD_ORDER[j] in m
  {
    var order := FIELD_ORDER;
    assert order[0] == "approval_id" && order[1] == "params_fingerprint" && order[2] == "short_code"
        && order[3] == "risk_family" && order[4] == "expires_at" && order[5] == "tower_id"
        && order[6] == "contract_version" && order[7] == "extensions_digest";
  }

  lemma JoinStep(a: string, rest: seq<string>)
    requires rest != []
    ensures JoinLines([a] + rest) == a + "\n" + JoinLines(rest)
  {
    assert ([a] + rest)[1..] == rest;
  }

  lemma JoinedLines(first: string, l: seq<string>)
    requires |l| == 8
    ensures JoinLines([first] + l)
        == first + "\n" + (l[0] + "\n" + (l[1] + "\n" + (l[2] + "\n" + (l[3] + "\n" + (l[4] + "\n"
           + (l[5] + "\n" + (l[6] + "\n" + l[7])))))))
  {
    hide JoinLines;
    JoinStep(first, l);
    forall i | 0 <= i < 7 ensures JoinLines(l[i..]) == l[i] + "\n" + JoinLines(l[i + 1..]) {
      JoinStep(l[i], l[i + 1..]);
      assert l[i..] == [l[i]] + l[i + 1..];
    }
    assert l[0..] == l && l[7..] == [l[7]];
    JoinOne(l[7]);
  }

  lemma JoinOne(a: string)
    ensures JoinLines([a]) == a
  {
  }

  // ---------------------------------------------------------- proof checking

  /** A field list may be left out; if present it must be the signed order. */
  predicate FieldsAgree(fields: Value)
  {
    fields.Null? || ((fields.List? || fields.Tuple?) && fields.items == Texts(FIELD_ORDER).items)
  }

  /** The algorithm, canonicalization, contract version, field list and digest are the expected ones. */
  predicate ProofShape(material: Material, proof: map<string, Value>)
  {
    && Get(proof, "algorithm") == Str(ALGORITHM)
    && Get(proof, "canonicalization") == Str(CANONICALIZATION)
    && "contract_version" in material && material["contract_version"] in SUPPORTED_VERSIONS
    && FieldsAgree(Get(proof, "fields"))
    && var digest := Get(proof, "extensions_digest");
      digest.Null? || ("extensions_digest" in material && digest == Str(material["extensions_digest"]))
  }

  /** `verify_clearance_proof` */
  predicate VerifyProof(crypto: Crypto, material: Material, proof: map<string, Value>, keys: map<string, seq<Byte>>)
  {
    && ProofShape(material, proof)
    && var keyId := Get(proof, "key_id");
       var signature := Get(proof, "signature");
       keyId.Str? && signature.Str? && keyId.s in keys &&
       var message := ProofMessage(material);
       var bytes := crypto.fromBase64(signature.s);
       message.Ok? && bytes.Some?
           && Ed25519Verify(crypto.sha512, keys[keyId.s], crypto.utf8(message.value), bytes.value)
  }

  /** A proof under the key aB whose signature bytes are the nonce rB and a response. */
  predicate SignedWith(crypto: Crypto, proof: map<string, Value>, keys: map<string, seq<Byte>>, a: nat, r: nat,
                       response: seq<Byte>)
  {
    var keyId := Get(proof, "key_id");
    var signature := Get(proof, "signature");
    && keyId.Str? && signature.Str? && keyId.s in keys
    && keys[keyId.s] == EncodedScalar(a)
    && crypto.fromBase64(signature.s) == Some(EncodedScalar(r) + response)
  }

  /** The checks of the proof's shape, spelled out. */
  predicate WellShaped(material: Material, proof: map<string, Value>)
  {
    && Get(proof, "algorithm") == Str("Ed25519")
    && Get(proof, "canonicalization") == Str("ACT-CLEARANCE-PROOF-V1")
    && "contract_version" in material
    && (material["contract_version"] == "act.clearance.v1" || material["contract_version"] == "act.clearance.v2")
    && SignedOrder(Get(proof, "fields"))
    && (Get(proof, "extensions_digest") == Null
        || ("extensions_digest" in material
            && Get(proof, "extensions_digest") == Str(material["extensions_digest"])))
  }

  /** No field list, or the eight names in the order in which they are signed. */
  predicate SignedOrder(fields: Value)
  {
    || fields == Null
    || ((fields.List? || fields.Tuple?)
        && fields.items == [Str("approval_id"), Str("params_fingerprint"), Str("short_code"), Str("risk_family"),
                            Str("expires_at"), Str("tower_id"), Str("contract_version"), Str("extensions_digest")])
  }

  lemma ShapeExactly(material: Material, proof: map<string, Value>)
    ensures ProofShape(material, proof) <==> WellShaped(material, proof)
  {
    FieldsInOrder(material);
    hide FIELD_ORDER;
    OrderTexts();
  }

  lemma OrderTexts()
    ensures Texts(["approval_id", "params_fingerprint", "short_code", "risk_family", "expires_at", "tower_id",
                   "contract_version", "extensions_digest"]).items
         == [Str("approval_id"), Str("params_fingerprint"), Str("short_code"), Str("risk_family"), Str("expires_at"),
             Str("tower_id"), Str("contract_version"), Str("extensions_digest")]
  {
  }

  /**
   Any proof: it is accepted exactly when it is well shaped, names a registered key, and its signature bytes pass
   `ed25519_verify` under that very key over the signed text of the material.
   */
  lemma ProofMeaning(crypto: Crypto, material: Material, proof: map<string, Value>, keys: map<string, seq<Byte>>)
    ensures VerifyProof(crypto, material, proof, keys)
       <==> (WellShaped(material, proof) && HasSignedFields(material)
             && Get(proof, "key_id").Str? && Get(proof, "key_id").s in keys
             && Get(proof, "signature").Str? && crypto.fromBase64(Get(proof, "signature").s).Some?
             && Ed25519Verify(crypto.sha512, keys[Get(proof, "key_id").s], crypto.utf8(SignedText(material)),
                              crypto.fromBase64(Get(proof, "signature").s).value))
  {
    hide Ed25519Verify, ProofShape, WellShaped, ProofMessage, SignedText, HasSignedFields;
    ShapeExactly(material, proof);
    ProofMessageText(material);
  }

  /**
   A proof under a registered key aB is accepted exactly when it is well shaped and its response is r + h a modulo the
   order, where h is the number that SHA-512 of nonce, key and signed text stands for.
   */
  lemma ProofExactly(crypto: Crypto, material: Material, proof: map<string, Value>, keys: map<string, seq<Byte>>,
                     a: nat, r: nat, response: seq<Byte>)
    requires Ed25519Group() && HasSignedFields(material)
    requires SignedWith(crypto, proof, keys, a, r, response) && |response| == 32
    ensures VerifyProof(crypto, material, proof, keys)
       <==> (WellShaped(material, proof)
             && var text := crypto.utf8(SignedText(material));
                FromBytes(response) % Order()
                == (r + a * FromBytes(crypto.sha512(EncodedScalar(r) + EncodedScalar(a) + text))) % Order())
  {
    hide Ed25519Verify, EncodedScalar, Order, WellShaped, VerifyProof, FromBytes, Ed25519Group, SignedText;
    hide HasSignedFields;
    ProofMeaning(crypto, material, proof, keys);
    Ed25519VerifyExactly(crypto.sha512, a, r, response, crypto.utf8(SignedText(material)));
  }
}
