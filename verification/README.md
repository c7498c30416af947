# AgenticKVM authorization kernel: model and proofs

AgenticKVM lets an agent operate machines through KVM and BMC providers. This
project models the part that decides when a provider may act, the log that
records the decision, and the mathematics underneath, and proves properties of
that model. It is written in Dafny 4.11; `dafny verify dfyconfig.toml` checks
all of it.

## What is modelled

- **The control plane** (`Policy`, `Approvals`, `Broker`, `Engine`,
  `EngineGrammar`, `EngineLaws`, `EngineRuns`, `EngineLog`, `EngineOutcomes`,
  `EngineDecisions`, `ControlPlane`).
  `Engine` gives the effects of one `handle` call as a sequence: audit events,
  spent grants, the provider call. The class in `ControlPlane` performs them step
  by step over mutable fields and is proved to follow that sequence, or a prefix
  of it when the sink, the tower client or the provider raises. Clock readings,
  the tower's answer and the provider's result are arbitrary. `EngineGrammar`
  gives the language of a call by an automaton of its own; `EngineLaws` and
  `EngineRuns` prove why a provider call happens and that one-time grants are used
  once; `EngineLog` gives the language of the log file itself, and
  `EngineOutcomes` what the policy and a signature decide over whole runs.
  `EngineDecisions` says exactly what each call returns.
- **The MCP host** (`HostApprovals`, `Host`, `HostRuns`, `HostAnswers`,
  `HostGrants`): pending calls, operator responses, resumption, on fresh control
  planes over one store.
  `HostApprovals` follows an approval request through JSON and redaction to what
  the host keeps of it; `HostGrants` proves what a grant is then worth.
- **The audit log** (`HashChain`, `Audit`, `AuditEvents`, `AuditCheckpoint`,
  `AuditExport`, `AuditExportLaws`, `AuditExportMeaning`, `SqliteAudit`) together with **redaction** (`Redaction`,
  `RedactionLaws`, `RedactionReports`, `RedactionLeaves`, `RedactionSource`). The export result
  joins both: records are hashed first and redacted again later, so an export
  verifies only because redaction leaves alone what the sink wrote.
- **Canonical encodings** (`Values`, `Text`, `CanonicalJson`, `CanonicalForms`,
  `Fingerprints`, `Clock`) and **tower clearances** (`OperatorMessage`, `Clearance`, `ActClient`,
  `ActExchange`, `ActAcceptance`).
- **Ed25519 verification** (`PrimeField`, `Edwards`, `SquareRoot`, `Ed25519`,
  `Signatures`, `Rfc8032`, `ClearanceProof`), sections 5.1.2 to 5.1.7 of RFC
  8032. The arithmetic is proved for any prime modulus that is 5 modulo 8 and any
  d; `Rfc8032` puts in the source's constants.
- **Single-use mutation handles** (`MutationGate`, `MutationRuns`) and **the
  operator queue** (`ApprovalQueue`, `ApprovalQueueRuns`,
  `ApprovalQueueDecisions`).
- **Screenshot calibration** (`Calibration`).

## Hypotheses

They are predicates that the lemmas name, never built in:

- `Fingerprints.CollisionFree`: no two texts share a SHA-256 digest, and no
  digest is empty. `Broker.MacInjective`: the same for HMAC-SHA256 under one key.
- `Edwards.Curve.CurveField`: the modulus is prime (Euclid's lemma and Fermat's
  little theorem for it), the constant i squares to -1, and d is not a square.
  `Signatures.CurveGroup` adds associativity of the curve addition, and
  `Signatures.HasOrder` the order of the base point; `Rfc8032.Ed25519Group` says
  so of the source's constants. That the base point is on the curve is proved.
- `Clock.RoundTrips`: ISO texts read back as the instant they were written for.
- `Redaction.MasksInert`: the two masks are neither secret-shaped nor opt-in
  words. `RedactionSource.FixesNames`: `str.lower` leaves lower-case ASCII
  names alone. The regular expressions are otherwise arbitrary predicates.
- `HostApprovals.HostWorld`: redaction leaves the names of an approval request
  alone (met by the source's lists, `RedactionSource.SourceKeysMet`), and ISO
  texts, the two asking decisions and the empty text are not secret-shaped.
  `HostRuns.HostWorlds`: the host's control planes share one such world.
- `Clearance.Sensible`: `str()` of a string is that string, and "approved" is
  its own lower case.

## What the code does differently from what one may expect

- `_decode_point` does not reduce: x may be p when the encoded x is 0 with the
  sign bit set, and y may be at least p (`Ed25519.DecodeMeaning`).
- `build_clearance_request` accepts a lifetime of 0 in its range check and then
  always fails, because the expiry is not after the creation
  (`Clearance.BuildExactly`).
- The clearance proof text joins fields with line breaks without escaping them,
  so it fixes the fields exactly when they are single-line
  (`ClearanceProof.MessageBindsExactly`, `ClearanceProof.TwoReadings`).
- Redaction is not idempotent where byte strings sit under HID-text keys
  (`RedactionLaws.IdempotentExactly`, `RedactionLaws.BytesUnderHidText`).
- Below an empty key at the empty path the redactor loses paths, and a second
  pass may report the empty path for the first time. A checkpoint of such
  metadata does not parse back from its own dictionary, and exporting it raises
  (`RedactionReports.SecondPassReportsExactly`, `RedactionReports.EmptyPathAppears`,
  `AuditCheckpoint.CheckpointRefused`, `AuditExportLaws.ExportRoundTrip`).
- The two SQLite chain verifiers disagree on records that do not repeat their
  column hash (`SqliteAudit.AlteredHashUnnoticed`).
- `from_mcp_result` takes any text as the target, `from_dict` refuses an empty
  one: queueing an approval result with an empty target makes the whole queue
  unreadable for good (`ApprovalQueueRuns.QueueRunSound`,
  `ApprovalQueueRuns.EmptyTargetFreezes`, `ApprovalQueueRuns.FrozenForever`).
- Decisions widen with the control mode except for a raw reveal registered as
  not dangerous (`Policy.ModesWiden`).
- The host reads a pending approval from a result that was redacted first. A
  target id that the secret patterns match, such as 32 hex digits, becomes the
  mask, and so does the target of the grant, which then never matches the call:
  it asks again however often it is granted (`HostGrants.GrantBoundToCall`,
  `HostGrants.SecretTargetNeverRuns`, `HostGrants.HexTargetAsksAgain`).
- A clearance reply is compared by its `request_id` and its signature is checked
  over its `approval_id`. When it gives both and they differ, the signed approval
  id is not the request's (`ActAcceptance.AcceptedIsSigned`,
  `ActAcceptance.OtherApprovalAccepted`).

## Model

| member | source | states |
|---|---|---|
| `PrimeField.Field.Inverse` | src/agentickvm/control_plane/act_proof.py:54-55 | Fermat inversion inverts every non-zero residue modulo a prime, in particular 2^255-19 |
| `Edwards.Curve.DenominatorsNonZero` | src/agentickvm/control_plane/act_proof.py:73-78 | the addition formulas never divide by zero: for any two points of the curve neither 1+d x1 x2 y1 y2 nor 1-d x1 x2 y1 y2 is 0 |
| `Edwards.Curve.AddOnCurve` | src/agentickvm/control_plane/act_proof.py:73-78 | closure: the sum of two points of the curve, as computed, satisfies the curve equation |
| `Edwards.Curve.ScalarMultOnCurve` | src/agentickvm/control_plane/act_proof.py:81-88 | every multiple of a point of the curve is a reduced point of the curve |
| `SquareRoot.Xrecover` | src/agentickvm/control_plane/act_proof.py:58-65 | the reassigning code returns an even residue for every y, and the only even root of the wanted square whenever that has a root |
| `SquareRoot.RootFound` | src/agentickvm/control_plane/act_proof.py:58-65 | whenever the wanted square has a root at all, the candidate (after at most one multiplication by i) is a root; this is where p = 5 mod 8 enters |
| `Ed25519.DecodeMeaning` | src/agentickvm/control_plane/act_proof.py:91-100 | decoding yields a point exactly when it is on the curve, has the encoded y, has x in 0..p and x parity equal to the sign bit; x may be p when x is 0 and the sign bit is 1, and y need not be reduced |
| `Ed25519.DecodeFails` | src/agentickvm/control_plane/act_proof.py:91-100 | decoding raises exactly when no point of the curve has that y |
| `Ed25519.DecodeEncode` | src/agentickvm/control_plane/act_proof.py:91-100 | decoding undoes the encoding of section 5.1.2 of RFC 8032 for every reduced point of the curve |
| `Ed25519.EncodeDecode` | src/agentickvm/control_plane/act_proof.py:91-100 | and encoding what was decoded gives back the 32 bytes, reduced or not |
| `Rfc8032.BasePoint` | src/agentickvm/control_plane/act_proof.py:68-70 | the computed base point is the one printed in section 5.1 of RFC 8032, and lies on the curve |
| `Signatures.ScalarMultIsTimes` | src/agentickvm/control_plane/act_proof.py:81-88 | given associativity, double-and-add is n-fold addition for every n |
| `Signatures.EqualMultiples` | src/agentickvm/control_plane/act_proof.py:103-119 | multiples of the base point are equal exactly when the scalars agree modulo its order |
| `Signatures.VerifyExactly` | src/agentickvm/control_plane/act_proof.py:103-119 | over any curve and base point b with those properties, a response is accepted for the key ab and nonce rb exactly when it is r + h a modulo the order of b, h being the number that SHA-512 of nonce, key and message stands for |
| `Signatures.VerifyMeaning` | src/agentickvm/control_plane/act_proof.py:103-119 | for any key and signature of any length: accepted exactly for 32 and 64 bytes, two encodings of points, and S b = R + h A in n-fold addition with that h |
| `Rfc8032.Ed25519VerifyExactly` | src/agentickvm/control_plane/act_proof.py:103-119 | for the key aB and nonce point rB, `ed25519_verify` accepts a 32-byte response exactly when it is r + h a modulo the order, h being the number that SHA-512 of nonce, key and message stands for |
| `ClearanceProof.BuildProofMessage` | src/agentickvm/control_plane/act_proof.py:156-164 | the field loop builds the canonical text, or raises for the first missing field in signing order |
| `ClearanceProof.MessageBindsExactly` | src/agentickvm/control_plane/act_proof.py:156-164 | no other values of the eight signed fields have the same proof message, exactly when each of the eight is a single line |
| `ClearanceProof.TwoReadings` | src/agentickvm/control_plane/act_proof.py:156-164 | two complete materials with one message and different fields, for any two neighbouring fields and any text around a line break |
| `ClearanceProof.ProofMessageText` | src/agentickvm/control_plane/act_proof.py:156-164 | the text is the version line and the eight named fields in signing order, and is built exactly when all are there |
| `ClearanceProof.ProofMeaning` | src/agentickvm/control_plane/act_proof.py:167-199 | any proof is accepted exactly when algorithm, canonicalization, version, field list and digest are the expected ones, its key is registered, and its bytes pass `ed25519_verify` under that key over that text |
| `ClearanceProof.ProofExactly` | src/agentickvm/control_plane/act_proof.py:167-199 | a proof under a registered key aB is accepted exactly when those shape checks pass and its response is r + h a modulo the order, h being the number that SHA-512 of nonce, key and that text stands for |
| `OperatorMessage.Settle` | src/agentickvm/control_plane/clearance.py:412-413 | the rewriting loop terminates and returns the text with every run of dots collapsed, free of double periods |
| `OperatorMessage.CollapseRun` | src/agentickvm/control_plane/clearance.py:412-413 | a maximal run of n dots between any two texts becomes exactly one dot and nothing else changes |
| `OperatorMessage.ReplaceKeepsCollapse` | src/agentickvm/control_plane/approval_broker.py:441-442 | one pass of replacing double periods does not change what the text collapses to |
| `Clearance.BuildOperatorMessage` | src/agentickvm/control_plane/clearance.py:395-414 | the operator message is the template with dot runs collapsed; the double-period check of the request never fails on it |
| `Clearance.BuildExactly` | src/agentickvm/control_plane/clearance.py:314-392 | a request can be built exactly for a lifetime of 1 to 20 seconds, non-empty names, one of the ten risk families and (unless ACT parity) parameters without byte strings; a lifetime of 0 fails late; a built request carries its arguments, expires one lifetime after creation, and tells the operator its code, action, effect and risk without a double period |
| `Clearance.BindingExactly` | src/agentickvm/control_plane/clearance.py:362-363 | a local request is bound to the fingerprint of its parameters, a parity request to that of its envelope, and carries the code of its id and binding |
| `Clearance.CodesExactly` | src/agentickvm/control_plane/act_fingerprint.py:56-61 | the tower's code is the first ten digits of the digest of id and fingerprint in upper case, the aircraft's two groups of four |
| `Clearance.UpperHex` | src/agentickvm/control_plane/act_fingerprint.py:56-61 | upper case turns the hexadecimal letters into capitals and keeps the digits |
| `Clearance.LocalRequestBindsParameters` | src/agentickvm/control_plane/clearance.py:362-363 | local requests have one fingerprint exactly when their parameters are the same up to tuples becoming lists |
| `Clearance.ParityFingerprintBinds` | src/agentickvm/control_plane/act_fingerprint.py:35-92 | equal parity fingerprints mean equal capability, target, provider, session and summary |
| `ActExchange.FingerprintParity` | src/agentickvm/control_plane/act_http_client.py:98-167 | fingerprint and short code computed from the decoded payload are the ones the request carries |
| `ActExchange.HonestReplyParses` | src/agentickvm/control_plane/clearance.py:441-511 | an honest status payload, whether it states the identity fields outright or leaves them to the echoed envelope, in any supported contract version and with any message free of double periods, parses and says of identity, binding and expiry exactly what the request and the tower said |
| `ActExchange.SignedMaterial` | src/agentickvm/control_plane/clearance.py:479-490 | the material whose signature is checked is the tower's own text about this request, field by field |
| `ActExchange.HonestTowerClears` | src/agentickvm/control_plane/act_client.py:102-202 | end to end, from curve arithmetic to verdict: an honest, correctly signed reply to a parity request is cleared at every instant before its expiry and expired from then on |
| `ActAcceptance.AcceptedIsSigned` | src/agentickvm/control_plane/clearance.py:441-511 | whoever sent it, a reply that is accepted on a real proof approves and names this request, has not expired, and is signed under a registered key for the request's fingerprint and short code in the tower's name; and for its approval id exactly when the reply gives no other `approval_id` beside the compared `request_id` |
| `ActAcceptance.OtherApprovalAccepted` | src/agentickvm/control_plane/clearance.py:462-482 | where it does: any accepted reply with a `request_id` stays accepted under another `approval_id` whose signature verifies |
| `ActClient.ValidExactly` | src/agentickvm/control_plane/act_client.py:102-202 | a clearance is valid exactly when it is cleared, from the configured tower, about this request field by field, unexpired, and proved: by a real proof, or by the test marker in test mode, never by the pending checker |
| `ActClient.ParsesExactly` | src/agentickvm/control_plane/clearance.py:441-511 | a reply is refused exactly for an unreadable expiry, a missing fingerprint or code, an unknown family or a double period; its state is read in lower case |
| `ActClient.StatusExactly` | src/agentickvm/control_plane/clearance.py:452-460 | approved clears, denied and cancelled deny, expired and pending are told apart, and anything else is a failed verification |
| `ActClient.ParsedTexts` | src/agentickvm/control_plane/clearance.py:476-511 | correlation, message and reason are read where they are given, and a reply without a version is of the second |
| `ActClient.PayloadRest` | src/agentickvm/control_plane/act_http_client.py:140-168 | the tower is sent the operator message, code, ids, and the request's risk in its own words: high and external effect, or low and routine |
| `ActClient.PayloadExactly` | src/agentickvm/control_plane/act_http_client.py:140-168 | and the tool, capability, agent, session, lifetime and summary of the request |
| `ActClient.InvalidStatus` | src/agentickvm/control_plane/act_client.py:102-202 | a clearance that is not valid is reported with the tower's own status, as expired, or as a failed verification |
| `ActClient.TimeExactly` | src/agentickvm/control_plane/clearance.py:434-438 | a trailing Z of a time stands for +00:00 |
| `ActClient.TruthyExactly` | src/agentickvm/control_plane/clearance.py:462-474 | what the reading of replies passes over: nothing, false, zero, and whatever is empty |
| `Fingerprints.Normalize` | src/agentickvm/control_plane/fingerprints.py:33-47 | normalization turns tuples into lists at every depth and refuses a value exactly when it contains a byte string |
| `CanonicalJson.DumpsInjective` | src/agentickvm/control_plane/fingerprints.py:15-23 | canonical JSON texts are equal only for equal values: nulls, booleans, integers, escaped strings, lists, sorted mappings |
| `CanonicalForms.EscapesExactly` | src/agentickvm/control_plane/fingerprints.py:15-23 | every character is escaped as section 7 of RFC 8259 spells it: shortly, as itself, or as its UTF-16 code units in lower-case hexadecimal |
| `CanonicalForms.Strings` | src/agentickvm/control_plane/fingerprints.py:15-23 | a string literal is the escapes of its characters, in order, between quotes |
| `CanonicalForms.Literals` | src/agentickvm/control_plane/fingerprints.py:15-23 | null, true and false are written as such |
| `CanonicalForms.Integers` | src/agentickvm/control_plane/fingerprints.py:15-23 | an integer is its decimal digits without leading zeros, after a minus sign if negative |
| `CanonicalForms.Arrays` | src/agentickvm/control_plane/fingerprints.py:15-23 | items are separated by commas without spaces between brackets |
| `CanonicalForms.Objects` | src/agentickvm/control_plane/fingerprints.py:15-23 | members are written in the order of their keys' code points, key, colon and value without spaces between braces |
| `Text.LessExactly` | src/agentickvm/control_plane/fingerprints.py:15-23 | the order of the keys is by the first differing code point, and a proper prefix comes first |
| `Fingerprints.CanonicalTextInjective` | src/agentickvm/control_plane/fingerprints.py:15-23 | canonical texts are equal exactly when the normal forms are |
| `Fingerprints.FingerprintBinds` | src/agentickvm/control_plane/fingerprints.py:26-30 | a fingerprint exists exactly without byte strings, and is shared exactly by parameters with one normal form |
| `Fingerprints.FingerprintsAgree` | src/agentickvm/control_plane/approvals.py:443-462 | the approval store and the broker compute one fingerprint wherever the broker computes any |
| `Fingerprints.StoreFingerprintBinds` | src/agentickvm/control_plane/approvals.py:443-462 | the store's fingerprint is shared exactly by parameters that agree after sequences became lists and byte strings their text |
| `Fingerprints.StoreCanonicalForms` | src/agentickvm/control_plane/approvals.py:455-462 | at every depth the store's form keeps scalars, makes lists of sequences, and gives byte strings their text |
| `Redaction.RedactValue` | src/agentickvm/redaction.py:187-258 | the recursive redactor with its accumulating loops returns the redacted value, reports exactly the specified path set, and labels a replaced value with its cause |
| `Redaction.RedactTopLevel` | src/agentickvm/redaction.py:261-289 | the same for whole mappings, with the posture read from the mapping |
| `Redaction.ReportedArePaths` | src/agentickvm/redaction.py:187-258 | the string matching on reported reasons recovers exactly the paths of the replaced nodes, as long as no mapping at the empty path has an empty key |
| `RedactionReports.MappingReportsExactly` | src/agentickvm/redaction.py:261-289 | a mapping reports exactly its replaced sites; below an empty key only those whose path begins with a dot or bracket, and the empty path exactly when everything touched there would be lost otherwise |
| `RedactionLaws.StructureKept` | src/agentickvm/redaction.py:187-258 | everything at sites that were not replaced keeps its place and value |
| `RedactionLaws.SecretsDoNotLeakToValue` | src/agentickvm/redaction.py:187-258 | the redacted value does not depend on anything stored under a credential or raw-artifact key outside a redactions list |
| `RedactionReports.SecretsDoNotLeakToReports` | src/agentickvm/redaction.py:187-258 | neither do the reported paths, string matching included |
| `RedactionLaws.IdempotentExactly` | src/agentickvm/redaction.py:187-258 | in default posture a second pass leaves the value alone exactly when no byte string sits under a HID-text key |
| `RedactionReports.SecondPassReportsExactly` | src/agentickvm/redaction.py:187-289 | in default posture the second pass reports no new path but possibly the empty one, and a subset exactly when the empty path, if still condemned by keys alone, was reported before |
| `RedactionReports.EmptyPathAppears` | src/agentickvm/redaction.py:187-289 | a mapping on which only the second pass reports the empty path: a secret-shaped text under a dotted key beside a credential, below an empty key |
| `RedactionLaws.RedactReload` | src/agentickvm/redaction.py:187-258 | redacting commutes with writing and reading JSON |
| `RedactionSource.SourceKeysMet` | src/agentickvm/redaction.py:19-75 | the source's own key lists meet what the redaction, export and host results assume about names |
| `RedactionSource.SourceLosesPath` | src/agentickvm/redaction.py:19-75 | the source's own key lists admit that example |
| `RedactionLeaves.LeavesExactly` | src/agentickvm/redaction.py:19-75 | name by name: everything under the 22 credential and 5 artifact keys is masked, text under the 7 screen keys is masked or stripped, secret-shaped text elsewhere is masked unless its key is structural, bytes are masked, and all else stays |
| `RedactionLeaves.ContainersExactly` | src/agentickvm/redaction.py:187-258 | items are redacted under their container's key, members under their own, with the posture of the mapping |
| `RedactionLeaves.PostureExactly` | src/agentickvm/redaction.py:292-299 | the nested switch decides the posture, then the first of three flat ones, then the inherited one |
| `RedactionLeaves.PathsExactly` | src/agentickvm/redaction.py:220-240 | a member is reported after a dot, an item by its index between brackets |
| `HashChain.HashVouchesForPrefix` | src/agentickvm/control_plane/audit.py:162-184 | with a collision-free digest, one chain's last hash is found at its place in another exactly when the first is a prefix of the second |
| `Audit.VerifyAuditChain` | src/agentickvm/control_plane/audit.py:162-184 | the verification loop accepts exactly the sound chains |
| `Audit.VerifyAuditChainRecords` | src/agentickvm/control_plane/audit_checkpoint.py:228-244 | the second loop, which forgets hashes that are not strings, accepts exactly the same logs |
| `Audit.JsonlAuditSink.Emit` | src/agentickvm/control_plane/audit.py:143-159 | appends exactly the redacted event linked to the last hash, or nothing when the payload holds a byte string |
| `Audit.RedactedEventPayload` | src/agentickvm/control_plane/audit.py:236-246 | request, result and approval are redacted and their paths listed with the section's name |
| `Audit.BuildAuditEvent` | src/agentickvm/control_plane/audit.py:193-233 | an event is built already redacted, with the same meaning as redaction on emit |
| `AuditEvents.EventExactly` | src/agentickvm/control_plane/audit.py:85-111 | what an event's dictionary says of who did what, when and in which session, under the source's names |
| `AuditEvents.EventOptions` | src/agentickvm/control_plane/audit.py:85-111 | target, approval, request, result, provider and risks are there exactly when the event has them |
| `AuditEvents.RecordExactly` | src/agentickvm/control_plane/audit.py:143-159 | a record holds the previous hash, the event and the digest of the canonical text of just these two |
| `AuditEvents.RedactedExactly` | src/agentickvm/control_plane/audit.py:236-246 | redaction changes the three sections and the path list of an event, and nothing else |
| `Audit.WriteAllKeepsChain` | src/agentickvm/control_plane/audit.py:143-159 | any series of writes keeps the chain sound and only extends the file |
| `AuditCheckpoint.CheckpointRoundTrip` | src/agentickvm/control_plane/audit_checkpoint.py:54-104 | with default-posture metadata a checkpoint can be written exactly when redaction left no byte string, and then parses back exactly when no byte string was masked under a HID-text key and the second redaction brings no new empty path; otherwise the parser reports a hash mismatch |
| `AuditCheckpoint.BytesFreeParsesBack` | src/agentickvm/control_plane/audit_checkpoint.py:54-104 | with bytes-free metadata every checkpoint can be written, and without an empty key it parses back |
| `AuditCheckpoint.CheckpointRefused` | src/agentickvm/control_plane/audit_checkpoint.py:54-104 | bytes-free default-posture metadata whose checkpoint the parser refuses |
| `AuditCheckpoint.CreateExactly` | src/agentickvm/control_plane/audit_checkpoint.py:135-162 | a checkpoint is taken exactly of a sound chain whose last hash is a text, under two names; it keeps count, last hash, link and time, redacts the metadata, and is hashed over all that |
| `AuditCheckpoint.ParsedIsSealed` | src/agentickvm/control_plane/audit_checkpoint.py:54-132 | a parsed checkpoint says what its dictionary says and carries the hash of exactly that |
| `AuditCheckpoint.PathSetExactly` | src/agentickvm/control_plane/audit_checkpoint.py:83 | whatever can be iterated is read as redacted paths: the texts of its items, its keys, its characters, or its bytes as numbers |
| `AuditCheckpoint.VerifyCheckpoint` | src/agentickvm/control_plane/audit_checkpoint.py:165-207 | accepts exactly a sound chain that still holds the checkpointed hash at its place, and reports count and chain verdict |
| `AuditCheckpoint.VerifyCheckpointObject` | src/agentickvm/control_plane/audit_checkpoint.py:165-207 | for a mapping: exactly when it parses and the parsed checkpoint is accepted |
| `AuditCheckpoint.CheckpointMeaning` | src/agentickvm/control_plane/audit_checkpoint.py:135-207 | soundness and completeness: a checkpoint of log L verifies against L' exactly when L' is a sound chain beginning with L |
| `AuditCheckpoint.CheckpointSurvivesWrites` | src/agentickvm/control_plane/audit_checkpoint.py:135-207 | whatever is emitted afterwards, the checkpoint keeps verifying |
| `AuditExport.RecordsFromBundle` | src/agentickvm/control_plane/audit_export.py:225-234 | returns the bundle's records exactly when they are a list of objects |
| `AuditExport.CountRedactions` | src/agentickvm/control_plane/audit_export.py:244-263 | the accumulating loop counts exactly the specified number of redactions |
| `AuditExportLaws.WrittenEventFixed` | src/agentickvm/control_plane/audit.py:236-246 | what the sink writes for a clean event is a fixed point of redaction |
| `AuditExportLaws.ExportRoundTrip` | src/agentickvm/control_plane/audit_export.py:59-206 | export round trip: for a log of default-posture events with clean identities the export succeeds exactly when the checkpoint can be written and parses back, and then the re-redacted bundle carries records and checkpoint unchanged, says both verdicts, its time, metadata and what was redacted, and verifies with the right counts |
| `AuditExportLaws.ExportSays` | src/agentickvm/control_plane/audit_export.py:59-102 | an export of any log says whether its chain is sound and whether it still holds the checkpoint as read back, and fails exactly when the checkpoint cannot be written or does not parse back |
| `AuditExportMeaning.VerifyExportExactly` | src/agentickvm/control_plane/audit_export.py:105-206 | a bundle is accepted exactly when its version is supported, both ids are there, its records are objects in a sound chain with the stated count and last hash, and its checkpoint is absent or parses and is accepted by them |
| `AuditExportMeaning.AcceptedBeginsWithLog` | src/agentickvm/control_plane/audit_export.py:105-206 | a bundle with the checkpoint that was taken on a log is accepted exactly when its head is in order and its records are a sound chain that begins with that log |
| `AuditExportLaws.MappingFormAgrees` | src/agentickvm/control_plane/audit_export.py:71-92 | exporting a checkpoint's dictionary is exporting the checkpoint, failures included |
| `SqliteAudit.VerifySqliteChain` | src/agentickvm/control_plane/audit_sqlite.py:106-140 | accepts exactly the tables whose rows link and whose records repeat their column hash, and otherwise reports the number of good rows |
| `SqliteAudit.VerifySqliteChainRows` | src/agentickvm/control_plane/audit_sqlite.py:398-417 | the row verifier accepts exactly the linked tables |
| `SqliteAudit.AlteredHashUnnoticed` | src/agentickvm/control_plane/audit_sqlite.py:398-417 | a concrete one-row table on which they differ |
| `SqliteAudit.RowsMeanRecords` | src/agentickvm/control_plane/audit_sqlite.py:106-140 | the table verdict is the chain verdict on the stored records plus faithful columns |
| `SqliteAudit.SqliteAuditSink.Emit` | src/agentickvm/control_plane/audit_sqlite.py:59-85 | inserts the very record the JSON-lines sink would append, and keeps the table verifiable |
| `SqliteAudit.SqliteCheckpointMeaning` | src/agentickvm/control_plane/audit_sqlite.py:298-345 | a checkpoint is accepted by a table exactly when the columns mirror the records and these are a sound chain beginning with the checkpointed log |
| `Policy.ModesWiden` | src/agentickvm/control_plane/policy.py:126-252 | a wider mode never narrows what is decided for any request, except exactly for a raw reveal without a rule of its own, registered as not dangerous, which full control asks for; rules and hard denials decide the same in every mode |
| `Policy.DecidesExactly` | src/agentickvm/control_plane/policy.py:126-252 | exactly what is decided: what is unknown, untouchable, unscoped, outside an allow list or on a deny list is denied; a rule decides its capability; and otherwise each of the five decisions falls exactly to the mode and capability classes listed for it |
| `Policy.RisksExactly` | src/agentickvm/control_plane/policy.py:324-333 | the risks that go with a decision are exactly those of the capability |
| `Policy.ReasonExactly` | src/agentickvm/control_plane/policy.py:126-208 | an admissible decision gives the rule's own reason, or names the mode that decided |
| `Approvals.ApprovalStore.FindActionGrant` | src/agentickvm/control_plane/approvals.py:343-370 | the loop returns the oldest usable grant, or none when none is usable |
| `Approvals.ApprovalStore.FindSessionGrant` | src/agentickvm/control_plane/approvals.py:288-306 | the loop returns the first covering session grant, or none when none covers |
| `Approvals.ApprovalStore.GrantFromResponse` | src/agentickvm/control_plane/approvals.py:308-341 | stores and returns the grant of the request's own action exactly when an operator granted this request for an approvable capability and the requested provider, and nothing when it raises |
| `Approvals.ApprovalStore.Consume` | src/agentickvm/control_plane/approvals.py:372-376 | spends the response id of one-time grants only |
| `Approvals.RequestExactly` | src/agentickvm/control_plane/approvals.py:399-440 | an approval request can be built exactly for a decision that asks and some target; it lasts 900 seconds and carries what it was built from, with a stated risk where the policy names none |
| `Approvals.DecisionTexts` | src/agentickvm/control_plane/decisions.py:18-25 | the five decisions are reported under these names |
| `Approvals.JoinedExactly` | src/agentickvm/control_plane/approvals.py:421-423 | the operator reads the targets joined by a comma and a space |
| `Broker.SignatureBindsGrant` | src/agentickvm/control_plane/approval_broker.py:61-101 | two grants that check under one signer with one signature agree in every field |
| `Broker.CheckExactly` | src/agentickvm/control_plane/approval_broker.py:78-101 | a signer accepts a grant exactly when signing its payload gives that grant |
| `Broker.SignsExactly` | src/agentickvm/control_plane/approval_broker.py:78-87 | a signer signs exactly the payloads under its own key id whose constraints JSON can encode |
| `Broker.ValidExactly` | src/agentickvm/control_plane/approval_broker.py:288-377 | a grant is valid exactly when its signer is trusted and its signature checks, it names the action field by field, the capability can be approved, it is in time and unused, and a conversational one is for looking or the runtime |
| `ControlPlane.ControlPlane.Handle` | src/agentickvm/control_plane/engine.py:139-307 | performs a prefix of the specified effects in order, all of them when it returns, over the mutable log, store, consumed ids and provider calls; sink, client and provider may raise anywhere |
| `ControlPlane.ControlPlane.HandleActClearance` | src/agentickvm/control_plane/engine.py:309-448 | the same for the tower path |
| `ControlPlane.ControlPlane.ExecuteProvider` | src/agentickvm/control_plane/engine.py:450-500 | the same for execution: started, call, completed or failed, result |
| `ControlPlane.ControlPlane.VerifySignedGrant` | src/agentickvm/control_plane/engine.py:514-592 | the same for signed grants; the id is remembered between the verified and the consumed event |
| `ControlPlane.ControlPlane.HandleStore` | src/agentickvm/control_plane/engine.py:245-292 | the same for the approval store path |
| `EngineGrammar.HandleWalks` | src/agentickvm/control_plane/engine.py:139-500 | the effects of every undisturbed call belong to one automaton's language and end idle; a call that raises by itself stops right after its policy decision |
| `EngineGrammar.HandleReturns` | src/agentickvm/control_plane/engine.py:639-653 | the last event of an undisturbed call reports exactly the returned status |
| `EngineGrammar.Conserved` | src/agentickvm/control_plane/engine.py:450-500 | any sequence the automaton accepts has provider calls = started = finished events when whole, and finished <= calls <= started <= finished + 1 when cut off |
| `EngineGrammar.CallFollowsStart` | src/agentickvm/control_plane/engine.py:471-479 | every provider call directly follows a started event |
| `EngineLaws.HandleExplained` | src/agentickvm/control_plane/engine.py:139-592 | a call reaches the provider only after an authority that held: the policy allowed it, or an unspent unexpired signed grant, stored grant or proved clearance bound to this session, target, provider, capability and fingerprint, recorded and spent first |
| `EngineLaws.CallJustified` | src/agentickvm/control_plane/engine.py:139-592 | the same for calls cut off by an exception, which reach the provider at most once |
| `EngineLaws.HandleSpendsFresh` | src/agentickvm/control_plane/engine.py:233-263 | a call spends only stored grants and nothing already spent |
| `EngineRuns.EveryCallJustified` | src/agentickvm/control_plane/engine.py:139-592 | in every run of calls of any planes and added grants, every provider call has such an authority, and is for the capability, target, session, correlation and parameters that were requested |
| `EngineRuns.SpentOnce` | src/agentickvm/control_plane/approvals.py:343-376 | in every run a response id is spent at most once per store and a signed grant id at most once per control plane |
| `EngineRuns.AtMostOnce` | src/agentickvm/control_plane/engine.py:543-592 | no two provider calls of a run are backed by one one-time stored grant or, on one control plane, one one-time signed grant |
| `EngineRuns.RunGrammar` | src/agentickvm/control_plane/engine.py:139-500 | without exceptions the effects of a run are a concatenation of blocks of the one language, and calls = started = finished |
| `EngineRuns.LogOfRun` | src/agentickvm/control_plane/engine.py:139-500 | both conservation statements for every run, with failures anywhere and without |
| `EngineLog.RunLogGrammar` | src/agentickvm/control_plane/engine.py:139-500 | the log alone: without exceptions it is a concatenation of blocks of one language over events, and whatever is cut off, what each call wrote begins such a block |
| `EngineOutcomes.DeniedNeverCalled` | src/agentickvm/control_plane/engine.py:188-216 | in no run does the provider see an unknown or untouchable capability, a target or session on a deny list or missing from an allow list, a capability without the credential it asks for, or real hardware that is not allowed |
| `EngineOutcomes.DangerousCallsApproved` | src/agentickvm/control_plane/policy.py:126-252 | in every run, without an explicit rule and short of full control, a dangerous capability reaches the provider only on a signed grant, a clearance or a stored grant |
| `EngineOutcomes.SignedGrantExecutes` | src/agentickvm/control_plane/engine.py:514-592 | from signature to execution, after any run: a grant signed by a trusted signer is accepted exactly when it is about this request, in time, and no earlier call of the run on this plane spent it; then the undisturbed call reaches the provider |
| `EngineDecisions.HandleExactly` | src/agentickvm/control_plane/engine.py:139-448 | exactly what an undisturbed call returns, and that it reaches the provider exactly when it then reports completion or failure: refused calls are denied, allowed ones executed, and one that must ask is executed exactly when the tower clears it, or a signature or a stored grant covers it, and otherwise waits, is denied by the tower, or raises on byte strings |
| `EngineDecisions.TowerIsAsked` | src/agentickvm/control_plane/engine.py:309-360 | the tower is asked about the request's own action, requester, correlation and parameters, with its risk family, reason, risks, decision and lifetime, and the operator is told the request's effect |
| `EngineDecisions.TowerAskable` | src/agentickvm/control_plane/engine.py:309-360 | the tower can be asked exactly when every name is given, an approval id is given or a new one is at hand, the lifetime is from one to twenty seconds, and the parameters hold no byte strings or the parity fingerprint is used |
| `EngineDecisions.EventsCarry` | src/agentickvm/control_plane/engine.py:594-653 | every event of a call is about its request and carries its policy decision, or the denial of a refused call |
| `Host.MCPHost.SubmitApprovalResponse` | src/agentickvm/mcp_sdk/host.py:190-293 | the new store, pending table, state table and status are the specified ones in every branch; what they mean is in the four rows that follow |
| `HostAnswers.SubmitStatusExactly` | src/agentickvm/mcp_sdk/host.py:190-293 | an answer grants exactly when it is complete, about a pending approval, recorded, contradicts no field, grants, is in time, and the capability can be approved; denies and expires exactly likewise |
| `HostAnswers.SubmitExactly` | src/agentickvm/mcp_sdk/host.py:190-293 | only a granting answer touches the store, and adds its one grant; the approval is marked granted, denied or expired, unknown ids and contradictions as errors, and nothing else changes |
| `HostAnswers.DenialCloses` | src/agentickvm/mcp_sdk/host.py:210-253 | a denial or an expiry that reaches a pending approval stores no grant, and the approval cannot be resumed |
| `HostAnswers.GrantsWereGiven` | src/agentickvm/mcp_sdk/host.py:255-279 | in every run each stored grant was given by an operator's recorded answer that grants, in time and in its scope |
| `HostAnswers.DenialHolds` | src/agentickvm/mcp_sdk/host.py:295-314 | a denied approval is not resumed for the rest of the run unless the run answers it again |
| `HostApprovals.KeptExactly` | src/agentickvm/mcp_sdk/approval_models.py:88-121 | what the host reads back from the redacted result of a call that must ask: an approval exactly when everything it needs has a name and no byte string of the parameters survives redaction, and then the call's own action, id and expiry with the target as the redactor shows it |
| `HostApprovals.ReadExactly` | src/agentickvm/mcp_sdk/approval_models.py:88-121 | from any result an approval is read exactly when all it needs is there, and says what the result says |
| `HostApprovals.AskedMessage` | src/agentickvm/control_plane/approvals.py:399-440 | the operator is shown requester, capability, target, effect and decision of the call that asks |
| `HostApprovals.ApprovalRest` | src/agentickvm/control_plane/approvals.py:131-156 | the request's dictionary tells when it was made, who asks, the capability, the targets, and what is at stake |
| `Host.MCPHost.CallTool` | src/agentickvm/mcp_sdk/host.py:150-188 | each call runs on a fresh control plane over the shared store, and is kept pending exactly when it asks and an approval can be read from its redacted result |
| `Host.MCPHost.ResumeApprovedTool` | src/agentickvm/mcp_sdk/host.py:295-314 | unknown and refused approvals change nothing; others repeat the pending call |
| `HostRuns.AskedNeverExceedsGranted` | src/agentickvm/mcp_sdk/host.py:150-314 | with one-time scope only, calls that had to ask reach the provider at most once per (approval, operator) pair granted, over every run |
| `HostGrants.GrantBoundToCall` | src/agentickvm/mcp_sdk/host.py:255-266 | in every run an accepted grant is the operator's, until the approval expires, never for a blocked capability, and for the pending call's session, provider, capability and fingerprint; it is bound to the call's own action exactly when the call's target does not look like a secret |
| `HostRuns.PendingWasAsked` | src/agentickvm/mcp_sdk/host.py:150-188 | in every host run each pending approval is about a call of the run that had to ask, and repeats the approval request that call recorded in the log, with a target that looks like a secret masked |
| `HostGrants.SecretTargetNeverRuns` | src/agentickvm/mcp_sdk/host_models.py:178-183 | in no host run does a call that must ask, for a target that the redactor takes for a secret, reach the provider, however often it is granted |
| `HostGrants.GrantThenResume` | src/agentickvm/mcp_sdk/host.py:255-314 | in any reachable state, after an accepted grant and before it expires or its single use is spent, an undisturbed resumption executes the pending call exactly when its target does not look like a secret, and otherwise asks again |
| `HostGrants.AskGrantResume` | src/agentickvm/mcp_sdk/host.py:150-314 | asked, granted and resumed one after the other, a call reaches the provider exactly when its target does not look like a secret |
| `HostGrants.HexTargetAsksAgain` | src/agentickvm/mcp_sdk/host.py:255-314 | the failing input: an ATX reset of a target named by 32 hex digits is asked for, granted and resumed, and asks again |
| `MutationGate.MutationClearanceLedger.Consume` | src/agentickvm/providers/mutation_gate.py:93-110 | adds the request id exactly when the handle is genuine, unexpired and unspent, and otherwise changes nothing |
| `MutationGate.MutationClearanceLedger.Require` | src/agentickvm/providers/mutation_gate.py:188-225 | succeeds exactly for a genuine, unexpired, unspent handle bound to this capability, target, provider and fingerprint |
| `MutationGate.LiveTransport.Actuate` | src/agentickvm/providers/redfish_mutation_transport.py:164-239 | the transport moves as one step of the runs: carried out exactly when implemented and permitted, with one client built and at most one request sent, otherwise ledger, clients and wire untouched |
| `MutationRuns.EverySendAuthorized` | src/agentickvm/providers/mutation_gate.py:188-225 | in every run over transports sharing a ledger, every request sent used an issued unexpired handle for exactly that call and no request id was used twice |
| `MutationRuns.CarriedCallsSpend` | src/agentickvm/providers/pikvm_mutation_transport.py:147-178 | in every run the clients built and the handles spent are exactly as many as the verb calls that were implemented and permitted when made; the others change nothing |
| `MutationRuns.SentIsDelivered` | src/agentickvm/providers/redfish_mutation_transport.py:164-239 | in every run what is sent is exactly what the carried calls whose client does not fail deliver, one request each, in order |
| `MutationRuns.IssueExactly` | src/agentickvm/providers/mutation_gate.py:113-185 | a handle is issued exactly for a clearance the verifier finds valid, with proof and expiry, not about looking, and naming all it binds; and what it then says |
| `MutationRuns.EverySendMeans` | src/agentickvm/providers/redfish_mutation_transport.py:149-198 | in every run each request on the wire was sent by a transport of the target and provider it was paid for, to that transport's own system, and is the reset of the kind its capability names, or the one-time override to the approved target |
| `MutationRuns.SentParametersApproved` | src/agentickvm/providers/mutation_gate.py:113-225 | every request sent was paid for by a handle issued for a verified, proved, unexpired clearance of the same action, and its parameters are those the handle was issued for, up to tuples becoming lists |
| `ApprovalQueue.WrittenIsStable` | src/agentickvm/control_plane/approval_transport.py:125-178 | the written form of a default-posture record is unchanged by reading and writing it again, exactly when its request settles after one redaction |
| `ApprovalQueueRuns.LocalApprovalQueue.LoadRecords` | src/agentickvm/control_plane/approval_transport.py:490-505 | the loading loop reads every record or fails with the first unreadable one |
| `ApprovalQueueRuns.LocalApprovalQueue.SaveRecords` | src/agentickvm/control_plane/approval_transport.py:507-518 | the file is rewritten with exactly the records, in their written form, sorted |
| `ApprovalQueueRuns.SavedSorted` | src/agentickvm/control_plane/approval_transport.py:507-518 | a saved file is sorted by creation time |
| `ApprovalQueueRuns.SavedMembers` | src/agentickvm/control_plane/approval_transport.py:507-518 | a saved file holds exactly the written forms of the records, each id once |
| `ApprovalQueueRuns.SavedStable` | src/agentickvm/control_plane/approval_transport.py:507-518 | records created at one instant keep their order |
| `ApprovalQueueRuns.LocalApprovalQueue.Update` | src/agentickvm/control_plane/approval_transport.py:386-449 | approve, deny and expire rewrite the file with the one record changed, or leave it on an error |
| `ApprovalQueueRuns.LocalApprovalQueue.EnqueueMcpResult` | src/agentickvm/control_plane/approval_transport.py:374-384 | a new pending record is added once, its target any text; a known id changes nothing |
| `ApprovalQueueRuns.LocalApprovalQueue.MarkMatchingConsumed` | src/agentickvm/control_plane/approval_transport.py:461-488 | the first matching record is consumed unless it is a session approval |
| `ApprovalQueueDecisions.CommandDecides` | src/agentickvm/control_plane/approval_transport.py:386-449 | on a readable file that holds the record, a decision is carried out exactly when allowed, and then denies, approves with the given operator and scope or, too late, expires, or expires that record, and leaves every other as it was |
| `ApprovalQueueDecisions.ConsumeDecides` | src/agentickvm/control_plane/approval_transport.py:461-488 | consuming uses up the first unexpired approval of that very action, leaves one for the session as it is, and changes nothing else |
| `ApprovalQueueDecisions.StatusWasCommanded` | src/agentickvm/control_plane/approval_transport.py:374-488 | in every run each record came by its status through commands of the run: an approved one through an approval by its operator in its scope, a denied one through a denial, an expired one through expiry or a late approval, a consumed one through an approval and a use of its action |
| `ApprovalQueue.ApprovedGrantExactly` | src/agentickvm/control_plane/approval_transport.py:199-220 | a record yields a grant exactly when it is approved, complete, unexpired and approvable, and then for its own action, operator, scope and expiry |
| `ApprovalQueue.QueuedExactly` | src/agentickvm/control_plane/approval_transport.py:84-122 | what is queued is an undecided record of the result's own action, with request and message redacted |
| `ApprovalQueue.ReadExactly` | src/agentickvm/control_plane/approval_transport.py:125-150 | a record is read from the file exactly when none of its eight texts is empty, with message, reason and request redacted and everything else as it was |
| `ApprovalQueueRuns.CommandCarries` | src/agentickvm/control_plane/approval_transport.py:374-488 | one command on a sound file leaves a sound file, carries every record on along the status graph, and leaves it readable exactly when it did not add a record without a target |
| `ApprovalQueueRuns.QueueRunSound` | src/agentickvm/control_plane/approval_transport.py:374-488 | every file of every run has unique ids and holds no approved record of a blocked capability or without operator, and it loads exactly when no command of the run added a record without a target |
| `ApprovalQueueRuns.EmptyTargetFreezes` | src/agentickvm/control_plane/approval_transport.py:95-130 | an approval result with an empty target is queued on a readable file, and from then on every command fails |
| `ApprovalQueueRuns.FirstCommandFreezes` | src/agentickvm/control_plane/approval_transport.py:374-384 | a concrete result that freezes a queue as its first command |
| `ApprovalQueueRuns.FrozenForever` | src/agentickvm/control_plane/approval_transport.py:490-505 | a file that does not load stays as it is for the rest of the run |
| `ApprovalQueueRuns.RecordsSurvive` | src/agentickvm/control_plane/approval_transport.py:222-312 | every record of every file is still there at the end of the run, with its id, binding and times, in a status it can reach |
| `ApprovalQueueRuns.FinalStaysFinal` | src/agentickvm/control_plane/approval_transport.py:222-312 | denied, expired and consumed records keep status, id and binding for the rest of the run |
| `Calibration.MapRange` | src/agentickvm/providers/pikvm_calibration.py:26-34 | the mapped coordinate is a nearest integer to the exact quotient (ties to even), within 0..65535, and exact at both ends |
| `Calibration.MapMonotone` | src/agentickvm/providers/pikvm_calibration.py:26-34 | a pixel further on never maps to a smaller coordinate |
| `Calibration.InjectiveExactly` | src/agentickvm/providers/pikvm_calibration.py:26-34 | all in-range pixels are told apart exactly when there are at most 65536 of them |

## Left out

- The `urllib`, `ssl` and `http.client` clients, TLS pin preflight, Redfish system path validation, transport policy, configuration loading, CLI, MCP schemas and listing, and fixture providers.
- File locking, atomic rename, SQLite itself and JSON parsing of files: a log is a sequence of decoded records, a table a sequence of rows, the queue file a sequence of records. Blank lines of a log file are not represented, nor are rows whose JSON is not an object.
- The internals of SHA-256, SHA-512, HMAC, base64, UTF-8, uuid and datetime: function parameters or arguments.
- The regular expressions of `contains_secret_pattern` and `_strip_secret_text`: parameters. Nothing is claimed about a second redaction under full-capture opt-in.
- Floats, sets, and mapping keys that are not strings. Python's `True == 1` is not represented: booleans and integers are distinct values.
- Order and multiplicity of reported redaction paths: they are sets, compared as the sorted lists the code writes.
- `Calibration.MapRange`: does not model the rounding of the float quotient; the quotient is exact.
- `Ed25519.DecodeMeaning`: strict decoding (refusing y at least p, or S at least L) is not claimed, because the code does not do it.
- `Rfc8032.Ed25519VerifyExactly`: associativity of the curve addition and the order of the base point are hypotheses.
- `ApprovalQueue.WrittenIsStable`: does not cover byte strings that redaction keeps inside a list of redacted paths, which the queue's `default=str` turns into text.
- `AuditExportLaws.ExportRoundTrip`: asks that the export's own metadata holds no byte strings; events and checkpoint metadata may hold them where redaction masks them.
- `EngineRuns.AtMostOnce`: runs share one approval store; planes with different stores do not interact.
- `HostApprovals.KeptExactly`: the limits and the proposed event id of an approval request are not represented; nothing reads them back.
- `Host.MCPHost.CallTool`: the status it returns is the control plane's; the error the host reports in its place when the approval cannot be read is not represented. Tool, target and provider registries of the router are one function from a call to a control plane configuration; calls they refuse, or that lack a name, never reach a control plane and are not represented.
- `ApprovalQueueRuns.LocalApprovalQueue.EnqueueMcpResult`: takes the result as the record it stands for; that its nested mappings have the right shape, and its dates parse, is not represented.
- `ApprovalQueueRuns.LocalApprovalQueue.Update`: the audit event emitted after the file was written is not represented; if it raises, the file has already changed as stated.
- Engine events carry the request, the decision and the grant or request they note, in place of the dictionary the sink writes.
- `Audit.JsonlAuditSink.Emit`: what an exception inside `json.dumps` or the file write leaves behind on disk is not represented.
- The in-memory sink, audit retention, notifiers, signer trust registry, grant cache, live validation, playbooks and capture posture texts: thin wrappers or tables.
