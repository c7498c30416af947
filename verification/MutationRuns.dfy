/**
 Runs of issuance and verb calls over any transports that share one ledger.
 A presented object is a genuine handle only if it was issued in the run.
 */
module MutationRuns {
  import opened Wrappers
  import opened Values
  import opened Fingerprints
  import opened MutationGate
  import ActClient
  import Clearance
  import Text

  datatype Step =
    | IssueStep(request: Option<Clearance.ClearanceRequest>, response: Option<ActClient.Response>,
                verifier: Option<ActClient.Verifier>, at: int, parameters: Option<map<string, Value>>)
    | VerbStep(transport: Transport, verb: Verb, presented: Option<nat>, at: int, clientFails: bool)

  /** The issued handles in order, with the step that issued each; the ledger; clients built and requests sent. */
  datatype Run = Run(issued: seq<(Handle, Step)>, consumed: set<string>, clients: nat, sent: seq<Sent>)

  const EMPTY_RUN: Run := Run([], {}, 0, [])

  function SeamOf(v: Option<ActClient.Verifier>): Option<Seam>
  {
    if v.None? then None else Some((q, r, now) => ActClient.VerifyClearance(v.value, q, r, now))
  }

  function IssuedBy(sha: Hash, s: Step): Result<Handle>
    requires s.IssueStep?
  {
    Issue(sha, s.request, s.response, SeamOf(s.verifier), s.at, s.parameters)
  }

  /** The genuine handle presented, if any: the token makes forged ones recognizable. */
  function Genuine(run: Run, presented: Option<nat>): Presented
  {
    if presented.Some? && presented.value < |run.issued| then Some(run.issued[presented.value].0) else None
  }

  function Next(sha: Hash, run: Run, s: Step): Run
  {
    match s
    case IssueStep(_, _, _, _, _) =>
      var h := IssuedBy(sha, s);
      if h.Ok? then run.(issued := run.issued + [(h.value, s)]) else run
    case VerbStep(t, v, presented, at, clientFails) =>
      var before := Account(run.consumed, run.clients, run.sent);
      var after := AfterVerb(sha, t, before, v, Genuine(run, presented), at, clientFails);
      run.(consumed := after.consumed, clients := after.clients, sent := after.sent)
  }

  function RunOf(sha: Hash, steps: seq<Step>): Run
  {
    if steps == [] then EMPTY_RUN else Next(sha, RunOf(sha, steps[..|steps| - 1]), steps[|steps| - 1])
  }

  /** A sent request used an issued, unexpired handle for exactly this call. */
  ghost predicate Authorized(sha: Hash, run: Run, s: Sent)
  {
    && (exists i :: 0 <= i < |run.issued| && run.issued[i].0 == s.handle)
    && s.handle.capability == s.mutation.capability && s.handle.target == s.mutation.target
    && s.handle.provider == s.mutation.provider && s.at < s.handle.expiresAt
    && FingerprintParameters(sha, s.mutation.parameters) == Ok(s.handle.fingerprint)
    && s.handle.requestId in run.consumed
  }

  ghost predicate Sound(sha: Hash, run: Run)
  {
    && (forall i :: 0 <= i < |run.issued| ==>
          run.issued[i].1.IssueStep? && IssuedBy(sha, run.issued[i].1) == Ok(run.issued[i].0))
    && (forall i :: 0 <= i < |run.sent| ==> Authorized(sha, run, run.sent[i]))
    && (forall i, j :: 0 <= i < j < |run.sent| ==> run.sent[i].handle.requestId != run.sent[j].handle.requestId)
    && |run.sent| <= |run.consumed| == run.clients
  }

  lemma AuthorizedStays(sha: Hash, run: Run, next: Run, s: Sent)
    requires Authorized(sha, run, s) && run.issued <= next.issued && run.consumed <= next.consumed
    ensures Authorized(sha, next, s)
  {
    var i :| 0 <= i < |run.issued| && run.issued[i].0 == s.handle;
    assert next.issued[i].0 == s.handle;
  }

  lemma VerbSound(sha: Hash, run: Run, s: Step)
    requires s.VerbStep? && Sound(sha, run)
    ensures Sound(sha, Next(sha, run, s))
  {
    hide Implements, MutationOf, WireOf, IssuedBy, FingerprintParameters;
    var next := Next(sha, run, s);
    forall i | 0 <= i < |run.sent| ensures Authorized(sha, next, run.sent[i]) {
      AuthorizedStays(sha, run, next, run.sent[i]);
    }
    if |next.sent| > |run.sent| {
      var h := Genuine(run, s.presented);
      assert next.issued[s.presented.value].0 == h.value;
      assert Authorized(sha, next, next.sent[|run.sent|]);
    }
  }

  lemma IssueSound(sha: Hash, run: Run, s: Step)
    requires s.IssueStep? && Sound(sha, run)
    ensures Sound(sha, Next(sha, run, s))
  {
    hide IssuedBy, FingerprintParameters;
    var next := Next(sha, run, s);
    forall i | 0 <= i < |run.sent| ensures Authorized(sha, next, run.sent[i]) {
      AuthorizedStays(sha, run, next, run.sent[i]);
    }
  }

  // ------------------------------------------------------------ main results

  /**
   In every run, every request sent used an issued, unexpired handle bound to exactly its call, no
   request id was used twice, and clients were built only for handles that were spent.
   */
  lemma {:induction false} EverySendAuthorized(sha: Hash, steps: seq<Step>)
    ensures Sound(sha, RunOf(sha, steps))
  {
    hide Next, Sound;
    if steps == [] {
      EmptySound(sha);
    } else {
      EverySendAuthorized(sha, steps[..|steps| - 1]);
      var run := RunOf(sha, steps[..|steps| - 1]);
      var s := steps[|steps| - 1];
      if s.VerbStep? { VerbSound(sha, run, s); } else { IssueSound(sha, run, s); }
    }
  }

  lemma EmptySound(sha: Hash)
    ensures Sound(sha, EMPTY_RUN)
  {
  }

  /** A refused verb call leaves ledger, client count and wire as they were. */
  lemma RefusedLeavesNoTrace(sha: Hash, run: Run, s: Step)
    requires s.VerbStep?
    ensures Next(sha, run, s) != run
       <==> (Implements(s.transport, s.verb)
             && Permits(sha, run.consumed, Genuine(run, s.presented), MutationOf(s.transport, s.verb), s.at))
  {
    hide Implements, MutationOf, WireOf, FingerprintParameters;
  }

  /** Both transports switch power; only Redfish overrides the boot target, to one of six. */
  predicate Supports(t: Transport, v: Verb)
  {
    v.BootOverride? ==> t.Redfish? && BootTarget(v.bootTarget)
  }

  predicate BootTarget(name: string)
  {
    name == "None" || name == "Pxe" || name == "Hdd" || name == "Cd" || name == "Usb" || name == "BiosSetup"
  }

  lemma SupportsExactly(t: Transport, v: Verb)
    ensures Implements(t, v) <==> Supports(t, v)
  {
  }

  /** A verb call that is carried out in the run so far. */
  predicate Carried(sha: Hash, run: Run, s: Step)
  {
    && s.VerbStep? && Supports(s.transport, s.verb)
    && Permits(sha, run.consumed, Genuine(run, s.presented), MutationOf(s.transport, s.verb), s.at)
  }

  function CarriedCalls(sha: Hash, steps: seq<Step>): nat
  {
    if steps == [] then 0
    else
      var before := steps[..|steps| - 1];
      CarriedCalls(sha, before) + (if Carried(sha, RunOf(sha, before), steps[|steps| - 1]) then 1 else 0)
  }

  lemma CarriedCounts(sha: Hash, run: Run, s: Step)
    requires s.VerbStep?
    ensures Next(sha, run, s).clients == run.clients + (if Carried(sha, run, s) then 1 else 0)
  {
    hide Implements, Supports, MutationOf, WireOf, FingerprintParameters;
    SupportsExactly(s.transport, s.verb);
    RefusedLeavesNoTrace(sha, run, s);
  }

  /**
   In every run, exactly the verb calls that are implemented and permitted when they are made build a client
   and spend a handle, and all others leave the ledger as it was.
   */
  lemma {:induction false} CarriedCallsSpend(sha: Hash, steps: seq<Step>)
    ensures CarriedCalls(sha, steps) == RunOf(sha, steps).clients == |RunOf(sha, steps).consumed|
  {
    hide Next, Carried;
    EverySendAuthorized(sha, steps);
    if steps != [] {
      var before := steps[..|steps| - 1];
      var s := steps[|steps| - 1];
      CarriedCallsSpend(sha, before);
      if s.VerbStep? {
        CarriedCounts(sha, RunOf(sha, before), s);
      } else {
        IssueBuildsNothing(sha, RunOf(sha, before), s);
      }
    }
  }

  lemma IssueBuildsNothing(sha: Hash, run: Run, s: Step)
    requires s.IssueStep?
    ensures Next(sha, run, s).clients == run.clients && Next(sha, run, s).sent == run.sent && !Carried(sha, run, s)
  {
    hide IssuedBy;
  }

  /** The verb calls of a run that are carried out by a client that does not fail, in order. */
  function Deliveries(sha: Hash, steps: seq<Step>): (d: seq<Step>)
    ensures forall k :: 0 <= k < |d| ==> d[k].VerbStep?
  {
    if steps == [] then []
    else
      var before := steps[..|steps| - 1];
      var s := steps[|steps| - 1];
      Deliveries(sha, before) + (if Carried(sha, RunOf(sha, before), s) && !s.clientFails then [s] else [])
  }

  /** The request was sent by this call's transport, for its verb, when it was made. */
  predicate Delivers(sent: Sent, s: Step)
    requires s.VerbStep?
  {
    && sent.transport == s.transport && sent.at == s.at
    && sent.mutation == MutationOf(s.transport, s.verb)
  }

  /** In every run, what is sent is exactly what those calls deliver, one request each, in order. */
  lemma {:induction false} SentIsDelivered(sha: Hash, steps: seq<Step>)
    ensures var sent := RunOf(sha, steps).sent;
      && |sent| == |Deliveries(sha, steps)|
      && forall k :: 0 <= k < |sent| ==> Delivers(sent[k], Deliveries(sha, steps)[k])
  {
    hide Next, Carried, Delivers;
    if steps != [] {
      var before := steps[..|steps| - 1];
      var s := steps[|steps| - 1];
      SentIsDelivered(sha, before);
      var run := RunOf(sha, before);
      if s.VerbStep? { VerbDelivers(sha, run, s); } else { IssueBuildsNothing(sha, run, s); }
    }
  }

  lemma VerbDelivers(sha: Hash, run: Run, s: Step)
    requires s.VerbStep?
    ensures var next := Next(sha, run, s);
      if Carried(sha, run, s) && !s.clientFails then
        |next.sent| == |run.sent| + 1 && run.sent <= next.sent && Delivers(next.sent[|run.sent|], s)
      else next.sent == run.sent
  {
    hide Implements, Supports, MutationOf, WireOf, FingerprintParameters;
    SupportsExactly(s.transport, s.verb);
  }

  /** The request a handle was issued for. */
  ghost predicate IssuedFor(h: Handle, q: Clearance.ClearanceRequest)
  {
    h.requestId == q.requestId && h.capability == q.capability && h.target == q.target && h.provider == q.provider
  }

  /** Capabilities that only look. */
  predicate Observing(id: string)
  {
    id == "provider.status" || (|id| >= 8 && id[..8] == "observe.")
  }

  lemma ObservingExactly(id: string)
    ensures Text.StartsWith(id, REFUSED_PREFIX) || id == REFUSED_ID <==> Observing(id)
  {
    assert |"observe."| == 8;
  }

  /**
   Exactly when a handle is issued: for a clearance that the given verifier finds valid, that carries a proof and an
   expiry, is not about looking, and names everything it binds; and what the handle then says.
   */
  lemma IssueExactly(sha: Hash, request: Option<Clearance.ClearanceRequest>, response: Option<ActClient.Response>,
                     verifier: Option<Seam>, now: int, parameters: Option<map<string, Value>>)
    ensures var h := Issue(sha, request, response, verifier, now, parameters);
      && (h.Ok? <==>
            && request.Some? && response.Some? && verifier.Some?
            && verifier.value(request.value, response.value, now).valid
            && var r := response.value;
            && r.proof.Some? && r.expiresAt.Some? && !Observing(r.capability)
            && r.requestId != "" && r.capability != "" && r.target != "" && r.provider != "" && r.riskFamily != ""
            && (match parameters
                case Some(p) => FingerprintParameters(sha, p).Ok? && FingerprintParameters(sha, p).value != ""
                case None => r.fingerprint != ""))
      && (h.Ok? ==>
            && h.value.requestId == response.value.requestId && h.value.capability == response.value.capability
            && h.value.target == response.value.target && h.value.provider == response.value.provider
            && h.value.riskFamily == response.value.riskFamily && h.value.towerId == response.value.towerId
            && Some(h.value.expiresAt) == response.value.expiresAt && h.value.issuedAt == now
            && Ok(h.value.fingerprint) == (match parameters case Some(p) => FingerprintParameters(sha, p)
                                                         case None => Ok(response.value.fingerprint)))
  {
    hide FingerprintParameters, Observing, REFUSED_ID, REFUSED_PREFIX;
    if response.Some? { ObservingExactly(response.value.capability); }
  }

  /** Handles exist only for verified clearances, and name the request that was cleared. */
  lemma IssuanceFaithful(sha: Hash, s: Step)
    requires s.IssueStep? && IssuedBy(sha, s).Ok?
    ensures s.request.Some? && s.response.Some? && s.verifier.Some?
        && IssuedFor(IssuedBy(sha, s).value, s.request.value)
    ensures ActClient.VerifyClearance(s.verifier.value, s.request.value, s.response.value, s.at).valid
    ensures s.at < IssuedBy(sha, s).value.expiresAt && ActClient.Proved(s.verifier.value, s.response.value)
    ensures s.parameters.Some?
        ==> FingerprintParameters(sha, s.parameters.value) == Ok(IssuedBy(sha, s).value.fingerprint)
    ensures s.parameters.None? ==> IssuedBy(sha, s).value.fingerprint == s.request.value.fingerprint
  {
    hide ActClient.VerifyClearance, ActClient.CheckProof, ActClient.Proved, FingerprintParameters;
    ActClient.ValidExactly(s.verifier.value, s.request.value, s.response.value, s.at);
  }

  /**
   What is sent is what was approved: its handle was issued for a verified, proved and unexpired clearance of the
   same action, and when that was for given parameters, the parameters sent are the same up to tuples becoming lists.
   */
  lemma SentParametersApproved(sha: Hash, steps: seq<Step>, k: nat) returns (i: nat)
    requires CollisionFree(sha) && k < |RunOf(sha, steps).sent|
    ensures i < |RunOf(sha, steps).issued|
    ensures var (h, s) := RunOf(sha, steps).issued[i];
      var sent := RunOf(sha, steps).sent[k];
      && h == sent.handle && s.IssueStep? && s.request.Some? && IssuedFor(h, s.request.value)
      && s.response.Some? && s.verifier.Some? && s.at < h.expiresAt
      && ActClient.VerifyClearance(s.verifier.value, s.request.value, s.response.value, s.at).valid
      && ActClient.Proved(s.verifier.value, s.response.value)
      && sent.mutation.capability == s.request.value.capability && sent.mutation.target == s.request.value.target
      && sent.mutation.provider == s.request.value.provider
      && (s.parameters.Some? ==> Reload(Dict(s.parameters.value)) == Reload(Dict(sent.mutation.parameters)))
  {
    hide RunOf, IssuedBy, FingerprintParameters, Reload, ActClient.VerifyClearance, ActClient.CheckProof;
    hide ActClient.Proved;
    EverySendAuthorized(sha, steps);
    var run := RunOf(sha, steps);
    var sent := run.sent[k];
    assert Authorized(sha, run, sent);
    i :| 0 <= i < |run.issued| && run.issued[i].0 == sent.handle;
    var s := run.issued[i].1;
    IssuanceFaithful(sha, s);
    if s.parameters.Some? {
      FingerprintBinds(sha, s.parameters.value, sent.mutation.parameters);
    }
  }

  /** The request on the wire does what the action names: a reset of that kind, or a one-time override to its target. */
  predicate MeansOnWire(t: Transport, m: Mutation, w: Wire)
  {
    match m.capability
    case "power.on" => Powers(t, w, "On", "/api/atx/power/on")
    case "power.force_off" => Powers(t, w, "ForceOff", "/api/atx/power/off")
    case "power.power_cycle" => Powers(t, w, "PowerCycle", "/api/atx/power/cycle")
    case "boot.override" =>
      && t.Redfish? && w.verb == "PATCH" && w.path == t.systemPath && w.body.Dict?
      && OverridesTo(Get(m.parameters, "boot_target"), w.body.fields)
    case _ => false
  }

  /** Redfish names the kind of reset in the body, PiKVM by the path. */
  predicate Powers(t: Transport, w: Wire, reset: string, path: string)
  {
    && w.verb == "POST" && w.body.Dict?
    && if t.PiKvm? then w.path == path && w.body.fields == map[]
       else w.path == t.systemPath + "/Actions/ComputerSystem.Reset" && w.body.fields == map["ResetType" := Str(reset)]
  }

  predicate OverridesTo(target: Value, body: map<string, Value>)
  {
    && target.Str? && BootTarget(target.s)
    && var boot := Get(body, "Boot");
       boot.Dict? && Get(boot.fields, "BootSourceOverrideTarget") == target
       && Get(boot.fields, "BootSourceOverrideEnabled") == Str("Once")
  }

  lemma WireMeaning(t: Transport, v: Verb)
    requires Implements(t, v)
    ensures MeansOnWire(t, MutationOf(t, v), WireOf(t, v))
  {
    SupportsExactly(t, v);
    hide BOOT_TARGETS, BootTarget;
    CapabilitiesDistinct();
  }

  /** The transport that sent the request is that of the target and provider paid for, and sent what they name. */
  predicate SentAsNamed(s: Sent)
  {
    && s.transport.target == s.mutation.target && s.transport.provider == s.mutation.provider
    && MeansOnWire(s.transport, s.mutation, s.wire)
  }

  /** In every run, every request on the wire does exactly what the capability and parameters it was paid for name. */
  lemma {:induction false} EverySendMeans(sha: Hash, steps: seq<Step>)
    ensures forall k :: 0 <= k < |RunOf(sha, steps).sent| ==> SentAsNamed(RunOf(sha, steps).sent[k])
  {
    hide Next, SentAsNamed;
    if steps != [] {
      var run := RunOf(sha, steps[..|steps| - 1]);
      var s := steps[|steps| - 1];
      EverySendMeans(sha, steps[..|steps| - 1]);
      if s.VerbStep? { VerbMeans(sha, run, s); } else { IssueBuildsNothing(sha, run, s); }
    }
  }

  lemma VerbMeans(sha: Hash, run: Run, s: Step)
    requires s.VerbStep?
    ensures var next := Next(sha, run, s);
      && run.sent <= next.sent && |next.sent| <= |run.sent| + 1
      && (|next.sent| > |run.sent| ==> SentAsNamed(next.sent[|run.sent|]))
  {
    hide Implements, WireOf, MeansOnWire, FingerprintParameters, CapabilityOf, ParametersOf;
    if Implements(s.transport, s.verb) { WireMeaning(s.transport, s.verb); }
  }

  lemma CapabilitiesDistinct()
    ensures "power.on" != "power.force_off" && "power.on" != "power.power_cycle"
        && "power.force_off" != "power.power_cycle"
    ensures "boot.override" != "power.on" && "boot.override" != "power.force_off"
        && "boot.override" != "power.power_cycle"
  {
    assert |"power.on"| == 8 && |"power.force_off"| == 15 && |"power.power_cycle"| == 17 && |"boot.override"| == 13;
  }
}
