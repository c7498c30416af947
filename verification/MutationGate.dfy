/**
 Single-use mutation handles and the transports that spend them
 (`mutation_gate.py`, `redfish_mutation_transport.py`, `pikvm_mutation_transport.py`).
 */
module MutationGate {
  import opened Wrappers
  import opened Values
  import opened Fingerprints
  import opened Text
  import ActClient
  import Clearance

  // ----------------------------------------------------------------- handles

  datatype Handle = Handle(requestId: string, capability: string, target: string, provider: string, fingerprint: string,
                           riskFamily: string, expiresAt: int, towerId: Value, issuedAt: int)

  /** The verifier seam: any object with a `verify` method. */
  type Seam = (Clearance.ClearanceRequest, ActClient.Response, int) -> ActClient.Verification

  const REFUSED_ID := "provider.status"
  const REFUSED_PREFIX := "observe."

  /** `VerifiedMutationClearance.__post_init__`, with the genuine issuer token. */
  function CheckHandle(h: Handle): Result<Handle>
  {
    if h.requestId == "" || h.capability == "" || h.target == "" || h.provider == "" || h.fingerprint == ""
        || h.riskFamily == "" then
      Err("mutation clearance handle is missing required bound fields")
    else Ok(h)
  }

  /** `issue_verified_mutation_clearance` */
  function Issue(sha: Hash, request: Option<Clearance.ClearanceRequest>, response: Option<ActClient.Response>,
                 verifier: Option<Seam>, now: int, parameters: Option<map<string, Value>>): Result<Handle>
  {
    if request.None? || response.None?
      then Err("mutation clearance issuance requires the clearance request and response")
    else if verifier.None? then Err("mutation clearance issuance requires a configured ACT clearance verifier")
    else
      var r := response.value;
      var verification := verifier.value(request.value, r, now);
      if !verification.valid then
        Err("mutating transport refused clearance: "
            + (if verification.reason != "" then verification.reason else "clearance verification failed"))
      else if r.proof.None? then Err("mutating transport refused clearance: ACT proof is required")
      else if r.expiresAt.None? then Err("mutating transport refused clearance: expiry is required")
      else if StartsWith(r.capability, REFUSED_PREFIX) || r.capability == REFUSED_ID then
        Err("mutation clearance cannot be issued for observe capabilities")
      else
        var fingerprint := if parameters.Some? then FingerprintParameters(sha, parameters.value) else Ok(r.fingerprint);
        match fingerprint
        case Err(e) => Err(e)
        case Ok(f) =>
          CheckHandle(Handle(r.requestId, r.capability, r.target, r.provider, f, r.riskFamily, r.expiresAt.value,
                             r.towerId, now))
  }

  /** What a caller presents: a genuine handle, or any other object. */
  type Presented = Option<Handle>

  /** The call about to be made. */
  datatype Mutation = Mutation(capability: string, target: string, provider: string, parameters: map<string, Value>)

  /** The checks of `require_verified_mutation_clearance` before the ledger. */
  function CheckBinding(sha: Hash, presented: Presented, m: Mutation, now: int): Result<Handle>
  {
    if presented.None? then Err("mutating operations require a verified mutation clearance handle")
    else
      var h := presented.value;
      if h.capability != m.capability then Err("mutation clearance capability mismatch")
      else if h.target != m.target then Err("mutation clearance target mismatch")
      else if h.provider != m.provider then Err("mutation clearance provider mismatch")
      else
        var fingerprint := FingerprintParameters(sha, m.parameters);
        if fingerprint.Err? then Err(fingerprint.error)
        else if fingerprint.value != h.fingerprint then Err("mutation clearance params fingerprint mismatch")
        else if now >= h.expiresAt then Err("mutation clearance expired")
        else Ok(h)
  }

  class MutationClearanceLedger {
    var consumed: set<string>

    constructor ()
      ensures consumed == {}
    {
      consumed := {};
    }

    /** `consume`: the handle's request id is added exactly when nothing is raised. */
    method Consume(presented: Presented, now: Option<int>) returns (r: Result<Handle>)
      modifies this
      ensures r.Ok? <==> presented.Some? && now.Some? && now.value < presented.value.expiresAt
                         && presented.value.requestId !in old(consumed)
      ensures r.Ok? ==> r.value == presented.value && consumed == old(consumed) + {presented.value.requestId}
      ensures r.Err? ==> consumed == old(consumed)
    {
      if presented.None? {
        return Err("mutating operations require a verified mutation clearance handle");
      }
      if now.None? {
        return Err("mutation clearance consumption requires the current time");
      }
      var h := presented.value;
      if now.value >= h.expiresAt {
        return Err("mutation clearance expired");
      }
      if h.requestId in consumed {
        return Err("mutation clearance replay refused; handles are single-use");
      }
      consumed := consumed + {h.requestId};
      return Ok(h);
    }

    /** `require_verified_mutation_clearance` */
    method Require(sha: Hash, presented: Presented, m: Mutation, now: int) returns (r: Result<Handle>)
      modifies this
      ensures r.Ok? <==> Permits(sha, old(consumed), presented, m, now)
      ensures r.Ok? ==> r.value == presented.value && consumed == old(consumed) + {presented.value.requestId}
      ensures r.Err? ==> consumed == old(consumed)
    {
      r := CheckBinding(sha, presented, m, now);
      if r.Err? {
        return;
      }
      r := Consume(presented, Some(now));
    }
  }

  /** A genuine, unexpired, unspent handle for exactly this call. */
  predicate Permits(sha: Hash, consumed: set<string>, presented: Presented, m: Mutation, now: int)
  {
    && presented.Some?
    && presented.value.capability == m.capability && presented.value.target == m.target
    && presented.value.provider == m.provider
    && FingerprintParameters(sha, m.parameters) == Ok(presented.value.fingerprint)
    && now < presented.value.expiresAt && presented.value.requestId !in consumed
  }

  // -------------------------------------------------------------- transports

  datatype Verb = PowerOn | PowerForceOff | PowerCycle | BootOverride(bootTarget: string)

  datatype Transport =
    | Redfish(target: string, provider: string, systemPath: string)
    | PiKvm(target: string, provider: string)

  datatype Wire = Wire(verb: string, path: string, body: Value)

  /** A request that left the machine: who sent it, the handle that paid for it, and the instant it was checked. */
  datatype Sent = Sent(transport: Transport, wire: Wire, mutation: Mutation, handle: Handle, at: int)

  const BOOT_TARGETS: set<string> := {"None", "Pxe", "Hdd", "Cd", "Usb", "BiosSetup"}

  function CapabilityOf(v: Verb): string
  {
    match v
    case PowerOn => "power.on"
    case PowerForceOff => "power.force_off"
    case PowerCycle => "power.power_cycle"
    case BootOverride(_) => "boot.override"
  }

  function ParametersOf(v: Verb): map<string, Value>
  {
    if v.BootOverride? then map["boot_target" := Str(v.bootTarget)] else map[]
  }

  function MutationOf(t: Transport, v: Verb): Mutation
  {
    Mutation(CapabilityOf(v), t.target, t.provider, ParametersOf(v))
  }

  /** The verbs a transport implements; a boot target outside the list is refused first. */
  predicate Implements(t: Transport, v: Verb)
  {
    v.BootOverride? ==> t.Redfish? && v.bootTarget in BOOT_TARGETS
  }

  function ResetType(v: Verb): string
  {
    match v
    case PowerOn => "On"
    case PowerForceOff => "ForceOff"
    case _ => "PowerCycle"
  }

  function AtxPath(v: Verb): string
  {
    match v
    case PowerOn => "/api/atx/power/on"
    case PowerForceOff => "/api/atx/power/off"
    case _ => "/api/atx/power/cycle"
  }

  /** The request a verb sends. */
  function WireOf(t: Transport, v: Verb): Wire
  {
    if t.PiKvm? then Wire("POST", AtxPath(v), Dict(map[]))
    else if v.BootOverride? then
      Wire("PATCH", t.systemPath,
           Dict(map["Boot" := Dict(map["BootSourceOverrideTarget" := Str(v.bootTarget),
                                       "BootSourceOverrideEnabled" := Str("Once")])]))
    else Wire("POST", t.systemPath + "/Actions/ComputerSystem.Reset", Dict(map["ResetType" := Str(ResetType(v))]))
  }

  /** What a ledger, and the transports that share it, have spent, built and sent. */
  datatype Account = Account(consumed: set<string>, clients: nat, sent: seq<Sent>)

  /** One verb call: refused without a trace, or paid for, with one client built and at most one request sent. */
  function AfterVerb(sha: Hash, t: Transport, a: Account, v: Verb, presented: Presented, now: int, clientFails: bool)
    : Account
  {
    if !Implements(t, v) || !Permits(sha, a.consumed, presented, MutationOf(t, v), now) then a
    else
      Account(a.consumed + {presented.value.requestId}, a.clients + 1,
              if clientFails then a.sent
              else a.sent + [Sent(t, WireOf(t, v), MutationOf(t, v), presented.value, now)])
  }

  /** A live transport: its configuration, the shared ledger, and what it has built and sent. */
  class LiveTransport {
    const transport: Transport
    const ledger: MutationClearanceLedger
    const sha: Hash
    var clientsBuilt: nat
    var sent: seq<Sent>

    constructor (sha: Hash, transport: Transport, ledger: MutationClearanceLedger)
      ensures this.sha == sha && this.transport == transport && this.ledger == ledger
      ensures clientsBuilt == 0 && sent == []
    {
      this.sha, this.transport, this.ledger := sha, transport, ledger;
      clientsBuilt, sent := 0, [];
    }

    function Now(): Account
      reads this, ledger
    {
      Account(ledger.consumed, clientsBuilt, sent)
    }

    /** `_authorize` and `_mutate` behind one verb; the client may raise when built or while sending. */
    method Actuate(v: Verb, presented: Presented, now: int) returns (r: Result<Handle>, ghost clientFails: bool)
      modifies this, ledger
      ensures r.Ok? <==>
        Implements(transport, v) && Permits(sha, old(ledger.consumed), presented, MutationOf(transport, v), now)
      ensures r.Ok? ==> r.value == presented.value
      ensures Now() == AfterVerb(sha, transport, old(Now()), v, presented, now, clientFails)
    {
      clientFails := false;
      if !Implements(transport, v) {
        return Err("live mutation transport does not implement this verb"), false;
      }
      r := ledger.Require(sha, presented, MutationOf(transport, v), now);
      if r.Err? {
        return;
      }
      clientsBuilt := clientsBuilt + 1;
      var fails: bool := *;
      clientFails := fails;
      if !fails {
        sent := sent + [Sent(transport, WireOf(transport, v), MutationOf(transport, v), r.value, now)];
      }
    }
  }
}
