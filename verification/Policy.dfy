/** Policy decisions (`policy.py`): scopes, explicit rules and mode defaults. */
module Policy {
  import opened Wrappers

  datatype Capability = Capability(id: string, family: string, action: string, risk: string,
                                   dangerous: bool, destructive: bool, requiredScope: set<string>)

  type Registry = map<string, Capability>

  datatype Decision = Deny | AskEachTime | AskOncePerSession | Allow | AllowWithLimits

  datatype Mode = Observe | Assisted | Supervised | FullControl | Custom

  datatype Scope = Scope(allow: set<string>, deny: set<string>)

  datatype Rule = Rule(decision: Decision, reason: Option<string>)

  datatype PolicyConfig = PolicyConfig(mode: Mode, targets: Scope, sessions: Scope, allowRealHardware: bool,
                                       rules: map<string, Rule>)

  datatype PolicyResult = PolicyResult(decision: Decision, reason: string, risks: seq<string>)
  {
    predicate RequiresApproval()
    {
      decision.AskEachTime? || decision.AskOncePerSession?
    }
  }

  const HARD_DENY: set<string> := {"session.modify_policy", "session.disable_audit", "session.disable_emergency_stop"}

  /** `TargetScope.allows` and `SessionScope.allows` */
  predicate InScope(scope: Scope, id: Option<string>)
  {
    match id
    case None => scope.allow == {} && scope.deny == {}
    case Some(name) => name !in scope.deny && (scope.allow == {} || name in scope.allow)
  }

  function Risks(c: Capability): seq<string>
  {
    (if c.dangerous then ["dangerous action"] else [])
    + (if c.destructive then ["destructive action"] else [])
    + (if c.id == "secrets.raw_reveal" then ["raw secret reveal"] else [])
  }

  predicate Watching(c: Capability)
  {
    (c.family == "observe" || c.family == "session") && !c.dangerous
  }

  /** `default_decision_for_mode` */
  function DefaultDecision(mode: Mode, c: Capability): Decision
  {
    if c.id in HARD_DENY then Deny
    else match mode
      case Custom => Deny
      case Observe => if Watching(c) then Allow else Deny
      case Assisted =>
        if Watching(c) then Allow
        else if c.destructive || c.risk == "critical" then Deny
        else AskEachTime
      case Supervised =>
        if Watching(c) then Allow
        else if c.id == "media.mount_approved_iso" || c.id == "secrets.inject_reference" then AskOncePerSession
        else if c.dangerous then AskEachTime
        else AllowWithLimits
      case FullControl => if c.id == "secrets.raw_reveal" then AskEachTime else Allow
  }

  function ModeName(m: Mode): string
  {
    match m
    case Observe => "Observe"
    case Assisted => "Assisted"
    case Supervised => "Supervised"
    case FullControl => "Full Control"
    case Custom => "Custom"
  }

  function Missing(c: Capability, scope: string, given: Option<string>): bool
  {
    scope in c.requiredScope && given.None?
  }

  /** `CapabilityPolicy.decision_for` */
  function DecisionFor(p: PolicyConfig, registry: Registry, id: string, target: Option<string>, session: Option<string>,
                       credential: Option<string>): PolicyResult
  {
    if id !in registry then PolicyResult(Deny, "unknown capability", [])
    else
      var c := registry[id];
      if id in HARD_DENY then PolicyResult(Deny, "hard invariant", Risks(c))
      else if Missing(c, "target", target) then PolicyResult(Deny, "missing required target scope", Risks(c))
      else if Missing(c, "session", session) then PolicyResult(Deny, "missing required session scope", Risks(c))
      else if Missing(c, "credential", credential)
        then PolicyResult(Deny, "missing required credential scope", Risks(c))
      else if !InScope(p.targets, target) then PolicyResult(Deny, "target outside policy scope", Risks(c))
      else if !InScope(p.sessions, session) then PolicyResult(Deny, "session outside policy scope", Risks(c))
      else if id in p.rules then
        var reason := p.rules[id].reason;
        PolicyResult(p.rules[id].decision, if reason.Some? && reason.value != "" then reason.value
                     else "explicit policy rule", Risks(c))
      else PolicyResult(DefaultDecision(p.mode, c), "default " + ModeName(p.mode) + " mode decision", Risks(c))
  }

  // ------------------------------------------------------------ main results

  /** The scope lets the id through: not denied, and allowed if anything is. No id at all passes an open scope only. */
  predicate Passes(scope: Scope, id: Option<string>)
  {
    && (id.None? ==> scope.allow == {} && scope.deny == {})
    && (id.Some? ==> id.value !in scope.deny)
    && (id.Some? && scope.allow != {} ==> id.value in scope.allow)
  }

  /** Every scope the capability asks for is given. */
  predicate Scoped(c: Capability, target: Option<string>, session: Option<string>, credential: Option<string>)
  {
    && ("target" in c.requiredScope ==> target.Some?) && ("session" in c.requiredScope ==> session.Some?)
    && ("credential" in c.requiredScope ==> credential.Some?)
  }

  /** What no policy can permit. */
  predicate Untouchable(id: string)
  {
    id == "session.modify_policy" || id == "session.disable_audit" || id == "session.disable_emergency_stop"
  }

  /** What neither a mode nor a rule decides: a known capability, in scope, that is not untouchable. */
  predicate Admissible(p: PolicyConfig, registry: Registry, id: string, target: Option<string>,
                       session: Option<string>, credential: Option<string>)
  {
    && id in registry && !Untouchable(id) && Scoped(registry[id], target, session, credential)
    && Passes(p.targets, target) && Passes(p.sessions, session)
  }

  lemma UntouchableExactly(id: string)
    ensures id in HARD_DENY <==> Untouchable(id)
  {
  }

  /** A request is denied exactly when it is not admissible, its rule says so, or its mode has nothing for it. */
  lemma NotDeniedExactly(p: PolicyConfig, registry: Registry, id: string, target: Option<string>,
                         session: Option<string>,
                         credential: Option<string>)
    ensures DecisionFor(p, registry, id, target, session, credential).decision != Deny
       <==> (Admissible(p, registry, id, target, session, credential)
             && (if id in p.rules then p.rules[id].decision != Deny else DefaultDecision(p.mode, registry[id]) != Deny))
    ensures DecisionFor(p, registry, id, target, session, credential).reason != ""
  {
    hide DefaultDecision, HARD_DENY;
    UntouchableExactly(id);
  }

  /** Only looking: an observe or session capability that is not dangerous. */
  predicate Looks(c: Capability)
  {
    !c.dangerous && (c.family == "observe" || c.family == "session")
  }

  predicate OncePerSession(id: string)
  {
    id == "media.mount_approved_iso" || id == "secrets.inject_reference"
  }

  /** What a mode decides by itself, decision by decision. */
  predicate ModeSays(mode: Mode, c: Capability, d: Decision)
  {
    match d
    case Allow => (mode.FullControl? && c.id != "secrets.raw_reveal")
        || ((mode.Observe? || mode.Assisted? || mode.Supervised?) && Looks(c))
    case AskOncePerSession => mode.Supervised? && !Looks(c) && OncePerSession(c.id)
    case AskEachTime =>
      || (mode.Assisted? && !Looks(c) && !c.destructive && c.risk != "critical")
      || (mode.Supervised? && !Looks(c) && !OncePerSession(c.id) && c.dangerous)
      || (mode.FullControl? && c.id == "secrets.raw_reveal")
    case AllowWithLimits => mode.Supervised? && !Looks(c) && !OncePerSession(c.id) && !c.dangerous
    case Deny =>
      || mode.Custom? || (mode.Observe? && !Looks(c))
      || (mode.Assisted? && !Looks(c) && (c.destructive || c.risk == "critical"))
  }

  /**
   Exactly what is decided: an inadmissible request is denied; a rule decides its capability; and without a rule the
   decision is d exactly when the mode says d of the capability.
   */
  lemma DecidesExactly(p: PolicyConfig, registry: Registry, id: string, target: Option<string>, session: Option<string>,
                       credential: Option<string>, d: Decision)
    requires id in registry ==> registry[id].id == id
    ensures DecisionFor(p, registry, id, target, session, credential).decision == d
       <==> (if !Admissible(p, registry, id, target, session, credential) then d == Deny
             else if id in p.rules then d == p.rules[id].decision
             else ModeSays(p.mode, registry[id], d))
  {
    UntouchableExactly(id);
    hide HARD_DENY;
  }

  /** The reason given for what neither scope nor invariant decides: the rule's own, or that of the mode. */
  lemma ReasonExactly(p: PolicyConfig, registry: Registry, id: string, target: Option<string>, session: Option<string>,
                      credential: Option<string>)
    requires Admissible(p, registry, id, target, session, credential)
    ensures var reason := DecisionFor(p, registry, id, target, session, credential).reason;
      if id in p.rules then
        reason == (if p.rules[id].reason == None || p.rules[id].reason == Some("") then "explicit policy rule"
                   else p.rules[id].reason.value)
      else
        reason == "default " + Title(p.mode) + " mode decision"
  {
    UntouchableExactly(id);
    TitleExactly(p.mode);
    hide DefaultDecision, Risks, HARD_DENY, Untouchable, ModeName, Title;
  }

  function Title(m: Mode): string
  {
    if m == Observe then "Observe" else if m == Assisted then "Assisted" else if m == Supervised then "Supervised"
    else if m == FullControl then "Full Control" else "Custom"
  }

  lemma TitleExactly(m: Mode)
    ensures ModeName(m) == Title(m)
  {
  }

  /** The risks that go with every decision on a known capability. */
  lemma RisksExactly(p: PolicyConfig, registry: Registry, id: string, target: Option<string>, session: Option<string>,
                     credential: Option<string>, risk: string)
    requires id in registry
    ensures risk in DecisionFor(p, registry, id, target, session, credential).risks
       <==> ((registry[id].dangerous && risk == "dangerous action")
             || (registry[id].destructive && risk == "destructive action")
             || (registry[id].id == "secrets.raw_reveal" && risk == "raw secret reveal"))
  {
    hide HARD_DENY, DefaultDecision, Missing, InScope, Risks;
    RiskIn(registry[id], risk);
  }

  lemma RiskIn(c: Capability, risk: string)
    ensures risk in Risks(c)
       <==> ((c.dangerous && risk == "dangerous action") || (c.destructive && risk == "destructive action")
             || (c.id == "secrets.raw_reveal" && risk == "raw secret reveal"))
  {
  }

  /** How far a decision lets a request go on its own. */
  function Reach(d: Decision): nat
  {
    match d
    case Deny => 0
    case AskEachTime => 1
    case AskOncePerSession => 2
    case AllowWithLimits => 3
    case Allow => 4
  }

  function Rung(m: Mode): nat
  {
    match m
    case Custom => 0
    case Observe => 1
    case Assisted => 2
    case Supervised => 3
    case FullControl => 4
  }

  /** A raw reveal registered as not dangerous: let through short of full control, asked for under it. */
  predicate Narrows(m: Mode, n: Mode, c: Capability)
  {
    && n.FullControl? && c.id == "secrets.raw_reveal" && !c.dangerous
    && (m.Supervised? || ((m.Observe? || m.Assisted?) && Watching(c)))
  }

  lemma DefaultsWiden(m: Mode, n: Mode, c: Capability)
    requires Rung(m) <= Rung(n)
    ensures Reach(DefaultDecision(m, c)) > Reach(DefaultDecision(n, c)) <==> Narrows(m, n, c)
  {
    assert "secrets.raw_reveal" !in HARD_DENY;
  }

  /**
   Climbing the modes never narrows what is decided for any request, with one exception in the code: a raw reveal
   registered as not dangerous, without a rule of its own, which full control asks for. A rule, and what no mode can
   lift, decide the same in every mode.
   */
  lemma ModesWiden(p: PolicyConfig, n: Mode, registry: Registry, id: string, target: Option<string>,
                   session: Option<string>, credential: Option<string>)
    requires Rung(p.mode) <= Rung(n)
    ensures var before := DecisionFor(p, registry, id, target, session, credential).decision;
      var after := DecisionFor(p.(mode := n), registry, id, target, session, credential).decision;
      && (Reach(before) > Reach(after) <==> before != Deny && id !in p.rules && Narrows(p.mode, n, registry[id]))
      && (id in p.rules || id in HARD_DENY ==> before == after)
  {
    hide DefaultDecision, Missing, InScope, Narrows, HARD_DENY;
    if id in registry {
      DefaultsWiden(p.mode, n, registry[id]);
    }
  }

  /** Without an explicit rule a dangerous capability goes ahead unasked only under full control, and custom mode
      grants nothing. */
  lemma DangerousNeedsAsking(p: PolicyConfig, registry: Registry, id: string, target: Option<string>,
                             session: Option<string>,
                             credential: Option<string>)
    requires id in registry && id !in p.rules
    ensures var d := DecisionFor(p, registry, id, target, session, credential).decision;
      && (registry[id].dangerous && !p.mode.FullControl? ==> d.Deny? || d.AskEachTime? || d.AskOncePerSession?)
      && (p.mode.Custom? ==> d.Deny?)
      && (p.mode.Observe? && !d.Deny? ==> Watching(registry[id]))
      && (p.mode.Assisted? && (registry[id].destructive || registry[id].risk == "critical") && !d.Deny?
          ==> Watching(registry[id]))
  {
    hide InScope, Missing, HARD_DENY;
  }
}
