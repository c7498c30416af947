/**
 The language of the log alone. What a call does besides writing to the log, spending
 grants and calling the provider, is not in the file; an automaton over events only
 says what is.
 */
module EngineLog {
  import opened Wrappers
  import opened Approvals
  import opened Engine
  import opened EngineGrammar
  import opened EngineRuns

  /** The events among the effects, in order. */
  function LogOf(actions: seq<Action>): seq<Event>
    decreases actions
  {
    if actions == [] then []
    else (if actions[0].Emit? then [actions[0].event] else []) + LogOf(actions[1..])
  }

  /** The effects append exactly these events to the log. */
  lemma {:induction false} LogGrowsBy(s: State, actions: seq<Action>)
    ensures After(s, actions).log == s.log + LogOf(actions)
    decreases actions
  {
    if actions != [] { LogGrowsBy(Apply(s, actions[0]), actions[1..]); }
  }

  /** An event moves the log on; between two events a grant may have been spent or the provider called. */
  function LogStep(q: Phase, e: Event): Phase
  {
    match e.kind
    case ApprovalConsumed =>
      if (q.Verified? && e.note.SignedCheck?) || ((q == Decided(true) || q.Turned?) && e.note.StoreGrant?) then Cleared
      else Stuck
    case ExecutionCompleted => if q.Started? then Finished(true) else Stuck
    case ExecutionFailed => if q.Started? then Finished(false) else Stuck
    case _ => StepEvent(q, e)
  }

  function LogWalk(q: Phase, events: seq<Event>): Phase
    decreases events
  {
    if events == [] then q else LogWalk(LogStep(q, events[0]), events[1..])
  }

  /** Where the log stands while the effects stand at `p`. */
  predicate Shows(p: Phase, q: Phase)
  {
    match p
    case Spending => q == Decided(true) || q.Turned?
    case SpendingSigned => q.Verified?
    case Running => q.Started?
    case _ => q == p
  }

  lemma StepShows(p: Phase, q: Phase, a: Action)
    requires Shows(p, q) && Step(p, a) != Stuck
    ensures Shows(Step(p, a), if a.Emit? then LogStep(q, a.event) else q)
  {
  }

  lemma {:induction false} WalkShows(p: Phase, q: Phase, actions: seq<Action>)
    requires Shows(p, q) && Walk(p, actions) != Stuck
    ensures Shows(Walk(p, actions), LogWalk(q, LogOf(actions)))
    decreases actions
  {
    if actions != [] {
      var a := actions[0];
      if Step(p, a) == Stuck { StuckStays(actions[1..]); }
      StepShows(p, q, a);
      WalkShows(Step(p, a), if a.Emit? then LogStep(q, a.event) else q, actions[1..]);
      var rest := LogOf(actions[1..]);
      if a.Emit? {
        assert LogOf(actions) == [a.event] + rest && LogOf(actions)[1..] == rest;
      } else {
        assert LogOf(actions) == rest;
      }
    }
  }

  /**
   The grammar of the log of a run: absent exceptions it is a concatenation of blocks of one language over
   events, and whatever is cut off, what each call has written is the beginning of such a block.
   */
  lemma RunLogGrammar(planes: Planes, steps: seq<RunStep>, start: State)
    requires start.log == []
    ensures var h := RunOf(planes, steps).history;
      && (forall r :: r in h ==> LogWalk(Idle, LogOf(r.done)) != Stuck)
      && ((forall r :: r in h ==> Undisturbed(planes, r)) ==> LogWalk(Idle, After(start, Trace(h)).log) == Idle)
  {
    hide RunOf, Genuine, Undisturbed, Walk, LogWalk, LogOf, Trace, After;
    var h := RunOf(planes, steps).history;
    RunConsistent(planes, steps);
    forall r | r in h ensures LogWalk(Idle, LogOf(r.done)) != Stuck {
      GenuineWalks(planes, r);
      WalkShows(Idle, Idle, r.done);
    }
    if forall r :: r in h ==> Undisturbed(planes, r) {
      LogOfRun(planes, steps);
      WalkShows(Idle, Idle, Trace(h));
      LogGrowsBy(start, Trace(h));
      assert start.log + LogOf(Trace(h)) == LogOf(Trace(h));
    }
  }
}
