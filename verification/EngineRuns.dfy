/**
 Whole runs: `handle` calls of any number of control planes over one approval
 store, interleaved with grants being added, each call possibly cut off by an
 exception. Signed grants are remembered per control plane, stored ones per store.
 */
module EngineRuns {
  import opened Wrappers
  import opened Policy
  import opened Approvals
  import opened Engine
  import opened EngineGrammar
  import opened EngineLaws

  /** A call that gets as far as `stop` effects, or a grant added by an operator. */
  datatype RunStep =
    | HandleStep(plane: nat, request: Request, env: Env, stop: nat)
    | AddGrantStep(grant: Grant)

  /** One call: the state it started from and what it did. */
  datatype Record = Record(plane: nat, request: Request, env: Env, book: Book, spent: set<string>, done: seq<Action>,
                           whole: bool)

  /** The shared book, the signed grants spent by each plane, and the calls so far. */
  datatype Run = Run(book: Book, spent: set<(nat, string)>, history: seq<Record>)

  const EMPTY_RUN: Run := Run(Book([], {}), {}, [])

  type Planes = nat -> Plane

  function SpentBy(run: Run, plane: nat): set<string>
  {
    set x | x in run.spent && x.0 == plane :: x.1
  }

  function WholeOf(planes: Planes, run: Run, plane: nat, request: Request, env: Env): seq<Action>
  {
    HandlePlan(planes(plane), run.book, SpentBy(run, plane), request, env).actions
  }

  /** The state one plane sees. */
  function View(run: Run, plane: nat): State
  {
    State([], [], run.book, SpentBy(run, plane))
  }

  function HandleNext(planes: Planes, run: Run, plane: nat, request: Request, env: Env, stop: nat): Run
  {
    var actions := WholeOf(planes, run, plane, request, env);
    var done := if stop < |actions| then actions[..stop] else actions;
    var after := After(View(run, plane), done);
    Run(after.book, run.spent + (set id | id in after.spent :: (plane, id)),
        run.history + [Record(plane, request, env, run.book, SpentBy(run, plane), done, done == actions)])
  }

  function Next(planes: Planes, run: Run, step: RunStep): Run
  {
    match step
    case HandleStep(plane, request, env, stop) => HandleNext(planes, run, plane, request, env, stop)
    case AddGrantStep(grant) => run.(book := run.book.(grants := run.book.grants + [grant]))
  }

  function RunOf(planes: Planes, steps: seq<RunStep>): Run
  {
    if steps == [] then EMPTY_RUN else Next(planes, RunOf(planes, steps[..|steps| - 1]), steps[|steps| - 1])
  }

  // --------------------------------------------------------------- invariant

  /** A record is a prefix of what `handle` does from the recorded state. */
  predicate Genuine(planes: Planes, r: Record)
  {
    var actions := HandlePlan(planes(r.plane), r.book, r.spent, r.request, r.env).actions;
    r.done <= actions && (r.whole <==> r.done == actions)
  }

  predicate SpentIn(r: Record, id: string)
  {
    exists a :: a in r.done && a.SpendGrant? && a.grant.scope.OneTime? && a.grant.responseId == id
  }

  predicate SignedIn(r: Record, id: string)
  {
    SpendSigned(id) in r.done
  }

  ghost predicate Consistent(planes: Planes, run: Run)
  {
    && (forall r :: r in run.history ==> Genuine(planes, r))
    && (forall i, id {:trigger SpentIn(run.history[i], id)} ::
          0 <= i < |run.history| && SpentIn(run.history[i], id) ==> id in run.book.consumed)
    && (forall i, id {:trigger SignedIn(run.history[i], id)} ::
          0 <= i < |run.history| && SignedIn(run.history[i], id) ==> (run.history[i].plane, id) in run.spent)
    && (forall i, j, id {:trigger SpentIn(run.history[i], id), run.history[j]} ::
          0 <= i < j < |run.history| && SpentIn(run.history[i], id) ==> id in run.history[j].book.consumed)
    && (forall i, j, id {:trigger SignedIn(run.history[i], id), run.history[j]} ::
          0 <= i < j < |run.history| && SignedIn(run.history[i], id) && run.history[j].plane == run.history[i].plane ==>
          id in run.history[j].spent)
  }

  /** Effects only add to what is spent, and every spending effect is remembered. */
  lemma {:induction false} AfterSpends(s: State, done: seq<Action>)
    ensures s.book.consumed <= After(s, done).book.consumed && s.spent <= After(s, done).spent
    ensures After(s, done).book.grants == s.book.grants
    ensures forall a ::
      a in done && a.SpendGrant? && a.grant.scope.OneTime? ==> a.grant.responseId in After(s, done).book.consumed
    ensures forall a :: a in done && a.SpendSigned? ==> a.grantId in After(s, done).spent
    decreases done
  {
    if done != [] {
      AfterSpends(Apply(s, done[0]), done[1..]);
      assert forall a :: a in done ==> a == done[0] || a in done[1..];
    }
  }

  lemma HandleConsistent(planes: Planes, run: Run, plane: nat, request: Request, env: Env, stop: nat)
    requires Consistent(planes, run)
    ensures Consistent(planes, HandleNext(planes, run, plane, request, env, stop))
  {
    hide HandlePlan, After;
    var next := HandleNext(planes, run, plane, request, env, stop);
    var last := next.history[|run.history|];
    AfterSpends(View(run, plane), last.done);
    assert Genuine(planes, last);
    assert forall id :: SpentIn(last, id) ==> id in next.book.consumed;
    assert forall id :: SignedIn(last, id) ==> (plane, id) in next.spent;
    assert forall i :: 0 <= i < |run.history| ==> next.history[i] == run.history[i];
    assert forall id :: (plane, id) in run.spent ==> id in SpentBy(run, plane);
  }

  lemma {:induction false} RunConsistent(planes: Planes, steps: seq<RunStep>)
    ensures Consistent(planes, RunOf(planes, steps))
  {
    hide HandleNext;
    if steps != [] {
      RunConsistent(planes, steps[..|steps| - 1]);
      var run := RunOf(planes, steps[..|steps| - 1]);
      var step := steps[|steps| - 1];
      if step.HandleStep? {
        HandleConsistent(planes, run, step.plane, step.request, step.env, step.stop);
      }
    }
  }

  // ------------------------------------------------------------ main results

  /**
   Every provider call of every run has an authority that held when it was checked, and is for the capability, target,
   session, correlation and parameters that were requested.
   */
  lemma EveryCallJustified(planes: Planes, steps: seq<RunStep>, i: nat) returns (first: seq<Action>, a: Authority)
    requires i < |RunOf(planes, steps).history| && Reached(RunOf(planes, steps).history[i].done)
    ensures var r := RunOf(planes, steps).history[i];
      && ReachedBy(r.done, planes(r.plane), r.book, r.spent, r.request, r.env, first, a)
      && forall call :: Execute(call) in r.done ==>
           && call.capability == r.request.capability && call.target == r.request.target
           && call.session == r.request.session && call.correlation == r.request.correlation
           && call.parameters == r.request.parameters
  {
    hide HandlePlan, RunOf, ReachedBy, Reached;
    RunConsistent(planes, steps);
    var r := RunOf(planes, steps).history[i];
    assert Genuine(planes, r);
    var actions := HandlePlan(planes(r.plane), r.book, r.spent, r.request, r.env).actions;
    assert r.done == actions[..|r.done|];
    first, a := CallJustified(planes(r.plane), r.book, r.spent, r.request, r.env, |r.done|);
    ExecutesRequest(planes(r.plane), r.book, r.spent, r.request, r.env);
    forall call | Execute(call) in r.done ensures CarriesOut(call, r.request) {
      assert Execute(call) in actions;
    }
  }

  lemma FreshIn(planes: Planes, r: Record)
    requires Genuine(planes, r)
    ensures forall id :: SpentIn(r, id) ==> id !in r.book.consumed
    ensures forall id :: SignedIn(r, id) ==> id !in r.spent
  {
    hide HandlePlan;
    HandleSpendsFresh(planes(r.plane), r.book, r.spent, r.request, r.env);
    var actions := HandlePlan(planes(r.plane), r.book, r.spent, r.request, r.env).actions;
    assert forall a :: a in r.done ==> a in actions;
  }

  /** In any run, a response id is spent at most once per store, and a signed grant id at most once per plane. */
  lemma SpentOnce(planes: Planes, steps: seq<RunStep>, i: nat, j: nat, id: string)
    requires i < j < |RunOf(planes, steps).history|
    ensures var h := RunOf(planes, steps).history; !(SpentIn(h[i], id) && SpentIn(h[j], id))
    ensures var h := RunOf(planes, steps).history;
      h[i].plane == h[j].plane ==> !(SignedIn(h[i], id) && SignedIn(h[j], id))
  {
    hide RunOf, Genuine;
    RunConsistent(planes, steps);
    var h := RunOf(planes, steps).history;
    assert Genuine(planes, h[j]);
    FreshIn(planes, h[j]);
  }

  /** A call backed by a one-time grant spends it. */
  lemma BackingSpends(planes: Planes, r: Record, first: seq<Action>, a: Authority)
    requires ReachedBy(r.done, planes(r.plane), r.book, r.spent, r.request, r.env, first, a)
    ensures a.GrantedBy? && a.grant.scope.OneTime? ==> SpentIn(r, a.grant.responseId)
    ensures a.SignedBy? && a.oneTime ==> SignedIn(r, a.grantId)
  {
    hide ByGrant, BySignature, ByTower, Decide;
    assert r.done[..|first|] == first;
    assert forall x :: x in r.done[..|first|] ==> x in r.done;
    if a.GrantedBy? && a.grant.scope.OneTime? {
      assert SpendGrant(a.grant) in r.done;
    }
  }

  /**
   At most once: no two provider calls of a run are backed by one one-time stored
   grant, nor, on one control plane, by one one-time signed grant.
   */
  lemma AtMostOnce(planes: Planes, steps: seq<RunStep>, i: nat, j: nat, first: seq<Action>, a: Authority,
                   first': seq<Action>, a': Authority)
    requires i < j < |RunOf(planes, steps).history|
    requires var r := RunOf(planes, steps).history[i];
      ReachedBy(r.done, planes(r.plane), r.book, r.spent, r.request, r.env, first, a)
    requires var r := RunOf(planes, steps).history[j];
      ReachedBy(r.done, planes(r.plane), r.book, r.spent, r.request, r.env, first', a')
    ensures a.GrantedBy? && a'.GrantedBy? && a.grant.scope.OneTime? && a'.grant.scope.OneTime? ==>
      a.grant.responseId != a'.grant.responseId
    ensures a.SignedBy? && a'.SignedBy? && a.oneTime && a'.oneTime && a.grantId == a'.grantId ==>
      RunOf(planes, steps).history[i].plane != RunOf(planes, steps).history[j].plane
  {
    hide RunOf, ReachedBy, SpentIn, SignedIn;
    var h := RunOf(planes, steps).history;
    BackingSpends(planes, h[i], first, a);
    BackingSpends(planes, h[j], first', a');
    if a.GrantedBy? { SpentOnce(planes, steps, i, j, a.grant.responseId); }
    if a.SignedBy? { SpentOnce(planes, steps, i, j, a.grantId); }
  }

  // ------------------------------------------------------ the log of a run

  /** All effects of all calls, in order. */
  function Trace(history: seq<Record>): seq<Action>
  {
    if history == [] then [] else Trace(history[..|history| - 1]) + history[|history| - 1].done
  }

  lemma {:induction false} TallyBoth(a: seq<Action>, b: seq<Action>, counts: Action -> bool)
    ensures Tally(a + b, counts) == Tally(a, counts) + Tally(b, counts)
  {
    if a == [] {
      assert a + b == b;
    } else {
      assert (a + b)[0] == a[0] && (a + b)[1..] == a[1..] + b;
      TallyBoth(a[1..], b, counts);
    }
  }

  lemma CountsAdd(a: seq<Action>, b: seq<Action>)
    ensures StartCount(a + b) == StartCount(a) + StartCount(b)
    ensures CallCount(a + b) == CallCount(a) + CallCount(b)
    ensures FinishCount(a + b) == FinishCount(a) + FinishCount(b)
  {
    TallyBoth(a, b, a => IsEvent(a, ExecutionStarted));
    TallyBoth(a, b, (a: Action) => a.Execute?);
    TallyBoth(a, b, a => IsEvent(a, ExecutionCompleted) || IsEvent(a, ExecutionFailed));
  }

  lemma GenuineWalks(planes: Planes, r: Record)
    requires Genuine(planes, r)
    ensures Walk(Idle, r.done) != Stuck
  {
    hide HandlePlan, Walk;
    var p := HandlePlan(planes(r.plane), r.book, r.spent, r.request, r.env);
    HandleWalks(planes(r.plane), r.book, r.spent, r.request, r.env);
    assert r.done == p.actions[..|r.done|];
    PrefixNotStuck(Idle, p.actions, |r.done|);
  }

  /**
   Conservation over a run with failures anywhere: finished executions are at most the
   provider calls, which are at most the started events already in the log.
   */
  lemma {:induction false} RunBalance(planes: Planes, history: seq<Record>)
    requires forall r :: r in history ==> Genuine(planes, r)
    ensures FinishCount(Trace(history)) <= CallCount(Trace(history)) <= StartCount(Trace(history))
  {
    hide Genuine, Tally;
    if history == [] {
      assert Trace(history) == [];
      Conserved([]);
    } else {
      var last := history[|history| - 1];
      assert forall r :: r in history[..|history| - 1] ==> r in history;
      RunBalance(planes, history[..|history| - 1]);
      GenuineWalks(planes, last);
      Conserved(last.done);
      CountsAdd(Trace(history[..|history| - 1]), last.done);
    }
  }

  /** A call that was neither cut off nor raised. */
  ghost predicate Undisturbed(planes: Planes, r: Record)
  {
    r.whole && HandlePlan(planes(r.plane), r.book, r.spent, r.request, r.env).outcome.Some?
  }

  /**
   The grammar of a run without exceptions: the effects, and so the log, are a
   concatenation of blocks of the one language, and provider calls, started and
   finished events are equally many.
   */
  lemma {:induction false} RunGrammar(planes: Planes, history: seq<Record>)
    requires forall r :: r in history ==> Genuine(planes, r) && Undisturbed(planes, r)
    ensures Walk(Idle, Trace(history)) == Idle
    ensures StartCount(Trace(history)) == CallCount(Trace(history)) == FinishCount(Trace(history))
  {
    hide HandlePlan, Walk, Tally;
    if history == [] {
      assert Trace(history) == [];
      EmptyWalk();
    } else {
      var last := history[|history| - 1];
      var before := history[..|history| - 1];
      assert forall r :: r in before ==> r in history;
      RunGrammar(planes, before);
      assert Genuine(planes, last) && Undisturbed(planes, last);
      HandleWalks(planes(last.plane), last.book, last.spent, last.request, last.env);
      WalkBoth(Idle, Trace(before), last.done);
    }
    Conserved(Trace(history));
  }

  /** Both for every run. */
  lemma LogOfRun(planes: Planes, steps: seq<RunStep>)
    ensures var trace := Trace(RunOf(planes, steps).history);
      FinishCount(trace) <= CallCount(trace) <= StartCount(trace)
    ensures var h := RunOf(planes, steps).history;
      (forall r :: r in h ==> Undisturbed(planes, r)) ==>
        Walk(Idle, Trace(h)) == Idle && StartCount(Trace(h)) == CallCount(Trace(h)) == FinishCount(Trace(h))
  {
    hide RunOf, Genuine, Undisturbed, Walk, Tally;
    RunConsistent(planes, steps);
    var h := RunOf(planes, steps).history;
    RunBalance(planes, h);
    if forall r :: r in h ==> Undisturbed(planes, r) { RunGrammar(planes, h); }
  }

  lemma EmptyWalk()
    ensures Walk(Idle, []) == Idle
  {
  }
}
