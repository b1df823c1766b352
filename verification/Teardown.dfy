// The ordered shutdown of the backend, interleaved with everything that is still going on: the
// runtime, the notification dispatcher, presence work and update checks.
module Teardown {
  import R = Runtime
  import D = NotificationDispatcher

  // Work in flight of a component with its own stop.
  datatype Keeper = Keeper(stopped: bool, pending: set<nat>)

  datatype Closer = Services | RetentionManager | StorageManager | StorageClient(index: nat) | RateLimiter | Database

  function StorageClients(n: nat): seq<Closer> {
    seq(n, i requires 0 <= i < n => StorageClient(i))
  }

  function Closers(clients: nat): (closers: seq<Closer>)
    ensures |closers| == clients + 5
    ensures forall i :: 0 <= i < |closers| ==> (closers[i] == Database <==> i == |closers| - 1)
  {
    [Services, RetentionManager, StorageManager] + StorageClients(clients) + [RateLimiter, Database]
  }

  datatype Stage =
    | NotCalled
    | StoppingRuntime
    | StoppingManager(snapshot: set<nat>)
    | StoppingDispatcher(awaited: nat)
    | Closing(closed: seq<Closer>, errors: seq<Closer>)

  function Rank(stage: Stage): nat {
    match stage
    case NotCalled => 0
    case StoppingRuntime => 1
    case StoppingManager(_) => 2
    case StoppingDispatcher(_) => 3
    case Closing(_, _) => 4
  }

  datatype World = World(runtime: R.State, dispatcher: D.State, presence: Keeper, manager: Keeper, clients: nat, stage: Stage)

  function Initial(clients: nat): World {
    World(R.INITIAL, D.INITIAL, Keeper(false, {}), Keeper(false, {}), clients, NotCalled)
  }

  // May the teardown go on from where it waits?
  predicate MayAdvance(w: World) {
    match w.stage
    case NotCalled => true
    case StoppingRuntime => w.runtime.stop.Over? && w.presence.pending == {}
    case StoppingManager(snapshot) => snapshot !! w.manager.pending
    case StoppingDispatcher(awaited) => D.DrainOver(w.dispatcher, awaited)
    case Closing(closed, _) => |closed| < w.clients + 5
  }

  // The block that runs up to the next wait. `fails` is the outcome of a close.
  function Advanced(w: World, fails: bool): World
    requires MayAdvance(w)
  {
    match w.stage
    case NotCalled =>
      w.(runtime := R.StopAsked(R.Quiesced(w.runtime)), presence := w.presence.(stopped := true), stage := StoppingRuntime)
    case StoppingRuntime =>
      w.(manager := w.manager.(stopped := true), stage := StoppingManager(w.manager.pending))
    case StoppingManager(_) =>
      w.(dispatcher := D.Stopped(w.dispatcher), stage := StoppingDispatcher(D.Stopped(w.dispatcher).generation))
    case StoppingDispatcher(_) =>
      w.(stage := Closing([], []))
    case Closing(closed, errors) =>
      var closer := Closers(w.clients)[|closed|];
      w.(stage := Closing(closed + [closer], if fails then errors + [closer] else errors))
  }

  // Work offered to a component with its own stop: refused once it is stopped.
  function Offered(keeper: Keeper, id: nat): Keeper {
    if keeper.stopped then keeper else keeper.(pending := keeper.pending + {id})
  }

  class Controller {
    const runtime: R.Controller
    const dispatcher: D.Dispatcher
    const clients: nat
    var presence: Keeper
    var manager: Keeper
    var stage: Stage

    constructor (runtime: R.Controller, dispatcher: D.Dispatcher, clients: nat)
      ensures this.runtime == runtime && this.dispatcher == dispatcher
      ensures View() == World(runtime.View(), dispatcher.View(), Keeper(false, {}), Keeper(false, {}), clients, NotCalled)
    {
      this.runtime, this.dispatcher, this.clients := runtime, dispatcher, clients;
      presence, manager, stage := Keeper(false, {}), Keeper(false, {}), NotCalled;
    }

    ghost function View(): World
      reads this, runtime, dispatcher
    {
      World(runtime.View(), dispatcher.View(), presence, manager, clients, stage)
    }

    method Begin()
      requires stage.NotCalled?
      modifies this, runtime
      ensures View() == Advanced(old(View()), false)
    {
      runtime.Quiesce();
      presence := presence.(stopped := true);
      runtime.AskStop();
      stage := StoppingRuntime;
    }

    method StopManager()
      requires stage.StoppingRuntime? && MayAdvance(View())
      modifies this
      ensures View() == Advanced(old(View()), false)
    {
      manager := manager.(stopped := true);
      stage := StoppingManager(manager.pending);
    }

    method StopDispatcher()
      requires stage.StoppingManager? && MayAdvance(View())
      modifies this, dispatcher
      ensures View() == Advanced(old(View()), false)
    {
      var awaited := dispatcher.Stop();
      stage := StoppingDispatcher(awaited);
    }

    method Offer(toPresence: bool, id: nat) returns (accepted: bool)
      modifies this
      ensures accepted == !(if toPresence then old(presence) else old(manager)).stopped
      ensures presence == if toPresence then Offered(old(presence), id) else old(presence)
      ensures manager == if toPresence then old(manager) else Offered(old(manager), id)
      ensures stage == old(stage)
    {
      accepted := if toPresence then !presence.stopped else !manager.stopped;
      if accepted {
        if toPresence {
          presence := presence.(pending := presence.pending + {id});
        } else {
          manager := manager.(pending := manager.pending + {id});
        }
      }
    }
  }

  // The closers that fail, in their order.
  function Failing(closers: seq<Closer>, fails: Closer -> bool): seq<Closer> {
    if closers == [] then []
    else
      var n := |closers| - 1;
      Failing(closers[..n], fails) + if fails(closers[n]) then [closers[n]] else []
  }

  lemma FailingAppend(closers: seq<Closer>, closer: Closer, fails: Closer -> bool)
    ensures Failing(closers + [closer], fails) == Failing(closers, fails) + if fails(closer) then [closer] else []
  {
    assert (closers + [closer])[..|closers|] == closers;
  }

  method Close(closer: Closer, fails: Closer -> bool, closed: seq<Closer>, errors: seq<Closer>) returns (closed': seq<Closer>, errors': seq<Closer>)
    requires errors == Failing(closed, fails)
    ensures closed' == closed + [closer] && errors' == Failing(closed', fails)
  {
    FailingAppend(closed, closer, fails);
    closed' := closed + [closer];
    errors' := if fails(closer) then errors + [closer] else errors;
  }

  // The closing part on its own: every closer is tried, the database last, whichever of them fail, and
  // the failure reported at the end lists all that did.
  method CloseEverything(clients: nat, fails: Closer -> bool) returns (closed: seq<Closer>, errors: seq<Closer>)
    ensures closed == Closers(clients) && closed[|closed| - 1] == Database
    ensures errors == Failing(closed, fails)
  {
    closed, errors := Close(Services, fails, [], []);
    closed, errors := Close(RetentionManager, fails, closed, errors);
    closed, errors := Close(StorageManager, fails, closed, errors);
    for i := 0 to clients
      invariant closed == [Services, RetentionManager, StorageManager] + StorageClients(i)
      invariant errors == Failing(closed, fails)
    {
      closed, errors := Close(StorageClient(i), fails, closed, errors);
    }
    closed, errors := Close(RateLimiter, fails, closed, errors);
    closed, errors := Close(Database, fails, closed, errors);
  }

  // ---------- Steps of the whole backend ----------

  datatype Step =
    | OfRuntime(runtime: R.Step)
    | OfDispatcher(dispatcher: D.Step)
    | Offer(toPresence: bool, id: nat)
    | Settle(ofPresence: bool, id: nat)
    | Advance(fails: bool)

  // Only the teardown stops the dispatcher.
  ghost predicate Enabled(w: World, step: Step) {
    match step
    case OfRuntime(step) => R.Enabled(w.runtime, step)
    case OfDispatcher(step) => !step.Stop? && D.Enabled(w.dispatcher, step)
    case Advance(_) => MayAdvance(w)
    case _ => true
  }

  ghost function Next(w: World, step: Step): World
    requires Enabled(w, step)
  {
    match step
    case OfRuntime(step) => w.(runtime := R.Next(w.runtime, step))
    case OfDispatcher(step) => w.(dispatcher := D.Next(w.dispatcher, step))
    case Offer(toPresence, id) => if toPresence then w.(presence := Offered(w.presence, id)) else w.(manager := Offered(w.manager, id))
    case Settle(ofPresence, id) =>
      if ofPresence then w.(presence := w.presence.(pending := w.presence.pending - {id}))
      else w.(manager := w.manager.(pending := w.manager.pending - {id}))
    case Advance(fails) => Advanced(w, fails)
  }

  predicate StageInv(w: World) {
    && (Rank(w.stage) >= 1 ==> !w.runtime.stop.NotAsked? && w.presence.stopped)
    && (Rank(w.stage) >= 2 ==> w.runtime.stop.Over? && w.presence.pending == {})
    && (w.manager.stopped <==> Rank(w.stage) >= 2)
    && (w.stage.StoppingManager? ==> w.manager.pending <= w.stage.snapshot)
    && (Rank(w.stage) >= 3 ==> w.manager.pending == {})
  }

  predicate DispatcherInv(w: World) {
    && (w.dispatcher.stopped <==> Rank(w.stage) >= 3)
    && (w.stage.StoppingDispatcher? ==> D.StopInv(w.dispatcher, w.stage.awaited))
    && (w.stage.Closing? ==> w.dispatcher.queue == [] && !w.dispatcher.drain.Busy?)
  }

  predicate ClosingInv(w: World) {
    w.stage.Closing? ==>
      (&& |w.stage.closed| <= w.clients + 5
       && w.stage.closed == Closers(w.clients)[..|w.stage.closed|])
  }

  ghost predicate Inv(w: World) {
    R.Inv(w.runtime) && D.Inv(w.dispatcher) && StageInv(w) && DispatcherInv(w) && ClosingInv(w)
  }

  lemma StopIsFinal(s: R.State, step: R.Step)
    requires R.Inv(s) && R.Enabled(s, step)
    ensures !s.stop.NotAsked? ==> !R.Next(s, step).stop.NotAsked?
    ensures s.stop.Over? ==> R.Next(s, step).stop.Over?
  {
    if step.Start? && !R.IsStopped(s) && !s.started {
      R.HoldsOfAllScheduled(s.(started := true), |s.tasks|, 0, 0);
    }
  }

  lemma AdvanceKeepsInv(w: World, fails: bool)
    requires Inv(w) && MayAdvance(w)
    ensures Inv(Advanced(w, fails))
  {
    hide R.Inv, R.Next, R.StopAsked, R.Quiesced, D.Inv;
    match w.stage
    case NotCalled =>
      QuiesceAndStop(w.runtime);
    case StoppingManager(_) =>
      D.StopBegins(w.dispatcher);
    case _ =>
  }

  lemma QuiesceAndStop(s: R.State)
    requires R.Inv(s)
    ensures R.Inv(R.StopAsked(R.Quiesced(s))) && !R.StopAsked(R.Quiesced(s)).stop.NotAsked?
  {
    hide R.Inv;
    R.StepKeepsInv(s, R.Quiesce);
    R.StepKeepsInv(R.Quiesced(s), R.AskStop);
  }

  // Every step of the backend keeps the invariant.
  lemma StepKeepsInv(w: World, step: Step)
    requires Inv(w) && Enabled(w, step)
    ensures Inv(Next(w, step))
  {
    hide R.Inv, R.Next, R.Enabled, D.Inv, D.Next, D.StopInv;
    match step
    case OfRuntime(step) =>
      R.StepKeepsInv(w.runtime, step);
      StopIsFinal(w.runtime, step);
    case OfDispatcher(step) =>
      DispatcherStepKeeps(w, step);
    case Advance(fails) =>
      AdvanceKeepsInv(w, fails);
    case _ =>
  }

  lemma DispatcherStepKeeps(w: World, step: D.Step)
    requires D.Inv(w.dispatcher) && DispatcherInv(w) && !step.Stop? && D.Enabled(w.dispatcher, step)
    ensures D.Inv(D.Next(w.dispatcher, step)) && DispatcherInv(w.(dispatcher := D.Next(w.dispatcher, step)))
  {
    D.StepKeepsInv(w.dispatcher, step);
    if w.stage.StoppingDispatcher? {
      D.StepKeepsStopInv(w.dispatcher, step, w.stage.awaited);
    }
  }

  // ---------- Runs ----------

  ghost predicate Legal(w: World, steps: seq<Step>)
    decreases |steps|
  {
    steps == [] || (Enabled(w, steps[0]) && Legal(Next(w, steps[0]), steps[1..]))
  }

  ghost function Run(w: World, steps: seq<Step>): World
    requires Legal(w, steps)
    decreases |steps|
  {
    if steps == [] then w else Run(Next(w, steps[0]), steps[1..])
  }

  // Work is tracked by work still in flight, or from outside.
  ghost predicate AllAttached(w: World, steps: seq<Step>)
    requires Legal(w, steps)
    decreases |steps|
  {
    steps == []
    || ((steps[0].OfRuntime? ==> R.Attached(w.runtime, steps[0].runtime)) && AllAttached(Next(w, steps[0]), steps[1..]))
  }

  lemma LateStaysEmpty(w: World, step: Step)
    requires Inv(w) && Enabled(w, step) && w.runtime.late == {}
    requires step.OfRuntime? ==> R.Attached(w.runtime, step.runtime)
    ensures Next(w, step).runtime.late == {}
  {
    hide D.Inv, D.Next, D.StopInv;
    if step.OfRuntime? {
      R.LateOnlyGrows(w.runtime, step.runtime);
    }
  }

  lemma {:induction false} RunKeepsInv(w: World, steps: seq<Step>)
    requires Inv(w) && Legal(w, steps)
    ensures Inv(Run(w, steps)) && Run(w, steps).clients == w.clients
    ensures w.runtime.late == {} && AllAttached(w, steps) ==> Run(w, steps).runtime.late == {}
    decreases |steps|
  {
    hide Inv, R.Next, D.Next, D.StopInv;
    if steps != [] {
      StepKeepsInv(w, steps[0]);
      if w.runtime.late == {} && AllAttached(w, steps) {
        LateStaysEmpty(w, steps[0]);
      }
      RunKeepsInv(Next(w, steps[0]), steps[1..]);
    }
  }

  lemma InitialInv(clients: nat)
    ensures Inv(Initial(clients))
  {
  }

  // Nothing is left in flight but what was tracked from a scope after the drain loop had ended.
  ghost predicate Quiet(w: World) {
    && w.runtime.pending.Keys <= w.runtime.late && w.runtime.timers == map[]
    && w.presence.pending == {} && w.manager.pending == {}
  }

  // Nothing more comes in: no tracked work, no presence work, no update check and no notification.
  ghost predicate Sealed(w: World) {
    && (forall external, inScope :: R.Admit(w.runtime, external, inScope) == R.IsStopping)
    && (forall id :: Offered(w.presence, id) == w.presence && Offered(w.manager, id) == w.manager)
    && (forall batch :: D.Enqueued(w.dispatcher, batch) == w.dispatcher)
  }

  // The steps that the runtime takes in a run of the whole backend.
  ghost function RuntimeSteps(w: World, steps: seq<Step>): seq<R.Step>
    requires Legal(w, steps)
    decreases |steps|
  {
    if steps == [] then []
    else
      var rest := RuntimeSteps(Next(w, steps[0]), steps[1..]);
      match steps[0]
      case OfRuntime(step) => [step] + rest
      case Advance(_) => if w.stage.NotCalled? then [R.Quiesce] + ([R.AskStop] + rest) else rest
      case _ => rest
  }

  lemma OneRuntimeStep(s: R.State, step: R.Step, rest: seq<R.Step>)
    requires R.Enabled(s, step) && R.Legal(R.Next(s, step), rest)
    ensures R.Legal(s, [step] + rest) && R.Run(s, [step] + rest) == R.Run(R.Next(s, step), rest)
  {
    assert ([step] + rest)[1..] == rest;
  }

  lemma {:induction false} RuntimeRuns(w: World, steps: seq<Step>)
    requires Legal(w, steps)
    ensures R.Legal(w.runtime, RuntimeSteps(w, steps))
    ensures R.Run(w.runtime, RuntimeSteps(w, steps)) == Run(w, steps).runtime
    decreases |steps|
  {
    if steps != [] {
      var next := Next(w, steps[0]);
      var rest := RuntimeSteps(next, steps[1..]);
      RuntimeRuns(next, steps[1..]);
      match steps[0]
      case OfRuntime(step) => OneRuntimeStep(w.runtime, step, rest);
      case Advance(_) =>
        if w.stage.NotCalled? {
          var quiesced := R.Next(w.runtime, R.Quiesce);
          assert R.Next(quiesced, R.AskStop) == next.runtime;
          OneRuntimeStep(quiesced, R.AskStop, rest);
          OneRuntimeStep(w.runtime, R.Quiesce, [R.AskStop] + rest);
        }
      case _ =>
    }
  }

  // The whole of it, over all runs: when the closing of resources has begun, and so when the database
  // client is destroyed as the last of them, nothing comes in, the handled batches are exactly the
  // enqueued ones in their order, and all that is in flight is the unsettled work of in-scope calls past
  // the end of the drain loop: none, when such calls come only from work in flight.
  lemma ClosingIsSafe(clients: nat, steps: seq<Step>)
    requires Legal(Initial(clients), steps) && Run(Initial(clients), steps).stage.Closing?
    ensures var w := Run(Initial(clients), steps);
      && Quiet(w) && Sealed(w)
      && w.dispatcher.handled == w.dispatcher.enqueued
      && (AllAttached(Initial(clients), steps) ==> w.runtime.pending == map[])
      && (Database in w.stage.closed ==> w.stage.closed == Closers(clients))
    ensures var taken := RuntimeSteps(Initial(clients), steps);
      R.Legal(R.INITIAL, taken) && Run(Initial(clients), steps).runtime.pending.Keys == R.LateWork(R.INITIAL, taken)
  {
    InitialInv(clients);
    RunKeepsInv(Initial(clients), steps);
    SafeHere(Run(Initial(clients), steps));
    RuntimeRuns(Initial(clients), steps);
    R.OutlivesExactly(RuntimeSteps(Initial(clients), steps));
  }

  lemma SafeHere(w: World)
    requires Inv(w) && w.stage.Closing?
    ensures Quiet(w) && Sealed(w) && w.dispatcher.handled == w.dispatcher.enqueued
    ensures w.runtime.late == {} ==> w.runtime.pending == map[]
    ensures Database in w.stage.closed ==> w.stage.closed == Closers(w.clients)
  {
    if w.runtime.late == {} {
      assert w.runtime.pending.Keys == {};
    }
    if Database in w.stage.closed {
      var i :| 0 <= i < |w.stage.closed| && w.stage.closed[i] == Database;
      assert Closers(w.clients)[i] == Database;
      assert |w.stage.closed| == |Closers(w.clients)|;
    }
  }

  // While any tracked work, presence work or update check is in flight, the dispatcher takes what it
  // enqueues.
  lemma WorkInFlightCanNotify(clients: nat, steps: seq<Step>, batch: D.Batch)
    requires Legal(Initial(clients), steps) && AllAttached(Initial(clients), steps)
    requires var w := Run(Initial(clients), steps);
      w.runtime.pending != map[] || w.presence.pending != {} || w.manager.pending != {}
    ensures var w := Run(Initial(clients), steps);
      !w.dispatcher.stopped && D.Enqueued(w.dispatcher, batch).enqueued == w.dispatcher.enqueued + if batch == [] then [] else [batch]
  {
    InitialInv(clients);
    RunKeepsInv(Initial(clients), steps);
    var w := Run(Initial(clients), steps);
    if w.dispatcher.stopped {
      StoppedMeansIdle(w);
    }
  }

  lemma StoppedMeansIdle(w: World)
    requires Inv(w) && w.runtime.late == {} && w.dispatcher.stopped
    ensures w.runtime.pending == map[] && w.presence.pending == {} && w.manager.pending == {}
  {
    assert w.runtime.pending.Keys == {};
  }

  // ---------- The teardown comes to its end ----------

  // The steps by which what is in flight ends and the teardown goes on; nothing new comes in by them.
  predicate WindsDown(step: Step) {
    match step
    case OfRuntime(step) => R.WindsDown(step)
    case OfDispatcher(step) => step.RunScheduled? || step.Turn?
    case Offer(_, _) => false
    case Settle(_, _) => true
    case Advance(fails) => !fails
  }

  lemma {:induction false} RunJoin(w: World, a: seq<Step>, b: seq<Step>)
    requires Legal(w, a) && Legal(Run(w, a), b)
    ensures Legal(w, a + b) && Run(w, a + b) == Run(Run(w, a), b)
    decreases |a|
  {
    if a == [] {
      assert a + b == b;
    } else {
      assert (a + b)[1..] == a[1..] + b;
      RunJoin(Next(w, a[0]), a[1..], b);
    }
  }

  lemma OneStepRun(w: World, step: Step)
    requires Enabled(w, step)
    ensures Legal(w, [step]) && Run(w, [step]) == Next(w, step)
  {
    assert [step][1..] == [];
  }

  lemma {:induction false} RuntimeAlone(w: World, steps: seq<R.Step>) returns (taken: seq<Step>)
    requires R.Legal(w.runtime, steps) && forall step | step in steps :: R.WindsDown(step)
    ensures Legal(w, taken) && Run(w, taken) == w.(runtime := R.Run(w.runtime, steps))
    ensures forall step | step in taken :: WindsDown(step)
    decreases |steps|
  {
    if steps == [] {
      taken := [];
    } else {
      var rest := RuntimeAlone(Next(w, OfRuntime(steps[0])), steps[1..]);
      OneStepRun(w, OfRuntime(steps[0]));
      RunJoin(w, [OfRuntime(steps[0])], rest);
      taken := [OfRuntime(steps[0])] + rest;
    }
  }

  lemma {:induction false} DispatcherAlone(w: World, steps: seq<D.Step>) returns (taken: seq<Step>)
    requires D.Legal(w.dispatcher, steps) && forall step | step in steps :: step.RunScheduled? || step.Turn?
    ensures Legal(w, taken) && Run(w, taken) == w.(dispatcher := D.Run(w.dispatcher, steps))
    ensures forall step | step in taken :: WindsDown(step)
    decreases |steps|
  {
    if steps == [] {
      taken := [];
    } else {
      var rest := DispatcherAlone(Next(w, OfDispatcher(steps[0])), steps[1..]);
      OneStepRun(w, OfDispatcher(steps[0]));
      RunJoin(w, [OfDispatcher(steps[0])], rest);
      taken := [OfDispatcher(steps[0])] + rest;
    }
  }

  lemma {:induction false} SettlesAll(w: World, ofPresence: bool) returns (taken: seq<Step>)
    ensures Legal(w, taken) && forall step | step in taken :: WindsDown(step)
    ensures Run(w, taken) == if ofPresence then w.(presence := w.presence.(pending := {})) else w.(manager := w.manager.(pending := {}))
    decreases if ofPresence then w.presence.pending else w.manager.pending
  {
    var keeper := if ofPresence then w.presence else w.manager;
    if id :| id in keeper.pending {
      var rest := SettlesAll(Next(w, Settle(ofPresence, id)), ofPresence);
      OneStepRun(w, Settle(ofPresence, id));
      RunJoin(w, [Settle(ofPresence, id)], rest);
      taken := [Settle(ofPresence, id)] + rest;
    } else {
      assert keeper.pending == {};
      taken := [];
    }
  }

  // What the teardown waits for comes about by itself.
  lemma BecomesReady(w: World) returns (taken: seq<Step>)
    requires Inv(w) && (w.stage.Closing? ==> |w.stage.closed| < w.clients + 5)
    ensures Legal(w, taken) && forall step | step in taken :: WindsDown(step)
    ensures MayAdvance(Run(w, taken)) && Run(w, taken).stage == w.stage && Run(w, taken).clients == w.clients
  {
    match w.stage
    case StoppingRuntime =>
      var stops := R.StopFinishes(w.runtime);
      var first := RuntimeAlone(w, stops);
      var rest := SettlesAll(Run(w, first), true);
      RunJoin(w, first, rest);
      taken := first + rest;
    case StoppingManager(_) => taken := SettlesAll(w, false);
    case StoppingDispatcher(_) =>
      var drains := D.DrainFinishes(w.dispatcher);
      taken := DispatcherAlone(w, drains);
    case _ => taken := [];
  }

  // How far the teardown still has to go.
  function Ahead(w: World): int {
    if w.stage.Closing? then w.clients + 5 - |w.stage.closed| else w.clients + 10 - Rank(w.stage)
  }

  lemma AdvanceGoesOn(w: World)
    requires Inv(w) && MayAdvance(w)
    ensures Ahead(w) > 0 && Ahead(Advanced(w, false)) == Ahead(w) - (if w.stage.StoppingDispatcher? then 2 else 1)
    ensures Advanced(w, false).clients == w.clients
  {
  }

  // From every reachable state the teardown comes to its end as work in flight settles and the dispatcher
  // drains, with all resources closed in their order: no wait is for ever.
  lemma {:induction false} TeardownFinishes(w: World) returns (steps: seq<Step>)
    requires Inv(w)
    ensures Legal(w, steps) && forall step | step in steps :: WindsDown(step)
    ensures Run(w, steps).stage.Closing? && Run(w, steps).stage.closed == Closers(w.clients)
    decreases Ahead(w)
  {
    hide Inv, Advanced, Next, MayAdvance;
    if w.stage.Closing? && |w.stage.closed| >= w.clients + 5 {
      AllClosed(w);
      steps := [];
    } else {
      var first := BecomesReady(w);
      RunKeepsInv(w, first);
      var ready := Run(w, first);
      AdvanceGoesOn(ready);
      AheadAlike(w, ready);
      OneStepRun(ready, Advance(false)) by { AdvanceEnabled(ready); }
      RunJoin(w, first, [Advance(false)]);
      StepKeepsInv(ready, Advance(false)) by { AdvanceEnabled(ready); }
      var next := Next(ready, Advance(false));
      assert next == Advanced(ready, false) by { AdvanceEnabled(ready); }
      var rest := TeardownFinishes(next);
      RunJoin(w, first + [Advance(false)], rest);
      steps := first + [Advance(false)] + rest;
    }
  }

  lemma AdvanceEnabled(w: World)
    requires MayAdvance(w)
    ensures Enabled(w, Advance(false)) && Next(w, Advance(false)) == Advanced(w, false)
  {
  }

  lemma AheadAlike(w: World, ready: World)
    requires ready.stage == w.stage && ready.clients == w.clients
    ensures Ahead(ready) == Ahead(w)
  {
  }

  lemma AllClosed(w: World)
    requires Inv(w) && w.stage.Closing? && |w.stage.closed| >= w.clients + 5
    ensures w.stage.closed == Closers(w.clients)
  {
    assert Closers(w.clients)[..|Closers(w.clients)|] == Closers(w.clients);
  }

  // ---------- What a run records ----------

  // The closes of the run fail as told.
  ghost predicate FailsAs(w: World, steps: seq<Step>, fails: Closer -> bool)
    requires Legal(w, steps)
    decreases |steps|
  {
    steps == []
    || (&& (w.stage.Closing? && steps[0].Advance? ==> steps[0].fails == fails(Closers(w.clients)[|w.stage.closed|]))
        && FailsAs(Next(w, steps[0]), steps[1..], fails))
  }

  // Over every run the failure reported at the end lists exactly the resources whose close has failed.
  lemma {:induction false} ErrorsAreFailures(w: World, steps: seq<Step>, fails: Closer -> bool)
    requires Inv(w) && Legal(w, steps) && FailsAs(w, steps, fails)
    requires w.stage.Closing? ==> w.stage.errors == Failing(w.stage.closed, fails)
    ensures var end := Run(w, steps).stage; end.Closing? ==> end.errors == Failing(end.closed, fails)
    decreases |steps|
  {
    hide Inv, R.Next, D.Next, Failing;
    if steps != [] {
      StepKeepsInv(w, steps[0]);
      NoneFailing(fails);
      if w.stage.Closing? && steps[0].Advance? {
        FailingAppend(w.stage.closed, Closers(w.clients)[|w.stage.closed|], fails);
      }
      ErrorsAreFailures(Next(w, steps[0]), steps[1..], fails);
    }
  }

  lemma NoneFailing(fails: Closer -> bool)
    ensures Failing([], fails) == []
  {
  }

  // The work of presence and of the update manager: what is offered before the stop of each is pending
  // until it settles, and nothing else.
  lemma KeptWork(w: World, step: Step, id: nat)
    requires Enabled(w, step)
    ensures var next := Next(w, step);
      && (id in next.presence.pending <==>
            (id in w.presence.pending && step != Settle(true, id)) || (step == Offer(true, id) && !w.presence.stopped))
      && (id in next.manager.pending <==>
            (id in w.manager.pending && step != Settle(false, id)) || (step == Offer(false, id) && !w.manager.stopped))
  {
  }
}
