// The runtime of background work: admission of work, repeated tasks and draining. Every function below
// is one block of code that runs without yielding; the blocks of different callers interleave freely.
module Runtime {
  import opened Options

  datatype Phase = Starting | Ready | Stopping | Finished

  // Work in flight; `task` is set for the runs of a registered task.
  datatype Work = Work(name: string, task: Option<nat>)

  // Where the one stop of the runtime is: not asked for, waiting for a snapshot of the work in flight
  // to settle, past the loop that found no work in flight, or over.
  datatype Stop = NotAsked | Awaiting(snapshot: set<nat>) | Drained | Over

  // `timers` and `settling` give the registered task of each armed timer and of each settled run whose
  // follow-up has not run yet. `late` collects the work admitted between the end of the drain loop and Finished.
  datatype State = State(
    phase: Phase,
    started: bool,
    tasks: seq<string>,
    pending: map<nat, Work>,
    timers: map<nat, nat>,
    settling: map<nat, nat>,
    stop: Stop,
    nextId: nat,
    late: set<nat>
  )

  const INITIAL := State(Starting, false, [], map[], map[], map[], NotAsked, 0, {})

  datatype Admission = Admitted(id: nat) | IsStopping | NotReady

  function Admit(s: State, external: bool, inScope: bool): Admission {
    if s.phase.Finished? || (s.phase.Stopping? && !inScope) then IsStopping
    else if external && !s.phase.Ready? && !inScope then NotReady
    else Admitted(s.nextId)
  }

  function Tracked(s: State, work: Work, external: bool, inScope: bool): State {
    if Admit(s, external, inScope).Admitted? then
      s.(pending := s.pending[s.nextId := work], nextId := s.nextId + 1,
         late := if s.stop.Drained? then s.late + {s.nextId} else s.late)
    else s
  }

  function Registered(s: State, name: string): State {
    if s.started || !s.phase.Starting? then s else s.(tasks := s.tasks + [name])
  }

  function Scheduled(s: State, task: nat): State {
    s.(timers := s.timers[s.nextId := task], nextId := s.nextId + 1)
  }

  // The timers of the first n tasks armed.
  function AllScheduled(s: State, n: nat): State {
    if n == 0 then s else Scheduled(AllScheduled(s, n - 1), n - 1)
  }

  function IsStopped(s: State): bool {
    s.phase.Stopping? || s.phase.Finished?
  }

  function Started(s: State): State {
    if IsStopped(s) || s.started then s else AllScheduled(s.(started := true), |s.tasks|)
  }

  function MadeReady(s: State): State {
    if s.phase.Starting? then s.(phase := Ready) else s
  }

  function Fired(s: State, timer: nat): State
    requires timer in s.timers && s.timers[timer] < |s.tasks|
  {
    var fired := s.(timers := s.timers - {timer});
    if IsStopped(s) then fired
    else Tracked(fired, Work(s.tasks[s.timers[timer]], Some(s.timers[timer])), false, false)
  }

  function Settled(s: State, id: nat): State
    requires id in s.pending
  {
    s.(pending := s.pending - {id},
       settling := if s.pending[id].task.Some? then s.settling[id := s.pending[id].task.value] else s.settling)
  }

  // The follow-up of a run: the next one is scheduled, unless the runtime is on its way down.
  function FollowedUp(s: State, id: nat): State
    requires id in s.settling
  {
    var rest := s.(settling := s.settling - {id});
    if IsStopped(s) then rest else Scheduled(rest, s.settling[id])
  }

  function Quiesced(s: State): State {
    if s.phase.Finished? then s else s.(phase := Stopping, timers := map[])
  }

  // The test of the drain loop.
  function LoopTested(s: State): State {
    s.(stop := if s.pending == map[] then Drained else Awaiting(s.pending.Keys))
  }

  function StopAsked(s: State): State {
    if s.stop.NotAsked? then LoopTested(Quiesced(s)) else s
  }

  function StopFinished(s: State): State {
    s.(stop := Over, phase := Finished)
  }

  class Controller {
    var phase: Phase
    var started: bool
    var tasks: seq<string>
    var pending: map<nat, Work>
    var timers: map<nat, nat>
    var settling: map<nat, nat>
    var stop: Stop
    var nextId: nat
    ghost var late: set<nat>

    ghost function View(): State
      reads this
    {
      State(phase, started, tasks, pending, timers, settling, stop, nextId, late)
    }

    constructor ()
      ensures View() == INITIAL
    {
      phase, started, tasks, pending, timers := Starting, false, [], map[], map[];
      settling, stop, nextId, late := map[], NotAsked, 0, {};
    }

    method Track(work: Work, external: bool, inScope: bool) returns (admission: Admission)
      modifies this
      ensures admission == Admit(old(View()), external, inScope)
      ensures View() == Tracked(old(View()), work, external, inScope)
    {
      if phase.Finished? || (phase.Stopping? && !inScope) {
        return IsStopping;
      }
      if external && !phase.Ready? && !inScope {
        return NotReady;
      }
      admission := Admitted(nextId);
      pending := pending[nextId := work];
      late := if stop.Drained? then late + {nextId} else late;
      nextId := nextId + 1;
    }

    method Schedule(task: nat)
      modifies this
      ensures View() == Scheduled(old(View()), task)
    {
      timers := timers[nextId := task];
      nextId := nextId + 1;
    }

    method Fire(timer: nat)
      requires timer in timers && timers[timer] < |tasks|
      modifies this
      ensures View() == Fired(old(View()), timer)
    {
      var task := timers[timer];
      timers := timers - {timer};
      if phase.Stopping? || phase.Finished? {
        return;
      }
      var _ := Track(Work(tasks[task], Some(task)), false, false);
    }

    method Settle(id: nat)
      requires id in pending
      modifies this
      ensures View() == Settled(old(View()), id)
    {
      if pending[id].task.Some? {
        settling := settling[id := pending[id].task.value];
      }
      pending := pending - {id};
    }

    method FollowUp(id: nat)
      requires id in settling
      modifies this
      ensures View() == FollowedUp(old(View()), id)
    {
      var task := settling[id];
      settling := settling - {id};
      if !phase.Stopping? && !phase.Finished? {
        Schedule(task);
      }
    }

    method Register(name: string) returns (thrown: bool)
      modifies this
      ensures thrown == (old(started) || !old(phase).Starting?)
      ensures View() == Registered(old(View()), name)
    {
      thrown := started || !phase.Starting?;
      if !thrown {
        tasks := tasks + [name];
      }
    }

    method Start() returns (thrown: bool)
      modifies this
      ensures thrown == IsStopped(old(View()))
      ensures View() == Started(old(View()))
    {
      if phase.Stopping? || phase.Finished? {
        return true;
      }
      if started {
        return false;
      }
      started := true;
      ghost var before := View();
      for task := 0 to |tasks|
        invariant tasks == old(tasks)
        invariant View() == AllScheduled(before, task)
      {
        Schedule(task);
      }
      return false;
    }

    method MakeReady()
      modifies this
      ensures View() == MadeReady(old(View()))
    {
      if phase.Starting? {
        phase := Ready;
      }
    }

    method Quiesce()
      modifies this
      ensures View() == Quiesced(old(View()))
    {
      if phase.Finished? {
        return;
      }
      phase := Stopping;
      timers := map[];
    }

    method TestLoop()
      modifies this
      ensures View() == LoopTested(old(View()))
    {
      if |pending| != 0 {
        stop := Awaiting(pending.Keys);
      } else {
        stop := Drained;
      }
    }

    method AskStop()
      modifies this
      ensures View() == StopAsked(old(View()))
    {
      if stop.NotAsked? {
        Quiesce();
        TestLoop();
      }
    }

    method FinishStop()
      requires stop.Drained?
      modifies this
      ensures View() == StopFinished(old(View()))
    {
      phase := Finished;
      stop := Over;
    }
  }

  // ---------- Invariants ----------

  // A task is armed, running or about to be followed up under this identity.
  predicate Holds(s: State, id: nat, task: nat) {
    || (id in s.timers && s.timers[id] == task)
    || (id in s.pending && s.pending[id].task == Some(task))
    || (id in s.settling && s.settling[id] == task)
  }

  // Each task is held at most once: it is armed, or running, or settled, and never two of these.
  ghost predicate OneHoldPerTask(s: State) {
    forall id: nat, other: nat, task: nat :: Holds(s, id, task) && Holds(s, other, task) ==> id == other
  }

  ghost predicate IdsAreUsed(s: State) {
    && (forall id :: id in s.timers ==> id < s.nextId && id !in s.pending && id !in s.settling)
    && (forall id :: id in s.pending ==> id < s.nextId && id !in s.settling)
    && (forall id :: id in s.settling ==> id < s.nextId)
    && (forall id :: id in s.late ==> id < s.nextId)
  }

  ghost predicate TasksAreRegistered(s: State) {
    && (forall id: nat, task: nat :: Holds(s, id, task) ==> s.started && task < |s.tasks|)
  }

  ghost predicate StopInv(s: State) {
    && (IsStopped(s) ==> s.timers == map[])
    && (s.phase.Finished? <==> s.stop.Over?)
    && (!s.stop.NotAsked? ==> IsStopped(s))
    && (s.stop.Drained? || s.stop.Over? ==> s.pending.Keys <= s.late)
    && (!s.stop.Drained? && !s.stop.Over? ==> s.late == {})
  }

  ghost predicate Inv(s: State) {
    OneHoldPerTask(s) && IdsAreUsed(s) && TasksAreRegistered(s) && StopInv(s)
  }

  // ---------- Steps ----------

  // Work is tracked from outside or within the scope of earlier work, which may be over by then.
  datatype Scope = Outside | Within(parent: nat)

  datatype Step =
    | Register(name: string)
    | Start
    | MakeReady
    | Track(name: string, external: bool, scope: Scope)
    | Fire(timer: nat)
    | Settle(id: nat)
    | FollowUp(id: nat)
    | Quiesce
    | AskStop
    | Retest
    | FinishStop

  ghost predicate Enabled(s: State, step: Step) {
    match step
    case Fire(timer) => timer in s.timers && s.timers[timer] < |s.tasks|
    case Settle(id) => id in s.pending
    case FollowUp(id) => id in s.settling
    case Retest => s.stop.Awaiting? && s.stop.snapshot !! s.pending.Keys
    case FinishStop => s.stop.Drained?
    case _ => true
  }

  ghost function Next(s: State, step: Step): State
    requires Enabled(s, step)
  {
    match step
    case Register(name) => Registered(s, name)
    case Start => Started(s)
    case MakeReady => MadeReady(s)
    case Track(name, external, scope) => Tracked(s, Work(name, None), external, scope.Within?)
    case Fire(timer) => Fired(s, timer)
    case Settle(id) => Settled(s, id)
    case FollowUp(id) => FollowedUp(s, id)
    case Quiesce => Quiesced(s)
    case AskStop => StopAsked(s)
    case Retest => LoopTested(s)
    case FinishStop => StopFinished(s)
  }

  // Work is tracked by work that is itself still in flight, or from outside.
  predicate Attached(s: State, step: Step) {
    step.Track? && step.scope.Within? ==> step.scope.parent in s.pending
  }

  lemma HoldsOfScheduled(s: State, task: nat, id: nat, held: nat)
    requires IdsAreUsed(s)
    ensures Holds(Scheduled(s, task), id, held) <==> Holds(s, id, held) || (id == s.nextId && held == task)
  {
  }

  lemma {:induction false} HoldsOfAllScheduled(s: State, n: nat, id: nat, held: nat)
    requires IdsAreUsed(s)
    ensures Holds(AllScheduled(s, n), id, held) <==> Holds(s, id, held) || (s.nextId <= id < s.nextId + n && held == id - s.nextId)
    ensures IdsAreUsed(AllScheduled(s, n)) && AllScheduled(s, n).nextId == s.nextId + n
    ensures AllScheduled(s, n) == s.(timers := AllScheduled(s, n).timers, nextId := s.nextId + n)
  {
    if n > 0 {
      HoldsOfAllScheduled(s, n - 1, id, held);
      HoldsOfScheduled(AllScheduled(s, n - 1), n - 1, id, held);
    }
  }

  lemma StartKeepsInv(s: State)
    requires Inv(s)
    ensures Inv(Started(s))
  {
    if !IsStopped(s) && !s.started {
      var next, begun := Started(s), s.(started := true);
      forall id: nat, task: nat ensures Holds(next, id, task) <==> s.nextId <= id < s.nextId + |s.tasks| && task == id - s.nextId {
        HoldsOfAllScheduled(begun, |s.tasks|, id, task);
        assert !Holds(s, id, task);
      }
      HoldsOfAllScheduled(begun, |s.tasks|, 0, 0);
    }
  }

  lemma TrackKeepsInv(s: State, work: Work, external: bool, inScope: bool)
    requires Inv(s) && (work.task.Some? ==> s.started && work.task.value < |s.tasks| && forall id :: !Holds(s, id, work.task.value))
    ensures Inv(Tracked(s, work, external, inScope))
  {
    var next := Tracked(s, work, external, inScope);
    forall id: nat, task: nat ensures Holds(next, id, task) ==> Holds(s, id, task) || (id == s.nextId && Some(task) == work.task) {}
  }

  lemma FireKeepsInv(s: State, timer: nat)
    requires Inv(s) && Enabled(s, Fire(timer))
    ensures Inv(Fired(s, timer))
  {
    var task := s.timers[timer];
    var fired := s.(timers := s.timers - {timer});
    assert Holds(s, timer, task);
    forall id: nat, held: nat ensures Holds(fired, id, held) <==> Holds(s, id, held) && id != timer {}
    if !IsStopped(s) {
      TrackKeepsInv(fired, Work(s.tasks[task], Some(task)), false, false);
    }
  }

  lemma SettleKeepsInv(s: State, id: nat)
    requires Inv(s) && id in s.pending
    ensures Inv(Settled(s, id))
  {
    var next := Settled(s, id);
    forall other: nat, task: nat ensures Holds(next, other, task) <==> Holds(s, other, task) {}
  }

  lemma FollowUpKeepsInv(s: State, id: nat)
    requires Inv(s) && id in s.settling
    ensures Inv(FollowedUp(s, id))
  {
    var task := s.settling[id];
    var rest := s.(settling := s.settling - {id});
    assert Holds(s, id, task);
    forall other: nat, held: nat ensures Holds(rest, other, held) <==> Holds(s, other, held) && other != id {}
    if !IsStopped(s) {
      forall other: nat, held: nat ensures Holds(Scheduled(rest, task), other, held) <==> Holds(rest, other, held) || (other == s.nextId && held == task) {
        HoldsOfScheduled(rest, task, other, held);
      }
    }
  }

  lemma HoldsShrinks(s: State, next: State)
    requires Inv(s) && next.nextId == s.nextId && next.late == s.late && next.tasks == s.tasks && next.started == s.started
    requires next.pending == s.pending && next.settling == s.settling && (next.timers == s.timers || next.timers == map[])
    ensures OneHoldPerTask(next) && IdsAreUsed(next) && TasksAreRegistered(next)
  {
    forall id: nat, task: nat ensures Holds(next, id, task) ==> Holds(s, id, task) {}
  }

  lemma StepKeepsInv(s: State, step: Step)
    requires Inv(s) && Enabled(s, step)
    ensures Inv(Next(s, step))
  {
    match step
    case Start => StartKeepsInv(s);
    case Track(name, external, scope) => TrackKeepsInv(s, Work(name, None), external, scope.Within?);
    case Fire(timer) => FireKeepsInv(s, timer);
    case Settle(id) => SettleKeepsInv(s, id);
    case FollowUp(id) => FollowUpKeepsInv(s, id);
    case Register(name) =>
      forall id: nat, task: nat ensures Holds(Next(s, step), id, task) ==> Holds(s, id, task) {}
    case _ =>
      HoldsShrinks(s, Next(s, step));
  }

  // ---------- Repeated tasks repeat ----------

  // While the runtime is up and running each registered task is held: armed, running or settled.
  ghost predicate EachTaskHeld(s: State) {
    s.started && !IsStopped(s) ==> forall task: nat | task < |s.tasks| :: Held(s, task)
  }

  ghost predicate Held(s: State, task: nat) {
    exists id: nat :: Holds(s, id, task)
  }

  // A timer that fires before the stop puts work of its task in flight, under the name of the task.
  lemma FiredRunsTask(s: State, timer: nat)
    requires Inv(s) && Enabled(s, Fire(timer)) && !IsStopped(s)
    ensures var next := Fired(s, timer);
      && next.timers == s.timers - {timer} && next.settling == s.settling && next.tasks == s.tasks
      && exists id: nat | id !in s.pending :: next.pending == s.pending[id := Work(s.tasks[s.timers[timer]], Some(s.timers[timer]))]
  {
    assert s.nextId !in s.pending;
  }

  // The follow-up of a run before the stop arms its task again.
  lemma FollowUpArmsTask(s: State, id: nat)
    requires Inv(s) && id in s.settling && !IsStopped(s)
    ensures var next := FollowedUp(s, id);
      && next.settling == s.settling - {id} && next.pending == s.pending && next.tasks == s.tasks
      && exists timer: nat | timer !in s.timers :: next.timers == s.timers[timer := s.settling[id]]
  {
    assert s.nextId !in s.timers;
  }

  // Each step hands a task on: from its timer to its work, from there to its follow-up, and back.
  lemma TaskIsHandedOn(s: State, step: Step, id: nat, task: nat) returns (id': nat)
    requires Inv(s) && Enabled(s, step) && Holds(s, id, task) && !IsStopped(Next(s, step))
    ensures Holds(Next(s, step), id', task)
  {
    id' := id;
    match step
    case Fire(timer) =>
      FiredRunsTask(s, timer);
      if timer == id {
        id' :| id' !in s.pending && Next(s, step).pending == s.pending[id' := Work(s.tasks[task], Some(task))];
      }
    case FollowUp(run) =>
      FollowUpArmsTask(s, run);
      if run == id {
        id' :| id' !in s.timers && Next(s, step).timers == s.timers[id' := task];
      }
    case Track(_, _, _) => assert s.nextId !in s.pending;
    case _ =>
  }

  lemma StartHoldsAll(s: State, task: nat)
    requires Inv(s) && !s.started && !IsStopped(s) && task < |s.tasks|
    ensures Held(Started(s), task)
  {
    HoldsOfAllScheduled(s.(started := true), |s.tasks|, s.nextId + task, task);
  }

  // The tasks are settled by the start.
  lemma StepKeepsTasks(s: State, step: Step)
    requires Inv(s) && Enabled(s, step)
    ensures s.started ==> Next(s, step).started && Next(s, step).tasks == s.tasks
    ensures !s.started && Next(s, step).started ==> step.Start? && !IsStopped(s) && Next(s, step).tasks == s.tasks
    ensures IsStopped(s) ==> IsStopped(Next(s, step))
  {
    if step.Start? && !IsStopped(s) && !s.started {
      HoldsOfAllScheduled(s.(started := true), |s.tasks|, 0, 0);
    }
  }

  lemma HeldOnStarted(s: State, step: Step, task: nat)
    requires Inv(s) && EachTaskHeld(s) && s.started && Enabled(s, step) && !IsStopped(Next(s, step)) && task < |s.tasks|
    ensures Held(Next(s, step), task)
  {
    StepKeepsTasks(s, step);
    assert Held(s, task);
    var id: nat :| Holds(s, id, task);
    var id' := TaskIsHandedOn(s, step, id, task);
  }

  lemma StepKeepsTasksHeld(s: State, step: Step)
    requires Inv(s) && EachTaskHeld(s) && Enabled(s, step)
    ensures EachTaskHeld(Next(s, step))
  {
    hide Inv, Holds, Held;
    var next := Next(s, step);
    StepKeepsTasks(s, step);
    if next.started && !IsStopped(next) {
      forall task: nat | task < |next.tasks| ensures Held(next, task) {
        if s.started {
          HeldOnStarted(s, step, task);
        } else {
          StartHoldsAll(s, task);
        }
      }
    }
  }

  // Two runs of one task are never in flight together, nor a run beside an armed timer of its task.
  lemma NoOverlap(s: State)
    requires Inv(s)
    ensures forall id, other | id in s.pending && other in s.pending && s.pending[id].task.Some? :: s.pending[id].task == s.pending[other].task ==> id == other
    ensures forall id, other | id in s.pending && other in s.timers :: s.pending[id].task != Some(s.timers[other])
  {
    forall id, other | id in s.pending && other in s.pending && s.pending[id].task.Some? && s.pending[id].task == s.pending[other].task
      ensures id == other
    {
      assert Holds(s, id, s.pending[id].task.value) && Holds(s, other, s.pending[id].task.value);
    }
    forall id, other | id in s.pending && other in s.timers ensures s.pending[id].task != Some(s.timers[other]) {
      if s.pending[id].task == Some(s.timers[other]) {
        assert Holds(s, id, s.timers[other]) && Holds(s, other, s.timers[other]);
      }
    }
  }

  // ---------- Runs ----------

  ghost predicate Legal(s: State, steps: seq<Step>)
    decreases |steps|
  {
    steps == [] || (Enabled(s, steps[0]) && Legal(Next(s, steps[0]), steps[1..]))
  }

  ghost function Run(s: State, steps: seq<Step>): State
    requires Legal(s, steps)
    decreases |steps|
  {
    if steps == [] then s else Run(Next(s, steps[0]), steps[1..])
  }

  lemma {:induction false} RunKeepsInv(s: State, steps: seq<Step>)
    requires Inv(s) && Legal(s, steps)
    ensures Inv(Run(s, steps))
    decreases |steps|
  {
    if steps != [] {
      StepKeepsInv(s, steps[0]);
      RunKeepsInv(Next(s, steps[0]), steps[1..]);
    }
  }

  lemma {:induction false} RunKeepsTasksHeld(s: State, steps: seq<Step>)
    requires Inv(s) && EachTaskHeld(s) && Legal(s, steps)
    ensures EachTaskHeld(Run(s, steps))
    decreases |steps|
  {
    if steps != [] {
      StepKeepsInv(s, steps[0]);
      StepKeepsTasksHeld(s, steps[0]);
      RunKeepsTasksHeld(Next(s, steps[0]), steps[1..]);
    }
  }

  // No call from within a scope falls between the end of the drain loop and Finished.
  ghost predicate QuietWindow(s: State, steps: seq<Step>)
    requires Legal(s, steps)
    decreases |steps|
  {
    steps == []
    || (!(s.stop.Drained? && steps[0].Track? && steps[0].scope.Within?)
        && QuietWindow(Next(s, steps[0]), steps[1..]))
  }

  ghost predicate AllAttached(s: State, steps: seq<Step>)
    requires Legal(s, steps)
    decreases |steps|
  {
    steps == [] || (Attached(s, steps[0]) && AllAttached(Next(s, steps[0]), steps[1..]))
  }

  lemma LateOnlyGrows(s: State, step: Step)
    requires Inv(s) && Enabled(s, step)
    ensures s.late <= Next(s, step).late
    ensures Next(s, step).late == s.late <==> !(s.stop.Drained? && step.Track? && step.scope.Within?)
  {
    match step
    case Start => if !IsStopped(s) && !s.started { HoldsOfAllScheduled(s.(started := true), |s.tasks|, 0, 0); }
    case _ =>
  }

  lemma {:induction false} LateIffNotQuiet(s: State, steps: seq<Step>)
    requires Inv(s) && Legal(s, steps)
    ensures s.late <= Run(s, steps).late
    ensures Run(s, steps).late == s.late <==> QuietWindow(s, steps)
    decreases |steps|
  {
    if steps != [] {
      StepKeepsInv(s, steps[0]);
      LateOnlyGrows(s, steps[0]);
      LateIffNotQuiet(Next(s, steps[0]), steps[1..]);
    }
  }

  // When in-scope calls come only from work in flight, the window is quiet.
  lemma {:induction false} AttachedIsQuiet(s: State, steps: seq<Step>)
    requires Inv(s) && s.late == {} && Legal(s, steps) && AllAttached(s, steps)
    ensures QuietWindow(s, steps)
    decreases |steps|
  {
    if steps != [] {
      StepKeepsInv(s, steps[0]);
      LateOnlyGrows(s, steps[0]);
      AttachedIsQuiet(Next(s, steps[0]), steps[1..]);
    }
  }

  // Over all runs from the start: once the runtime has finished, the only work that can be in flight
  // was tracked in the window; there is none at all when the window was quiet; and nothing is admitted.
  lemma FinishedIsIdle(steps: seq<Step>, external: bool, inScope: bool)
    requires Legal(INITIAL, steps) && Run(INITIAL, steps).phase.Finished?
    ensures var s := Run(INITIAL, steps);
      && s.pending.Keys <= s.late && s.timers == map[]
      && (s.late == {} <==> QuietWindow(INITIAL, steps))
      && (QuietWindow(INITIAL, steps) || AllAttached(INITIAL, steps) ==> s.pending == map[])
      && Admit(s, external, inScope) == IsStopping
  {
    RunKeepsInv(INITIAL, steps);
    LateIffNotQuiet(INITIAL, steps);
    if AllAttached(INITIAL, steps) {
      AttachedIsQuiet(INITIAL, steps);
    }
    var s := Run(INITIAL, steps);
    if s.late == {} {
      assert s.pending.Keys == {};
      assert s.pending == map[];
    }
  }

  // ---------- What a run decides ----------

  predicate StopsIn(steps: seq<Step>) {
    Quiesce in steps || AskStop in steps
  }

  lemma LastStep(s: State, steps: seq<Step>)
    requires Legal(s, steps) && steps != []
    ensures var n := |steps| - 1;
      Legal(s, steps[..n]) && Enabled(Run(s, steps[..n]), steps[n]) && Run(s, steps) == Next(Run(s, steps[..n]), steps[n])
    decreases |steps|
  {
    hide Next, Enabled;
    if |steps| > 1 {
      LastStep(Next(s, steps[0]), steps[1..]);
      assert steps[1..][..|steps| - 2] == steps[..|steps| - 1][1..];
    }
  }

  lemma PhaseAfterStep(s: State, step: Step)
    requires Inv(s) && Enabled(s, step)
    ensures var next := Next(s, step).phase;
      && (next.Finished? <==> s.phase.Finished? || step.FinishStop?)
      && (next.Stopping? || next.Finished? <==> s.phase.Stopping? || s.phase.Finished? || step.Quiesce? || step.AskStop?)
      && (next.Ready? <==> (s.phase.Ready? || (s.phase.Starting? && step.MakeReady?)) && !step.Quiesce? && !step.AskStop?)
    ensures Next(s, step).started <==> s.started || (step.Start? && !IsStopped(s))
  {
    if step.Start? && !IsStopped(s) && !s.started {
      HoldsOfAllScheduled(s.(started := true), |s.tasks|, 0, 0);
    }
  }

  // The phase by what has happened: a stop was asked for, it has been finished, readiness was declared.
  lemma {:induction false} PhaseOfRun(steps: seq<Step>)
    requires Legal(INITIAL, steps)
    ensures var phase := Run(INITIAL, steps).phase;
      && (phase.Finished? <==> FinishStop in steps)
      && (phase.Stopping? || phase.Finished? <==> StopsIn(steps))
      && (phase.Ready? <==> MakeReady in steps && !StopsIn(steps))
    ensures !StopsIn(steps) ==> (Run(INITIAL, steps).started <==> Start in steps)
  {
    hide Next, Enabled, Inv;
    if steps != [] {
      var n := |steps| - 1;
      LastStep(INITIAL, steps);
      RunKeepsInv(INITIAL, steps[..n]);
      PhaseOfRun(steps[..n]);
      PhaseAfterStep(Run(INITIAL, steps[..n]), steps[n]);
      assert forall step :: step in steps <==> step in steps[..n] || step == steps[n];
    }
  }

  // Who is let in, over every run: nobody once the stop is over; after a stop was asked for only calls
  // within a scope; and outside calls of external origin only once readiness was declared.
  lemma AdmissionByHistory(steps: seq<Step>, external: bool, inScope: bool)
    requires Legal(INITIAL, steps)
    ensures Admit(Run(INITIAL, steps), external, inScope) ==
      if FinishStop in steps || (StopsIn(steps) && !inScope) then IsStopping
      else if external && !inScope && MakeReady !in steps then NotReady
      else Admitted(Run(INITIAL, steps).nextId)
  {
    PhaseOfRun(steps);
  }

  // The names registered before anything else but work.
  function EarlyNames(steps: seq<Step>): seq<string> {
    if steps == [] then []
    else
      match steps[0]
      case Register(name) => [name] + EarlyNames(steps[1..])
      case Start => []
      case MakeReady => []
      case Quiesce => []
      case AskStop => []
      case _ => EarlyNames(steps[1..])
  }

  lemma TasksAfterStep(s: State, step: Step)
    requires Inv(s) && Enabled(s, step)
    ensures Next(s, step).tasks == if step.Register? && !s.started && s.phase.Starting? then s.tasks + [step.name] else s.tasks
    ensures !Next(s, step).started && Next(s, step).phase.Starting? <==>
      !s.started && s.phase.Starting? && !step.Start? && !step.MakeReady? && !step.Quiesce? && !step.AskStop?
  {
    if step.Start? && !IsStopped(s) && !s.started {
      HoldsOfAllScheduled(s.(started := true), |s.tasks|, 0, 0);
    }
  }

  lemma {:induction false} TasksOfRun(s: State, steps: seq<Step>)
    requires Inv(s) && Legal(s, steps)
    ensures Run(s, steps).tasks == s.tasks + if !s.started && s.phase.Starting? then EarlyNames(steps) else []
    decreases |steps|
  {
    hide Next, Enabled, Inv;
    if steps != [] {
      StepKeepsInv(s, steps[0]);
      TasksAfterStep(s, steps[0]);
      TasksOfRun(Next(s, steps[0]), steps[1..]);
    }
  }

  // Over every run the registered tasks are those named before the start, readiness and the stop; and from
  // the start until the stop each of them is armed, running or about to be armed again, and just one of these.
  lemma NamedTasksRepeat(steps: seq<Step>, task: nat) returns (id: nat)
    requires Legal(INITIAL, steps) && Start in steps && !StopsIn(steps) && task < |EarlyNames(steps)|
    ensures Run(INITIAL, steps).tasks == EarlyNames(steps)
    ensures Holds(Run(INITIAL, steps), id, task)
    ensures forall other: nat | Holds(Run(INITIAL, steps), other, task) :: other == id
  {
    TasksOfRun(INITIAL, steps);
    PhaseOfRun(steps);
    RunKeepsInv(INITIAL, steps);
    RunKeepsTasksHeld(INITIAL, steps);
    assert Held(Run(INITIAL, steps), task);
    id :| Holds(Run(INITIAL, steps), id, task);
  }

  // ---------- What outlives the stop ----------

  function SettledIn(steps: seq<Step>): set<nat> {
    set i | 0 <= i < |steps| && steps[i].Settle? :: steps[i].id
  }

  lemma SettledInTail(steps: seq<Step>)
    requires steps != []
    ensures SettledIn(steps) == SettledIn(steps[1..]) + if steps[0].Settle? then {steps[0].id} else {}
  {
    forall id | id in SettledIn(steps) ensures id in SettledIn(steps[1..]) || steps[0] == Settle(id) {
      var i :| 0 <= i < |steps| && steps[i] == Settle(id);
      assert i > 0 ==> steps[1..][i - 1] == Settle(id);
    }
    forall id | id in SettledIn(steps[1..]) ensures id in SettledIn(steps) {
      var i :| 0 <= i < |steps[1..]| && steps[1..][i] == Settle(id);
      assert steps[i + 1] == Settle(id);
    }
  }

  predicate PastLoop(s: State) {
    s.stop.Drained? || s.stop.Over?
  }

  // The work of in-scope calls past the end of the drain loop that the rest of the run does not settle.
  ghost function LateWork(s: State, steps: seq<Step>): set<nat>
    requires Legal(s, steps)
    decreases |steps|
  {
    if steps == [] then {}
    else
      (if s.stop.Drained? && steps[0].Track? && steps[0].scope.Within? && s.nextId !in SettledIn(steps[1..]) then {s.nextId} else {})
      + LateWork(Next(s, steps[0]), steps[1..])
  }

  // Past the end of the drain loop a step only settles work, or admits that of an in-scope call.
  lemma PastLoopStep(s: State, step: Step)
    requires Inv(s) && Enabled(s, step) && PastLoop(Next(s, step))
    ensures PastLoop(s) ==>
      (Next(s, step).pending.Keys == s.pending.Keys - (if step.Settle? then {step.id} else {})
         + if s.stop.Drained? && step.Track? && step.scope.Within? then {s.nextId} else {})
    ensures !PastLoop(s) ==> Next(s, step).pending.Keys == {} && !s.stop.Drained?
  {
    match step
    case Start => if !IsStopped(s) && !s.started { HoldsOfAllScheduled(s.(started := true), |s.tasks|, 0, 0); }
    case _ =>
  }

  lemma PastLoopStays(s: State, step: Step)
    requires Inv(s) && Enabled(s, step) && PastLoop(s)
    ensures PastLoop(Next(s, step))
  {
  }

  lemma {:induction false} PendingPastLoop(s: State, steps: seq<Step>)
    requires Inv(s) && Legal(s, steps) && PastLoop(Run(s, steps))
    ensures Run(s, steps).pending.Keys == (if PastLoop(s) then s.pending.Keys - SettledIn(steps) else {}) + LateWork(s, steps)
    decreases |steps|
  {
    hide Inv, Next, Enabled;
    if steps == [] {
      assert SettledIn(steps) == {};
    } else {
      var next := Next(s, steps[0]);
      StepKeepsInv(s, steps[0]);
      PendingPastLoop(next, steps[1..]);
      SettledInTail(steps);
      if PastLoop(s) {
        PastLoopStays(s, steps[0]);
      }
      if PastLoop(next) {
        PastLoopStep(s, steps[0]);
      }
    }
  }

  // Over all runs: what is in flight when the runtime has finished is exactly the work of in-scope calls
  // between the end of the drain loop and then that has not settled.
  lemma OutlivesExactly(steps: seq<Step>)
    requires Legal(INITIAL, steps) && Run(INITIAL, steps).phase.Finished?
    ensures Run(INITIAL, steps).pending.Keys == LateWork(INITIAL, steps)
  {
    RunKeepsInv(INITIAL, steps);
    PendingPastLoop(INITIAL, steps);
  }

  // ---------- The stop comes to its end ----------

  // The steps by which work in flight ends and the stop goes on.
  predicate WindsDown(step: Step) {
    step.Settle? || step.Retest? || step.FinishStop?
  }

  lemma OneMore(s: State, step: Step, rest: seq<Step>)
    requires Enabled(s, step) && Legal(Next(s, step), rest)
    ensures Legal(s, [step] + rest) && Run(s, [step] + rest) == Run(Next(s, step), rest)
  {
    assert ([step] + rest)[1..] == rest;
  }

  // Once asked for, the stop is over as soon as the work in flight has settled: it needs nothing else.
  lemma {:induction false} StopFinishes(s: State) returns (steps: seq<Step>)
    requires !s.stop.NotAsked?
    ensures Legal(s, steps) && Run(s, steps).stop.Over? && forall step | step in steps :: WindsDown(step)
    decreases s.pending.Keys, if s.stop.Awaiting? then 2 else if s.stop.Drained? then 1 else 0
  {
    match s.stop
    case Over => steps := [];
    case Drained =>
      OneMore(s, FinishStop, []);
      steps := [FinishStop] + [];
    case Awaiting(snapshot) =>
      if id :| id in s.pending {
        assert Settled(s, id).pending.Keys < s.pending.Keys;
        var rest := StopFinishes(Settled(s, id));
        OneMore(s, Settle(id), rest);
        steps := [Settle(id)] + rest;
      } else {
        assert s.pending == map[];
        var rest := StopFinishes(LoopTested(s));
        OneMore(s, Retest, rest);
        steps := [Retest] + rest;
      }
  }

  // The detached call that spoils it: a parent settles, the drain loop ends, and only then the code
  // the parent left behind tracks new work, which is still in flight when the runtime has finished.
  lemma DetachedWorkOutlivesStop()
    ensures exists steps | Legal(INITIAL, steps) :: Run(INITIAL, steps).phase.Finished? && Run(INITIAL, steps).pending != map[]
  {
    hide Legal, Run;
    var s1 := INITIAL.(phase := Ready);
    var s2 := s1.(pending := map[0 := Work("parent", None)], nextId := 1);
    var rest := ParentLeavesChild();
    assert s2.pending.Keys == {0};
    rest := After(s2, AskStop, rest, WAITING_FOR_PARENT, CHILD_IN_FLIGHT);
    rest := After(s1, Track("parent", true, Outside), rest, s2, CHILD_IN_FLIGHT);
    rest := After(INITIAL, MakeReady, rest, s1, CHILD_IN_FLIGHT);
    assert 1 in CHILD_IN_FLIGHT.pending;
  }

  const WAITING_FOR_PARENT := State(Stopping, false, [], map[0 := Work("parent", None)], map[], map[], Awaiting({0}), 1, {})

  const CHILD_IN_FLIGHT := State(Finished, false, [], map[1 := Work("child", None)], map[], map[], Over, 2, {1})

  lemma ParentLeavesChild() returns (rest: seq<Step>)
    ensures Legal(WAITING_FOR_PARENT, rest) && Run(WAITING_FOR_PARENT, rest) == CHILD_IN_FLIGHT
  {
    hide Legal, Run;
    var s4 := WAITING_FOR_PARENT.(pending := map[]);
    var s5 := s4.(stop := Drained);
    var s6 := s5.(pending := map[1 := Work("child", None)], nextId := 2, late := {1});
    RunOfNone(CHILD_IN_FLIGHT);
    rest := After(s6, FinishStop, [], CHILD_IN_FLIGHT, CHILD_IN_FLIGHT);
    rest := After(s5, Track("child", false, Within(0)), rest, s6, CHILD_IN_FLIGHT);
    assert s4.pending.Keys == {};
    rest := After(s4, Retest, rest, s5, CHILD_IN_FLIGHT);
    assert WAITING_FOR_PARENT.pending - {0} == map[];
    rest := After(WAITING_FOR_PARENT, Settle(0), rest, s4, CHILD_IN_FLIGHT);
  }

  lemma RunOfNone(s: State)
    ensures Legal(s, []) && Run(s, []) == s
  {
  }

  lemma After(s: State, step: Step, rest: seq<Step>, next: State, end: State) returns (steps: seq<Step>)
    requires Enabled(s, step) && Next(s, step) == next && Legal(next, rest) && Run(next, rest) == end
    ensures Legal(s, steps) && Run(s, steps) == end
  {
    steps := [step] + rest;
  }
}
