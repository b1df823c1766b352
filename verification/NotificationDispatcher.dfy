// The queue behind notification side effects (sockets and pushes). Every function below is one block
// of code that runs without yielding; the blocks of different callers interleave freely.
module NotificationDispatcher {
  type Batch = seq<string>

  // A drain is set up first (Waiting), handles one batch at a time (Busy) and is then gone (Idle).
  datatype Drain = Idle | Waiting | Busy(batch: Batch)

  // `generation` counts the drains set up so far; `enqueued` and `handled` are the whole history.
  datatype State = State(
    queue: seq<Batch>,
    drain: Drain,
    scheduled: bool,
    stopped: bool,
    generation: nat,
    enqueued: seq<Batch>,
    handled: seq<Batch>
  )

  const INITIAL := State([], Idle, false, false, 0, [], [])

  function Draining(s: State): State {
    if s.drain.Idle? then s.(drain := Waiting, generation := s.generation + 1) else s
  }

  function DrainScheduled(s: State): State {
    if s.scheduled || !s.drain.Idle? then s else s.(scheduled := true)
  }

  // An enqueue on a stopped dispatcher throws and changes nothing.
  function Enqueued(s: State, batch: Batch): State {
    if s.stopped || batch == [] then s
    else DrainScheduled(s.(queue := s.queue + [batch], enqueued := s.enqueued + [batch]))
  }

  // The scheduled callback.
  function CallbackRun(s: State): State {
    Draining(s.(scheduled := false))
  }

  // One turn of the drain: the batch in hand is finished, the next one taken up, or the drain ends.
  function Turned(s: State): State {
    var done := if s.drain.Busy? then s.(handled := s.handled + [s.drain.batch]) else s;
    if done.queue == [] then done.(drain := Idle)
    else done.(queue := done.queue[1..], drain := Busy(done.queue[0]))
  }

  function Stopped(s: State): State {
    Draining(s.(stopped := true))
  }

  class Dispatcher {
    var queue: seq<Batch>
    var drain: Drain
    var stopped: bool
    var scheduled: bool
    var generation: nat
    ghost var enqueued: seq<Batch>
    ghost var handled: seq<Batch>

    ghost function View(): State
      reads this
    {
      State(queue, drain, scheduled, stopped, generation, enqueued, handled)
    }

    constructor ()
      ensures View() == INITIAL
    {
      queue, drain, stopped, scheduled := [], Idle, false, false;
      generation, enqueued, handled := 0, [], [];
    }

    method BeginDrain()
      modifies this
      ensures View() == Draining(old(View()))
    {
      if !drain.Idle? {
        return;
      }
      drain := Waiting;
      generation := generation + 1;
    }

    method ScheduleDrain()
      modifies this
      ensures View() == DrainScheduled(old(View()))
    {
      if scheduled || !drain.Idle? {
        return;
      }
      scheduled := true;
    }

    method Enqueue(batch: Batch) returns (thrown: bool)
      modifies this
      ensures thrown == old(stopped)
      ensures View() == Enqueued(old(View()), batch)
    {
      if stopped {
        return true;
      }
      if |batch| == 0 {
        return false;
      }
      queue := queue + [batch];
      enqueued := enqueued + [batch];
      ScheduleDrain();
      return false;
    }

    method RunScheduled()
      requires scheduled
      modifies this
      ensures View() == CallbackRun(old(View()))
    {
      scheduled := false;
      BeginDrain();
    }

    // The rescheduling of a drain that left a batch behind is the dead branch below: the loop leaves
    // only when the queue is empty, and nothing runs between that test and this one.
    method Turn()
      requires !drain.Idle?
      modifies this
      ensures View() == Turned(old(View()))
    {
      if drain.Busy? {
        handled := handled + [drain.batch];
      }
      if |queue| > 0 {
        drain := Busy(queue[0]);
        queue := queue[1..];
      } else {
        drain := Idle;
        if |queue| > 0 {
          assert false;
        }
      }
    }

    method Flush()
      modifies this
      ensures View() == Draining(old(View()))
    {
      BeginDrain();
    }

    // Returns the drain that the caller goes on to wait for.
    method Stop() returns (awaited: nat)
      modifies this
      ensures View() == Stopped(old(View())) && awaited == generation
    {
      stopped := true;
      BeginDrain();
      awaited := generation;
    }
  }

  function InHand(s: State): seq<Batch> {
    if s.drain.Busy? then [s.drain.batch] else []
  }

  // No lost wake-up, and every batch is in exactly one place, in the order in which it came.
  predicate Inv(s: State) {
    && (s.queue != [] ==> s.scheduled || !s.drain.Idle?)
    && s.enqueued == s.handled + InHand(s) + s.queue
  }

  // The drain numbered `awaited` is over once another one was set up or none is left.
  predicate DrainOver(s: State, awaited: nat) {
    s.generation > awaited || s.drain.Idle?
  }

  // What the caller of stop knows while it waits: nothing new comes in, and when the drain it waits
  // for is over, everything that ever came in has been handled.
  predicate StopInv(s: State, awaited: nat) {
    && s.stopped && awaited <= s.generation
    && (DrainOver(s, awaited) ==> s.queue == [] && !s.drain.Busy?)
  }

  datatype Step = Enqueue(batch: Batch) | RunScheduled | Turn | Flush | Stop

  predicate Enabled(s: State, step: Step) {
    match step
    case RunScheduled => s.scheduled
    case Turn => !s.drain.Idle?
    case _ => true
  }

  function Next(s: State, step: Step): State
    requires Enabled(s, step)
  {
    match step
    case Enqueue(batch) => Enqueued(s, batch)
    case RunScheduled => CallbackRun(s)
    case Turn => Turned(s)
    case Flush => Draining(s)
    case Stop => Stopped(s)
  }

  lemma TurnMovesOneBatch(s: State)
    requires Inv(s) && !s.drain.Idle?
    ensures Inv(Turned(s)) && Turned(s).enqueued == s.enqueued
  {
    if s.queue != [] {
      assert s.queue == [s.queue[0]] + s.queue[1..];
    }
  }

  // Every block keeps the invariant, and history only grows at its end.
  lemma StepKeepsInv(s: State, step: Step)
    requires Inv(s) && Enabled(s, step)
    ensures Inv(Next(s, step))
    ensures s.handled <= Next(s, step).handled && s.enqueued <= Next(s, step).enqueued
    ensures s.stopped ==> Next(s, step).stopped && Next(s, step).enqueued == s.enqueued
  {
    match step
    case Turn => TurnMovesOneBatch(s);
    case Enqueue(batch) => assert s.handled + InHand(s) + s.queue + [batch] == s.handled + InHand(s) + (s.queue + [batch]);
    case _ =>
  }

  lemma StepKeepsStopInv(s: State, step: Step, awaited: nat)
    requires Inv(s) && Enabled(s, step) && StopInv(s, awaited)
    ensures StopInv(Next(s, step), awaited)
  {
  }

  lemma StopBegins(s: State)
    requires Inv(s)
    ensures Inv(Stopped(s)) && StopInv(Stopped(s), Stopped(s).generation)
  {
  }

  predicate Legal(s: State, steps: seq<Step>)
    decreases |steps|
  {
    steps == [] || (Enabled(s, steps[0]) && Legal(Next(s, steps[0]), steps[1..]))
  }

  function Run(s: State, steps: seq<Step>): State
    requires Legal(s, steps)
    decreases |steps|
  {
    if steps == [] then s else Run(Next(s, steps[0]), steps[1..])
  }

  lemma {:induction false} RunKeepsInv(s: State, steps: seq<Step>)
    requires Inv(s) && Legal(s, steps)
    ensures Inv(Run(s, steps)) && s.enqueued <= Run(s, steps).enqueued && s.handled <= Run(s, steps).handled
    decreases |steps|
  {
    if steps != [] {
      StepKeepsInv(s, steps[0]);
      RunKeepsInv(Next(s, steps[0]), steps[1..]);
    }
  }

  lemma {:induction false} WaitingForStop(s: State, steps: seq<Step>, awaited: nat)
    requires Inv(s) && StopInv(s, awaited) && Legal(s, steps)
    ensures Inv(Run(s, steps)) && StopInv(Run(s, steps), awaited) && Run(s, steps).enqueued == s.enqueued
    decreases |steps|
  {
    if steps != [] {
      StepKeepsInv(s, steps[0]);
      StepKeepsStopInv(s, steps[0], awaited);
      WaitingForStop(Next(s, steps[0]), steps[1..], awaited);
    }
  }

  // From the start, through any run, a stop and any further run: once the drain that stop waits for
  // is over, the handled batches are exactly the enqueued ones, in their order, each once.
  lemma StopWaitsForEverything(before: seq<Step>, after: seq<Step>)
    requires Legal(INITIAL, before) && Legal(Stopped(Run(INITIAL, before)), after)
    requires DrainOver(Run(Stopped(Run(INITIAL, before)), after), Stopped(Run(INITIAL, before)).generation)
    ensures Run(Stopped(Run(INITIAL, before)), after).handled == Run(INITIAL, before).enqueued
  {
    RunKeepsInv(INITIAL, before);
    StopBegins(Run(INITIAL, before));
    WaitingForStop(Stopped(Run(INITIAL, before)), after, Stopped(Run(INITIAL, before)).generation);
  }

  // How much a drain still has to do.
  function Work(s: State): nat {
    |s.queue| + (if s.drain.Idle? then 0 else 1)
  }

  // Left alone, by its own steps only, the drain of a nonempty queue reaches its end, so that no batch
  // waits for ever.
  lemma {:induction false} DrainFinishes(s: State) returns (steps: seq<Step>)
    requires Inv(s)
    ensures Legal(s, steps) && Run(s, steps).drain.Idle? && Run(s, steps).handled == s.enqueued
    ensures forall step | step in steps :: step.RunScheduled? || step.Turn?
    decreases Work(s), if s.scheduled && s.drain.Idle? then 1 else 0
  {
    if !s.drain.Idle? {
      TurnMovesOneBatch(s);
      var rest := DrainFinishes(Turned(s));
      steps := [Turn] + rest;
    } else if s.queue == [] {
      steps := [];
    } else {
      TurnMovesOneBatch(CallbackRun(s));
      var rest := DrainFinishes(Turned(CallbackRun(s)));
      steps := [RunScheduled, Turn] + rest;
      assert steps[1..] == [Turn] + rest && steps[1..][1..] == rest;
    }
  }

  // ---------- Drains and callbacks ----------

  // The step sets up a drain: there was none, and now there is one.
  predicate Begins(s: State, step: Step)
    requires Enabled(s, step)
  {
    s.drain.Idle? && !Next(s, step).drain.Idle?
  }

  // How many drains a run sets up.
  function Begun(s: State, steps: seq<Step>): nat
    requires Legal(s, steps)
    decreases |steps|
  {
    if steps == [] then 0 else (if Begins(s, steps[0]) then 1 else 0) + Begun(Next(s, steps[0]), steps[1..])
  }

  // In some state that the run visits, the last one included, no drain is left.
  predicate SomewhereIdle(s: State, steps: seq<Step>)
    requires Legal(s, steps)
    decreases |steps|
  {
    s.drain.Idle? || (steps != [] && SomewhereIdle(Next(s, steps[0]), steps[1..]))
  }

  lemma {:induction false} GenerationCounts(s: State, steps: seq<Step>)
    requires Legal(s, steps)
    ensures Run(s, steps).generation == s.generation + Begun(s, steps)
    ensures s.drain.Idle? && !Run(s, steps).drain.Idle? ==> Begun(s, steps) > 0
    ensures SomewhereIdle(s, steps) <==> Run(s, steps).drain.Idle? || s.drain.Idle? || Begun(s, steps) > 0
    decreases |steps|
  {
    if steps != [] {
      GenerationCounts(Next(s, steps[0]), steps[1..]);
    }
  }

  // What the caller of stop waits for is over exactly when the drain of that moment has come to its end
  // since, whatever drains have been set up after it.
  lemma AwaitedDrainIsOver(s: State, steps: seq<Step>)
    requires Legal(Stopped(s), steps)
    ensures !Stopped(s).drain.Idle?
    ensures DrainOver(Run(Stopped(s), steps), Stopped(s).generation) <==> SomewhereIdle(Stopped(s), steps)
  {
    GenerationCounts(Stopped(s), steps);
  }

  function CallbacksRun(steps: seq<Step>): nat {
    if steps == [] then 0 else (if steps[0].RunScheduled? then 1 else 0) + CallbacksRun(steps[1..])
  }

  // The batches that came while no callback was scheduled and no drain was going on.
  function Wakeups(s: State, steps: seq<Step>): nat
    requires Legal(s, steps)
    decreases |steps|
  {
    if steps == [] then 0
    else
      (if steps[0].Enqueue? && steps[0].batch != [] && !s.stopped && !s.scheduled && s.drain.Idle? then 1 else 0)
      + Wakeups(Next(s, steps[0]), steps[1..])
  }

  // Over every run: a callback is scheduled for exactly those batches, and runs once for each.
  lemma {:induction false} OneCallbackPerWakeup(s: State, steps: seq<Step>)
    requires Legal(s, steps)
    ensures CallbacksRun(steps) + (if Run(s, steps).scheduled then 1 else 0) == (if s.scheduled then 1 else 0) + Wakeups(s, steps)
    decreases |steps|
  {
    if steps != [] {
      OneCallbackPerWakeup(Next(s, steps[0]), steps[1..]);
    }
  }
}
