// The press and release machine of the Windows input service. The input thread and any number of
// release fallback threads share one atomic flag; key events, polls, compare-exchanges, callbacks and
// rebinding interleave step by step.
module PttInput {
  import opened Options
  import opened Text

  const FALLBACK_POLLS := 3000

  datatype Matcher = VirtualKey(code: nat) | ScanCode(makeCode: nat, isExtended: bool) {
    predicate Matches(event: RawKey) {
      match this
      case VirtualKey(code) => event.virtualKey == code
      case ScanCode(make, extended) => event.makeCode == make && event.isExtended == extended
    }

    // Whether there is a virtual key that tells the physical state of the bound key.
    predicate HasReleaseKeys() {
      match this
      case VirtualKey(_) => true
      case ScanCode(make, extended) =>
        (make in {0x2A, 0x36} && !extended) || make in {0x1D, 0x38}
    }
  }

  datatype RawKey = RawKey(virtualKey: nat, makeCode: nat, isExtended: bool, isKeyUp: bool)

  datatype PttEvent = Down | Up

  // What happened to the flag: pressed, released, or a press forgotten by a rebinding.
  datatype Transition = Pressed | ReleasedKey | Dropped

  // ---------- The atomic flag and the binding ----------

  // The binding a request leads to: none unless it names a supported key in push-to-talk mode.
  function RequestedBinding(mode: Option<string>, keyCode: Option<string>, resolve: string -> Option<Matcher>): Option<Matcher> {
    if mode.None? || Trim(mode.value) != "ptt" then None
    else if keyCode.None? || Trim(keyCode.value) == "" then None
    else resolve(Trim(keyCode.value))
  }

  class InputState {
    var isPressed: bool
    var binding: Option<Matcher>

    constructor ()
      ensures !isPressed && binding.None?
    {
      isPressed, binding := false, None;
    }

    method Swap(value: bool) returns (before: bool)
      modifies this`isPressed
      ensures before == old(isPressed) && isPressed == value
    {
      before := isPressed;
      isPressed := value;
    }

    method ResolveRawKeyboardAction(matcher: Matcher, event: RawKey) returns (action: Option<PttEvent>)
      modifies this`isPressed
      ensures isPressed == FlagAfterKey(matcher, event, old(isPressed))
      ensures action == match KeyTransition(matcher, event, old(isPressed))
                        case Some(Pressed) => Some(Down)
                        case Some(_) => Some(Up)
                        case None => None
    {
      if !matcher.Matches(event) {
        return None;
      }
      if event.isKeyUp {
        var before := Swap(false);
        return if before then Some(Up) else None;
      } else {
        var before := Swap(true);
        return if !before then Some(Down) else None;
      }
    }

    // The compare-exchange of a fallback thread.
    method ReleaseIfPressed() returns (released: bool)
      modifies this`isPressed
      ensures released == old(isPressed) && !isPressed
    {
      if isPressed {
        isPressed := false;
        return true;
      }
      return false;
    }

    method ApplyBindingCommand(mode: Option<string>, keyCode: Option<string>, resolve: string -> Option<Matcher>)
      modifies this
      ensures binding == RequestedBinding(mode, keyCode, resolve) && !isPressed
    {
      var normalized := if mode.Some? then Trim(mode.value) else "live";
      if normalized != "ptt" {
        ClearActiveBinding();
        return;
      }
      if keyCode.None? || Trim(keyCode.value) == "" {
        ClearActiveBinding();
        return;
      }
      var matcher := resolve(Trim(keyCode.value));
      if matcher.None? {
        ClearActiveBinding();
        return;
      }
      binding := matcher;
      isPressed := false;
    }

    method ClearActiveBinding()
      modifies this
      ensures binding.None? && !isPressed
    {
      binding := None;
      isPressed := false;
    }
  }

  function KeyTransition(matcher: Matcher, event: RawKey, pressed: bool): Option<Transition> {
    if !matcher.Matches(event) || event.isKeyUp != pressed then None
    else if event.isKeyUp then Some(ReleasedKey)
    else Some(Pressed)
  }

  function FlagAfterKey(matcher: Matcher, event: RawKey, pressed: bool): bool {
    if matcher.Matches(event) then !event.isKeyUp else pressed
  }

  // ---------- The threads ----------

  // The input thread between two window messages, or inside one.
  datatype InputThread = Idle | CallingDown(matcher: Matcher) | Spawning(matcher: Matcher) | CallingUp | Rebinding

  datatype Fallback = Checking(polls: nat) | Sleeping(polls: nat) | Releasing | ReportingUp | Finished

  // `transitions` is the history of the flag, `delivered` that of the callback.
  datatype State = State(
    pressed: bool, binding: Option<Matcher>, input: InputThread, fallbacks: seq<Fallback>,
    transitions: seq<Transition>, delivered: seq<PttEvent>)

  function Initial(): State {
    State(false, None, Idle, [], [], [])
  }

  datatype Step =
    | Key(event: RawKey)
    | InputContinues
    | Rebind(binding: Option<Matcher>)
    | FallbackContinues(i: nat, physicallyDown: bool)

  function Next(s: State, step: Step): Option<State> {
    match step
    case Key(event) =>
      if !s.input.Idle? || s.binding.None? then None
      else
        var matcher := s.binding.value;
        var s' := s.(pressed := FlagAfterKey(matcher, event, s.pressed));
        (match KeyTransition(matcher, event, s.pressed)
         case None => Some(s')
         case Some(t) =>
           Some(s'.(transitions := s.transitions + [t], input := if t.Pressed? then CallingDown(matcher) else CallingUp)))
    case Rebind(binding) =>
      if s.input.Idle? then Some(s.(binding := binding, input := Rebinding)) else None
    case InputContinues =>
      (match s.input
       case Idle => None
       case CallingDown(matcher) => Some(s.(delivered := s.delivered + [Down], input := Spawning(matcher)))
       case Spawning(matcher) =>
         Some(s.(input := Idle, fallbacks := if matcher.HasReleaseKeys() then s.fallbacks + [Checking(0)] else s.fallbacks))
       case CallingUp => Some(s.(delivered := s.delivered + [Up], input := Idle))
       case Rebinding =>
         Some(s.(pressed := false, input := Idle, transitions := if s.pressed then s.transitions + [Dropped] else s.transitions)))
    case FallbackContinues(i, physicallyDown) =>
      if i >= |s.fallbacks| then None
      else match s.fallbacks[i]
        case Checking(polls) =>
          Some(s.(fallbacks := s.fallbacks[i := if polls == FALLBACK_POLLS || !s.pressed then Finished else Sleeping(polls)]))
        case Sleeping(polls) =>
          Some(s.(fallbacks := s.fallbacks[i := if physicallyDown then Checking(polls + 1) else Releasing]))
        case Releasing =>
          if s.pressed then
            Some(s.(pressed := false, transitions := s.transitions + [ReleasedKey], fallbacks := s.fallbacks[i := ReportingUp]))
          else Some(s.(fallbacks := s.fallbacks[i := Finished]))
        case ReportingUp => Some(s.(delivered := s.delivered + [Up], fallbacks := s.fallbacks[i := Finished]))
        case Finished => None
  }

  function Run(s: State, steps: seq<Step>): Option<State>
    decreases |steps|
  {
    if steps == [] then Some(s)
    else match Next(s, steps[0])
      case None => None
      case Some(s') => Run(s', steps[1..])
  }

  // ---------- The flag ----------

  // Presses stand at the even places of the history, releases and drops at the odd ones.
  predicate Alternates(s: State) {
    && (forall k :: 0 <= k < |s.transitions| ==> (s.transitions[k].Pressed? <==> k % 2 == 0))
    && (s.pressed <==> |s.transitions| % 2 == 1)
  }

  lemma StepAlternates(s: State, step: Step)
    requires Alternates(s) && Next(s, step).Some?
    ensures Alternates(Next(s, step).value)
  {
  }

  function Count<T(==)>(s: seq<T>, x: T): nat {
    if s == [] then 0 else Count(s[..|s| - 1], x) + if s[|s| - 1] == x then 1 else 0
  }

  // In every interleaving each release or drop at the flag directly follows its own press.
  lemma {:induction false} FlagAlternates(s: State, steps: seq<Step>)
    requires Alternates(s) && Run(s, steps).Some?
    ensures Alternates(Run(s, steps).value)
    decreases |steps|
  {
    if steps != [] {
      StepAlternates(s, steps[0]);
      FlagAlternates(Next(s, steps[0]).value, steps[1..]);
    }
  }

  lemma {:induction false} AlternatingCounts(t: seq<Transition>)
    requires forall k :: 0 <= k < |t| ==> (t[k].Pressed? <==> k % 2 == 0)
    ensures Count(t, Pressed) == Count(t, ReleasedKey) + Count(t, Dropped) + |t| % 2
  {
    if t != [] {
      AlternatingCounts(t[..|t| - 1]);
    }
  }

  // Presses are releases plus drops, plus one while the key is held; and without rebinding presses
  // and releases strictly alternate.
  lemma PressesAreAccountedFor(steps: seq<Step>)
    requires Run(Initial(), steps).Some?
    ensures var s := Run(Initial(), steps).value;
            && Count(s.transitions, Pressed)
               == Count(s.transitions, ReleasedKey) + Count(s.transitions, Dropped) + (if s.pressed then 1 else 0)
            && (forall k :: 0 <= k < |s.transitions| && !s.transitions[k].Pressed? ==> k > 0 && s.transitions[k - 1].Pressed?)
            && (Dropped !in s.transitions ==>
                forall k :: 0 <= k < |s.transitions| ==> s.transitions[k] == if k % 2 == 0 then Pressed else ReleasedKey)
  {
    FlagAlternates(Initial(), steps);
    AlternatingCounts(Run(Initial(), steps).value.transitions);
  }

  lemma {:induction false} NoDropWithoutRebinding(s: State, steps: seq<Step>)
    requires Run(s, steps).Some? && s.input != Rebinding && Dropped !in s.transitions
    requires forall i :: 0 <= i < |steps| ==> !steps[i].Rebind?
    ensures Dropped !in Run(s, steps).value.transitions
    decreases |steps|
  {
    if steps != [] {
      var s' := Next(s, steps[0]).value;
      assert forall i :: 0 <= i < |steps[1..]| ==> steps[1..][i] == steps[i + 1];
      NoDropWithoutRebinding(s', steps[1..]);
    }
  }

  // ---------- The callback ----------

  function PendingDowns(s: State): nat {
    if s.input.CallingDown? then 1 else 0
  }

  function PendingUps(s: State): nat {
    (if s.input.CallingUp? then 1 else 0) + Count(s.fallbacks, ReportingUp)
  }

  // Every press and every release at the flag is delivered once, now or by the thread that made it.
  predicate DeliveryBalanced(s: State) {
    && Count(s.delivered, Down) + PendingDowns(s) == Count(s.transitions, Pressed)
    && Count(s.delivered, Up) + PendingUps(s) == Count(s.transitions, ReleasedKey)
  }

  lemma CountAppend<T>(s: seq<T>, y: T, x: T)
    ensures Count(s + [y], x) == Count(s, x) + if y == x then 1 else 0
  {
    assert (s + [y])[..|s|] == s;
  }

  lemma {:induction false} CountUpdate<T>(s: seq<T>, i: nat, y: T, x: T)
    requires i < |s|
    ensures Count(s[i := y], x) + (if s[i] == x then 1 else 0) == Count(s, x) + (if y == x then 1 else 0)
  {
    var n := |s| - 1;
    if i == n {
      assert s[i := y][..n] == s[..n];
    } else {
      assert s[i := y][..n] == s[..n][i := y];
      CountUpdate(s[..n], i, y, x);
    }
  }

  lemma StepBalanced(s: State, step: Step)
    requires DeliveryBalanced(s) && Next(s, step).Some?
    ensures DeliveryBalanced(Next(s, step).value)
  {
    hide Count;
    var s' := Next(s, step).value;
    forall t, x { CountAppend(s.transitions, t, x); }
    forall e, x { CountAppend(s.delivered, e, x); }
    forall f { CountAppend(s.fallbacks, f, ReportingUp); }
    if step.FallbackContinues? && step.i < |s.fallbacks| {
      CountUpdate(s.fallbacks, step.i, Next(s, step).value.fallbacks[step.i], ReportingUp);
    }
  }

  // In every interleaving the callbacks made and still to be made match the flag's history.
  lemma {:induction false} CallbacksMatchFlag(s: State, steps: seq<Step>)
    requires DeliveryBalanced(s) && Run(s, steps).Some?
    ensures DeliveryBalanced(Run(s, steps).value)
    decreases |steps|
  {
    if steps != [] {
      StepBalanced(s, steps[0]);
      CallbacksMatchFlag(Next(s, steps[0]).value, steps[1..]);
    }
  }

  // Once no thread is inside a callback, the receiver has had as many releases as presses, up to the
  // dropped ones and a held key.
  lemma SettledDeliveries(steps: seq<Step>)
    requires Run(Initial(), steps).Some?
    requires var s := Run(Initial(), steps).value; PendingDowns(s) == 0 && PendingUps(s) == 0
    ensures var s := Run(Initial(), steps).value;
            Count(s.delivered, Down) == Count(s.delivered, Up) + Count(s.transitions, Dropped) + (if s.pressed then 1 else 0)
  {
    CallbacksMatchFlag(Initial(), steps);
    PressesAreAccountedFor(steps);
  }

  // One press and release of a bound key, with the fallback of the press still asleep.
  lemma FirstTap() returns (steps: seq<Step>)
    ensures Run(Initial(), steps) == Some(State(false, Some(VirtualKey(32)), Idle, [Sleeping(0)], [Pressed, ReleasedKey], [Down, Up]))
  {
    hide Run;
    var m := VirtualKey(32);
    var down, up := RawKey(32, 0, false, false), RawKey(32, 0, false, true);
    var t1, t2, d1, d2 := [Pressed], [Pressed, ReleasedKey], [Down], [Down, Up];
    var noTransitions: seq<Transition>, noEvents: seq<PttEvent>, noFallbacks: seq<Fallback> := [], [], [];
    assert noTransitions + [Pressed] == t1 && t1 + [ReleasedKey] == t2;
    assert noEvents + [Down] == d1 && d1 + [Up] == d2;
    assert noFallbacks + [Checking(0)] == [Checking(0)] && [Checking(0)][0 := Sleeping(0)] == [Sleeping(0)];
    StartRun();
    var r1 := Extend([], Initial(), Rebind(Some(m)), State(false, Some(m), Rebinding, [], [], []));
    var r2 := Extend(r1, State(false, Some(m), Rebinding, [], [], []), InputContinues, State(false, Some(m), Idle, [], [], []));
    var r3 := Extend(r2, State(false, Some(m), Idle, [], [], []), Key(down), State(true, Some(m), CallingDown(m), [], t1, []));
    var r4 := Extend(r3, State(true, Some(m), CallingDown(m), [], t1, []), InputContinues, State(true, Some(m), Spawning(m), [], t1, d1));
    var r5 := Extend(r4, State(true, Some(m), Spawning(m), [], t1, d1), InputContinues, State(true, Some(m), Idle, [Checking(0)], t1, d1));
    var r6 := Extend(r5, State(true, Some(m), Idle, [Checking(0)], t1, d1), FallbackContinues(0, true), State(true, Some(m), Idle, [Sleeping(0)], t1, d1));
    var r7 := Extend(r6, State(true, Some(m), Idle, [Sleeping(0)], t1, d1), Key(up), State(false, Some(m), CallingUp, [Sleeping(0)], t2, d1));
    steps := Extend(r7, State(false, Some(m), CallingUp, [Sleeping(0)], t2, d1), InputContinues, State(false, Some(m), Idle, [Sleeping(0)], t2, d2));
  }

  // The order of the callbacks is a different matter: in this run a fallback thread of an earlier press
  // reports the release of a later press before the input thread reports that press.
  lemma ReleaseMayOvertakePress()
    ensures exists steps :: Run(Initial(), steps).Some? && Run(Initial(), steps).value.delivered == [Down, Up, Up, Down]
  {
    hide Run;
    var m := VirtualKey(32);
    var down := RawKey(32, 0, false, false);
    var t2, d2 := [Pressed, ReleasedKey], [Down, Up];
    var r8 := FirstTap();
    var f := [Sleeping(0)];
    assert f[0 := Releasing] == [Releasing] && [Releasing][0 := ReportingUp] == [ReportingUp];
    assert [ReportingUp][0 := Finished] == [Finished];
    assert t2 + [Pressed] + [ReleasedKey] == t2 + t2 && d2 + [Up] + [Down] == [Down, Up, Up, Down] && d2 + [Up] == [Down, Up, Up];
    var s9 := State(true, Some(m), CallingDown(m), [Sleeping(0)], t2 + [Pressed], d2);
    var r9 := Extend(r8, State(false, Some(m), Idle, [Sleeping(0)], t2, d2), Key(down), s9);
    var r10 := Extend(r9, s9, FallbackContinues(0, false), s9.(fallbacks := [Releasing]));
    var s11 := s9.(pressed := false, fallbacks := [ReportingUp], transitions := t2 + t2);
    var r11 := Extend(r10, s9.(fallbacks := [Releasing]), FallbackContinues(0, false), s11);
    var r12 := Extend(r11, s11, FallbackContinues(0, false), s11.(fallbacks := [Finished], delivered := [Down, Up, Up]));
    var s13 := s11.(fallbacks := [Finished], delivered := [Down, Up, Up, Down], input := Spawning(m));
    var r13 := Extend(r12, s11.(fallbacks := [Finished], delivered := [Down, Up, Up]), InputContinues, s13);
    assert Run(Initial(), r13).value.delivered == [Down, Up, Up, Down];
  }

  lemma StartRun()
    ensures Run(Initial(), []) == Some(Initial())
  {
  }

  lemma Extend(steps: seq<Step>, s: State, step: Step, s': State) returns (longer: seq<Step>)
    requires Run(Initial(), steps) == Some(s) && Next(s, step) == Some(s')
    ensures Run(Initial(), longer) == Some(s')
  {
    longer := steps + [step];
    RunAppend(Initial(), steps, [step]);
    assert [step][1..] == [];
  }

  lemma {:induction false} RunAppend(s: State, a: seq<Step>, b: seq<Step>)
    requires Run(s, a).Some?
    ensures Run(s, a + b) == Run(Run(s, a).value, b)
    decreases |a|
  {
    if a == [] {
      assert a + b == b;
    } else {
      assert (a + b)[1..] == a[1..] + b;
      RunAppend(Next(s, a[0]).value, a[1..], b);
    }
  }

  // The history of the flag as the receiver should hear it.
  function Events(t: seq<Transition>): seq<PttEvent> {
    if t == [] then []
    else
      var last := t[|t| - 1];
      Events(t[..|t| - 1]) + if last.Pressed? then [Down] else if last.ReleasedKey? then [Up] else []
  }

  lemma EventsAppend(t: seq<Transition>, x: Transition)
    ensures Events(t + [x]) == Events(t) + if x.Pressed? then [Down] else if x.ReleasedKey? then [Up] else []
  {
    assert (t + [x])[..|t|] == t;
  }

  lemma {:induction false} EventCounts(t: seq<Transition>)
    ensures Count(Events(t), Down) == Count(t, Pressed) && Count(Events(t), Up) == Count(t, ReleasedKey)
  {
    if t != [] {
      var before := Events(t[..|t| - 1]);
      EventCounts(t[..|t| - 1]);
      CountAppend(before, Down, Down);
      CountAppend(before, Down, Up);
      CountAppend(before, Up, Down);
      CountAppend(before, Up, Up);
      assert before + [] == before;
    }
  }

  lemma {:induction false} CountJoin<T>(a: seq<T>, b: seq<T>, x: T)
    ensures Count(a + b, x) == Count(a, x) + Count(b, x)
  {
    if b == [] {
      assert a + b == a;
    } else {
      var n := |b| - 1;
      assert (a + b)[..|a| + n] == a + b[..n];
      CountJoin(a, b[..n], x);
    }
  }

  lemma {:induction false} CountedIsThere<T>(s: seq<T>, x: T)
    ensures Count(s, x) > 0 <==> x in s
  {
    if s != [] {
      CountedIsThere(s[..|s| - 1], x);
      assert x in s <==> x in s[..|s| - 1] || x == s[|s| - 1];
    }
  }

  // What the receiver has heard is the beginning of the flag's history.
  predicate HeardInOrder(s: State) {
    s.delivered <= Events(s.transitions)
  }

  predicate BothOutstanding(s: State) {
    PendingDowns(s) > 0 && PendingUps(s) > 0
  }

  // The part of the history not heard yet consists of the outstanding callbacks.
  lemma StillToHear(s: State) returns (rest: seq<PttEvent>)
    requires DeliveryBalanced(s) && HeardInOrder(s)
    ensures Events(s.transitions) == s.delivered + rest
    ensures Count(rest, Down) == PendingDowns(s) && Count(rest, Up) == PendingUps(s)
    ensures Down in rest <==> PendingDowns(s) > 0
    ensures Up in rest <==> PendingUps(s) > 0
  {
    var all := Events(s.transitions);
    rest := all[|s.delivered|..];
    assert all == s.delivered + rest;
    EventCounts(s.transitions);
    CountJoin(s.delivered, rest, Down);
    CountJoin(s.delivered, rest, Up);
    CountedIsThere(rest, Down);
    CountedIsThere(rest, Up);
  }

  // The event that the next step of a thread reports, if it reports one.
  function Reported(s: State, step: Step): Option<PttEvent> {
    if step.InputContinues? && s.input.CallingDown? then Some(Down)
    else if step.InputContinues? && s.input.CallingUp? then Some(Up)
    else if step.FallbackContinues? && step.i < |s.fallbacks| && s.fallbacks[step.i].ReportingUp? then Some(Up)
    else None
  }

  lemma StepHears(s: State, step: Step)
    requires Next(s, step).Some?
    ensures var s' := Next(s, step).value;
      && s'.delivered == (if Reported(s, step).Some? then s.delivered + [Reported(s, step).value] else s.delivered)
      && Events(s.transitions) <= Events(s'.transitions)
      && (Reported(s, step).Some? ==> s'.transitions == s.transitions)
    ensures Reported(s, step) == Some(Down) ==> PendingDowns(s) > 0
    ensures Reported(s, step) == Some(Up) ==> PendingUps(s) > 0
  {
    hide Events;
    forall t { EventsAppend(s.transitions, t); }
    CountedIsThere(s.fallbacks, ReportingUp);
  }

  // While no Down is outstanding together with an Up, every step is heard in order.
  lemma StepHeardInOrder(s: State, step: Step)
    requires DeliveryBalanced(s) && HeardInOrder(s) && !BothOutstanding(s) && Next(s, step).Some?
    ensures HeardInOrder(Next(s, step).value)
  {
    hide Next, Events, Reported;
    StepHears(s, step);
    var rest := StillToHear(s);
    var event := Reported(s, step);
    match event {
      case Some(Down) => assert Down in rest && Up !in rest;
      case Some(Up) => assert Up in rest && Down !in rest;
      case None =>
    }
    if event.Some? {
      assert rest[0] in rest && rest[0] == event.value;
      assert s.delivered + rest == (s.delivered + [rest[0]]) + rest[1..];
    }
  }

  // With both outstanding, some thread can go on so that the receiver hears the wrong one first.
  lemma SomeStepBreaksOrder(s: State) returns (step: Step)
    requires DeliveryBalanced(s) && HeardInOrder(s) && BothOutstanding(s)
    ensures Next(s, step).Some? && !HeardInOrder(Next(s, step).value)
  {
    var rest := StillToHear(s);
    CountedIsThere(s.fallbacks, ReportingUp);
    var i :| 0 <= i < |s.fallbacks| && s.fallbacks[i] == ReportingUp;
    step := if rest[0] == Up then InputContinues else FallbackContinues(i, false);
    StepHears(s, step);
    var heard := Next(s, step).value.delivered;
    assert heard[|s.delivered|] != rest[0] && Events(s.transitions)[|s.delivered|] == rest[0];
  }

  // Every state that a run visits, the last one included, has no Down outstanding together with an Up.
  predicate NeverBoth(s: State, steps: seq<Step>)
    requires Run(s, steps).Some?
    decreases |steps|
  {
    !BothOutstanding(s) && (steps == [] || NeverBoth(Next(s, steps[0]).value, steps[1..]))
  }

  // From every state that a run visits, whichever thread goes on next, the receiver hears the history
  // in its order.
  ghost predicate OrderAssured(s: State, steps: seq<Step>)
    requires Run(s, steps).Some?
    decreases |steps|
  {
    && (forall step :: Next(s, step).Some? ==> HeardInOrder(Next(s, step).value))
    && (steps == [] || OrderAssured(Next(s, steps[0]).value, steps[1..]))
  }

  // The receiver is assured of the order of the flag's history if and only if no Down is ever
  // outstanding together with an Up.
  lemma {:induction false} OrderAssuredIff(s: State, steps: seq<Step>)
    requires DeliveryBalanced(s) && HeardInOrder(s) && Run(s, steps).Some?
    ensures OrderAssured(s, steps) <==> NeverBoth(s, steps)
    ensures NeverBoth(s, steps) ==> HeardInOrder(Run(s, steps).value)
    decreases |steps|
  {
    hide Next, HeardInOrder, DeliveryBalanced, BothOutstanding;
    if BothOutstanding(s) {
      var step := SomeStepBreaksOrder(s);
    } else {
      forall step | Next(s, step).Some? ensures HeardInOrder(Next(s, step).value) {
        StepHeardInOrder(s, step);
      }
      if steps != [] {
        StepBalanced(s, steps[0]);
        OrderAssuredIff(Next(s, steps[0]).value, steps[1..]);
      }
    }
  }

  lemma SomethingToHear(rest: seq<PttEvent>)
    ensures rest != [] ==> Down in rest || Up in rest
  {
    if rest != [] {
      assert rest[0] in rest;
      assert rest[0].Down? || rest[0].Up?;
    }
  }

  // And once no callback is outstanding, the receiver has heard exactly the flag's history.
  lemma SettledHistory(steps: seq<Step>)
    requires Run(Initial(), steps).Some? && NeverBoth(Initial(), steps)
    requires var s := Run(Initial(), steps).value; PendingDowns(s) == 0 && PendingUps(s) == 0
    ensures var s := Run(Initial(), steps).value; s.delivered == Events(s.transitions)
  {
    OrderAssuredIff(Initial(), steps);
    CallbacksMatchFlag(Initial(), steps);
    var rest := StillToHear(Run(Initial(), steps).value);
    SomethingToHear(rest);
  }

  // ---------- Keys and bindings ----------

  // A matcher takes the events of its own key, pressed or released, and two of one sort that take the same
  // event are the same.
  lemma MatchersTellKeys(a: Matcher, b: Matcher, event: RawKey)
    ensures a.VirtualKey? && event.virtualKey == a.code ==> a.Matches(event)
    ensures a.ScanCode? && event.makeCode == a.makeCode && event.isExtended == a.isExtended ==> a.Matches(event)
    ensures a.VirtualKey? && b.VirtualKey? && a.Matches(event) && b.Matches(event) ==> a == b
    ensures a.ScanCode? && b.ScanCode? && a.Matches(event) && b.Matches(event) ==> a == b
  {
  }

  // Of the scan codes just those of the shift, control and alt keys tell the state of the key.
  lemma ModifiersHaveReleaseKeys(make: nat, extended: bool)
    ensures ScanCode(make, extended).HasReleaseKeys() <==>
      (make, extended) in {(0x2A, false), (0x36, false), (0x1D, false), (0x1D, true), (0x38, false), (0x38, true)}
  {
  }

  // A request binds a key exactly when it is for push-to-talk and names a key that is known; white space
  // around either does not matter.
  lemma BindsWhatIsAskedFor(mode: Option<string>, keyCode: Option<string>, resolve: string -> Option<Matcher>, matcher: Matcher)
    ensures RequestedBinding(mode, keyCode, resolve) == Some(matcher) <==>
      && mode.Some? && Trim(mode.value) == "ptt"
      && keyCode.Some? && HasInk(keyCode.value) && resolve(Trim(keyCode.value)) == Some(matcher)
  {
    if keyCode.Some? {
      var _, _ := TrimIs(keyCode.value);
    }
  }

  // ---------- Who can go on, and for how long ----------

  // Key events and rebindings find the input thread between two messages; a message once begun goes on, and
  // so does a fallback thread until it has finished.
  lemma WhoCanGoOn(s: State, step: Step)
    ensures Next(s, step).Some? <==>
      match step
      case Key(_) => s.input.Idle? && s.binding.Some?
      case Rebind(_) => s.input.Idle?
      case InputContinues => !s.input.Idle?
      case FallbackContinues(i, _) => i < |s.fallbacks| && !s.fallbacks[i].Finished?
  {
  }

  // A bound on the steps a fallback thread still takes.
  function FallbackWork(f: Fallback): int {
    match f
    case Checking(polls) => 2 * (3000 - polls) + 3
    case Sleeping(polls) => 2 * (3000 - polls) + 2
    case Releasing => 2
    case ReportingUp => 1
    case Finished => 0
  }

  predicate PollsBounded(s: State) {
    forall i :: 0 <= i < |s.fallbacks| ==>
      (s.fallbacks[i].Checking? ==> s.fallbacks[i].polls <= 3000) && (s.fallbacks[i].Sleeping? ==> s.fallbacks[i].polls < 3000)
  }

  // The work of a thread that is still to be spawned counts in full.
  function WorkLeft(s: State, i: nat): int {
    if i < |s.fallbacks| then FallbackWork(s.fallbacks[i]) else 6003
  }

  function TurnsOf(steps: seq<Step>, i: nat): nat {
    if steps == [] then 0
    else (if steps[0].FallbackContinues? && steps[0].i == i then 1 else 0) + TurnsOf(steps[1..], i)
  }

  lemma StepUsesUpWork(s: State, step: Step, i: nat)
    requires PollsBounded(s) && Next(s, step).Some?
    ensures PollsBounded(Next(s, step).value)
    ensures WorkLeft(Next(s, step).value, i) + TurnsOf([step], i) <= WorkLeft(s, i)
  {
    assert TurnsOf([step], i) == if step.FallbackContinues? && step.i == i then 1 else 0 by { OneTurn(step, i); }
    hide TurnsOf;
  }

  lemma OneTurn(step: Step, i: nat)
    ensures TurnsOf([step], i) == if step.FallbackContinues? && step.i == i then 1 else 0
  {
    assert [step][1..] == [];
  }

  // A fallback thread polls three thousand times at most: in every interleaving it takes no more than 6003
  // steps, and then it has finished.
  lemma {:induction false} FallbackEnds(s: State, steps: seq<Step>, i: nat)
    requires PollsBounded(s) && Run(s, steps).Some?
    ensures PollsBounded(Run(s, steps).value)
    ensures TurnsOf(steps, i) + WorkLeft(Run(s, steps).value, i) <= WorkLeft(s, i) <= 6003
    ensures TurnsOf(steps, i) == 6003 ==> i < |Run(s, steps).value.fallbacks| && Run(s, steps).value.fallbacks[i].Finished?
    decreases |steps|
  {
    if steps != [] {
      StepUsesUpWork(s, steps[0], i);
      OneTurn(steps[0], i);
      FallbackEnds(Next(s, steps[0]).value, steps[1..], i);
    }
  }

  predicate AboutToRelease(s: State, i: nat) {
    i < |s.fallbacks| && (s.fallbacks[i].Releasing? || s.fallbacks[i].ReportingUp?)
  }

  // A fallback thread releases the key only after it has found it physically up.
  lemma {:induction false} ReleaseNeedsKeyUp(s: State, steps: seq<Step>, i: nat)
    requires Run(s, steps).Some? && !AboutToRelease(s, i) && AboutToRelease(Run(s, steps).value, i)
    ensures FallbackContinues(i, false) in steps
    decreases |steps|
  {
    if steps != [] && !AboutToRelease(Next(s, steps[0]).value, i) {
      ReleaseNeedsKeyUp(Next(s, steps[0]).value, steps[1..], i);
    }
  }

  // The keys bound so far, and those that are going to be, have release keys, or have none.
  predicate BoundAlike(s: State, steps: seq<Step>, keys: bool) {
    && (s.binding.Some? ==> s.binding.value.HasReleaseKeys() == keys)
    && (s.input.CallingDown? || s.input.Spawning? ==> s.input.matcher.HasReleaseKeys() == keys)
    && forall k :: 0 <= k < |steps| && steps[k].Rebind? && steps[k].binding.Some? ==> steps[k].binding.value.HasReleaseKeys() == keys
  }

  function Unspawned(s: State): nat {
    if s.input.CallingDown? || s.input.Spawning? then 1 else 0
  }

  // Each press of a key with release keys gets a fallback thread of its own, once; other keys get none.
  lemma {:induction false} FallbackPerPress(s: State, steps: seq<Step>, keys: bool)
    requires BoundAlike(s, steps, keys) && Run(s, steps).Some?
    requires |s.fallbacks| + (if keys then Unspawned(s) else 0) == if keys then Count(s.transitions, Pressed) else 0
    ensures var s' := Run(s, steps).value;
      |s'.fallbacks| + (if keys then Unspawned(s') else 0) == if keys then Count(s'.transitions, Pressed) else 0
    decreases |steps|
  {
    hide Count, Matcher.HasReleaseKeys;
    if steps != [] {
      forall t { CountAppend(s.transitions, t, Pressed); }
      FallbackPerPress(Next(s, steps[0]).value, steps[1..], keys);
    }
  }
}
