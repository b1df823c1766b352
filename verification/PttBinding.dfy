// Recomputations of several handlers of the helper at once. A handler runs its own block, and then
// chooses a target, reads the binding that follows from it, gives the binding to the input service when
// it differs from the one noted as active, and notes it as active, each in a block of its own.
module PttBinding {
  import opened Options
  import H = PttHelper
  import I = PttInput

  // What a handler in the middle of its recomputation does next.
  datatype Handler =
    | Targeting
    | Reading
    | Serving(request: H.BindingRequest, apply: bool)
    | Storing(request: H.BindingRequest)

  datatype World = World(state: H.State, handlers: map<nat, Handler>)

  datatype Step =
    | Begin(id: nat, block: H.Step)
    | Choose(id: nat, t: Option<H.Connection>)
    | Read(id: nat)
    | Serve(id: nat)
    | Store(id: nat)

  ghost predicate Enabled(w: World, step: Step) {
    match step
    case Begin(id, block) => id !in w.handlers && !block.Retarget? && !block.Serve? && !block.Store?
    case Choose(id, t) => id in w.handlers && w.handlers[id].Targeting? && H.IsTarget(w.state, t)
    case Read(id) => id in w.handlers && w.handlers[id].Reading?
    case Serve(id) => id in w.handlers && w.handlers[id].Serving?
    case Store(id) => id in w.handlers && w.handlers[id].Storing?
  }

  ghost function Next(w: World, step: Step): World
    requires Enabled(w, step)
  {
    match step
    case Begin(id, block) =>
      World(H.Apply(w.state, block), if H.Recomputes(w.state, block) then w.handlers[id := Targeting] else w.handlers)
    case Choose(id, t) => World(H.Retargeted(w.state, t), w.handlers[id := Reading])
    case Read(id) =>
      var request := H.EffectiveBinding(w.state);
      World(w.state, w.handlers[id := Serving(request, request != w.state.active)])
    case Serve(id) =>
      var p := w.handlers[id];
      World(H.Served(w.state, p.request, p.apply), w.handlers[id := Storing(p.request)])
    case Store(id) => World(H.Stored(w.state, w.handlers[id].request), w.handlers - {id})
  }

  // A run of worlds: each follows from the one before by the step between them.
  ghost predicate Trace(worlds: seq<World>, steps: seq<Step>) {
    && |worlds| == |steps| + 1
    && (exists trusted, paused :: worlds[0] == World(H.InitialState(trusted, paused), map[]))
    && forall k | 0 <= k < |steps| :: Enabled(worlds[k], steps[k]) && worlds[k + 1] == Next(worlds[k], steps[k])
  }

  // However the recomputations overlap, the session and pairing invariants hold.
  lemma {:induction false} TraceKeepsInv(worlds: seq<World>, steps: seq<Step>, k: nat)
    requires Trace(worlds, steps) && k < |worlds|
    ensures H.Inv(worlds[k].state)
  {
    if k > 0 {
      TraceKeepsInv(worlds, steps, k - 1);
      StepKeepsInv(worlds[k - 1], steps[k - 1]);
    }
  }

  lemma StepKeepsInv(w: World, step: Step)
    requires H.Inv(w.state) && Enabled(w, step)
    ensures H.Inv(Next(w, step).state)
  {
    hide H.Inv;
    match step
    case Begin(_, block) => H.StepKeepsInv(w.state, block);
    case Choose(_, t) => H.StepKeepsInv(w.state, H.Retarget(t));
    case Read(_) =>
    case Serve(id) => H.StepKeepsInv(w.state, H.Step.Serve(w.handlers[id].request, w.handlers[id].apply));
    case Store(id) => H.StepKeepsInv(w.state, H.Step.Store(w.handlers[id].request));
  }

  // ---------- What the service makes of a binding ----------

  // The default binding leaves the input service without a key; the binding of a target has a key exactly
  // when the key that its session names is known.
  lemma BoundKeyIs(s: H.State, resolve: string -> Option<I.Matcher>)
    ensures I.RequestedBinding(H.DefaultRequest().mode, H.DefaultRequest().keyCode, resolve).None?
    ensures var request := H.EffectiveBinding(s);
      I.RequestedBinding(request.mode, request.keyCode, resolve) ==
        if H.TargetForPtt(s).None? || s.sessions[s.target.value].config.mode.None? then None
        else I.RequestedBinding(s.sessions[s.target.value].config.mode, s.sessions[s.target.value].config.keyCode, resolve)
  {
    assert I.RequestedBinding(None, None, resolve).None?;
  }

  // ---------- When a binding given to the service is right ----------

  // A handler that is about to serve has read its binding in an earlier state.
  lemma {:induction false} ServingWasRead(worlds: seq<World>, steps: seq<Step>, k: nat, id: nat) returns (j: nat)
    requires Trace(worlds, steps) && k < |worlds| && id in worlds[k].handlers && worlds[k].handlers[id].Serving?
    ensures j < k && steps[j] == Read(id)
    ensures worlds[k].handlers[id].request == H.EffectiveBinding(worlds[j].state)
    ensures worlds[k].handlers[id].apply <==> H.EffectiveBinding(worlds[j].state) != worlds[j].state.active
  {
    if k == 0 {
      assert false;
    } else if steps[k - 1] == Read(id) {
      j := k - 1;
    } else {
      j := ServingWasRead(worlds, steps, k - 1, id);
    }
  }

  // After the service block of a handler the service has the right binding if and only if, in case the
  // binding read differed from the active one, it is still the effective one, and otherwise the service
  // had the right one before.
  lemma ServedRightIff(worlds: seq<World>, steps: seq<Step>, k: nat) returns (j: nat)
    requires Trace(worlds, steps) && k < |steps| && steps[k].Serve?
    ensures j < k && steps[j] == Read(steps[k].id)
    ensures var read := H.EffectiveBinding(worlds[j].state);
      H.Right(worlds[k + 1].state) <==>
        if read != worlds[j].state.active then H.EffectiveBinding(worlds[k].state) == read else H.Right(worlds[k].state)
  {
    j := ServingWasRead(worlds, steps, k, steps[k].id);
  }

  // The binding last given to the service, and the one last noted as active, in the first k steps.
  ghost function LastServed(worlds: seq<World>, steps: seq<Step>, k: nat): H.BindingRequest
    requires Trace(worlds, steps) && k < |worlds|
  {
    if k == 0 then H.DefaultRequest()
    else
      var step, handlers := steps[k - 1], worlds[k - 1].handlers;
      if step.Serve? && handlers[step.id].apply then handlers[step.id].request else LastServed(worlds, steps, k - 1)
  }

  ghost function LastStored(worlds: seq<World>, steps: seq<Step>, k: nat): H.BindingRequest
    requires Trace(worlds, steps) && k < |worlds|
  {
    if k == 0 then H.DefaultRequest()
    else
      var step, handlers := steps[k - 1], worlds[k - 1].handlers;
      if step.Store? then handlers[step.id].request else LastStored(worlds, steps, k - 1)
  }

  lemma {:induction false} ServiceIsLastServed(worlds: seq<World>, steps: seq<Step>, k: nat)
    requires Trace(worlds, steps) && k < |worlds|
    ensures worlds[k].state.service == LastServed(worlds, steps, k)
    ensures worlds[k].state.active == LastStored(worlds, steps, k)
  {
    hide H.Apply;
    if k > 0 {
      ServiceIsLastServed(worlds, steps, k - 1);
      if steps[k - 1].Begin? {
        H.BlocksKeepBinding(worlds[k - 1].state, steps[k - 1].block);
      }
    }
  }

  // At any point of any run: the service is right if and only if what it was last given is what is
  // effective now; and a recomputation that now runs alone sets it right if and only if the binding has
  // changed against the one noted last, or the service was last given that one.
  lemma RightIff(worlds: seq<World>, steps: seq<Step>, k: nat, t: Option<H.Connection>)
    requires Trace(worlds, steps) && k < |worlds|
    ensures var s := worlds[k].state;
      && (H.Right(s) <==> LastServed(worlds, steps, k) == H.EffectiveBinding(s))
      && (H.Right(H.Recomputed(s, t)) <==>
            || H.EffectiveBinding(H.Retargeted(s, t)) != LastStored(worlds, steps, k)
            || LastServed(worlds, steps, k) == LastStored(worlds, steps, k))
  {
    ServiceIsLastServed(worlds, steps, k);
    RecomputedRightIff(worlds[k].state, t);
  }

  lemma RecomputedRightIff(s: H.State, t: Option<H.Connection>)
    ensures H.Right(H.Recomputed(s, t)) <==> H.EffectiveBinding(H.Retargeted(s, t)) != s.active || s.service == s.active
    ensures H.EffectiveBinding(H.Recomputed(s, t)) == H.EffectiveBinding(H.Retargeted(s, t))
  {
  }

  // Once the service has another binding than the one noted as active, handlers that run alone do not
  // mend it as long as that one stays effective: each of their recomputations skips the service.
  lemma {:induction false} MismatchPersists(states: seq<H.State>, blocks: seq<H.Step>, k: nat)
    requires H.HandledRun(states, blocks) && k <= |blocks|
    requires states[0].service != states[0].active
    requires forall i | 0 <= i < k && H.Recomputes(states[i], blocks[i]) :: H.EffectiveBinding(states[i + 1]) == states[0].active
    ensures states[k].service == states[0].service && states[k].active == states[0].active
    ensures k > 0 && H.Recomputes(states[k - 1], blocks[k - 1]) ==> !H.Right(states[k])
  {
    hide H.Apply, H.Recomputes, H.EffectiveBinding;
    if k > 0 {
      MismatchPersists(states, blocks, k - 1);
      var block, m := blocks[k - 1], H.Apply(states[k - 1], blocks[k - 1]);
      assert H.Handled(states[k - 1], block, states[k]);
      H.BlocksKeepBinding(states[k - 1], block);
      if H.Recomputes(states[k - 1], block) {
        var t :| H.IsTarget(m, t) && states[k] == H.Recomputed(m, t);
        RecomputedRightIff(m, t);
      }
    }
  }

  // ---------- A run in which it goes wrong ----------

  lemma Extend(worlds: seq<World>, steps: seq<Step>, step: Step, next: World) returns (worlds': seq<World>, steps': seq<Step>)
    requires Trace(worlds, steps)
    requires Enabled(worlds[|steps|], step) && Next(worlds[|steps|], step) == next
    ensures Trace(worlds', steps') && worlds'[|steps'|] == next
  {
    worlds', steps' := worlds + [next], steps + [step];
    assert worlds'[0] == worlds[0];
  }

  const TRUSTED := [H.TrustedOrigin("o", "t", 0, "browser")]
  const PTT := H.BindingRequest(Some("F8"), Some("ptt"), None, None)

  function Signed(config: H.BindingRequest): H.Session {
    H.Session("o", "s", "browser", false, true, true, Some(0), config)
  }

  // One session of a trusted origin, signed in, with the given configuration.
  function OneSession(config: H.BindingRequest): H.State {
    H.InitialState(TRUSTED, false).(sessions := map[1 := Signed(config)], socketOrigin := map[1 := "o"], nextConnection := 2)
  }

  lemma FirstSession() returns (worlds: seq<World>, steps: seq<Step>)
    ensures Trace(worlds, steps) && worlds[|steps|] == World(OneSession(H.DefaultRequest()), map[0 := Targeting])
  {
    var s0 := H.InitialState(TRUSTED, false);
    worlds, steps := [World(s0, map[])], [];
    assert Trace(worlds, steps);
    var s1 := H.Registered(s0, "o");
    assert s1.sessions == map[1 := H.NewSession()] && s1.socketOrigin == map[1 := "o"];
    worlds, steps := Extend(worlds, steps, Begin(0, H.Register("o")), World(s1, map[]));
    GreetedAlone(s1);
    worlds, steps := Extend(worlds, steps, Begin(0, H.Hello(1, "s", "browser", Some("t"), 0)),
      World(OneSession(H.DefaultRequest()), map[0 := Targeting]));
  }

  lemma GreetedAlone(s: H.State)
    requires s == H.Registered(H.InitialState(TRUSTED, false), "o")
    ensures H.Apply(s, H.Hello(1, "s", "browser", Some("t"), 0)) == OneSession(H.DefaultRequest())
    ensures H.Recomputes(s, H.Hello(1, "s", "browser", Some("t"), 0))
  {
    assert s.sessions == map[1 := H.NewSession()] && s.socketOrigin == map[1 := "o"];
    assert H.TokenHash(s.trusted, "o") == Some("t");
    assert H.Duplicates(s.sessions, 1, "o", "s") == {};
    assert H.WithoutConnections(s.pairings, {}) == [];
    var greeted := H.Greeted(s, 1, "s", "browser", Some("t"), 0);
    assert greeted.sessions == map[1 := Signed(H.DefaultRequest())];
    assert greeted == OneSession(H.DefaultRequest());
  }

  lemma OnlyTarget(s: H.State, config: H.BindingRequest)
    requires s.sessions == map[1 := Signed(config)]
    ensures H.IsTarget(s, Some(1))
  {
  }

  // The binding of the session, when it is the target and the helper is not paused.
  lemma BindingOfTarget(s: H.State)
    requires s.sessions == map[1 := Signed(PTT)] && s.target == Some(1)
    ensures H.EffectiveBinding(s) == if s.paused then H.DefaultRequest() else PTT
  {
  }

  // The handler of the sign-in recomputes on its own.
  lemma FirstTarget() returns (worlds: seq<World>, steps: seq<Step>)
    ensures Trace(worlds, steps)
    ensures worlds[|steps|] == World(OneSession(H.DefaultRequest()).(target := Some(1)), map[])
  {
    hide Trace;
    worlds, steps := FirstSession();
    var greeted := OneSession(H.DefaultRequest());
    OnlyTarget(greeted, H.DefaultRequest());
    var targeted := greeted.(target := Some(1));
    worlds, steps := Extend(worlds, steps, Choose(0, Some(1)), World(targeted, map[0 := Reading]));
    worlds, steps := Extend(worlds, steps, Read(0), World(targeted, map[0 := Serving(H.DefaultRequest(), false)]));
    worlds, steps := Extend(worlds, steps, Serve(0), World(targeted, map[0 := Storing(H.DefaultRequest())]));
    worlds, steps := Extend(worlds, steps, Store(0), World(targeted, map[]));
  }

  // The session configured for push-to-talk.
  function Bound(): H.State {
    OneSession(PTT).(target := Some(1))
  }

  // One handler has read the push-to-talk binding, and then another one has paused the helper.
  lemma PausedInBetween() returns (worlds: seq<World>, steps: seq<Step>)
    ensures Trace(worlds, steps)
    ensures worlds[|steps|] == World(Bound().(paused := true), map[1 := Serving(PTT, true), 2 := Targeting])
  {
    hide Trace;
    worlds, steps := FirstTarget();
    assert OneSession(H.DefaultRequest()).(target := Some(1), sessions := map[1 := Signed(PTT)]) == Bound();
    worlds, steps := Extend(worlds, steps, Begin(1, H.Configure(1, PTT)), World(Bound(), map[1 := Targeting]));
    OnlyTarget(Bound(), PTT);
    worlds, steps := Extend(worlds, steps, Choose(1, Some(1)), World(Bound(), map[1 := Reading]));
    BindingOfTarget(Bound());
    worlds, steps := Extend(worlds, steps, Read(1), World(Bound(), map[1 := Serving(PTT, true)]));
    worlds, steps := Extend(worlds, steps, Begin(2, H.SetPaused(true)),
      World(Bound().(paused := true), map[1 := Serving(PTT, true), 2 := Targeting]));
  }

  lemma BoundIs()
    ensures Bound().sessions == map[1 := Signed(PTT)] && Bound().target == Some(1) && Bound().active == H.DefaultRequest()
  {
  }

  // Both handlers have read: one the push-to-talk binding, the other one the default.
  lemma BothHaveRead() returns (worlds: seq<World>, steps: seq<Step>)
    ensures Trace(worlds, steps)
    ensures worlds[|steps|] == World(Bound().(paused := true), map[1 := Serving(PTT, true), 2 := Serving(H.DefaultRequest(), false)])
  {
    hide Trace, OneSession, Bound;
    worlds, steps := PausedInBetween();
    var paused, first := Bound().(paused := true), Serving(PTT, true);
    BoundIs();
    OnlyTarget(paused, PTT);
    worlds, steps := Extend(worlds, steps, Choose(2, Some(1)), World(paused, map[1 := first, 2 := Reading]));
    worlds, steps := Extend(worlds, steps, Read(2), World(paused, map[1 := first, 2 := Serving(H.DefaultRequest(), false)]));
  }

  // Both handlers have finished, the helper is paused, and yet the service has the push-to-talk binding:
  // one handler read it, another one paused the helper and read the default, which was still noted as
  // active, so that it skipped the service; then both noted what they had read, the first one first.
  lemma BindingMayGoStale() returns (worlds: seq<World>, steps: seq<Step>)
    ensures Trace(worlds, steps)
    ensures var w := worlds[|steps|];
      && w.handlers == map[] && w.state.paused
      && w.state.service == PTT && w.state.active == H.DefaultRequest() == H.EffectiveBinding(w.state)
      && forall t :: !H.Right(H.Recomputed(w.state, t))
  {
    hide Trace, OneSession, Bound;
    worlds, steps := BothHaveRead();
    BoundIs();
    var second, served := Serving(H.DefaultRequest(), false), Bound().(paused := true, service := PTT);
    worlds, steps := Extend(worlds, steps, Serve(1), World(served, map[1 := Storing(PTT), 2 := second]));
    worlds, steps := Extend(worlds, steps, Store(1), World(served.(active := PTT), map[2 := second]));
    worlds, steps := Extend(worlds, steps, Serve(2), World(served.(active := PTT), map[2 := Storing(H.DefaultRequest())]));
    worlds, steps := Extend(worlds, steps, Store(2), World(served, map[]));
  }

  // Handlers one at a time: a session signs in and binds a key, and says hello again without its token.
  // It is refused, and the service still has its binding.
  lemma RefusedHelloStrands() returns (states: seq<H.State>, blocks: seq<H.Step>)
    ensures H.HandledRun(states, blocks) && |blocks| == 4 && states[0] == H.InitialState(TRUSTED, false)
    ensures states[4].service == PTT && H.EffectiveBinding(states[4]) == H.DefaultRequest()
  {
    hide H.Apply, H.Recomputes, H.IsTarget, H.EffectiveBinding;
    var s0 := H.InitialState(TRUSTED, false);
    var s1 := H.Registered(s0, "o");
    var greeted := OneSession(H.DefaultRequest());
    var s2 := greeted.(target := Some(1));
    var s3 := Bound().(service := PTT, active := PTT);
    var register, hello, configure := H.Register("o"), H.Hello(1, "s", "browser", Some("t"), 0), H.Configure(1, PTT);
    var refused := H.Hello(1, "s", "browser", None, 1);
    var s4 := H.Apply(s3, refused);
    assert H.Handled(s0, register, s1) by { RegisterHandled(s0); }
    GreetedAlone(s1);
    OnlyTarget(greeted, H.DefaultRequest());
    assert H.Handled(s1, hello, s2) by { RecomputedDefault(greeted); }
    assert H.Handled(s2, configure, s3) by { ConfigureHandled(s2); }
    RefusedKeepsService(s3);
    states, blocks := [s0, s1, s2, s3, s4], [register, hello, configure, refused];
  }

  lemma RegisterHandled(s: H.State)
    ensures H.Handled(s, H.Register("o"), H.Registered(s, "o"))
  {
  }

  lemma RecomputedDefault(s: H.State)
    requires s == OneSession(H.DefaultRequest())
    ensures H.Recomputed(s, Some(1)) == s.(target := Some(1))
  {
  }

  lemma ConfigureHandled(s: H.State)
    requires s == OneSession(H.DefaultRequest()).(target := Some(1))
    ensures H.Handled(s, H.Configure(1, PTT), Bound().(service := PTT, active := PTT))
  {
    assert H.Apply(s, H.Configure(1, PTT)) == Bound() by {
      assert s.(sessions := map[1 := Signed(PTT)]) == Bound();
      assert s.sessions[1 := Signed(PTT)] == map[1 := Signed(PTT)];
    }
    OnlyTarget(Bound(), PTT);
    BindingOfTarget(Bound());
    assert H.IsTarget(Bound(), Some(1));
    assert H.Recomputed(Bound(), Some(1)) == Bound().(service := PTT, active := PTT);
  }

  lemma RefusedKeepsService(s: H.State)
    requires s == Bound().(service := PTT, active := PTT)
    ensures var refused := H.Hello(1, "s", "browser", None, 1);
      && H.Handled(s, refused, H.Apply(s, refused)) && H.Apply(s, refused).service == PTT
      && H.EffectiveBinding(H.Apply(s, refused)) == H.DefaultRequest()
  {
  }
}
