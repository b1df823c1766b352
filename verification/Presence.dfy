// Presence: the two connection maps and the grace timers behind the offline announcements. Every
// function below is one block of code that runs without yielding; a timer callback is one block up to
// its first wait. Times are milliseconds.
module Presence {
  type User = string
  type Connection = nat
  type TimerId = nat

  const GRACE_MS := 5000

  datatype Timer = Timer(user: User, due: int)

  // A user found offline by the callback of a timer.
  datatype Finding = Finding(user: User, timer: TimerId)

  // `armed` holds the timers that the event loop still has; `leaving` the findings whose callback still
  // waits for its writes; `announced` those whose announcement has been sent.
  datatype State = State(
    onlineUsers: map<User, set<Connection>>,
    connectionToUser: map<Connection, User>,
    disconnectTimers: map<User, TimerId>,
    armed: map<TimerId, Timer>,
    nextTimer: nat,
    stopped: bool,
    now: int,
    leaving: seq<Finding>,
    announced: seq<Finding>
  )

  const INITIAL := State(map[], map[], map[], map[], 0, false, 0, [], [])

  function TimerCancelled(s: State, user: User): State {
    if user in s.disconnectTimers then
      s.(armed := s.armed - {s.disconnectTimers[user]}, disconnectTimers := s.disconnectTimers - {user})
    else s
  }

  function ConnectionsOf(s: State, user: User): set<Connection> {
    if user in s.onlineUsers then s.onlineUsers[user] else {}
  }

  function LoggedIn(s: State, connection: Connection, user: User): State {
    if s.stopped then s
    else
      var cancelled := TimerCancelled(s, user);
      cancelled.(connectionToUser := s.connectionToUser[connection := user],
                 onlineUsers := s.onlineUsers[user := ConnectionsOf(s, user) + {connection}])
  }

  function TimerSet(s: State, user: User): State {
    s.(armed := s.armed[s.nextTimer := Timer(user, s.now + GRACE_MS)],
       disconnectTimers := s.disconnectTimers[user := s.nextTimer],
       nextTimer := s.nextTimer + 1)
  }

  function Disconnected(s: State, connection: Connection): State {
    if s.stopped || connection !in s.connectionToUser then s
    else
      var user := s.connectionToUser[connection];
      var unmapped := s.(connectionToUser := s.connectionToUser - {connection});
      if user !in s.onlineUsers then unmapped
      else if s.onlineUsers[user] - {connection} != {} then
        unmapped.(onlineUsers := s.onlineUsers[user := s.onlineUsers[user] - {connection}])
      else TimerSet(unmapped.(onlineUsers := s.onlineUsers - {user}), user)
  }

  // The callback of a timer that has come due.
  function TimerRun(s: State, id: TimerId): State
    requires id in s.armed
  {
    var user := s.armed[id].user;
    var fired := s.(armed := s.armed - {id});
    if s.stopped then fired
    else
      fired.(disconnectTimers := s.disconnectTimers - {user},
             leaving := if user in s.onlineUsers then s.leaving else s.leaving + [Finding(user, id)])
  }

  // A forced disconnect of a user cancels the timer; the sockets then report one by one.
  function ForcedOut(s: State, user: User): State {
    if ConnectionsOf(s, user) == {} then s else TimerCancelled(s, user)
  }

  function Quiesced(s: State): State {
    s.(stopped := true, disconnectTimers := map[],
       armed := map id | id in s.armed && !(exists user | user in s.disconnectTimers :: s.disconnectTimers[user] == id) :: s.armed[id])
  }

  // Each callback waits for its own writes, so that any of them may be the next to announce.
  function Announced(s: State, i: nat): State
    requires i < |s.leaving|
  {
    s.(leaving := s.leaving[..i] + s.leaving[i + 1..], announced := s.announced + [s.leaving[i]])
  }

  class PresenceMaps {
    var onlineUsers: map<User, set<Connection>>
    var connectionToUser: map<Connection, User>
    var disconnectTimers: map<User, TimerId>
    var armed: map<TimerId, Timer>
    var nextTimer: nat
    var stopped: bool
    var now: int
    var leaving: seq<Finding>
    ghost var announced: seq<Finding>

    ghost function View(): State
      reads this
    {
      State(onlineUsers, connectionToUser, disconnectTimers, armed, nextTimer, stopped, now, leaving, announced)
    }

    constructor ()
      ensures View() == INITIAL
    {
      onlineUsers, connectionToUser, disconnectTimers, armed := map[], map[], map[], map[];
      nextTimer, stopped, now, leaving, announced := 0, false, 0, [], [];
    }

    method CancelTimer(user: User)
      modifies this
      ensures View() == TimerCancelled(old(View()), user)
    {
      if user in disconnectTimers {
        armed := armed - {disconnectTimers[user]};
        disconnectTimers := disconnectTimers - {user};
      }
    }

    method Login(connection: Connection, user: User)
      modifies this
      ensures View() == LoggedIn(old(View()), connection, user)
    {
      if stopped {
        return;
      }
      CancelTimer(user);
      connectionToUser := connectionToUser[connection := user];
      if user !in onlineUsers {
        onlineUsers := onlineUsers[user := {}];
      }
      onlineUsers := onlineUsers[user := onlineUsers[user] + {connection}];
    }

    method SetTimer(user: User)
      modifies this
      ensures View() == TimerSet(old(View()), user)
    {
      armed := armed[nextTimer := Timer(user, now + GRACE_MS)];
      disconnectTimers := disconnectTimers[user := nextTimer];
      nextTimer := nextTimer + 1;
    }

    method OnDisconnect(connection: Connection)
      modifies this
      ensures View() == Disconnected(old(View()), connection)
    {
      if stopped || connection !in connectionToUser {
        return;
      }
      var user := connectionToUser[connection];
      connectionToUser := connectionToUser - {connection};
      if user in onlineUsers {
        onlineUsers := onlineUsers[user := onlineUsers[user] - {connection}];
        if |onlineUsers[user]| == 0 {
          onlineUsers := onlineUsers - {user};
          SetTimer(user);
        }
      }
    }

    method RunTimer(id: TimerId)
      requires id in armed
      modifies this
      ensures View() == TimerRun(old(View()), id)
    {
      var user := armed[id].user;
      armed := armed - {id};
      if stopped {
        return;
      }
      disconnectTimers := disconnectTimers - {user};
      if user !in onlineUsers {
        leaving := leaving + [Finding(user, id)];
      }
    }

    method ForceOut(user: User)
      modifies this
      ensures View() == ForcedOut(old(View()), user)
    {
      if user !in onlineUsers || |onlineUsers[user]| == 0 {
        return;
      }
      CancelTimer(user);
    }

    method Quiesce()
      modifies this
      ensures View() == Quiesced(old(View()))
    {
      stopped := true;
      armed := map id | id in armed && !(exists user | user in disconnectTimers :: disconnectTimers[user] == id) :: armed[id];
      disconnectTimers := map[];
    }
  }

  // ---------- Invariants ----------

  // The maps are inverse to each other, and no user has an empty set.
  ghost predicate MapsInverse(s: State) {
    && (forall user | user in s.onlineUsers :: s.onlineUsers[user] != {})
    && (forall user, connection :: user in s.onlineUsers && connection in s.onlineUsers[user]
          <==> connection in s.connectionToUser && s.connectionToUser[connection] == user)
  }

  // The event loop has exactly the timers of the map, none after the stop, and a user with a timer has
  // no connection.
  ghost predicate TimersMatch(s: State) {
    && (forall user | user in s.disconnectTimers ::
          s.disconnectTimers[user] in s.armed && s.armed[s.disconnectTimers[user]].user == user && user !in s.onlineUsers)
    && (forall id | id in s.armed ::
          id < s.nextTimer && s.armed[id].user in s.disconnectTimers && s.disconnectTimers[s.armed[id].user] == id)
    && (s.stopped ==> s.armed == map[])
  }

  ghost predicate Inv(s: State) {
    MapsInverse(s) && TimersMatch(s)
  }

  datatype Step =
    | Login(connection: Connection, user: User)
    | Disconnect(connection: Connection)
    | RunTimer(id: TimerId)
    | ForceOut(user: User)
    | Announce(i: nat)
    | Quiesce
    | Tick(ms: nat)

  // A timer runs only once it has come due.
  predicate Enabled(s: State, step: Step) {
    match step
    case RunTimer(id) => id in s.armed && s.armed[id].due <= s.now
    case Announce(i) => i < |s.leaving|
    case _ => true
  }

  // A connection only ever logs in as one user.
  predicate OneUser(s: State, step: Step) {
    step.Login? && step.connection in s.connectionToUser ==> s.connectionToUser[step.connection] == step.user
  }

  function Next(s: State, step: Step): State
    requires Enabled(s, step)
  {
    match step
    case Login(connection, user) => LoggedIn(s, connection, user)
    case Disconnect(connection) => Disconnected(s, connection)
    case RunTimer(id) => TimerRun(s, id)
    case ForceOut(user) => ForcedOut(s, user)
    case Announce(i) => Announced(s, i)
    case Quiesce => Quiesced(s)
    case Tick(ms) => s.(now := s.now + ms)
  }

  // The maps stay inverse over a login if and only if the connection was not logged in as another user.
  lemma LoginKeepsMapsIff(s: State, connection: Connection, user: User)
    requires MapsInverse(s) && !s.stopped
    ensures MapsInverse(LoggedIn(s, connection, user)) <==> OneUser(s, Login(connection, user))
  {
    var next := LoggedIn(s, connection, user);
    if connection in s.connectionToUser && s.connectionToUser[connection] != user {
      var other := s.connectionToUser[connection];
      assert other in next.onlineUsers && connection in next.onlineUsers[other] && next.connectionToUser[connection] == user;
    } else {
      assert connection in next.onlineUsers[user];
    }
  }

  lemma LoginKeepsTimers(s: State, connection: Connection, user: User)
    requires TimersMatch(s)
    ensures TimersMatch(LoggedIn(s, connection, user))
  {
  }

  lemma DisconnectKeepsInv(s: State, connection: Connection)
    requires Inv(s)
    ensures Inv(Disconnected(s, connection))
  {
    if !s.stopped && connection in s.connectionToUser {
      var user := s.connectionToUser[connection];
      assert user in s.onlineUsers && connection in s.onlineUsers[user];
      var rest := s.onlineUsers[user] - {connection};
      var next := Disconnected(s, connection);
      forall other | other in s.onlineUsers[user] ensures other == connection || other in rest {}
      assert MapsInverse(next);
    }
  }

  // Cancelling the timer of a user with a connection never finds one.
  lemma ForcedOutFindsNoTimer(s: State, user: User)
    requires Inv(s)
    ensures ForcedOut(s, user) == s
  {
  }

  lemma StepKeepsInv(s: State, step: Step)
    requires Inv(s) && Enabled(s, step) && OneUser(s, step)
    ensures Inv(Next(s, step))
  {
    match step
    case Login(connection, user) =>
      if !s.stopped {
        LoginKeepsMapsIff(s, connection, user);
      }
      LoginKeepsTimers(s, connection, user);
    case Disconnect(connection) => DisconnectKeepsInv(s, connection);
    case ForceOut(user) => ForcedOutFindsNoTimer(s, user);
    case Quiesce => assert Quiesced(s).armed == map[];
    case _ =>
  }

  // ---------- Runs ----------

  // A run of states: each follows from the one before by the step between them.
  ghost predicate Trace(states: seq<State>, steps: seq<Step>) {
    && |states| == |steps| + 1 && states[0] == INITIAL
    && forall k | 0 <= k < |steps| :: Enabled(states[k], steps[k]) && OneUser(states[k], steps[k]) && states[k + 1] == Next(states[k], steps[k])
  }

  lemma {:induction false} TraceKeepsInv(states: seq<State>, steps: seq<Step>, k: nat)
    requires Trace(states, steps) && k < |states|
    ensures Inv(states[k])
  {
    if k > 0 {
      TraceKeepsInv(states, steps, k - 1);
      StepKeepsInv(states[k - 1], steps[k - 1]);
    }
  }

  // From the i-th state on, up to the k-th, the user has no connection.
  predicate Absent(states: seq<State>, user: User, i: nat, k: nat)
    requires k < |states|
  {
    forall j | i < j <= k :: user !in states[j].onlineUsers
  }

  // Every armed timer was set when its user lost the last connection, and the user has had none since.
  lemma {:induction false} ArmedMeansAbsent(states: seq<State>, steps: seq<Step>, k: nat, id: TimerId) returns (i: nat)
    requires Trace(states, steps) && k < |states| && id in states[k].armed
    ensures i < k && states[k].armed[id].due == states[i].now + GRACE_MS
    ensures states[k].armed[id].user in states[i].onlineUsers && Absent(states, states[k].armed[id].user, i, k)
  {
    hide Next, Enabled;
    TraceKeepsInv(states, steps, k);
    var timer := states[k].armed[id];
    if k == 0 {
      assert false;
    } else if id in states[k - 1].armed {
      TraceKeepsInv(states, steps, k - 1);
      TimerUnchanged(states[k - 1], steps[k - 1], id);
      i := ArmedMeansAbsent(states, steps, k - 1, id);
      assert timer.user !in states[k].onlineUsers;
    } else {
      i := k - 1;
      TimerIsNew(states[k - 1], steps[k - 1], id);
    }
  }

  lemma TimerUnchanged(s: State, step: Step, id: TimerId)
    requires Inv(s) && Enabled(s, step) && id in s.armed && id in Next(s, step).armed
    ensures Next(s, step).armed[id] == s.armed[id]
  {
  }

  lemma TimerIsNew(s: State, step: Step, id: TimerId)
    requires Enabled(s, step) && id !in s.armed && id in Next(s, step).armed
    ensures step.Disconnect? && Next(s, step).armed[id].due == s.now + GRACE_MS
    ensures Next(s, step).armed[id].user in s.onlineUsers && Next(s, step).armed[id].user !in Next(s, step).onlineUsers
  {
  }

  lemma {:induction false} ClockOnlyAdvances(states: seq<State>, steps: seq<Step>, i: nat, k: nat)
    requires Trace(states, steps) && i <= k < |states|
    ensures states[i].now <= states[k].now
  {
    if i < k {
      ClockOnlyAdvances(states, steps, i, k - 1);
    }
  }

  // A timer runs when its user has been without any connection for the whole grace period.
  lemma RunAfterGrace(states: seq<State>, steps: seq<Step>, r: nat) returns (i: nat)
    requires Trace(states, steps) && r < |steps| && steps[r].RunTimer?
    ensures steps[r].id in states[r].armed
    ensures i < r && states[r].now - states[i].now >= GRACE_MS
    ensures var user := states[r].armed[steps[r].id].user;
      user in states[i].onlineUsers && Absent(states, user, i, r + 1)
  {
    TraceKeepsInv(states, steps, r);
    i := ArmedMeansAbsent(states, steps, r, steps[r].id);
  }

  // Whenever a user is found offline, the user has been without any connection for the whole grace
  // period up to that moment.
  lemma OfflineAfterGrace(states: seq<State>, steps: seq<Step>, k: nat) returns (i: nat)
    requires Trace(states, steps) && k < |steps| && states[k + 1].leaving != states[k].leaving && !steps[k].Announce?
    ensures steps[k].RunTimer? && steps[k].id in states[k].armed
    ensures var user := states[k].armed[steps[k].id].user;
      && states[k + 1].leaving == states[k].leaving + [Finding(user, steps[k].id)]
      && i < k && states[k].now - states[i].now >= GRACE_MS
      && user in states[i].onlineUsers && Absent(states, user, i, k + 1)
  {
    TraceKeepsInv(states, steps, k);
    i := RunAfterGrace(states, steps, k);
  }

  // The callback never finds its user connected: whoever comes back in time takes the timer away.
  lemma TimerFindsNobody(states: seq<State>, steps: seq<Step>, k: nat, id: TimerId)
    requires Trace(states, steps) && k < |states| && id in states[k].armed
    ensures states[k].armed[id].user !in states[k].onlineUsers
    ensures !states[k].stopped ==> TimerRun(states[k], id).leaving == states[k].leaving + [Finding(states[k].armed[id].user, id)]
  {
    TraceKeepsInv(states, steps, k);
  }

  // ---------- Announcements ----------

  predicate HasFinding(s: State, finding: Finding) {
    finding in s.announced || finding in s.leaving
  }

  // No timer stands behind two findings, and none of those found is still armed.
  ghost predicate FindingsDistinct(s: State) {
    && (forall a, b | 0 <= a < b < |s.announced| :: s.announced[a].timer != s.announced[b].timer)
    && (forall a, b | 0 <= a < b < |s.leaving| :: s.leaving[a].timer != s.leaving[b].timer)
    && (forall a, b | 0 <= a < |s.announced| && 0 <= b < |s.leaving| :: s.announced[a].timer != s.leaving[b].timer)
    && (forall finding | HasFinding(s, finding) :: finding.timer < s.nextTimer && finding.timer !in s.armed)
  }

  // A step makes a finding only by running the timer behind it, and loses none.
  lemma StepFindings(s: State, step: Step, finding: Finding)
    requires Inv(s) && Enabled(s, step)
    ensures HasFinding(Next(s, step), finding) <==>
      HasFinding(s, finding) || (step == RunTimer(finding.timer) && s.armed[finding.timer].user == finding.user)
  {
    match step
    case Announce(i) => assert forall other :: other in s.leaving <==> other in s.leaving[..i] || other == s.leaving[i] || other in s.leaving[i + 1..];
    case RunTimer(id) => assert s.armed[id].user !in s.onlineUsers;
    case _ =>
  }

  lemma StoppedStep(s: State, step: Step)
    requires Inv(s) && Enabled(s, step) && (s.stopped || step.Quiesce?)
    ensures var next := Next(s, step);
      && next.stopped && next.armed == map[] && next.onlineUsers == s.onlineUsers && next.connectionToUser == s.connectionToUser
  {
  }

  // After the stop nobody comes or goes any more, no timer is left, and nobody else is found offline.
  lemma {:induction false} StopEndsAll(states: seq<State>, steps: seq<Step>, q: nat, k: nat)
    requires Trace(states, steps) && q < k < |states| && steps[q] == Quiesce
    ensures states[k].stopped && states[k].armed == map[]
    ensures states[k].onlineUsers == states[q].onlineUsers && states[k].connectionToUser == states[q].connectionToUser
    ensures forall finding :: HasFinding(states[k], finding) <==> HasFinding(states[q], finding)
  {
    hide Next, Inv, HasFinding, Enabled;
    TraceKeepsInv(states, steps, k - 1);
    if k > q + 1 {
      StopEndsAll(states, steps, q, k - 1);
    }
    StoppedStep(states[k - 1], steps[k - 1]);
    assert states[k] == Next(states[k - 1], steps[k - 1]);
    forall finding ensures HasFinding(states[k], finding) <==> HasFinding(states[k - 1], finding) {
      StepFindings(states[k - 1], steps[k - 1], finding);
      NoTimerRuns(states[k - 1], steps[k - 1]);
    }
  }

  lemma NoTimerRuns(s: State, step: Step)
    requires Inv(s) && Enabled(s, step) && (s.stopped || step.Quiesce?)
    ensures !step.RunTimer?
  {
  }

  lemma AnnounceKeepsDistinct(s: State, i: nat)
    requires FindingsDistinct(s) && i < |s.leaving|
    ensures FindingsDistinct(Announced(s, i))
  {
    var next := Announced(s, i);
    forall finding | HasFinding(next, finding) ensures HasFinding(s, finding) {}
    forall k | 0 <= k < |next.leaving| ensures next.leaving[k] == s.leaving[if k < i then k else k + 1] {}
  }

  lemma RunTimerKeepsDistinct(s: State, id: TimerId)
    requires Inv(s) && FindingsDistinct(s) && id in s.armed
    ensures FindingsDistinct(TimerRun(s, id))
  {
    forall finding | HasFinding(s, finding) ensures finding.timer != id {}
  }

  // The other steps leave the findings alone, and arm fresh timers only.
  lemma OtherStepsArmFresh(s: State, step: Step)
    requires Inv(s) && Enabled(s, step) && !step.Announce? && !step.RunTimer?
    ensures var next := Next(s, step);
      && next.announced == s.announced && next.leaving == s.leaving && s.nextTimer <= next.nextTimer
      && forall id | id in next.armed :: id in s.armed || id == s.nextTimer
  {
  }

  lemma StepKeepsDistinct(s: State, step: Step)
    requires Inv(s) && FindingsDistinct(s) && Enabled(s, step)
    ensures FindingsDistinct(Next(s, step))
  {
    match step
    case Announce(i) => AnnounceKeepsDistinct(s, i);
    case RunTimer(id) => RunTimerKeepsDistinct(s, id);
    case _ =>
      hide Next, Inv;
      OtherStepsArmFresh(s, step);
      forall finding | HasFinding(Next(s, step), finding) ensures HasFinding(s, finding) {}
  }

  lemma {:induction false} TraceKeepsDistinct(states: seq<State>, steps: seq<Step>, k: nat)
    requires Trace(states, steps) && k < |states|
    ensures FindingsDistinct(states[k])
  {
    hide Inv, FindingsDistinct, Next, Enabled;
    if k == 0 {
      NoFindingsYet();
    } else {
      TraceKeepsInv(states, steps, k - 1);
      TraceKeepsDistinct(states, steps, k - 1);
      StepKeepsDistinct(states[k - 1], steps[k - 1]);
    }
  }

  lemma NoFindingsYet()
    ensures FindingsDistinct(INITIAL) && forall finding :: !HasFinding(INITIAL, finding)
  {
  }

  // The r-th step runs the timer of the finding, and its user had no connection for the whole grace
  // period up to that step.
  ghost predicate FoundAt(states: seq<State>, steps: seq<Step>, finding: Finding, r: nat) {
    && r < |steps| < |states| && steps[r] == RunTimer(finding.timer)
    && finding.timer in states[r].armed && states[r].armed[finding.timer].user == finding.user
    && exists i | 0 <= i < r :: states[r].now - states[i].now >= GRACE_MS
         && finding.user in states[i].onlineUsers && Absent(states, finding.user, i, r + 1)
  }

  // Every finding was made by the run of its timer.
  lemma {:induction false} FindingHasRun(states: seq<State>, steps: seq<Step>, k: nat, finding: Finding) returns (r: nat)
    requires Trace(states, steps) && k < |states| && HasFinding(states[k], finding)
    ensures r < k && FoundAt(states, steps, finding, r)
  {
    hide Inv, Next, HasFinding;
    if k == 0 {
      NoFindingsYet();
      assert false;
    } else {
      TraceKeepsInv(states, steps, k - 1);
      StepFindings(states[k - 1], steps[k - 1], finding);
      if HasFinding(states[k - 1], finding) {
        r := FindingHasRun(states, steps, k - 1, finding);
      } else {
        r := k - 1;
        var i := RunAfterGrace(states, steps, r);
      }
    }
  }

  // Every announcement that was sent has a run of a timer of its own, different announcements different
  // runs, and each came after a whole grace period in which its user had no connection.
  lemma AnnouncedAfterGrace(states: seq<State>, steps: seq<Step>, k: nat) returns (runs: seq<nat>)
    requires Trace(states, steps) && k < |states|
    ensures |runs| == |states[k].announced|
    ensures forall a | 0 <= a < |runs| :: runs[a] < k && FoundAt(states, steps, states[k].announced[a], runs[a])
    ensures forall a, b | 0 <= a < b < |runs| :: runs[a] != runs[b]
  {
    TraceKeepsDistinct(states, steps, k);
    var announced := states[k].announced;
    runs := [];
    while |runs| < |announced|
      invariant |runs| <= |announced|
      invariant forall a | 0 <= a < |runs| :: runs[a] < k && FoundAt(states, steps, announced[a], runs[a])
      decreases |announced| - |runs|
    {
      assert HasFinding(states[k], announced[|runs|]);
      var r := FindingHasRun(states, steps, k, announced[|runs|]);
      runs := runs + [r];
    }
  }

  // ---------- Announcements that come too late ----------

  // The l-th step logs the connection in as the user, and nothing before the k-th state undoes it.
  predicate LoginLasts(states: seq<State>, steps: seq<Step>, user: User, connection: Connection, l: nat, k: nat)
    requires k <= |steps| < |states|
  {
    && l < k && steps[l] == Login(connection, user) && !states[l].stopped
    && forall m | l < m < k && steps[m] == Disconnect(connection) :: states[m].stopped
  }

  predicate SomeLoginLasts(states: seq<State>, steps: seq<Step>, user: User, connection: Connection, r: nat, k: nat)
    requires k <= |steps| < |states|
  {
    exists l | r <= l < k :: LoginLasts(states, steps, user, connection, l, k)
  }

  // Whether a user who had no connection in the r-th state has this one in the k-th.
  lemma {:induction false} ConnectedIff(states: seq<State>, steps: seq<Step>, user: User, connection: Connection, r: nat, k: nat)
    requires Trace(states, steps) && r <= k < |states| && user !in states[r].onlineUsers
    ensures connection in ConnectionsOf(states[k], user) <==> SomeLoginLasts(states, steps, user, connection, r, k)
  {
    if r < k {
      ConnectedIff(states, steps, user, connection, r, k - 1);
      TraceKeepsInv(states, steps, k - 1);
      StepConnects(states[k - 1], steps[k - 1], user, connection);
      LoginLastsStep(states, steps, user, connection, r, k);
    }
  }

  // One step connects the user by a login, and disconnects by a disconnect only.
  lemma StepConnects(s: State, step: Step, user: User, connection: Connection)
    requires Inv(s) && Enabled(s, step) && OneUser(s, step)
    ensures connection in ConnectionsOf(Next(s, step), user) <==>
      || (step == Login(connection, user) && !s.stopped)
      || (connection in ConnectionsOf(s, user) && !(step == Disconnect(connection) && !s.stopped))
  {
    if step.Disconnect? && !s.stopped && step.connection in s.connectionToUser {
      var other := s.connectionToUser[step.connection];
      assert step.connection in s.onlineUsers[other];
    }
  }

  lemma LoginLastsStep(states: seq<State>, steps: seq<Step>, user: User, connection: Connection, r: nat, k: nat)
    requires r < k <= |steps| < |states|
    ensures SomeLoginLasts(states, steps, user, connection, r, k) <==>
      || (steps[k - 1] == Login(connection, user) && !states[k - 1].stopped)
      || (SomeLoginLasts(states, steps, user, connection, r, k - 1)
          && !(steps[k - 1] == Disconnect(connection) && !states[k - 1].stopped))
  {
    var before := k - 1;
    if steps[before] == Login(connection, user) && !states[before].stopped {
      assert LoginLasts(states, steps, user, connection, before, k);
    } else if SomeLoginLasts(states, steps, user, connection, r, before) {
      var l :| r <= l < before && LoginLasts(states, steps, user, connection, l, before);
      if !(steps[before] == Disconnect(connection) && !states[before].stopped) {
        assert LoginLasts(states, steps, user, connection, l, k);
      }
    }
    if SomeLoginLasts(states, steps, user, connection, r, k) {
      var l :| r <= l < k && LoginLasts(states, steps, user, connection, l, k);
      assert l < before ==> LoginLasts(states, steps, user, connection, l, before);
    }
  }

  // Some login of the user from the r-th step on has not been undone before the k-th state.
  ghost predicate CameBack(states: seq<State>, steps: seq<Step>, user: User, r: nat, k: nat)
    requires k <= |steps| < |states|
  {
    exists connection :: SomeLoginLasts(states, steps, user, connection, r, k)
  }

  lemma CameBackIff(states: seq<State>, steps: seq<Step>, user: User, r: nat, k: nat)
    requires Trace(states, steps) && r <= k <= |steps| && user !in states[r].onlineUsers
    ensures user in states[k].onlineUsers <==> CameBack(states, steps, user, r, k)
  {
    TraceKeepsInv(states, steps, k);
    var own := ConnectionsOf(states[k], user);
    forall connection: Connection ensures connection in own <==> SomeLoginLasts(states, steps, user, connection, r, k) {
      ConnectedIff(states, steps, user, connection, r, k);
    }
    assert (forall connection: Connection :: connection !in own) ==> own == {};
  }

  // An announcement is wrong, its user being connected when it is sent, if and only if some login of
  // the user since the finding has not been undone.
  lemma AnnouncementWrongIff(states: seq<State>, steps: seq<Step>, k: nat) returns (r: nat)
    requires Trace(states, steps) && k < |steps| && steps[k].Announce?
    ensures steps[k].i < |states[k].leaving| && r < k && FoundAt(states, steps, states[k].leaving[steps[k].i], r)
    ensures var user := states[k].leaving[steps[k].i].user;
      && states[k + 1].announced == states[k].announced + [states[k].leaving[steps[k].i]]
      && (user in states[k + 1].onlineUsers <==>
            CameBack(states, steps, user, r + 1, k))
  {
    var finding := states[k].leaving[steps[k].i];
    assert HasFinding(states[k], finding);
    r := FindingHasRun(states, steps, k, finding);
    TraceKeepsInv(states, steps, k);
    assert finding.user !in states[r + 1].onlineUsers;
    CameBackIff(states, steps, finding.user, r + 1, k);
  }

  lemma Extend(states: seq<State>, steps: seq<Step>, step: Step, next: State) returns (states': seq<State>, steps': seq<Step>)
    requires Trace(states, steps) && Enabled(states[|steps|], step) && OneUser(states[|steps|], step)
    requires Next(states[|steps|], step) == next
    ensures Trace(states', steps') && steps' == steps + [step] && states'[|steps'|] == next
  {
    states', steps' := states + [next], steps + [step];
    assert states'[0] == states[0];
  }

  // And such runs exist: the announcement waits for two writes, and a login in between is too late.
  lemma AnnouncementMayCrossLogin()
    ensures exists states: seq<State>, steps: seq<Step> ::
      (&& Trace(states, steps) && |steps| == 6 && steps[5] == Announce(0)
       && states[6].announced == [Finding("u", 0)] && "u" in states[6].onlineUsers)
  {
    hide LoggedIn, Disconnected, TimerRun, Announced, Trace;
    var s1 := LoggedIn(INITIAL, 1, "u");
    var s2 := Disconnected(s1, 1);
    var s3 := s2.(now := GRACE_MS);
    CrossingLeaves("u", 1);
    var s4 := TimerRun(s3, 0);
    var s5 := LoggedIn(s4, 2, "u");
    CrossingReturns(s4, "u", 2);
    var states, steps := [INITIAL], [];
    assert Trace(states, steps) by { TraceBegins(); }
    states, steps := Extend(states, steps, Login(1, "u"), s1);
    states, steps := Extend(states, steps, Disconnect(1), s2);
    states, steps := Extend(states, steps, Tick(GRACE_MS), s3);
    states, steps := Extend(states, steps, RunTimer(0), s4);
    states, steps := Extend(states, steps, Login(2, "u"), s5);
    states, steps := Extend(states, steps, Announce(0), Announced(s5, 0));
    assert steps[5] == Announce(0);
  }

  lemma TraceBegins()
    ensures Trace([INITIAL], [])
  {
  }

  lemma CrossingLeaves(user: User, connection: Connection)
    ensures var away := Disconnected(LoggedIn(INITIAL, connection, user), connection).(now := GRACE_MS);
      && 0 in away.armed && away.armed[0].due <= GRACE_MS
      && TimerRun(away, 0).leaving == [Finding(user, 0)] && TimerRun(away, 0).announced == [] && !TimerRun(away, 0).stopped
      && TimerRun(away, 0).connectionToUser == map[] && Disconnected(LoggedIn(INITIAL, connection, user), connection).now == 0
  {
    var s1 := LoggedIn(INITIAL, connection, user);
    assert s1.onlineUsers[user] == {connection} && s1.connectionToUser[connection] == user;
    var s2 := Disconnected(s1, connection);
    assert s2.armed == map[0 := Timer(user, GRACE_MS)] && user !in s2.onlineUsers;
  }

  lemma CrossingReturns(s: State, user: User, connection: Connection)
    requires s.leaving == [Finding(user, 0)] && s.announced == [] && !s.stopped
    ensures var back := LoggedIn(s, connection, user);
      && back.leaving == [Finding(user, 0)] && !back.stopped
      && Announced(back, 0).announced == [Finding(user, 0)] && user in Announced(back, 0).onlineUsers
  {
  }

  // The user is held online by a connection that is mapped to somebody else, or to nobody.
  predicate HeldOnline(s: State, connection: Connection, user: User) {
    && user in s.onlineUsers && connection in s.onlineUsers[user]
    && (connection in s.connectionToUser ==> s.connectionToUser[connection] != user)
  }

  // A connection that logs in as a second user holds the first one online, and nothing but a login of
  // that same connection as the first user ends it.
  lemma SecondLoginHoldsOnline(s: State, connection: Connection, user: User)
    requires MapsInverse(s) && !s.stopped && connection in s.connectionToUser && s.connectionToUser[connection] != user
    ensures HeldOnline(LoggedIn(s, connection, user), connection, s.connectionToUser[connection])
  {
    assert connection in s.onlineUsers[s.connectionToUser[connection]];
  }

  lemma HeldOnlineStays(s: State, connection: Connection, user: User, step: Step)
    requires HeldOnline(s, connection, user) && Enabled(s, step) && step != Login(connection, user)
    ensures HeldOnline(Next(s, step), connection, user)
  {
  }
}
