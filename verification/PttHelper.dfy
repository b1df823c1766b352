// The pairing and session state of the local push-to-talk helper. Every method of `HelperRuntime` is
// one block under the runtime mutex; connections, the settings window and the tray may run them in
// any order.
module PttHelper {
  import opened Options
  import opened Text

  type Connection = nat

  datatype BindingRequest = BindingRequest(
    keyCode: Option<string>, mode: Option<string>, allowPassThrough: Option<bool>, platformStrategy: Option<string>)

  datatype Session = Session(
    origin: string, sessionId: string, clientKind: string, focused: bool, visible: bool, authorized: bool,
    lastForegroundAt: Option<int>, config: BindingRequest)

  datatype Pairing = Pairing(requestId: nat, connection: Connection, origin: string, clientKind: string)

  datatype TrustedOrigin = TrustedOrigin(origin: string, tokenHash: string, approvedAt: int, lastClientKind: string)

  // `socketOrigin` is the Origin header each connection task was accepted with; a hello naming any
  // other origin is refused before the runtime is touched. `service` is the binding last given to
  // the input service, which starts without one.
  datatype State = State(
    trusted: seq<TrustedOrigin>,
    paused: bool,
    sessions: map<Connection, Session>,
    pairings: seq<Pairing>,
    nextConnection: nat,
    nextRequest: nat,
    target: Option<Connection>,
    active: BindingRequest,
    service: BindingRequest,
    socketOrigin: map<Connection, string>)

  function DefaultRequest(): BindingRequest {
    BindingRequest(None, Some("live"), Some(true), Some("auto"))
  }

  function InitialState(trusted: seq<TrustedOrigin>, paused: bool): State {
    State(trusted, paused, map[], [], 1, 1, None, DefaultRequest(), DefaultRequest(), map[])
  }

  predicate Trusts(trusted: seq<TrustedOrigin>, origin: string) {
    exists i :: 0 <= i < |trusted| && trusted[i].origin == origin
  }

  // ---------- What each block does ----------

  // A session before its first hello. Its placeholder id is never compared: duplicates share an origin.
  function NewSession(): Session {
    Session("", "pending", "browser", false, true, false, None, DefaultRequest())
  }

  function Registered(s: State, origin: string): State {
    s.(nextConnection := s.nextConnection + 1,
       sessions := s.sessions[s.nextConnection := NewSession()],
       socketOrigin := s.socketOrigin[s.nextConnection := origin])
  }

  function WithoutConnections(pairings: seq<Pairing>, gone: set<Connection>): (r: seq<Pairing>)
  {
    if pairings == [] then []
    else (if pairings[0].connection in gone then [] else [pairings[0]]) + WithoutConnections(pairings[1..], gone)
  }

  function WithoutOrigin(pairings: seq<Pairing>, origin: string): seq<Pairing> {
    if pairings == [] then []
    else (if pairings[0].origin == origin then [] else [pairings[0]]) + WithoutOrigin(pairings[1..], origin)
  }

  function Untrusted(trusted: seq<TrustedOrigin>, origin: string): seq<TrustedOrigin> {
    if trusted == [] then []
    else (if trusted[0].origin == origin then [] else [trusted[0]]) + Untrusted(trusted[1..], origin)
  }

  // The other connections of the same origin and browser session.
  function Duplicates(sessions: map<Connection, Session>, current: Connection, origin: string, sessionId: string): set<Connection> {
    set c | c in sessions && c != current && sessions[c].origin == origin && sessions[c].sessionId == sessionId
  }

  function WithoutSessions(s: State, gone: set<Connection>): State {
    s.(sessions := s.sessions - gone,
       pairings := WithoutConnections(s.pairings, gone),
       target := if s.target.Some? && s.target.value in gone then None else s.target)
  }

  // The token hash stored for an origin, by the first matching record.
  function TokenHash(trusted: seq<TrustedOrigin>, origin: string): Option<string> {
    if trusted == [] then None
    else if trusted[0].origin == origin then Some(trusted[0].tokenHash)
    else TokenHash(trusted[1..], origin)
  }

  function Greeted(s: State, c: Connection, sessionId: string, clientKind: string, presented: Option<string>, now: int): State
    requires c in s.sessions && c in s.socketOrigin
  {
    var origin := s.socketOrigin[c];
    var session := s.sessions[c];
    if presented.Some? && TokenHash(s.trusted, origin) == presented then
      var accepted := session.(origin := origin, sessionId := sessionId, clientKind := clientKind, authorized := true,
        lastForegroundAt := if session.lastForegroundAt.None? then Some(now) else session.lastForegroundAt);
      var alone := WithoutSessions(s.(sessions := s.sessions[c := accepted]), Duplicates(s.sessions, c, origin, sessionId));
      alone.(pairings := WithoutConnections(alone.pairings, {c}))
    else
      var refused := session.(origin := origin, sessionId := sessionId, clientKind := clientKind, authorized := false,
        focused := false, visible := true, lastForegroundAt := None);
      var s' := s.(sessions := s.sessions[c := refused]);
      if exists i :: 0 <= i < |s.pairings| && s.pairings[i].connection == c then s'
      else s'.(nextRequest := s.nextRequest + 1, pairings := s.pairings + [Pairing(s.nextRequest, c, origin, clientKind)])
  }

  function StateReported(s: State, c: Connection, focused: bool, visible: bool, now: int): State
    requires c in s.sessions
  {
    var session := s.sessions[c];
    if !session.authorized then s
    else
      var last := if focused || (visible && session.lastForegroundAt.None?) then Some(now) else session.lastForegroundAt;
      s.(sessions := s.sessions[c := session.(focused := focused, visible := visible, lastForegroundAt := last)])
  }

  function Configured(s: State, c: Connection, config: BindingRequest): State
    requires c in s.sessions
  {
    if s.sessions[c].authorized then s.(sessions := s.sessions[c := s.sessions[c].(config := config)]) else s
  }

  function Disconnected(s: State, c: Connection): State {
    s.(sessions := s.sessions - {c}, pairings := WithoutConnections(s.pairings, {c}))
  }

  // The index of a request, or the number of requests when there is none.
  function PositionOf(pairings: seq<Pairing>, requestId: nat): (i: nat)
    ensures i <= |pairings|
    ensures i < |pairings| ==> pairings[i].requestId == requestId
    ensures forall j :: 0 <= j < i ==> pairings[j].requestId != requestId
  {
    if pairings == [] then 0
    else if pairings[0].requestId == requestId then 0
    else 1 + PositionOf(pairings[1..], requestId)
  }

  function Trust(trusted: seq<TrustedOrigin>, record: TrustedOrigin): seq<TrustedOrigin> {
    if trusted == [] then [record]
    else if trusted[0].origin == record.origin then [record] + trusted[1..]
    else [trusted[0]] + Trust(trusted[1..], record)
  }

  datatype Approval = UnknownRequest | SessionGone | Paired

  function Approved(s: State, requestId: nat, tokenHash: string, now: int): (State, Approval) {
    var i := PositionOf(s.pairings, requestId);
    if i == |s.pairings| then (s, UnknownRequest)
    else
      var request := s.pairings[i];
      var s' := s.(pairings := s.pairings[..i] + s.pairings[i + 1..],
                   trusted := Trust(s.trusted, TrustedOrigin(request.origin, tokenHash, now, request.clientKind)));
      if request.connection !in s.sessions then (s', SessionGone)
      else
        var session := s.sessions[request.connection].(authorized := true, lastForegroundAt := Some(now));
        (s'.(sessions := s.sessions[request.connection := session]), Paired)
  }

  function Rejected(s: State, requestId: nat): State {
    var i := PositionOf(s.pairings, requestId);
    if i == |s.pairings| then s else s.(pairings := s.pairings[..i] + s.pairings[i + 1..])
  }

  function Signedout(session: Session, origin: string): Session {
    if session.origin == origin then session.(authorized := false, focused := false, lastForegroundAt := None) else session
  }

  function Revoked(s: State, origin: string): State {
    s.(trusted := Untrusted(s.trusted, origin),
       pairings := WithoutOrigin(s.pairings, origin),
       sessions := map c | c in s.sessions :: Signedout(s.sessions[c], origin))
  }

  // ---------- Target and binding ----------

  predicate Later(a: Option<int>, b: Option<int>) {
    a.Some? && (b.None? || a.value > b.value)
  }

  predicate Authorized(s: State, c: Connection) {
    c in s.sessions && s.sessions[c].authorized
  }

  predicate FocusedTarget(s: State, c: Connection) {
    Authorized(s, c) && s.sessions[c].focused
  }

  // What the sorted search may answer; sessions with equal times come in the order of a hash map.
  ghost predicate IsTarget(s: State, t: Option<Connection>) {
    match t
    case Some(c) =>
      || (FocusedTarget(s, c) && forall d :: FocusedTarget(s, d) ==> !Later(s.sessions[d].lastForegroundAt, s.sessions[c].lastForegroundAt))
      || (&& (forall d :: d in s.sessions ==> !FocusedTarget(s, d))
          && Authorized(s, c) && s.sessions[c].lastForegroundAt.Some?
          && forall d :: Authorized(s, d) ==> !Later(s.sessions[d].lastForegroundAt, s.sessions[c].lastForegroundAt))
    case None => forall d :: Authorized(s, d) ==> !s.sessions[d].focused && s.sessions[d].lastForegroundAt.None?
  }

  function EffectiveBinding(s: State): BindingRequest {
    if s.paused || s.target.None? || s.target.value !in s.sessions then DefaultRequest()
    else
      var session := s.sessions[s.target.value];
      if !session.authorized || session.config.mode.None? || Trim(session.config.mode.value) != "ptt" then DefaultRequest()
      else session.config
  }

  // The connection a push-to-talk event is sent to.
  function TargetForPtt(s: State): Option<Connection> {
    if s.paused || s.target.None? || !Authorized(s, s.target.value) then None else s.target
  }

  // The recomputation block by block: a new target, the binding read under one lock and given to the
  // service without it, and the binding noted as active under another lock.
  function Retargeted(s: State, t: Option<Connection>): State {
    s.(target := t)
  }

  function Served(s: State, request: BindingRequest, apply: bool): State {
    s.(service := if apply then request else s.service)
  }

  function Stored(s: State, request: BindingRequest): State {
    s.(active := request)
  }

  function Recomputed(s: State, t: Option<Connection>): State {
    var s' := Retargeted(s, t);
    var request := EffectiveBinding(s');
    Stored(Served(s', request, request != s'.active), request)
  }

  class HelperRuntime {
    var trusted: seq<TrustedOrigin>
    var paused: bool
    var sessions: map<Connection, Session>
    var pairings: seq<Pairing>
    var nextConnection: nat
    var nextRequest: nat
    var target: Option<Connection>
    var active: BindingRequest
    var service: BindingRequest
    var socketOrigin: map<Connection, string>

    function View(): State
      reads this
    {
      State(trusted, paused, sessions, pairings, nextConnection, nextRequest, target, active, service, socketOrigin)
    }

    constructor (trusted: seq<TrustedOrigin>, paused: bool)
      ensures View() == InitialState(trusted, paused)
    {
      this.trusted, this.paused := trusted, paused;
      sessions, pairings := map[], [];
      nextConnection, nextRequest, target := 1, 1, None;
      active, service, socketOrigin := DefaultRequest(), DefaultRequest(), map[];
    }

    method RegisterConnection(origin: string) returns (id: Connection)
      modifies this
      ensures id == old(nextConnection) && View() == Registered(old(View()), origin)
    {
      id := nextConnection;
      nextConnection := nextConnection + 1;
      sessions := sessions[id := NewSession()];
      socketOrigin := socketOrigin[id := origin];
    }

    // Drops the duplicates one by one; their connections are closed by the caller.
    method RemoveDuplicateSessions(current: Connection, origin: string, sessionId: string) returns (removed: set<Connection>)
      modifies this`sessions, this`pairings, this`target
      ensures removed == Duplicates(old(sessions), current, origin, sessionId)
      ensures View() == WithoutSessions(old(View()), removed)
    {
      removed := {};
      var duplicates := set c | c in sessions && c != current && sessions[c].origin == origin && sessions[c].sessionId == sessionId;
      var remaining := duplicates;
      WithoutNobody(pairings);
      assert sessions - {} == sessions;
      while remaining != {}
        invariant removed + remaining == duplicates && removed !! remaining
        invariant View() == WithoutSessions(old(View()), removed)
        decreases remaining
      {
        var id :| id in remaining;
        WithoutTwice(old(pairings), removed, {id});
        assert old(sessions) - removed - {id} == old(sessions) - (removed + {id});
        sessions := sessions - {id};
        pairings := WithoutConnections(pairings, {id});
        if target == Some(id) {
          target := None;
        }
        removed, remaining := removed + {id}, remaining - {id};
      }
    }

    method Hello(c: Connection, sessionId: string, clientKind: string, presented: Option<string>, now: int)
      returns (known: bool, removed: set<Connection>)
      requires c in sessions ==> c in socketOrigin
      modifies this
      ensures known <==> c in old(sessions)
      ensures View() == if known then Greeted(old(View()), c, sessionId, clientKind, presented, now) else old(View())
    {
      removed := {};
      if c !in sessions {
        return false, {};
      }
      known := true;
      var origin := socketOrigin[c];
      var session := sessions[c];
      if presented.Some? && TokenHash(trusted, origin) == presented {
        session := session.(origin := origin, sessionId := sessionId, clientKind := clientKind, authorized := true);
        if session.lastForegroundAt.None? {
          session := session.(lastForegroundAt := Some(now));
        }
        sessions := sessions[c := session];
        removed := RemoveDuplicateSessions(c, origin, sessionId);
        pairings := WithoutConnections(pairings, {c});
        assert removed == Duplicates(old(sessions), c, origin, sessionId);
      } else {
        session := session.(origin := origin, sessionId := sessionId, clientKind := clientKind, authorized := false);
        session := session.(focused := false, visible := true, lastForegroundAt := None);
        sessions := sessions[c := session];
        var i := 0;
        while i < |pairings|
          invariant i <= |pairings|
          invariant forall j :: 0 <= j < i ==> pairings[j].connection != c
        {
          if pairings[i].connection == c {
            return;
          }
          i := i + 1;
        }
        var requestId := nextRequest;
        nextRequest := nextRequest + 1;
        pairings := pairings + [Pairing(requestId, c, origin, clientKind)];
      }
    }

    method ReportState(c: Connection, focused: bool, visible: bool, now: int) returns (known: bool)
      modifies this`sessions
      ensures known <==> c in old(sessions)
      ensures View() == if known then StateReported(old(View()), c, focused, visible, now) else old(View())
    {
      if c !in sessions {
        return false;
      }
      known := true;
      var session := sessions[c];
      if !session.authorized {
        return;
      }
      session := session.(focused := focused, visible := visible);
      if focused {
        session := session.(lastForegroundAt := Some(now));
      } else if visible && session.lastForegroundAt.None? {
        session := session.(lastForegroundAt := Some(now));
      }
      sessions := sessions[c := session];
    }

    method Configure(c: Connection, config: BindingRequest) returns (known: bool)
      modifies this`sessions
      ensures known <==> c in old(sessions)
      ensures View() == if known then Configured(old(View()), c, config) else old(View())
    {
      if c !in sessions {
        return false;
      }
      known := true;
      var session := sessions[c];
      if !session.authorized {
        return;
      }
      session := session.(config := config);
      sessions := sessions[c := session];
    }

    method SetPaused(value: bool)
      modifies this`paused
      ensures View() == old(View()).(paused := value)
    {
      paused := value;
    }

    method Cleanup(c: Connection)
      modifies this`sessions, this`pairings
      ensures View() == Disconnected(old(View()), c)
    {
      sessions := sessions - {c};
      pairings := WithoutConnections(pairings, {c});
    }

    // Replaces the record of the origin, or adds one.
    method TrustOrigin(record: TrustedOrigin)
      modifies this`trusted
      ensures trusted == Trust(old(trusted), record)
    {
      var k := 0;
      while k < |trusted| && trusted[k].origin != record.origin
        invariant k <= |trusted|
        invariant Trust(trusted, record) == trusted[..k] + Trust(trusted[k..], record)
      {
        assert trusted[k..][1..] == trusted[k + 1..];
        k := k + 1;
      }
      if k < |trusted| {
        assert trusted[k := record] == trusted[..k] + [record] + trusted[k + 1..];
        trusted := trusted[k := record];
      } else {
        trusted := trusted + [record];
      }
    }

    method Approve(requestId: nat, tokenHash: string, now: int) returns (result: Approval)
      modifies this
      ensures (View(), result) == Approved(old(View()), requestId, tokenHash, now)
    {
      var index := 0;
      while index < |pairings| && pairings[index].requestId != requestId
        invariant index <= |pairings|
        invariant forall j :: 0 <= j < index ==> pairings[j].requestId != requestId
      {
        index := index + 1;
      }
      assert index == PositionOf(pairings, requestId);
      if index == |pairings| {
        return UnknownRequest;
      }
      var request := pairings[index];
      pairings := pairings[..index] + pairings[index + 1..];
      TrustOrigin(TrustedOrigin(request.origin, tokenHash, now, request.clientKind));
      if request.connection !in sessions {
        return SessionGone;
      }
      var session := sessions[request.connection];
      sessions := sessions[request.connection := session.(authorized := true, lastForegroundAt := Some(now))];
      return Paired;
    }

    method Reject(requestId: nat)
      modifies this`pairings
      ensures View() == Rejected(old(View()), requestId)
    {
      var index := 0;
      while index < |pairings| && pairings[index].requestId != requestId
        invariant index <= |pairings|
        invariant forall j :: 0 <= j < index ==> pairings[j].requestId != requestId
      {
        index := index + 1;
      }
      assert index == PositionOf(pairings, requestId);
      if index < |pairings| {
        pairings := pairings[..index] + pairings[index + 1..];
      }
    }

    // Signs out the sessions of the origin one by one.
    method RevokeOrigin(origin: string)
      modifies this`trusted, this`pairings, this`sessions
      ensures View() == Revoked(old(View()), origin)
    {
      trusted := Untrusted(trusted, origin);
      pairings := WithoutOrigin(pairings, origin);
      var remaining := sessions.Keys;
      while remaining != {}
        invariant remaining <= sessions.Keys == old(sessions).Keys
        invariant trusted == Untrusted(old(trusted), origin) && pairings == WithoutOrigin(old(pairings), origin)
        invariant forall c :: c in sessions ==> sessions[c] == if c in remaining then old(sessions)[c] else Signedout(old(sessions)[c], origin)
        decreases remaining
      {
        var c :| c in remaining;
        if sessions[c].origin == origin {
          sessions := sessions[c := sessions[c].(authorized := false, focused := false, lastForegroundAt := None)];
        }
        remaining := remaining - {c};
      }
    }

    // Sorts the authorised sessions latest first and takes the first focused one, else the first
    // that was ever in the foreground.
    method ChooseTargetConnection() returns (chosen: Option<Connection>)
      ensures IsTarget(View(), chosen)
    {
      var order: seq<Connection> := [];
      var remaining := sessions.Keys;
      while remaining != {}
        invariant remaining <= sessions.Keys
        invariant forall c :: c in order <==> Authorized(View(), c) && c !in remaining
        invariant forall i, j :: 0 <= i < j < |order| ==> !Later(sessions[order[j]].lastForegroundAt, sessions[order[i]].lastForegroundAt)
        decreases remaining
      {
        var c :| c in remaining;
        if sessions[c].authorized {
          var k := |order|;
          while k > 0 && Later(sessions[c].lastForegroundAt, sessions[order[k - 1]].lastForegroundAt)
            invariant 0 <= k <= |order|
            invariant forall j :: k <= j < |order| ==> Later(sessions[c].lastForegroundAt, sessions[order[j]].lastForegroundAt)
          {
            k := k - 1;
          }
          order := order[..k] + [c] + order[k..];
        }
        remaining := remaining - {c};
      }
      for i := 0 to |order|
        invariant forall j :: 0 <= j < i ==> !sessions[order[j]].focused
      {
        if sessions[order[i]].focused {
          return Some(order[i]);
        }
      }
      for i := 0 to |order|
        invariant forall j :: 0 <= j < i ==> sessions[order[j]].lastForegroundAt.None?
      {
        if sessions[order[i]].lastForegroundAt.Some? {
          return Some(order[i]);
        }
      }
      return None;
    }

    method RecomputeTargetAndBinding() returns (ghost chosen: Option<Connection>)
      modifies this`target, this`service, this`active
      ensures IsTarget(old(View()), chosen) && View() == Recomputed(old(View()), chosen)
    {
      var t := ChooseTargetConnection();
      chosen := t;
      target := t;
      var request := EffectiveBinding(View());
      if request != active {
        service := request;
      }
      active := request;
    }
  }

  lemma {:induction false} WithoutNobody(pairings: seq<Pairing>)
    ensures WithoutConnections(pairings, {}) == pairings
  {
    if pairings != [] {
      WithoutNobody(pairings[1..]);
    }
  }

  lemma {:induction false} WithoutTwice(pairings: seq<Pairing>, a: set<Connection>, b: set<Connection>)
    ensures WithoutConnections(WithoutConnections(pairings, a), b) == WithoutConnections(pairings, a + b)
  {
    if pairings != [] {
      WithoutTwice(pairings[1..], a, b);
      var rest := WithoutConnections(pairings[1..], a);
      if pairings[0].connection !in a {
        assert ([pairings[0]] + rest)[1..] == rest;
      } else {
        assert [] + rest == rest;
      }
    }
  }

  // ---------- Safety over every order of blocks ----------

  datatype Step =
    | Register(origin: string)
    | Hello(c: Connection, sessionId: string, clientKind: string, presented: Option<string>, now: int)
    | Report(c: Connection, focused: bool, visible: bool, now: int)
    | Configure(c: Connection, config: BindingRequest)
    | Cleanup(c: Connection)
    | Approve(requestId: nat, tokenHash: string, now: int)
    | Reject(requestId: nat)
    | Revoke(origin: string)
    | SetPaused(paused: bool)
    | Retarget(t: Option<Connection>)
    | Serve(request: BindingRequest, apply: bool)
    | Store(request: BindingRequest)

  function Apply(s: State, step: Step): State {
    match step
    case Register(origin) => Registered(s, origin)
    case Hello(c, sessionId, clientKind, presented, now) =>
      if c in s.sessions && c in s.socketOrigin then Greeted(s, c, sessionId, clientKind, presented, now) else s
    case Report(c, focused, visible, now) => if c in s.sessions then StateReported(s, c, focused, visible, now) else s
    case Configure(c, config) => if c in s.sessions then Configured(s, c, config) else s
    case Cleanup(c) => Disconnected(s, c)
    case Approve(requestId, tokenHash, now) => Approved(s, requestId, tokenHash, now).0
    case Reject(requestId) => Rejected(s, requestId)
    case Revoke(origin) => Revoked(s, origin)
    case SetPaused(paused) => s.(paused := paused)
    case Retarget(t) => Retargeted(s, t)
    case Serve(request, apply) => Served(s, request, apply)
    case Store(request) => Stored(s, request)
  }

  // An authorised session belongs to a trusted origin, the one its socket was opened from; the others are
  // not focused and have no foreground time.
  predicate SessionOk(s: State, c: Connection)
    requires c in s.sessions
  {
    && c < s.nextConnection && c in s.socketOrigin
    && (s.sessions[c].authorized ==>
        (Trusts(s.trusted, s.sessions[c].origin) && s.sessions[c].origin == s.socketOrigin[c]
         && s.sessions[c].lastForegroundAt.Some?))
    && (!s.sessions[c].authorized ==> !s.sessions[c].focused && s.sessions[c].lastForegroundAt.None?)
  }

  // A pairing request belongs to a live unauthorised session of the same origin.
  predicate PairingOk(s: State, request: Pairing) {
    && request.requestId < s.nextRequest
    && request.connection in s.sessions
    && !s.sessions[request.connection].authorized
    && request.connection in s.socketOrigin
    && request.origin == s.sessions[request.connection].origin == s.socketOrigin[request.connection]
  }

  // No two requests share an id or a connection.
  predicate Distinct(pairings: seq<Pairing>) {
    forall i, j :: 0 <= i < j < |pairings| ==>
      pairings[i].requestId != pairings[j].requestId && pairings[i].connection != pairings[j].connection
  }

  predicate Inv(s: State) {
    && (forall c :: c in s.sessions ==> SessionOk(s, c))
    && (forall request :: request in s.pairings ==> PairingOk(s, request))
    && Distinct(s.pairings)
  }

  lemma {:induction false} WithoutConnectionsMembers(pairings: seq<Pairing>, gone: set<Connection>)
    ensures forall r :: r in WithoutConnections(pairings, gone) <==> r in pairings && r.connection !in gone
    ensures Distinct(pairings) ==> Distinct(WithoutConnections(pairings, gone))
  {
    if pairings != [] {
      WithoutConnectionsMembers(pairings[1..], gone);
      assert pairings == [pairings[0]] + pairings[1..];
      PrependDistinct(pairings, WithoutConnections(pairings[1..], gone));
    }
  }

  lemma {:induction false} WithoutOriginMembers(pairings: seq<Pairing>, origin: string)
    ensures forall r :: r in WithoutOrigin(pairings, origin) <==> r in pairings && r.origin != origin
    ensures Distinct(pairings) ==> Distinct(WithoutOrigin(pairings, origin))
  {
    if pairings != [] {
      WithoutOriginMembers(pairings[1..], origin);
      assert pairings == [pairings[0]] + pairings[1..];
      PrependDistinct(pairings, WithoutOrigin(pairings[1..], origin));
    }
  }

  // A selection of the tail keeps the tail's distance from the head.
  lemma PrependDistinct(pairings: seq<Pairing>, rest: seq<Pairing>)
    requires pairings != [] && forall r :: r in rest ==> r in pairings[1..]
    ensures Distinct(pairings) ==> Distinct(pairings[1..])
    ensures Distinct(pairings) && Distinct(rest) ==> Distinct([pairings[0]] + rest)
  {
    if Distinct(pairings) && Distinct(rest) {
      forall i | 0 <= i < |rest|
        ensures rest[i].requestId != pairings[0].requestId && rest[i].connection != pairings[0].connection
      {
        assert rest[i] in pairings[1..];
      }
    }
  }

  lemma {:induction false} TrustAdds(trusted: seq<TrustedOrigin>, record: TrustedOrigin, origin: string)
    ensures Trusts(Trust(trusted, record), origin) <==> origin == record.origin || Trusts(trusted, origin)
  {
    if trusted == [] {
      assert [record][0].origin == record.origin;
    } else {
      TrustAdds(trusted[1..], record, origin);
      TrustsHead(trusted, origin);
      TrustsHead(Trust(trusted, record), origin);
      if trusted[0].origin == record.origin {
        assert Trust(trusted, record)[1..] == trusted[1..];
      } else {
        assert Trust(trusted, record)[1..] == Trust(trusted[1..], record);
      }
    }
  }

  lemma TrustsHead(trusted: seq<TrustedOrigin>, origin: string)
    requires trusted != []
    ensures Trusts(trusted, origin) <==> trusted[0].origin == origin || Trusts(trusted[1..], origin)
  {
    if i :| 0 <= i < |trusted| && trusted[i].origin == origin {
      assert i > 0 ==> trusted[1..][i - 1].origin == origin;
    }
    if i :| 0 <= i < |trusted[1..]| && trusted[1..][i].origin == origin {
      assert trusted[i + 1].origin == origin;
    }
  }

  lemma {:induction false} UntrustedRemoves(trusted: seq<TrustedOrigin>, removed: string, origin: string)
    ensures Trusts(Untrusted(trusted, removed), origin) <==> origin != removed && Trusts(trusted, origin)
  {
    if trusted != [] {
      UntrustedRemoves(trusted[1..], removed, origin);
      TrustsHead(trusted, origin);
      var rest := Untrusted(trusted[1..], removed);
      if trusted[0].origin == removed {
        assert [] + rest == rest;
      } else {
        assert ([trusted[0]] + rest)[1..] == rest;
        TrustsHead([trusted[0]] + rest, origin);
      }
    }
  }

  lemma {:induction false} KnownTokenIsTrusted(trusted: seq<TrustedOrigin>, origin: string)
    requires TokenHash(trusted, origin).Some?
    ensures Trusts(trusted, origin)
  {
    TrustsHead(trusted, origin);
    if trusted[0].origin != origin {
      KnownTokenIsTrusted(trusted[1..], origin);
    }
  }

  // A hello changes its own session only, apart from dropping duplicates.
  lemma GreetedSession(s: State, c: Connection, sessionId: string, clientKind: string, presented: Option<string>, now: int, d: Connection)
    requires c in s.sessions && c in s.socketOrigin
    requires d in Greeted(s, c, sessionId, clientKind, presented, now).sessions
    ensures d in s.sessions
    ensures var session, next := s.sessions[d], Greeted(s, c, sessionId, clientKind, presented, now).sessions[d];
      if d != c then next == session
      else
        && next.config == session.config && next.origin == s.socketOrigin[c] && next.sessionId == sessionId && next.clientKind == clientKind
        && (next.authorized <==> presented.Some? && TokenHash(s.trusted, s.socketOrigin[c]) == presented)
        && (next.authorized ==>
              (next.focused == session.focused && next.visible == session.visible
               && next.lastForegroundAt == if session.lastForegroundAt.None? then Some(now) else session.lastForegroundAt))
        && (!next.authorized ==> !next.focused && next.visible && next.lastForegroundAt.None?)
  {
    hide WithoutConnections, TokenHash;
  }

  // An approval changes the session that asked for it only, and that by signing it in.
  lemma ApprovedSession(s: State, requestId: nat, tokenHash: string, now: int, d: Connection)
    requires Inv(s) && d in Approved(s, requestId, tokenHash, now).0.sessions
    ensures d in s.sessions
    ensures var session, next := s.sessions[d], Approved(s, requestId, tokenHash, now).0.sessions[d];
      next == session || (!session.authorized && next == session.(authorized := true, lastForegroundAt := Some(now)))
  {
    hide Trust;
    var i := PositionOf(s.pairings, requestId);
    if i < |s.pairings| {
      assert PairingOk(s, s.pairings[i]);
    }
  }

  lemma AcceptedKeepsInv(s: State, c: Connection, sessionId: string, clientKind: string, presented: Option<string>, now: int)
    requires Inv(s) && c in s.sessions && c in s.socketOrigin
    requires presented.Some? && TokenHash(s.trusted, s.socketOrigin[c]) == presented
    ensures Inv(Greeted(s, c, sessionId, clientKind, presented, now))
  {
    var s' := Greeted(s, c, sessionId, clientKind, presented, now);
    var origin := s.socketOrigin[c];
    KnownTokenIsTrusted(s.trusted, origin);
    var gone := Duplicates(s.sessions, c, origin, sessionId);
    WithoutConnectionsMembers(s.pairings, gone);
    WithoutConnectionsMembers(WithoutConnections(s.pairings, gone), {c});
    forall d | d in s'.sessions
      ensures SessionOk(s', d)
    {
      assert SessionOk(s, d);
    }
    forall request | request in s'.pairings
      ensures PairingOk(s', request)
    {
      assert PairingOk(s, request);
    }
  }

  lemma RefusedKeepsInv(s: State, c: Connection, sessionId: string, clientKind: string, presented: Option<string>, now: int)
    requires Inv(s) && c in s.sessions && c in s.socketOrigin
    requires !(presented.Some? && TokenHash(s.trusted, s.socketOrigin[c]) == presented)
    ensures Inv(Greeted(s, c, sessionId, clientKind, presented, now))
  {
    var s' := Greeted(s, c, sessionId, clientKind, presented, now);
    forall d | d in s'.sessions
      ensures SessionOk(s', d)
    {
      assert SessionOk(s, d);
    }
    forall request | request in s'.pairings
      ensures PairingOk(s', request)
    {
      assert request in s.pairings ==> PairingOk(s, request);
    }
    forall i | 0 <= i < |s.pairings|
      ensures s.pairings[i].requestId < s.nextRequest
    {
      assert PairingOk(s, s.pairings[i]);
    }
  }

  lemma HelloKeepsInv(s: State, c: Connection, sessionId: string, clientKind: string, presented: Option<string>, now: int)
    requires Inv(s) && c in s.sessions && c in s.socketOrigin
    ensures Inv(Greeted(s, c, sessionId, clientKind, presented, now))
  {
    hide Greeted, Inv;
    if presented.Some? && TokenHash(s.trusted, s.socketOrigin[c]) == presented {
      AcceptedKeepsInv(s, c, sessionId, clientKind, presented, now);
    } else {
      RefusedKeepsInv(s, c, sessionId, clientKind, presented, now);
    }
  }

  lemma DisconnectKeepsInv(s: State, c: Connection)
    requires Inv(s)
    ensures Inv(Disconnected(s, c))
  {
    var s' := Disconnected(s, c);
    WithoutConnectionsMembers(s.pairings, {c});
    forall d | d in s'.sessions
      ensures SessionOk(s', d)
    {
      assert SessionOk(s, d);
    }
    forall request | request in s'.pairings
      ensures PairingOk(s', request)
    {
      assert PairingOk(s, request);
    }
  }

  // Taking one request out of the list.
  lemma RemovedRequest(pairings: seq<Pairing>, i: nat)
    requires i < |pairings| && Distinct(pairings)
    ensures Distinct(pairings[..i] + pairings[i + 1..])
    ensures forall r :: r in pairings[..i] + pairings[i + 1..] ==> r in pairings && r.connection != pairings[i].connection
  {
  }

  lemma ApproveKeepsInv(s: State, requestId: nat, tokenHash: string, now: int)
    requires Inv(s)
    ensures Inv(Approved(s, requestId, tokenHash, now).0)
    ensures Approved(s, requestId, tokenHash, now).1 != SessionGone
  {
    var s' := Approved(s, requestId, tokenHash, now).0;
    var i := PositionOf(s.pairings, requestId);
    if i < |s.pairings| {
      var request := s.pairings[i];
      assert PairingOk(s, request);
      RemovedRequest(s.pairings, i);
      var record := TrustedOrigin(request.origin, tokenHash, now, request.clientKind);
      forall d | d in s'.sessions
        ensures SessionOk(s', d)
      {
        assert SessionOk(s, d);
        TrustAdds(s.trusted, record, s.sessions[d].origin);
      }
      forall r | r in s'.pairings
        ensures PairingOk(s', r)
      {
        assert PairingOk(s, r);
      }
    }
  }

  lemma RejectKeepsInv(s: State, requestId: nat)
    requires Inv(s)
    ensures Inv(Rejected(s, requestId))
  {
    var i := PositionOf(s.pairings, requestId);
    if i < |s.pairings| {
      RemovedRequest(s.pairings, i);
      SameSessionsKeepInv(s, Rejected(s, requestId));
    }
  }

  lemma SameSessionsKeepInv(s: State, s': State)
    requires Inv(s) && Distinct(s'.pairings) && forall r :: r in s'.pairings ==> r in s.pairings
    requires s'.sessions == s.sessions && s'.trusted == s.trusted && s'.socketOrigin == s.socketOrigin
    requires s'.nextConnection == s.nextConnection && s'.nextRequest == s.nextRequest
    ensures Inv(s')
  {
    forall d | d in s'.sessions
      ensures SessionOk(s', d)
    {
      assert SessionOk(s, d);
    }
    forall r | r in s'.pairings
      ensures PairingOk(s', r)
    {
      assert PairingOk(s, r);
    }
  }

  lemma RevokeKeepsInv(s: State, origin: string)
    requires Inv(s)
    ensures Inv(Revoked(s, origin))
  {
    var s' := Revoked(s, origin);
    WithoutOriginMembers(s.pairings, origin);
    forall d | d in s'.sessions
      ensures SessionOk(s', d)
    {
      assert SessionOk(s, d);
      UntrustedRemoves(s.trusted, origin, s.sessions[d].origin);
    }
    forall r | r in s'.pairings
      ensures PairingOk(s', r)
    {
      assert PairingOk(s, r);
    }
  }

  lemma SessionStepKeepsInv(s: State, step: Step)
    requires Inv(s) && (step.Register? || step.Report? || step.Configure?)
    ensures Inv(Apply(s, step))
  {
    var s' := Apply(s, step);
    forall d | d in s'.sessions
      ensures SessionOk(s', d)
    {
      if d in s.sessions { assert SessionOk(s, d); }
    }
    forall r | r in s'.pairings
      ensures PairingOk(s', r)
    {
      assert PairingOk(s, r) && SessionOk(s, r.connection);
    }
  }

  lemma StepKeepsInv(s: State, step: Step)
    requires Inv(s)
    ensures Inv(Apply(s, step))
  {
    hide Inv;
    match step
    case Hello(c, sessionId, clientKind, presented, now) =>
      if c in s.sessions && c in s.socketOrigin {
        HelloKeepsInv(s, c, sessionId, clientKind, presented, now);
      }
    case Cleanup(c) => DisconnectKeepsInv(s, c);
    case Approve(requestId, tokenHash, now) => ApproveKeepsInv(s, requestId, tokenHash, now);
    case Reject(requestId) => RejectKeepsInv(s, requestId);
    case Revoke(origin) => RevokeKeepsInv(s, origin);
    case SetPaused(_) => SameStateKeepsInv(s, Apply(s, step));
    case Retarget(_) => SameStateKeepsInv(s, Apply(s, step));
    case Serve(_, _) => SameStateKeepsInv(s, Apply(s, step));
    case Store(_) => SameStateKeepsInv(s, Apply(s, step));
    case _ => SessionStepKeepsInv(s, step);
  }

  lemma SameStateKeepsInv(s: State, s': State)
    requires Inv(s) && s'.pairings == s.pairings
    requires s'.sessions == s.sessions && s'.trusted == s.trusted && s'.socketOrigin == s.socketOrigin
    requires s'.nextConnection == s.nextConnection && s'.nextRequest == s.nextRequest
    ensures Inv(s')
  {
    SameSessionsKeepInv(s, s');
  }

  function Run(s: State, steps: seq<Step>): State
    decreases |steps|
  {
    if steps == [] then s else Run(Apply(s, steps[0]), steps[1..])
  }

  lemma {:induction false} RunKeepsInv(s: State, steps: seq<Step>)
    requires Inv(s)
    ensures Inv(Run(s, steps))
    decreases |steps|
  {
    if steps != [] {
      StepKeepsInv(s, steps[0]);
      RunKeepsInv(Apply(s, steps[0]), steps[1..]);
    }
  }

  // After any run of blocks, approving a listed request pairs its session and never finds it gone.
  lemma ApprovalFindsItsSession(trusted: seq<TrustedOrigin>, paused: bool, steps: seq<Step>, requestId: nat, tokenHash: string, now: int)
    ensures var s := Run(InitialState(trusted, paused), steps);
            var (s', result) := Approved(s, requestId, tokenHash, now);
            result == if exists i :: 0 <= i < |s.pairings| && s.pairings[i].requestId == requestId then Paired else UnknownRequest
  {
    var s := Run(InitialState(trusted, paused), steps);
    RunKeepsInv(InitialState(trusted, paused), steps);
    ApproveKeepsInv(s, requestId, tokenHash, now);
  }

  // After any run of blocks, a push-to-talk event only goes to an authorised session of a trusted
  // origin, the one its socket was opened from, and to nobody while paused.
  lemma EventsReachTrustedSessions(trusted: seq<TrustedOrigin>, paused: bool, steps: seq<Step>)
    ensures var s := Run(InitialState(trusted, paused), steps);
            TargetForPtt(s).Some? ==>
              var c := TargetForPtt(s).value;
              && !s.paused && c in s.sessions && s.sessions[c].authorized
              && c in s.socketOrigin && Trusts(s.trusted, s.socketOrigin[c])
  {
    var s := Run(InitialState(trusted, paused), steps);
    RunKeepsInv(InitialState(trusted, paused), steps);
    if TargetForPtt(s).Some? {
      assert SessionOk(s, TargetForPtt(s).value);
    }
  }

  // ---------- Trust over time ----------

  predicate HasRequest(s: State, c: Connection, origin: string) {
    exists i :: 0 <= i < |s.pairings| && s.pairings[i].connection == c && s.pairings[i].origin == origin
  }

  // Another connection of the same origin and browser session.
  predicate SameWindow(s: State, d: Connection, c: Connection, origin: string, sessionId: string) {
    d in s.sessions && d != c && s.sessions[d].origin == origin && s.sessions[d].sessionId == sessionId
  }

  // Which requests are left when those of some connections are dropped.
  lemma RequestsLeft(s: State, s': State, gone: set<Connection>, d: Connection, origin: string)
    requires forall r :: r in s'.pairings <==> r in s.pairings && r.connection !in gone
    ensures HasRequest(s', d, origin) <==> HasRequest(s, d, origin) && d !in gone
  {
    if i :| 0 <= i < |s'.pairings| && s'.pairings[i].connection == d && s'.pairings[i].origin == origin {
      assert s'.pairings[i] in s'.pairings;
      var j :| 0 <= j < |s.pairings| && s.pairings[j] == s'.pairings[i];
    }
    if i :| 0 <= i < |s.pairings| && s.pairings[i].connection == d && s.pairings[i].origin == origin && d !in gone {
      assert s.pairings[i] in s'.pairings;
      var j :| 0 <= j < |s'.pairings| && s'.pairings[j] == s.pairings[i];
    }
  }

  // Requests belong to connections that have a session.
  lemma RequestHasSession(s: State, d: Connection, origin: string)
    requires Inv(s)
    ensures HasRequest(s, d, origin) ==> d in s.sessions
  {
    if i :| 0 <= i < |s.pairings| && s.pairings[i].connection == d && s.pairings[i].origin == origin {
      assert PairingOk(s, s.pairings[i]);
    }
  }

  lemma AcceptedSessions(s: State, c: Connection, sessionId: string, clientKind: string, presented: Option<string>, now: int)
    requires c in s.sessions && c in s.socketOrigin
    requires presented.Some? && TokenHash(s.trusted, s.socketOrigin[c]) == presented
    ensures var s' := Greeted(s, c, sessionId, clientKind, presented, now);
      var gone := Duplicates(s.sessions, c, s.socketOrigin[c], sessionId);
      && s'.sessions.Keys == s.sessions.Keys - gone && c !in gone && s'.sessions[c].authorized
      && s'.pairings == WithoutConnections(WithoutConnections(s.pairings, gone), {c})
      && s'.target == if s.target.Some? && s.target.value in gone then None else s.target
  {
    hide WithoutConnections, TokenHash;
  }

  lemma AcceptedOutcome(s: State, c: Connection, sessionId: string, clientKind: string, presented: Option<string>, now: int)
    requires Inv(s) && c in s.sessions && c in s.socketOrigin
    requires presented.Some? && TokenHash(s.trusted, s.socketOrigin[c]) == presented
    ensures var s' := Greeted(s, c, sessionId, clientKind, presented, now);
      && c in s'.sessions && s'.sessions[c].authorized
      && (forall d :: d in s'.sessions <==> d in s.sessions && !SameWindow(s, d, c, s.socketOrigin[c], sessionId))
      && (forall d, o :: HasRequest(s', d, o) <==> HasRequest(s, d, o) && d in s'.sessions && d != c)
      && s'.target == if s.target.Some? && s.target.value in s.sessions && s.target.value !in s'.sessions then None else s.target
  {
    hide Greeted, Inv, HasRequest, WithoutConnections, TokenHash;
    AcceptedSessions(s, c, sessionId, clientKind, presented, now);
    var s' := Greeted(s, c, sessionId, clientKind, presented, now);
    var gone := Duplicates(s.sessions, c, s.socketOrigin[c], sessionId);
    WithoutConnectionsMembers(s.pairings, gone);
    WithoutConnectionsMembers(WithoutConnections(s.pairings, gone), {c});
    forall d, o ensures HasRequest(s', d, o) <==> HasRequest(s, d, o) && d in s'.sessions && d != c {
      RequestsLeft(s, s', gone + {c}, d, o);
      RequestHasSession(s, d, o);
    }
  }

  lemma RefusedOutcome(s: State, c: Connection, sessionId: string, clientKind: string, presented: Option<string>, now: int)
    requires Inv(s) && c in s.sessions && c in s.socketOrigin
    requires !(presented.Some? && TokenHash(s.trusted, s.socketOrigin[c]) == presented)
    ensures var s' := Greeted(s, c, sessionId, clientKind, presented, now);
      && s'.sessions.Keys == s.sessions.Keys && !s'.sessions[c].authorized && s'.target == s.target
      && HasRequest(s', c, s.socketOrigin[c]) && |s.pairings| <= |s'.pairings| <= |s.pairings| + 1
      && (forall d, o | d != c :: HasRequest(s', d, o) <==> HasRequest(s, d, o))
  {
    var s' := Greeted(s, c, sessionId, clientKind, presented, now);
    if i :| 0 <= i < |s.pairings| && s.pairings[i].connection == c {
      assert PairingOk(s, s.pairings[i]);
      assert s'.pairings[i].connection == c && s'.pairings[i].origin == s.socketOrigin[c];
    } else {
      assert s'.pairings[|s.pairings|].connection == c && s'.pairings[|s.pairings|].origin == s.socketOrigin[c];
      forall d, o | d != c && HasRequest(s, d, o) ensures HasRequest(s', d, o) {
        var i :| 0 <= i < |s.pairings| && s.pairings[i].connection == d && s.pairings[i].origin == o;
        assert s'.pairings[i] == s.pairings[i];
      }
    }
  }

  // A hello signs its session in exactly when it presents the token stored for the origin of its own
  // socket. Then exactly the other sessions of its browser window go, with their requests, and its own
  // request; otherwise nobody goes, and the session waits with one request, in the origin of its socket.
  lemma HelloOutcome(s: State, c: Connection, sessionId: string, clientKind: string, presented: Option<string>, now: int)
    requires Inv(s) && c in s.sessions && c in s.socketOrigin
    ensures var s' := Greeted(s, c, sessionId, clientKind, presented, now);
      var origin := s.socketOrigin[c];
      && c in s'.sessions
      && (s'.sessions[c].authorized <==> presented.Some? && TokenHash(s.trusted, origin) == presented)
      && (forall d :: d in s'.sessions <==> d in s.sessions && !(s'.sessions[c].authorized && SameWindow(s, d, c, origin, sessionId)))
      && (forall d, o | d != c :: HasRequest(s', d, o) <==> HasRequest(s, d, o) && d in s'.sessions)
      && (s'.sessions[c].authorized ==> forall o :: !HasRequest(s', c, o))
      && (!s'.sessions[c].authorized ==> HasRequest(s', c, origin))
      && s'.target == if s.target.Some? && s.target.value in s.sessions && s.target.value !in s'.sessions then None else s.target
  {
    hide Greeted;
    if presented.Some? && TokenHash(s.trusted, s.socketOrigin[c]) == presented {
      AcceptedOutcome(s, c, sessionId, clientKind, presented, now);
    } else {
      RefusedOutcome(s, c, sessionId, clientKind, presented, now);
      forall d, o | HasRequest(s, d, o) ensures d in s.sessions {
        RequestHasSession(s, d, o);
      }
    }
  }

  // A new connection has a session of its own that may do nothing yet, and an id nobody had.
  lemma NewConnection(s: State, origin: string)
    requires Inv(s)
    ensures var s' := Registered(s, origin);
      exists c | c !in s.sessions && s'.sessions.Keys == s.sessions.Keys + {c} ::
        && !s'.sessions[c].authorized && !s'.sessions[c].focused && s'.sessions[c].config == DefaultRequest()
        && (forall d | d in s.sessions :: s'.sessions[d] == s.sessions[d])
        && s'.socketOrigin[c] == origin && s'.pairings == s.pairings && s'.target == s.target && s'.trusted == s.trusted
  {
    assert forall c | c in s.sessions :: SessionOk(s, c);
    assert s.nextConnection !in s.sessions;
    assert Registered(s, origin).sessions.Keys == s.sessions.Keys + {s.nextConnection};
  }

  // A closed connection is gone with its session and requests, and nothing else is.
  lemma ClosedConnection(s: State, c: Connection, d: Connection, origin: string)
    ensures var s' := Disconnected(s, c);
      && (d in s'.sessions <==> d in s.sessions && d != c)
      && (d in s'.sessions ==> s'.sessions[d] == s.sessions[d])
      && (HasRequest(s', d, origin) <==> HasRequest(s, d, origin) && d != c)
      && s'.trusted == s.trusted && s'.paused == s.paused
  {
    WithoutConnectionsMembers(s.pairings, {c});
    RequestsLeft(s, Disconnected(s, c), {c}, d, origin);
  }

  lemma RequestTakenOut(s: State, s': State, i: nat, d: Connection, origin: string)
    requires Inv(s) && i < |s.pairings| && s'.pairings == s.pairings[..i] + s.pairings[i + 1..]
    ensures HasRequest(s', d, origin) <==> HasRequest(s, d, origin) && d != s.pairings[i].connection
  {
    if j :| 0 <= j < |s'.pairings| && s'.pairings[j].connection == d && s'.pairings[j].origin == origin {
      assert s'.pairings[j] == s.pairings[if j < i then j else j + 1];
    }
    if j :| 0 <= j < |s.pairings| && s.pairings[j].connection == d && s.pairings[j].origin == origin && d != s.pairings[i].connection {
      assert s.pairings[j] == s'.pairings[if j < i then j else j - 1];
    }
  }

  // Approving a listed request signs its session in, and no other one; the origin is known by the new
  // token from then on, other origins by theirs, and just that request is gone.
  lemma ApprovalOutcome(s: State, request: Pairing, tokenHash: string, now: int, d: Connection, origin: string)
    requires Inv(s) && request in s.pairings
    ensures var (s', result) := Approved(s, request.requestId, tokenHash, now);
      && result == Paired && s'.sessions.Keys == s.sessions.Keys
      && (d in s.sessions && d != request.connection ==> s'.sessions[d] == s.sessions[d])
      && s'.sessions[request.connection] == s.sessions[request.connection].(authorized := true, lastForegroundAt := Some(now))
      && TokenHash(s'.trusted, origin) == (if origin == request.origin then Some(tokenHash) else TokenHash(s.trusted, origin))
      && (HasRequest(s', d, origin) <==> HasRequest(s, d, origin) && d != request.connection)
  {
    var i := PositionOf(s.pairings, request.requestId);
    assert PairingOk(s, request);
    assert s.pairings[i] == request;
    var record := TrustedOrigin(request.origin, tokenHash, now, request.clientKind);
    ApprovedTokenWorks(s.trusted, record, origin);
    RequestTakenOut(s, Approved(s, request.requestId, tokenHash, now).0, i, d, origin);
  }

  // Rejecting a listed request takes just that one away.
  lemma RejectionOutcome(s: State, request: Pairing, d: Connection, origin: string)
    requires Inv(s) && request in s.pairings
    ensures var s' := Rejected(s, request.requestId);
      && s' == s.(pairings := s'.pairings)
      && (HasRequest(s', d, origin) <==> HasRequest(s, d, origin) && d != request.connection)
  {
    var i := PositionOf(s.pairings, request.requestId);
    assert s.pairings[i] == request;
    RequestTakenOut(s, Rejected(s, request.requestId), i, d, origin);
  }

  // A revocation takes trust, requests and signed-in sessions from the one origin, and nothing from others.
  lemma RevocationOutcome(s: State, revoked: string, d: Connection, origin: string)
    requires Inv(s)
    ensures var s' := Revoked(s, revoked);
      && s'.sessions.Keys == s.sessions.Keys
      && (Authorized(s', d) <==> Authorized(s, d) && s.sessions[d].origin != revoked)
      && (d in s.sessions && s.sessions[d].origin != revoked ==> s'.sessions[d] == s.sessions[d])
      && (HasRequest(s', d, origin) <==> HasRequest(s, d, origin) && origin != revoked)
      && (Trusts(s'.trusted, origin) <==> Trusts(s.trusted, origin) && origin != revoked)
  {
    var s' := Revoked(s, revoked);
    UntrustedRemoves(s.trusted, revoked, origin);
    WithoutOriginMembers(s.pairings, revoked);
    if i :| 0 <= i < |s'.pairings| && s'.pairings[i].connection == d && s'.pairings[i].origin == origin {
      assert s'.pairings[i] in s'.pairings;
      var j :| 0 <= j < |s.pairings| && s.pairings[j] == s'.pairings[i];
    }
    if i :| 0 <= i < |s.pairings| && s.pairings[i].connection == d && s.pairings[i].origin == origin && origin != revoked {
      assert s.pairings[i] in s'.pairings;
      var j :| 0 <= j < |s'.pairings| && s'.pairings[j] == s.pairings[i];
    }
  }

  // An approved origin is known by its new token, and no other origin's token changes.
  lemma {:induction false} ApprovedTokenWorks(trusted: seq<TrustedOrigin>, record: TrustedOrigin, origin: string)
    ensures TokenHash(Trust(trusted, record), origin) == if origin == record.origin then Some(record.tokenHash) else TokenHash(trusted, origin)
  {
    if trusted != [] {
      ApprovedTokenWorks(trusted[1..], record, origin);
    }
  }

  // No block of the run approves a request of the origin.
  predicate NoApprovalOf(s: State, steps: seq<Step>, origin: string)
    decreases |steps|
  {
    steps == []
    || (&& (steps[0].Approve? ==>
              var i := PositionOf(s.pairings, steps[0].requestId);
              i < |s.pairings| ==> s.pairings[i].origin != origin)
        && NoApprovalOf(Apply(s, steps[0]), steps[1..], origin))
  }

  lemma TrustNeedsApproval(s: State, step: Step, origin: string)
    requires !Trusts(s.trusted, origin) && NoApprovalOf(s, [step], origin)
    ensures !Trusts(Apply(s, step).trusted, origin)
  {
    match step
    case Approve(requestId, tokenHash, now) =>
      var i := PositionOf(s.pairings, requestId);
      if i < |s.pairings| {
        TrustAdds(s.trusted, TrustedOrigin(s.pairings[i].origin, tokenHash, now, s.pairings[i].clientKind), origin);
      }
    case Revoke(removed) => UntrustedRemoves(s.trusted, removed, origin);
    case _ =>
  }

  lemma {:induction false} TrustStaysAway(s: State, steps: seq<Step>, origin: string)
    requires !Trusts(s.trusted, origin) && NoApprovalOf(s, steps, origin)
    ensures !Trusts(Run(s, steps).trusted, origin)
    decreases |steps|
  {
    hide Apply, Trusts;
    if steps != [] {
      assert NoApprovalOf(s, [steps[0]], origin);
      TrustNeedsApproval(s, steps[0], origin);
      TrustStaysAway(Apply(s, steps[0]), steps[1..], origin);
    }
  }

  // Revocation is complete and lasts: after it, and after any further run that approves no request of
  // the origin, no session opened from there is authorised, and no token signs one in.
  lemma RevocationLasts(s: State, origin: string, steps: seq<Step>)
    requires Inv(s) && NoApprovalOf(Revoked(s, origin), steps, origin)
    ensures var end := Run(Revoked(s, origin), steps);
      && (forall c :: c in end.sessions && end.sessions[c].authorized && c in end.socketOrigin ==> end.socketOrigin[c] != origin)
      && TokenHash(end.trusted, origin).None?
  {
    var end := Run(Revoked(s, origin), steps);
    RevokeKeepsInv(s, origin);
    RunKeepsInv(Revoked(s, origin), steps);
    UntrustedRemoves(s.trusted, origin, origin);
    TrustStaysAway(Revoked(s, origin), steps, origin);
    if TokenHash(end.trusted, origin).Some? {
      KnownTokenIsTrusted(end.trusted, origin);
    }
    forall c | c in end.sessions && end.sessions[c].authorized && c in end.socketOrigin ensures end.socketOrigin[c] != origin {
      assert SessionOk(end, c);
    }
  }

  // ---------- Handlers run one at a time ----------

  // One handler: its block, and unless the handler returns early the recomputation with the choice
  // `t`. Registering, rejecting and a hello that asks for pairing do not recompute; neither does a
  // report or configuration of a session that is not authorised, nor a message of a closed connection.
  predicate Recomputes(s: State, step: Step) {
    match step
    case Hello(c, _, _, _, _) => c in s.sessions && Authorized(Apply(s, step), c)
    case Report(c, _, _, _) => Authorized(s, c)
    case Configure(c, _) => Authorized(s, c)
    case Cleanup(_) => true
    case Approve(requestId, _, _) => Approved(s, requestId, "", 0).1 == Paired
    case Revoke(_) => true
    case SetPaused(_) => true
    case _ => false
  }

  ghost predicate Handled(s: State, step: Step, s': State) {
    && !step.Retarget? && !step.Serve? && !step.Store?
    && if Recomputes(s, step) then exists t :: IsTarget(Apply(s, step), t) && s' == Recomputed(Apply(s, step), t)
       else s' == Apply(s, step)
  }

  ghost predicate HandledRun(states: seq<State>, steps: seq<Step>) {
    && |states| == |steps| + 1
    && forall i :: 0 <= i < |steps| ==> Handled(states[i], steps[i], states[i + 1])
  }

  // The latest-foreground focused authorised session, else the latest-foreground authorised one,
  // else none.
  ghost predicate BestTarget(s: State) {
    match s.target
    case Some(c) =>
      && Authorized(s, c)
      && ((exists d :: FocusedTarget(s, d)) ==> FocusedTarget(s, c))
      && (forall d :: Authorized(s, d) && (s.sessions[c].focused ==> s.sessions[d].focused) ==>
          s.sessions[d].lastForegroundAt.Some? && s.sessions[c].lastForegroundAt.Some?
          && s.sessions[d].lastForegroundAt.value <= s.sessions[c].lastForegroundAt.value)
    case None => forall d :: d in s.sessions ==> !s.sessions[d].authorized
  }

  lemma ChosenIsBest(s: State, t: Option<Connection>)
    requires Inv(s) && IsTarget(s, t)
    ensures BestTarget(Recomputed(s, t))
  {
    forall d | Authorized(s, d)
      ensures s.sessions[d].lastForegroundAt.Some?
    {
      assert SessionOk(s, d);
    }
  }

  // Only serving and storing touch the binding of the service and the active one.
  lemma BlocksKeepBinding(s: State, block: Step)
    requires !block.Serve? && !block.Store?
    ensures Apply(s, block).service == s.service && Apply(s, block).active == s.active
  {
  }

  lemma HandlerKeeps(s: State, step: Step, s': State)
    requires Inv(s) && s.active == s.service && Handled(s, step, s')
    ensures Inv(s') && s'.active == s'.service
    ensures Recomputes(s, step) ==> BestTarget(s') && s'.service == EffectiveBinding(s')
  {
    hide Inv, BestTarget, Apply, Recomputes, IsTarget;
    StepKeepsInv(s, step);
    var m := Apply(s, step);
    BlocksKeepBinding(s, step);
    if Recomputes(s, step) {
      var t :| IsTarget(m, t) && s' == Recomputed(m, t);
      ChosenIsBest(m, t);
      SameStateKeepsInv(m, s');
      assert EffectiveBinding(s') == EffectiveBinding(Retargeted(m, t));
    }
  }

  // Over any run of handlers one at a time, after every recomputation the target is the best one and
  // the input service was last given exactly the effective binding, although unchanged bindings are
  // not given again.
  lemma {:induction false} HandlersKeepBinding(states: seq<State>, steps: seq<Step>, trusted: seq<TrustedOrigin>, paused: bool, k: nat)
    requires HandledRun(states, steps) && states[0] == InitialState(trusted, paused) && k <= |steps|
    ensures Inv(states[k]) && states[k].active == states[k].service
    ensures k > 0 && Recomputes(states[k - 1], steps[k - 1]) ==>
              BestTarget(states[k]) && states[k].service == EffectiveBinding(states[k])
  {
    if k > 0 {
      HandlersKeepBinding(states, steps, trusted, paused, k - 1);
      HandlerKeeps(states[k - 1], steps[k - 1], states[k]);
    }
  }

  // The input service was last given the binding that is effective now.
  predicate Right(s: State) {
    s.service == EffectiveBinding(s)
  }

  // The signed-in target says hello again and is refused: its handler returns without a recomputation,
  // so that the service keeps the binding of a session that is no longer authorised.
  predicate Strands(s: State, step: Step) {
    step.Hello? && !Recomputes(s, step) && s.target == Some(step.c) && EffectiveBinding(s) != DefaultRequest()
  }

  // The binding depends on the pause, the target and the session of the target only.
  lemma SameBinding(s: State, s': State)
    requires s'.paused == s.paused && s'.target == s.target
    requires s.target.Some? ==>
      (|| (s.target.value in s.sessions && s.target.value in s'.sessions && s'.sessions[s.target.value] == s.sessions[s.target.value])
       || (!Authorized(s, s.target.value) && !Authorized(s', s.target.value)))
    ensures EffectiveBinding(s') == EffectiveBinding(s)
  {
  }

  lemma RefusedHelloBinding(s: State, step: Step)
    requires Inv(s) && step.Hello? && !Recomputes(s, step)
    ensures Apply(s, step).service == s.service
    ensures EffectiveBinding(Apply(s, step)) == if Strands(s, step) then DefaultRequest() else EffectiveBinding(s)
  {
    if step.c in s.sessions {
      assert SessionOk(s, step.c);
      if s.target != Some(step.c) {
        SameBinding(s, Apply(s, step));
      }
    }
  }

  // What a handler without a recomputation does to the binding: nothing, but in that one case.
  lemma QuietHandlerBinding(s: State, step: Step)
    requires Inv(s) && !Recomputes(s, step) && !step.Retarget? && !step.Serve? && !step.Store?
    ensures Apply(s, step).service == s.service
    ensures EffectiveBinding(Apply(s, step)) == if Strands(s, step) then DefaultRequest() else EffectiveBinding(s)
  {
    if step.Hello? {
      RefusedHelloBinding(s, step);
    } else {
      hide Inv, EffectiveBinding;
      SameBinding(s, Apply(s, step));
    }
  }

  // Some handler before the k-th state stranded the binding, and none has recomputed since.
  ghost predicate Stranded(states: seq<State>, steps: seq<Step>, k: nat)
    requires k <= |steps| <= |states|
  {
    exists j | 0 <= j < k :: Strands(states[j], steps[j]) && forall m | j < m < k :: !Recomputes(states[m], steps[m])
  }

  lemma StrandedStep(states: seq<State>, steps: seq<Step>, k: nat)
    requires 0 < k <= |steps| <= |states|
    ensures Stranded(states, steps, k) <==>
      !Recomputes(states[k - 1], steps[k - 1]) && (Strands(states[k - 1], steps[k - 1]) || Stranded(states, steps, k - 1))
  {
    hide Strands, Recomputes;
    if Stranded(states, steps, k) {
      var j :| 0 <= j < k && Strands(states[j], steps[j]) && forall m | j < m < k :: !Recomputes(states[m], steps[m]);
      assert Recomputes(states[k - 1], steps[k - 1]) ==> j == k - 1;
      assert Strands(states[j], steps[j]) ==> !Recomputes(states[j], steps[j]) by { StrandsIsQuiet(states[j], steps[j]); }
    }
    if !Recomputes(states[k - 1], steps[k - 1]) && Stranded(states, steps, k - 1) {
      var j :| 0 <= j < k - 1 && Strands(states[j], steps[j]) && forall m | j < m < k - 1 :: !Recomputes(states[m], steps[m]);
      assert forall m | j < m < k :: !Recomputes(states[m], steps[m]);
    }
  }

  lemma StrandsIsQuiet(s: State, step: Step)
    ensures Strands(s, step) ==> !Recomputes(s, step)
  {
  }

  // After every handler of a serial run, the service has the effective binding if and only if no refused
  // hello of the signed-in target has come since the last recomputation.
  lemma {:induction false} HandlersRightIff(states: seq<State>, steps: seq<Step>, trusted: seq<TrustedOrigin>, paused: bool, k: nat)
    requires HandledRun(states, steps) && states[0] == InitialState(trusted, paused) && k <= |steps|
    ensures Right(states[k]) <==> !Stranded(states, steps, k)
    ensures !Right(states[k]) ==> EffectiveBinding(states[k]) == DefaultRequest()
  {
    hide Inv, EffectiveBinding, Stranded, Recomputes, Apply, BestTarget;
    if k == 0 {
      InitiallyRight(states, steps, trusted, paused);
    } else {
      HandlersRightIff(states, steps, trusted, paused, k - 1);
      HandlersKeepBinding(states, steps, trusted, paused, k - 1);
      HandlersKeepBinding(states, steps, trusted, paused, k);
      StrandedStep(states, steps, k);
      assert Handled(states[k - 1], steps[k - 1], states[k]);
      if !Recomputes(states[k - 1], steps[k - 1]) {
        QuietHandlerBinding(states[k - 1], steps[k - 1]);
      }
    }
  }

  lemma InitiallyRight(states: seq<State>, steps: seq<Step>, trusted: seq<TrustedOrigin>, paused: bool)
    requires |steps| <= |states| && states != [] && states[0] == InitialState(trusted, paused)
    ensures Right(states[0]) && !Stranded(states, steps, 0)
  {
  }

  // ---------- What the windows said ----------

  // A run of blocks, some of them followed by a recomputation: overlapping or one at a time.
  ghost predicate BlockRun(states: seq<State>, steps: seq<Step>, trusted: seq<TrustedOrigin>, paused: bool) {
    && |states| == |steps| + 1 && states[0] == InitialState(trusted, paused)
    && forall i :: 0 <= i < |steps| ==> Continues(states[i], steps[i], states[i + 1])
  }

  ghost predicate Continues(s: State, step: Step, s': State) {
    s' == Apply(s, step) || exists t :: s' == Recomputed(Apply(s, step), t)
  }

  lemma {:induction false} BlockRunKeepsInv(states: seq<State>, steps: seq<Step>, trusted: seq<TrustedOrigin>, paused: bool, k: nat)
    requires BlockRun(states, steps, trusted, paused) && k < |states|
    ensures Inv(states[k])
  {
    hide Inv, Apply;
    if k == 0 {
      InitialInv(trusted, paused);
    } else {
      BlockRunKeepsInv(states, steps, trusted, paused, k - 1);
      assert Continues(states[k - 1], steps[k - 1], states[k]);
      StepKeepsInv(states[k - 1], steps[k - 1]);
      SameStateKeepsInv(Apply(states[k - 1], steps[k - 1]), states[k]);
    }
  }

  lemma InitialInv(trusted: seq<TrustedOrigin>, paused: bool)
    ensures Inv(InitialState(trusted, paused))
  {
  }

  // What a signed-in window said last: whether it is focused, and when it was last in the foreground,
  // which signing in counts as.
  datatype Word = Word(focused: bool, at: int)

  function SignInTime(step: Step): int {
    match step
    case Hello(_, _, _, _, now) => now
    case Approve(_, _, now) => now
    case _ => 0
  }

  // The last word of a connection since it was signed in, by the blocks before the k-th state.
  ghost function Heard(states: seq<State>, steps: seq<Step>, c: Connection, k: nat): Option<Word>
    requires k <= |steps| < |states|
  {
    if k == 0 || !Authorized(states[k], c) then None
    else
      match Heard(states, steps, c, k - 1)
      case None => Some(Word(false, SignInTime(steps[k - 1])))
      case Some(word) =>
        match steps[k - 1]
        case Report(from, focused, _, now) => if from == c then Some(Word(focused, if focused then now else word.at)) else Some(word)
        case _ => Some(word)
  }

  // One block and one session that is signed in after it: only a hello or an approval signs it in, only
  // its own report changes what is known of its window, and to what was reported.
  lemma SessionAfterBlock(s: State, step: Step, c: Connection)
    requires Inv(s) && Authorized(Apply(s, step), c)
    ensures !Authorized(s, c) ==>
      && (step.Hello? || step.Approve?)
      && !Apply(s, step).sessions[c].focused && Apply(s, step).sessions[c].lastForegroundAt == Some(SignInTime(step))
    ensures Authorized(s, c) ==>
      var session, next := s.sessions[c], Apply(s, step).sessions[c];
      if step.Report? && step.c == c then
        && next.focused == step.focused && next.visible == step.visible
        && next.lastForegroundAt == (if step.focused then Some(step.now) else session.lastForegroundAt)
        && next == session.(focused := next.focused, visible := next.visible, lastForegroundAt := next.lastForegroundAt)
      else next.focused == session.focused && next.visible == session.visible && next.lastForegroundAt == session.lastForegroundAt
  {
    if c in s.sessions {
      assert SessionOk(s, c);
    }
    match step
    case Hello(from, sessionId, clientKind, presented, now) =>
      hide Greeted;
      if from in s.sessions && from in s.socketOrigin {
        GreetedSession(s, from, sessionId, clientKind, presented, now, c);
      }
    case Approve(requestId, tokenHash, now) =>
      hide Approved;
      ApprovedSession(s, requestId, tokenHash, now, c);
    case _ =>
  }

  // Over every run of blocks, exactly the signed-in connections have said something, and what is stored
  // of them is what they said last.
  lemma {:induction false} HeardIsStored(states: seq<State>, steps: seq<Step>, trusted: seq<TrustedOrigin>, paused: bool, c: Connection, k: nat)
    requires BlockRun(states, steps, trusted, paused) && k < |states|
    ensures Authorized(states[k], c) <==> Heard(states, steps, c, k).Some?
    ensures Authorized(states[k], c) ==>
      var session, word := states[k].sessions[c], Heard(states, steps, c, k).value;
      session.focused == word.focused && session.lastForegroundAt == Some(word.at)
  {
    hide Inv, Apply;
    if k > 0 {
      HeardIsStored(states, steps, trusted, paused, c, k - 1);
      BlockRunKeepsInv(states, steps, trusted, paused, k - 1);
      assert Continues(states[k - 1], steps[k - 1], states[k]);
      if Authorized(states[k], c) {
        SessionAfterBlock(states[k - 1], steps[k - 1], c);
      }
    }
  }

  // The binding a connection asked for last while it was signed in.
  ghost function AskedFor(states: seq<State>, steps: seq<Step>, c: Connection, k: nat): BindingRequest
    requires k <= |steps| < |states|
  {
    if k == 0 || c !in states[k - 1].sessions then DefaultRequest()
    else
      match steps[k - 1]
      case Configure(from, config) => if from == c && Authorized(states[k - 1], c) then config else AskedFor(states, steps, c, k - 1)
      case _ => AskedFor(states, steps, c, k - 1)
  }

  lemma ConfigAfterBlock(s: State, step: Step, c: Connection)
    requires Inv(s) && c in Apply(s, step).sessions
    ensures Apply(s, step).sessions[c].config ==
      if c !in s.sessions then DefaultRequest()
      else if step.Configure? && step.c == c && Authorized(s, c) then step.config
      else s.sessions[c].config
  {
    if c in s.sessions {
      assert SessionOk(s, c);
    }
    match step
    case Hello(from, sessionId, clientKind, presented, now) =>
      hide Greeted;
      if from in s.sessions && from in s.socketOrigin {
        GreetedSession(s, from, sessionId, clientKind, presented, now, c);
      }
    case Approve(requestId, tokenHash, now) =>
      hide Approved;
      ApprovedSession(s, requestId, tokenHash, now, c);
    case _ =>
  }

  lemma {:induction false} AskedForIsStored(states: seq<State>, steps: seq<Step>, trusted: seq<TrustedOrigin>, paused: bool, c: Connection, k: nat)
    requires BlockRun(states, steps, trusted, paused) && k < |states| && c in states[k].sessions
    ensures states[k].sessions[c].config == AskedFor(states, steps, c, k)
  {
    hide Inv, Apply;
    if k > 0 {
      BlockRunKeepsInv(states, steps, trusted, paused, k - 1);
      assert Continues(states[k - 1], steps[k - 1], states[k]);
      ConfigAfterBlock(states[k - 1], steps[k - 1], c);
      if c in states[k - 1].sessions {
        AskedForIsStored(states, steps, trusted, paused, c, k - 1);
      }
    }
  }

  // Some signed-in window said last that it is focused.
  ghost predicate SomeFocused(states: seq<State>, steps: seq<Step>, k: nat)
    requires k <= |steps| < |states|
  {
    exists c :: Heard(states, steps, c, k).Some? && Heard(states, steps, c, k).value.focused
  }

  // Over any run of handlers one at a time, after a recomputation the target is a window that said it is
  // focused, if any did, and of these the one that said so last; and the input service has the binding
  // that this window asked for, if that is for push-to-talk and the helper is not paused. Events go to the
  // target unless the helper is paused.
  lemma TargetIsWhatWindowsSaid(states: seq<State>, steps: seq<Step>, trusted: seq<TrustedOrigin>, paused: bool, k: nat)
    requires HandledRun(states, steps) && states[0] == InitialState(trusted, paused) && 0 < k <= |steps|
    requires Recomputes(states[k - 1], steps[k - 1])
    ensures match states[k].target
      case None => states[k].service == DefaultRequest() && forall d :: Heard(states, steps, d, k).None?
      case Some(c) =>
        && Heard(states, steps, c, k).Some?
        && (SomeFocused(states, steps, k) ==> Heard(states, steps, c, k).value.focused)
        && (forall d :: Heard(states, steps, d, k).Some? ==>
              var mine, other := Heard(states, steps, c, k).value, Heard(states, steps, d, k).value;
              other.at <= mine.at || (mine.focused && !other.focused))
        && states[k].service ==
             var asked := AskedFor(states, steps, c, k);
             if !states[k].paused && asked.mode.Some? && Trim(asked.mode.value) == "ptt" then asked else DefaultRequest()
    ensures TargetForPtt(states[k]) == if states[k].paused then None else states[k].target
  {
    hide Inv, Apply, Recomputes, IsTarget;
    HandledIsBlockRun(states, steps, trusted, paused);
    HandlersKeepBinding(states, steps, trusted, paused, k);
    forall d ensures Authorized(states[k], d) <==> Heard(states, steps, d, k).Some?
      ensures Authorized(states[k], d) ==>
        var session, word := states[k].sessions[d], Heard(states, steps, d, k).value;
        session.focused == word.focused && session.lastForegroundAt == Some(word.at)
    {
      HeardIsStored(states, steps, trusted, paused, d, k);
    }
    if states[k].target.Some? {
      AskedForIsStored(states, steps, trusted, paused, states[k].target.value, k);
      if SomeFocused(states, steps, k) {
        var d :| Heard(states, steps, d, k).Some? && Heard(states, steps, d, k).value.focused;
        assert FocusedTarget(states[k], d);
      }
    }
  }

  lemma HandledIsBlockRun(states: seq<State>, steps: seq<Step>, trusted: seq<TrustedOrigin>, paused: bool)
    requires HandledRun(states, steps) && states[0] == InitialState(trusted, paused)
    ensures BlockRun(states, steps, trusted, paused)
  {
    hide Apply, Recomputes;
    forall i | 0 <= i < |steps| ensures Continues(states[i], steps[i], states[i + 1]) {
      assert Handled(states[i], steps[i], states[i + 1]);
    }
  }
}
