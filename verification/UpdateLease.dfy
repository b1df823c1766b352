// The lease protocol of the platform update checker. Any number of backend instances share one
// database row; a check takes a lease on it, reads it, fetches the catalogue, writes only while its
// token is still in the row, and mails administrators under a renewed lease.
module UpdateLease {
  import opened Options
  import opened UpdateCatalog
  import opened UpdateFeed

  const LEASE_MS := 2 * 60 * 1000
  const DELIVERY_LEASE_MS := 30 * 60 * 1000
  const INTERVAL_MS := 60 * 60 * 1000
  const MAX_BACKOFF_MS := 6 * 60 * 60 * 1000

  type Token = nat
  type User = nat
  type WorkerId = nat

  // ---------- The shared row ----------

  datatype Row = Row(
    checksEnabled: bool,
    observed: Option<VersionText>,
    cachedCatalog: Option<Catalog>,
    feedEtag: Option<string>,
    feedSequence: nat,
    lastAttemptAt: Option<int>,
    lastSuccessAt: Option<int>,
    lastErrorCode: Option<string>,
    failures: nat,
    nextCheckAt: Option<int>,
    leaseToken: Option<Token>,
    leaseExpiresAt: Option<int>)

  predicate Due(at: Option<int>, now: int) {
    at.None? || at.value <= now
  }

  predicate Owned(row: Row, token: Token) {
    row.leaseToken == Some(token)
  }

  predicate CanAcquire(row: Row, now: int, force: bool) {
    row.checksEnabled && Due(row.leaseExpiresAt, now) && (force || Due(row.nextCheckAt, now))
  }

  function Acquired(row: Row, now: int, token: Token): Row {
    row.(leaseToken := Some(token), leaseExpiresAt := Some(now + LEASE_MS))
  }

  function Succeeded(row: Row, now: int, jitter: nat, installed: VersionText, result: FetchResult): Row {
    row.(observed := Some(installed), cachedCatalog := Some(result.catalog), feedEtag := result.etag,
         feedSequence := result.sequence, lastAttemptAt := Some(now), lastSuccessAt := Some(now), lastErrorCode := None,
         failures := 0, nextCheckAt := Some(now + INTERVAL_MS + jitter), leaseExpiresAt := Some(now + DELIVERY_LEASE_MS))
  }

  function Backoff(failures: nat): nat {
    var delay := INTERVAL_MS * (if failures <= 1 then 1 else if failures == 2 then 2 else if failures == 3 then 4 else 8);
    if delay < MAX_BACKOFF_MS then delay else MAX_BACKOFF_MS
  }

  function Failed(row: Row, view: Row, now: int, code: string): Row {
    var retain := view.cachedCatalog.Some?;
    row.(lastAttemptAt := Some(now), lastErrorCode := Some(code), failures := view.failures + 1,
         nextCheckAt := Some(now + Backoff(view.failures + 1)),
         leaseToken := if retain then row.leaseToken else None,
         leaseExpiresAt := if retain then Some(now + DELIVERY_LEASE_MS) else None)
  }

  function Renewed(row: Row, now: int): Row {
    row.(leaseExpiresAt := Some(now + DELIVERY_LEASE_MS))
  }

  function Released(row: Row): Row {
    row.(leaseToken := None, leaseExpiresAt := None)
  }

  function Toggled(row: Row, now: int, enabled: bool): Row {
    row.(checksEnabled := enabled, nextCheckAt := if enabled then Some(now) else None, leaseToken := None, leaseExpiresAt := None)
  }

  // The conditional UPDATE statements of the manager, each answering whether a row was changed.
  class StateTable {
    var row: Row

    constructor (row: Row)
      ensures this.row == row
    {
      this.row := row;
    }

    method AcquireLease(now: int, token: Token, force: bool) returns (acquired: bool)
      modifies this
      ensures acquired <==> CanAcquire(old(row), now, force)
      ensures row == if acquired then Acquired(old(row), now, token) else old(row)
    {
      if !row.checksEnabled || !Due(row.leaseExpiresAt, now) {
        return false;
      }
      if !force && !Due(row.nextCheckAt, now) {
        return false;
      }
      row := row.(leaseToken := Some(token));
      row := row.(leaseExpiresAt := Some(now + LEASE_MS));
      return true;
    }

    method PrepareInstalledVersion(token: Token, installed: VersionText) returns (owned: bool)
      modifies this
      ensures owned <==> Owned(old(row), token)
      ensures row == if owned then old(row).(observed := Some(installed)) else old(row)
    {
      owned := row.leaseToken == Some(token);
      if owned {
        row := row.(observed := Some(installed));
      }
    }

    method RecordSuccess(token: Token, now: int, jitter: nat, installed: VersionText, result: FetchResult) returns (owned: bool)
      modifies this
      ensures owned <==> Owned(old(row), token)
      ensures row == if owned then Succeeded(old(row), now, jitter, installed, result) else old(row)
    {
      owned := row.leaseToken == Some(token);
      if owned {
        row := row.(observed := Some(installed), cachedCatalog := Some(result.catalog));
        row := row.(feedEtag := result.etag, feedSequence := result.sequence);
        row := row.(lastAttemptAt := Some(now), lastSuccessAt := Some(now), lastErrorCode := None, failures := 0);
        row := row.(nextCheckAt := Some(now + INTERVAL_MS + jitter));
        row := row.(leaseExpiresAt := Some(now + DELIVERY_LEASE_MS));
      }
    }

    method RecordFailure(token: Token, view: Row, now: int, code: string) returns (updated: bool)
      modifies this
      ensures updated <==> Owned(old(row), token)
      ensures row == if updated then Failed(old(row), view, now, code) else old(row)
    {
      updated := row.leaseToken == Some(token);
      if updated {
        var failures := view.failures + 1;
        row := row.(lastAttemptAt := Some(now), lastErrorCode := Some(code), failures := failures);
        row := row.(nextCheckAt := Some(now + Backoff(failures)));
        if view.cachedCatalog.Some? {
          row := row.(leaseToken := Some(token), leaseExpiresAt := Some(now + DELIVERY_LEASE_MS));
        } else {
          row := row.(leaseToken := None, leaseExpiresAt := None);
        }
      }
    }

    method RenewDeliveryLease(token: Token, now: int) returns (renewed: bool)
      modifies this
      ensures renewed <==> Owned(old(row), token) && old(row).checksEnabled
      ensures row == if renewed then Renewed(old(row), now) else old(row)
    {
      renewed := row.leaseToken == Some(token) && row.checksEnabled;
      if renewed {
        row := row.(leaseExpiresAt := Some(now + DELIVERY_LEASE_MS));
      }
    }

    method ReleaseLease(token: Token)
      modifies this
      ensures row == if Owned(old(row), token) then Released(old(row)) else old(row)
    {
      if row.leaseToken == Some(token) {
        row := row.(leaseToken := None);
        row := row.(leaseExpiresAt := None);
      }
    }

    method SetChecksEnabled(now: int, enabled: bool) returns (changed: bool)
      modifies this
      ensures changed <==> old(row).checksEnabled != enabled
      ensures row == if changed then Toggled(old(row), now, enabled) else old(row)
    {
      if row.checksEnabled == enabled {
        return false;
      }
      row := row.(checksEnabled := enabled, nextCheckAt := if enabled then Some(now) else None);
      row := row.(leaseToken := None, leaseExpiresAt := None);
      return true;
    }
  }

  // ---------- Mail deliveries ----------

  // What identifies a row of the deliveries table.
  datatype Key = Key(user: User, installed: VersionText, version: Version, revision: nat)
  datatype Delivery = Delivery(sent: bool, attempts: nat)
  type Deliveries = map<Key, Delivery>

  predicate Sent(deliveries: Deliveries, key: Key) {
    key in deliveries && deliveries[key].sent
  }

  function KeyOf(user: User, installed: VersionText, release: Release): Key {
    Key(user, installed, release.document.version, release.document.revision)
  }

  ghost function KeysOf(user: User, installed: VersionText, releases: seq<Release>): set<Key> {
    set i | 0 <= i < |releases| :: KeyOf(user, installed, releases[i])
  }

  // Insert, or on conflict update the status and count the attempt.
  function RecordAttempt(deliveries: Deliveries, key: Key, ok: bool): Deliveries {
    deliveries[key := Delivery(ok, if key in deliveries then deliveries[key].attempts + 1 else 1)]
  }

  function SecurityReleases(releases: seq<Release>, current: Version, sat: Satisfies): seq<Release> {
    if releases == [] then []
    else (if ApplicableAdvisories(releases[0].document.security, current, sat) != [] then [releases[0]] else [])
         + SecurityReleases(releases[1..], current, sat)
  }

  function PendingReleases(deliveries: Deliveries, user: User, installed: VersionText, releases: seq<Release>): (r: seq<Release>)
    ensures forall release :: release in r <==> release in releases && !Sent(deliveries, KeyOf(user, installed, release))
  {
    if releases == [] then []
    else (if Sent(deliveries, KeyOf(user, installed, releases[0])) then [] else [releases[0]])
         + PendingReleases(deliveries, user, installed, releases[1..])
  }

  lemma {:induction false} PendingInOrder(deliveries: Deliveries, user: User, installed: VersionText, releases: seq<Release>)
    requires Ascending(releases)
    ensures Ascending(PendingReleases(deliveries, user, installed, releases))
  {
    if releases != [] {
      PendingInOrder(deliveries, user, installed, releases[1..]);
      var rest := PendingReleases(deliveries, user, installed, releases[1..]);
      forall i | 0 <= i < |rest| ensures Gt(rest[i].document.version, releases[0].document.version) {
        assert rest[i] in rest;
      }
    }
  }

  // ---------- Workers ----------

  // What a check carries through its mail phase; `succeeded` tells which branch of the check it is on.
  datatype Job = Job(view: Row, succeeded: bool, installed: VersionText, releases: seq<Release>, users: seq<User>)

  // A check, by the database statement or network call it performs next.
  datatype Worker =
    | Loading(token: Token)
    | Preparing(token: Token, view: Row)
    | Fetching(token: Token, view: Row)
    | RecordingSuccess(token: Token, view: Row, result: FetchResult)
    | RecordingFailure(token: Token, view: Row, code: string)
    | CheckingOwner(token: Token, view: Row, succeeded: bool, catalog: Catalog)
    | Renewing(token: Token, job: Job)
    | SelectingSent(token: Token, job: Job, deadline: int)
    | SendingMail(token: Token, job: Job, deadline: int, pending: seq<Release>)
    | RecordingMail(token: Token, job: Job, deadline: int, pending: seq<Release>, ok: bool)
    | Releasing(token: Token, view: Row, succeeded: bool)
    | Done

  // `used` holds every token ever drawn, `mails` every successful mail with the keys it covered.
  datatype World = World(
    row: Row, deliveries: Deliveries, workers: map<WorkerId, Worker>, now: int, used: set<Token>, mails: multiset<Key>)

  // Every worker runs a version and holds a keyring of its own; the rest is the same for all.
  datatype Setting = Setting(env: Env, sat: Satisfies, installed: WorkerId -> VersionText, keyring: WorkerId -> map<string, string>)

  function EnvOf(s: Setting, id: WorkerId): Env {
    s.env.(publicKeys := s.keyring(id))
  }

  datatype Step =
    | Tick(ms: nat)
    | Toggle(enabled: bool)
    | Acquire(id: WorkerId, token: Token, force: bool)
    | Load(id: WorkerId)
    | Prepare(id: WorkerId)
    | Fetch(id: WorkerId, reply: Reply, server: Server)
    | Succeed(id: WorkerId, jitter: nat)
    | Fail(id: WorkerId)
    | CheckOwner(id: WorkerId, users: seq<User>)
    | Renew(id: WorkerId)
    | SelectSent(id: WorkerId)
    | Send(id: WorkerId, ok: bool)
    | RecordMail(id: WorkerId)
    | Release(id: WorkerId)
    | Crash(id: WorkerId)
    | DatabaseError(id: WorkerId)

  predicate Downgrade(previous: Option<VersionText>, installed: VersionText) {
    previous.Some? && previous.value.Stable? && installed.Stable? && Gt(previous.value.version, installed.version)
  }

  // The security releases of a catalogue that are outstanding for an installed version.
  function OutstandingSecurity(catalog: Catalog, installed: VersionText, sat: Satisfies): seq<Release> {
    if installed.Stable? then
      SecurityReleases(Compare(installed, catalog.releases, sat).releases, installed.version, sat)
    else []
  }

  // The release is one to mail about: newer than the installed version, which is a listed stable one, and
  // an advisory of it applies.
  predicate NeedsMail(catalog: Catalog, installed: VersionText, sat: Satisfies, release: Release) {
    && Listed(catalog.releases, installed) && release in catalog.releases && Gt(release.document.version, installed.version)
    && exists a :: a in release.document.security && Applicable(a, installed.version, sat)
  }

  lemma {:induction false} SecurityReleasesAre(releases: seq<Release>, current: Version, sat: Satisfies)
    ensures forall release :: release in SecurityReleases(releases, current, sat) <==>
      release in releases && exists a :: a in release.document.security && Applicable(a, current, sat)
    ensures Ascending(releases) ==> Ascending(SecurityReleases(releases, current, sat))
  {
    if releases != [] {
      SecurityReleasesAre(releases[1..], current, sat);
      var first := ApplicableAdvisories(releases[0].document.security, current, sat);
      forall a ensures a in first <==> a in releases[0].document.security && Applicable(a, current, sat) {
        ApplicableMembers(releases[0].document.security, current, sat, a);
      }
      assert first != [] ==> first[0] in first;
      assert forall release :: release in releases <==> release == releases[0] || release in releases[1..];
      var rest := SecurityReleases(releases[1..], current, sat);
      forall i | 0 <= i < |rest| && Ascending(releases) ensures Gt(rest[i].document.version, releases[0].document.version) {
        assert rest[i] in releases[1..];
      }
    }
  }

  // The mail is about exactly the releases that need one, in catalogue order.
  lemma OutstandingSecurityIs(catalog: Catalog, installed: VersionText, sat: Satisfies)
    requires Ascending(catalog.releases)
    ensures forall release :: release in OutstandingSecurity(catalog, installed, sat) <==> NeedsMail(catalog, installed, sat, release)
    ensures Ascending(OutstandingSecurity(catalog, installed, sat))
  {
    hide Compare, Outstanding, SecurityReleases, Gt;
    if installed.Stable? {
      var c := Compare(installed, catalog.releases, sat);
      SecurityReleasesAre(c.releases, installed.version, sat);
      if Listed(catalog.releases, installed) {
        var at :| 0 <= at < |catalog.releases| && catalog.releases[at].document.version == installed.version;
        ListedBuildReleases(installed, catalog.releases, sat, at);
        forall release ensures release in c.releases <==> release in catalog.releases && Gt(release.document.version, installed.version) {
          SuffixIsNewer(catalog.releases, at, release);
        }
      } else {
        UnlistedBuildComparison(installed, catalog.releases, sat);
      }
    }
  }

  lemma SuffixIsNewer(releases: seq<Release>, at: nat, release: Release)
    requires Ascending(releases) && at < |releases|
    ensures release in releases[at + 1..] <==> release in releases && Gt(release.document.version, releases[at].document.version)
  {
    if release in releases && Gt(release.document.version, releases[at].document.version) {
      var i :| 0 <= i < |releases| && releases[i] == release;
      if i <= at {
        NotNewer(releases, i, at);
      }
      assert releases[at + 1..][i - at - 1] == release;
    }
  }

  // Where a check goes when a statement throws: before the mail phase to the failure branch, in the
  // mail phase to the release of the lease, otherwise out.
  function AfterError(p: Worker): Worker {
    match p
    case Preparing(token, view) => RecordingFailure(token, view, "update_feed_unavailable")
    case RecordingSuccess(token, view, _) => RecordingFailure(token, view, "update_feed_unavailable")
    case CheckingOwner(token, view, succeeded, _) => Releasing(token, view, succeeded)
    case Renewing(token, job) => Releasing(token, job.view, job.succeeded)
    case SelectingSent(token, job, _) => Releasing(token, job.view, job.succeeded)
    case SendingMail(token, job, _, _) => Releasing(token, job.view, job.succeeded)
    case RecordingMail(token, job, _, _, _) => Releasing(token, job.view, job.succeeded)
    case Releasing(token, view, true) => RecordingFailure(token, view, "update_feed_unavailable")
    case _ => Done
  }

  // One statement of one check: the row, the deliveries and the successful mail it leaves, and how
  // the check goes on. `None` when the step is not the next one of the check.
  datatype Effect = Effect(row: Row, deliveries: Deliveries, mailed: set<Key>, next: Worker)

  ghost function Perform(s: Setting, w: World, p: Worker, step: Step): Option<Effect> {
    var row, deliveries := w.row, w.deliveries;
    match (step, p)
    case (Load(_), Loading(token)) =>
      Some(Effect(row, deliveries, {}, Preparing(token, row)))
    case (Prepare(id), Preparing(token, view)) =>
      if !Owned(row, token) then Some(Effect(row, deliveries, {}, Done))
      else Some(Effect(row.(observed := Some(s.installed(id))), if Downgrade(view.observed, s.installed(id)) then map[] else deliveries, {},
                       Fetching(token, view.(observed := Some(s.installed(id))))))
    case (Fetch(id, reply, server), Fetching(token, view)) =>
      (match FetchCatalog(view.cachedCatalog, view.feedEtag, view.feedSequence, reply, server, EnvOf(s, id))
       case Ok(result) => Some(Effect(row, deliveries, {}, RecordingSuccess(token, view, result)))
       case Err(code) => Some(Effect(row, deliveries, {}, RecordingFailure(token, view, code))))
    case (Succeed(id, jitter), RecordingSuccess(token, view, result)) =>
      if !Owned(row, token) then Some(Effect(row, deliveries, {}, Done))
      else Some(Effect(Succeeded(row, w.now, jitter, s.installed(id), result), deliveries, {},
                       CheckingOwner(token, view, true, result.catalog)))
    case (Fail(_), RecordingFailure(token, view, code)) =>
      if !Owned(row, token) then Some(Effect(row, deliveries, {}, Done))
      else Some(Effect(Failed(row, view, w.now, code), deliveries, {},
                       if view.cachedCatalog.Some? then CheckingOwner(token, view, false, view.cachedCatalog.value) else Done))
    case (CheckOwner(id, users), CheckingOwner(token, view, succeeded, catalog)) =>
      var releases := OutstandingSecurity(catalog, s.installed(id), s.sat);
      if !row.checksEnabled || !Owned(row, token) || releases == [] then
        Some(Effect(row, deliveries, {}, Releasing(token, view, succeeded)))
      else Some(Effect(row, deliveries, {}, Renewing(token, Job(view, succeeded, s.installed(id), releases, users))))
    case (Renew(_), Renewing(token, job)) =>
      if job.users == [] || !Owned(row, token) || !row.checksEnabled then
        Some(Effect(row, deliveries, {}, Releasing(token, job.view, job.succeeded)))
      else Some(Effect(Renewed(row, w.now), deliveries, {}, SelectingSent(token, job, w.now + DELIVERY_LEASE_MS)))
    case (SelectSent(_), SelectingSent(token, job, deadline)) =>
      if job.users == [] then None
      else
        var pending := PendingReleases(deliveries, job.users[0], job.installed, job.releases);
        Some(Effect(row, deliveries, {},
          if pending == [] then Renewing(token, job.(users := job.users[1..])) else SendingMail(token, job, deadline, pending)))
    case (Send(_, ok), SendingMail(token, job, deadline, pending)) =>
      if job.users == [] then None
      else Some(Effect(row, deliveries, if ok then KeysOf(job.users[0], job.installed, pending) else {},
                       RecordingMail(token, job, deadline, pending, ok)))
    case (RecordMail(_), RecordingMail(token, job, deadline, pending, ok)) =>
      if job.users == [] then None
      else if pending == [] then Some(Effect(row, deliveries, {}, Renewing(token, job.(users := job.users[1..]))))
      else Some(Effect(row, RecordAttempt(deliveries, KeyOf(job.users[0], job.installed, pending[0]), ok), {},
                       RecordingMail(token, job, deadline, pending[1..], ok)))
    case (Release(_), Releasing(token, view, succeeded)) =>
      Some(Effect(if Owned(row, token) then Released(row) else row, deliveries, {}, Done))
    case (Crash(_), _) => Some(Effect(row, deliveries, {}, Done))
    case (DatabaseError(_), _) => Some(Effect(row, deliveries, {}, AfterError(p)))
    case _ => None
  }

  predicate Idle(w: World, id: WorkerId) {
    id in w.workers ==> w.workers[id].Done?
  }

  ghost function Next(s: Setting, w: World, step: Step): Option<World> {
    match step
    case Tick(ms) => Some(w.(now := w.now + ms))
    case Toggle(enabled) =>
      Some(if w.row.checksEnabled == enabled then w else w.(row := Toggled(w.row, w.now, enabled)))
    case Acquire(id, token, force) =>
      if !Idle(w, id) || token in w.used then None
      else if !CanAcquire(w.row, w.now, force) then Some(w.(used := w.used + {token}))
      else Some(w.(row := Acquired(w.row, w.now, token), used := w.used + {token}, workers := w.workers[id := Loading(token)]))
    case _ =>
      if Idle(w, step.id) then None
      else match Perform(s, w, w.workers[step.id], step)
        case None => None
        case Some(e) => Some(w.(row := e.row, deliveries := e.deliveries, workers := w.workers[step.id := e.next],
                                mails := w.mails + multiset(e.mailed)))
  }

  // ---------- The statements on the table ----------

  // The steps of a check that read or write the row.
  predicate OnRow(step: Step) {
    step.Load? || step.Prepare? || step.Succeed? || step.Fail? || step.CheckOwner? || step.Renew? || step.Release?
  }

  // Each such step is what the statement of the manager does to the table, and goes on by its answer.
  method RunStatement(table: StateTable, s: Setting, ghost w: World, step: Step, p: Worker, now: int) returns (next: Worker)
    requires table.row == w.row && now == w.now
    requires OnRow(step) && !Idle(w, step.id) && p == w.workers[step.id] && Next(s, w, step).Some?
    modifies table
    ensures table.row == Next(s, w, step).value.row
    ensures next == Next(s, w, step).value.workers[step.id]
  {
    next := Done;
    match (step, p) {
      case (Load(_), Loading(token)) =>
        next := Preparing(token, table.row);
      case (Prepare(id), Preparing(token, view)) =>
        var owned := table.PrepareInstalledVersion(token, s.installed(id));
        if owned {
          next := Fetching(token, view.(observed := Some(s.installed(id))));
        }
      case (Succeed(id, jitter), RecordingSuccess(token, view, result)) =>
        var owned := table.RecordSuccess(token, now, jitter, s.installed(id), result);
        if owned {
          next := CheckingOwner(token, view, true, result.catalog);
        }
      case (Fail(_), RecordingFailure(token, view, code)) =>
        var updated := table.RecordFailure(token, view, now, code);
        if updated && view.cachedCatalog.Some? {
          next := CheckingOwner(token, view, false, view.cachedCatalog.value);
        }
      case (CheckOwner(id, users), CheckingOwner(token, view, succeeded, catalog)) =>
        var releases := OutstandingSecurity(catalog, s.installed(id), s.sat);
        if !table.row.checksEnabled || table.row.leaseToken != Some(token) || releases == [] {
          next := Releasing(token, view, succeeded);
        } else {
          next := Renewing(token, Job(view, succeeded, s.installed(id), releases, users));
        }
      case (Renew(_), Renewing(token, job)) =>
        next := Releasing(token, job.view, job.succeeded);
        if job.users != [] {
          var renewed := table.RenewDeliveryLease(token, now);
          if renewed {
            next := SelectingSent(token, job, now + DELIVERY_LEASE_MS);
          }
        }
      case (Release(_), Releasing(token, _, _)) =>
        table.ReleaseLease(token);
      case _ =>
        assert false;
    }
  }

  // Asking for the lease is the step that starts a check, or none.
  method StartCheck(table: StateTable, s: Setting, ghost w: World, id: WorkerId, token: Token, force: bool, now: int) returns (acquired: bool)
    requires table.row == w.row && now == w.now && Next(s, w, Acquire(id, token, force)).Some?
    modifies table
    ensures table.row == Next(s, w, Acquire(id, token, force)).value.row
    ensures Next(s, w, Acquire(id, token, force)).value.workers == if acquired then w.workers[id := Loading(token)] else w.workers
  {
    acquired := table.AcquireLease(now, token, force);
  }

  method SwitchChecks(table: StateTable, s: Setting, ghost w: World, enabled: bool, now: int)
    requires table.row == w.row && now == w.now
    modifies table
    ensures table.row == Next(s, w, Toggle(enabled)).value.row
  {
    var _ := table.SetChecksEnabled(now, enabled);
  }

  // ---------- Safety over every interleaving ----------

  // The cached catalogue is genuine and carries the stored sequence number; while checks are
  // disabled nobody holds the lease.
  ghost predicate RowOk(row: Row, env: Env) {
    && (row.cachedCatalog.Some? ==> GenuineCatalog(row.cachedCatalog.value, env) && row.cachedCatalog.value.sequence == row.feedSequence)
    && (!row.checksEnabled ==> row.leaseToken.None?)
  }

  ghost predicate ViewOk(row: Row, env: Env) {
    row.cachedCatalog.Some? ==> GenuineCatalog(row.cachedCatalog.value, env) && row.cachedCatalog.value.sequence == row.feedSequence
  }

  // What the holder of the lease has read is still what the row says.
  predicate Current(row: Row, token: Token, view: Row) {
    Owned(row, token) ==> view.feedSequence == row.feedSequence && view.cachedCatalog == row.cachedCatalog
  }

  ghost predicate WorkerOk(row: Row, used: set<Token>, env: Env, p: Worker) {
    p.Done? || (
      && p.token in used
      && match p
         case Preparing(token, view) =>
           ViewOk(view, env) && Current(row, token, view) && (Owned(row, token) ==> view.observed == row.observed)
         case Fetching(token, view) => ViewOk(view, env) && Current(row, token, view)
         case RecordingSuccess(token, view, result) =>
           && ViewOk(view, env) && Current(row, token, view)
           && GenuineCatalog(result.catalog, env) && result.catalog.sequence == result.sequence
           && result.sequence >= view.feedSequence
         case _ => true)
  }

  ghost predicate Inv(s: Setting, w: World) {
    && RowOk(w.row, s.env)
    && (w.row.leaseToken.Some? ==> w.row.leaseToken.value in w.used)
    && (forall id :: id in w.workers ==> WorkerOk(w.row, w.used, s.env, w.workers[id]))
    && DistinctTokens(w.workers)
  }

  predicate DistinctTokens(workers: map<WorkerId, Worker>) {
    forall i, j :: i in workers && j in workers && i != j && !workers[i].Done? && !workers[j].Done? ==>
      workers[i].token != workers[j].token
  }

  // The row may only change under the token that holds it, and then keeps or clears that token.
  predicate RowStep(before: Row, after: Row, token: Token) {
    after == before || (Owned(before, token) && after.leaseToken in {Some(token), None})
  }

  // Nothing a worker does under its own token disturbs another worker.
  lemma OtherWorkersKept(before: Row, after: Row, token: Token, used: set<Token>, env: Env, p: Worker)
    requires WorkerOk(before, used, env, p) && RowStep(before, after, token)
    requires !p.Done? && p.token != token
    ensures WorkerOk(after, used, env, p)
  {
  }

  // Which documents are genuine does not depend on whose keyring is asked.
  lemma KeyringDoesNotMatter(catalog: Option<Catalog>, env: Env, keys: map<string, string>)
    ensures catalog.Some? ==> (GenuineCatalog(catalog.value, env) <==> GenuineCatalog(catalog.value, env.(publicKeys := keys)))
  {
    var other := env.(publicKeys := keys);
    forall release, bytes ensures ParsedFrom(release, bytes, env) <==> ParsedFrom(release, bytes, other) {}
    forall release ensures Genuine(release, env) <==> Genuine(release, other) {
      assert forall bytes :: ParsedFrom(release, bytes, env) <==> ParsedFrom(release, bytes, other);
    }
  }

  // A worker's own statement: it only touches the row while its token is in there, and leaves both
  // the row and itself consistent.
  lemma PerformKeeps(s: Setting, w: World, id: WorkerId, step: Step)
    requires Inv(s, w) && id in w.workers && !w.workers[id].Done?
    requires Perform(s, w, w.workers[id], step).Some?
    ensures var p := w.workers[id];
            var e := Perform(s, w, p, step).value;
            && RowStep(w.row, e.row, p.token)
            && RowOk(e.row, s.env)
            && w.row.feedSequence <= e.row.feedSequence
            && e.row.checksEnabled == w.row.checksEnabled
            && (!e.next.Done? ==> e.next.token == p.token)
            && WorkerOk(e.row, w.used, s.env, e.next)
  {
    var p := w.workers[id];
    assert WorkerOk(w.row, w.used, s.env, p);
    if p.Fetching? && step.Fetch? {
      var view := p.view;
      if FetchCatalog(view.cachedCatalog, view.feedEtag, view.feedSequence, step.reply, step.server, EnvOf(s, step.id)).Ok? {
        KeyringDoesNotMatter(view.cachedCatalog, s.env, s.keyring(step.id));
        FetchKeepsCatalog(view.cachedCatalog, view.feedEtag, view.feedSequence, step.reply, step.server, EnvOf(s, step.id));
        var result := FetchCatalog(view.cachedCatalog, view.feedEtag, view.feedSequence, step.reply, step.server, EnvOf(s, step.id)).value;
        KeyringDoesNotMatter(Some(result.catalog), s.env, s.keyring(step.id));
      }
    }
  }

  lemma WorkerStepKeepsInv(s: Setting, w: World, step: Step)
    requires Inv(s, w) && !step.Tick? && !step.Toggle? && !step.Acquire?
    requires Next(s, w, step).Some?
    ensures var w' := Next(s, w, step).value;
            && Inv(s, w') && w.row.feedSequence <= w'.row.feedSequence
            && (w'.row == w.row || Owned(w.row, w.workers[step.id].token))
  {
    hide RowOk, Perform, WorkerOk;
    var w' := Next(s, w, step).value;
    PerformKeeps(s, w, step.id, step);
    var p := w.workers[step.id];
    forall i | i in w'.workers
      ensures WorkerOk(w'.row, w'.used, s.env, w'.workers[i])
    {
      if i != step.id {
        DoneIsOk(w'.row, w.used, s.env);
        if !w.workers[i].Done? {
          OtherWorkersKept(w.row, w'.row, p.token, w.used, s.env, w.workers[i]);
        }
      }
    }
  }

  lemma DoneIsOk(row: Row, used: set<Token>, env: Env)
    ensures WorkerOk(row, used, env, Done)
  {
  }

  // A fresh token belongs to no worker yet, and no owner at all disturbs nobody.
  lemma NewHolderKeeps(before: Row, after: Row, used: set<Token>, used': set<Token>, env: Env, p: Worker)
    requires WorkerOk(before, used, env, p) && used <= used'
    requires after == before || after.leaseToken.None? || after.leaseToken.value !in used
    ensures WorkerOk(after, used', env, p)
  {
  }

  // Every step of every interleaving keeps the invariant and never lowers the stored sequence number.
  lemma StepKeepsInv(s: Setting, w: World, step: Step)
    requires Inv(s, w) && Next(s, w, step).Some?
    ensures var w' := Next(s, w, step).value;
            Inv(s, w') && w.row.feedSequence <= w'.row.feedSequence
  {
    var w' := Next(s, w, step).value;
    if step.Tick? {
    } else if step.Toggle? || step.Acquire? {
      hide WorkerOk, Perform;
      forall i | i in w.workers
        ensures WorkerOk(w'.row, w'.used, s.env, w.workers[i])
      {
        NewHolderKeeps(w.row, w'.row, w.used, w'.used, s.env, w.workers[i]);
      }
      if step.Acquire? {
        LoadingIsOk(w'.row, w'.used, s.env, step.token);
        FreshIsDistinct(s, w, step.token);
      }
    } else {
      WorkerStepKeepsInv(s, w, step);
    }
  }

  lemma LoadingIsOk(row: Row, used: set<Token>, env: Env, token: Token)
    ensures WorkerOk(row, used + {token}, env, Loading(token))
  {
  }

  lemma FreshIsDistinct(s: Setting, w: World, token: Token)
    requires Inv(s, w) && token !in w.used
    ensures forall i :: i in w.workers && !w.workers[i].Done? ==> w.workers[i].token != token
  {
    forall i | i in w.workers && !w.workers[i].Done?
      ensures w.workers[i].token != token
    {
      assert WorkerOk(w.row, w.used, s.env, w.workers[i]);
    }
  }

  // ---------- Runs ----------

  ghost function Run(s: Setting, w: World, steps: seq<Step>): Option<World>
    decreases |steps|
  {
    if steps == [] then Some(w)
    else match Next(s, w, steps[0])
      case None => None
      case Some(w') => Run(s, w', steps[1..])
  }

  // The row as the migration creates it.
  function InitialRow(): Row {
    Row(true, None, None, None, 0, None, None, None, 0, None, None, None)
  }

  // In every interleaving of any number of workers with crashes, database errors, lease expiries and
  // owner toggles the stored feed sequence never decreases and is that of the cached catalogue.
  lemma {:induction false} RunKeepsInv(s: Setting, w: World, steps: seq<Step>)
    requires Inv(s, w) && Run(s, w, steps).Some?
    ensures var w' := Run(s, w, steps).value;
            && Inv(s, w') && w.row.feedSequence <= w'.row.feedSequence
            && (w'.row.cachedCatalog.Some? ==> w'.row.cachedCatalog.value.sequence == w'.row.feedSequence)
            && (!w'.row.checksEnabled ==> w'.row.leaseToken.None?)
    decreases |steps|
  {
    if steps != [] {
      StepKeepsInv(s, w, steps[0]);
      RunKeepsInv(s, Next(s, w, steps[0]).value, steps[1..]);
    }
  }

  lemma InitialWorldOk(s: Setting, deliveries: Deliveries, now: int)
    ensures Inv(s, World(InitialRow(), deliveries, map[], now, {}, multiset{}))
  {
  }

  // A worker whose token has left the row never changes the row again, whatever it does next.
  lemma StrangerChangesNothing(s: Setting, w: World, step: Step)
    requires Inv(s, w) && !step.Tick? && !step.Toggle? && !step.Acquire?
    requires Next(s, w, step).Some? && !Owned(w.row, w.workers[step.id].token)
    ensures Next(s, w, step).value.row == w.row
  {
    WorkerStepKeepsInv(s, w, step);
  }

  // The token cannot come back either: once out of the row it stays out in every continuation.
  lemma {:induction false} LostTokenStaysLost(s: Setting, w: World, steps: seq<Step>, token: Token)
    requires Inv(s, w) && Run(s, w, steps).Some?
    requires token in w.used && !Owned(w.row, token)
    ensures !Owned(Run(s, w, steps).value.row, token)
    decreases |steps|
  {
    if steps != [] {
      StepKeepsInv(s, w, steps[0]);
      var w' := Next(s, w, steps[0]).value;
      if !steps[0].Tick? && !steps[0].Toggle? && !steps[0].Acquire? {
        PerformKeeps(s, w, steps[0].id, steps[0]);
      }
      LostTokenStaysLost(s, w', steps[1..], token);
    }
  }

  // While checks are disabled only the owner's toggle changes the row.
  lemma DisabledRowIsFrozen(s: Setting, w: World, step: Step)
    requires Inv(s, w) && !w.row.checksEnabled && !step.Toggle?
    requires Next(s, w, step).Some?
    ensures Next(s, w, step).value.row == w.row
  {
    if !step.Tick? && !step.Acquire? {
      StrangerChangesNothing(s, w, step);
    }
  }

  // In every reachable state, a check that fetches incrementally gets exactly the catalogue that a
  // full fetch would give, whenever that fetch succeeds.
  lemma ReachableFetchEqualsFull(s: Setting, w: World, id: WorkerId, reply: Reply, server: Server)
    requires Inv(s, w) && Injective(s.env.digest)
    requires id in w.workers && w.workers[id].Fetching? && reply.Index?
    requires var view := w.workers[id].view;
             FetchCatalog(None, view.feedEtag, view.feedSequence, reply, server, EnvOf(s, id)).Ok?
    ensures var view := w.workers[id].view;
            FetchCatalog(view.cachedCatalog, view.feedEtag, view.feedSequence, reply, server, EnvOf(s, id))
            == FetchCatalog(None, view.feedEtag, view.feedSequence, reply, server, EnvOf(s, id))
  {
    var view := w.workers[id].view;
    assert WorkerOk(w.row, w.used, s.env, w.workers[id]);
    KeyringDoesNotMatter(view.cachedCatalog, s.env, s.keyring(id));
    IncrementalCatalogEqualsFull(view.cachedCatalog, view.feedEtag, view.feedSequence, reply, server, EnvOf(s, id));
  }

  // ---------- Leases and pace ----------

  // A check starts exactly when checks are enabled, the lease is free or has run out, and a check is due
  // or forced; it then holds the lease for two minutes, and nothing else of the row changes.
  lemma CheckStartsIff(s: Setting, w: World, id: WorkerId, token: Token, force: bool)
    requires Inv(s, w) && token !in w.used && (id in w.workers ==> w.workers[id].Done?)
    ensures Next(s, w, Acquire(id, token, force)).Some?
    ensures var w' := Next(s, w, Acquire(id, token, force)).value;
      var started := id in w'.workers && w'.workers[id] == Loading(token);
      && (started <==>
            && w.row.checksEnabled
            && (w.row.leaseExpiresAt.None? || w.row.leaseExpiresAt.value <= w.now)
            && (force || w.row.nextCheckAt.None? || w.row.nextCheckAt.value <= w.now))
      && w'.row == (if started then w.row.(leaseToken := Some(token), leaseExpiresAt := Some(w.now + 120000)) else w.row)
      && w'.workers == if started then w.workers[id := Loading(token)] else w.workers
  {
  }

  // What a step does beside its statement: the clock goes on by ticks only, tokens are used up, other checks
  // stay where they are, and the mails that count are those of a successful send.
  lemma StepAccount(s: Setting, w: World, step: Step)
    requires Next(s, w, step).Some?
    ensures var w' := Next(s, w, step).value;
      && w'.now == w.now + (if step.Tick? then step.ms else 0)
      && w'.used == w.used + (if step.Acquire? then {step.token} else {})
      && (step.Tick? || step.Toggle? ==> w'.workers == w.workers && w'.deliveries == w.deliveries)
      && (step.Tick? ==> w'.row == w.row)
      && (!step.Tick? && !step.Toggle? ==> forall i | i != step.id :: (i in w'.workers <==> i in w.workers) && (i in w.workers ==> w'.workers[i] == w.workers[i]))
      && w'.mails == w.mails +
           if step.Send? && step.ok then multiset(KeysOf(w.workers[step.id].job.users[0], w.workers[step.id].job.installed, w.workers[step.id].pending))
           else multiset{}
  {
  }

  // While the lease of a check is alive nobody else's step changes the row, apart from the owner's toggle.
  lemma OthersWait(s: Setting, w: World, id: WorkerId, step: Step)
    requires Inv(s, w) && id in w.workers && !w.workers[id].Done? && Owned(w.row, w.workers[id].token)
    requires w.row.leaseExpiresAt.Some? && w.now < w.row.leaseExpiresAt.value
    requires Next(s, w, step).Some? && !step.Toggle? && (step.Tick? || step.id != id)
    ensures Next(s, w, step).value.row == w.row
  {
    if !step.Tick? && !step.Acquire? {
      StrangerChangesNothing(s, w, step);
    }
  }

  // The clock may be anything, but it does not go back.
  lemma {:induction false} ClockAdvances(s: Setting, w: World, steps: seq<Step>)
    requires Run(s, w, steps).Some?
    ensures w.now <= Run(s, w, steps).value.now
    decreases |steps|
  {
    if steps != [] {
      ClockAdvances(s, Next(s, w, steps[0]).value, steps[1..]);
    }
  }

  // Steps that neither record the outcome of a check nor toggle nor force one.
  predicate KeepsPace(step: Step) {
    !step.Succeed? && !step.Fail? && !step.Toggle? && !(step.Acquire? && step.force)
  }

  lemma PaceKept(s: Setting, w: World, step: Step)
    requires Inv(s, w) && Next(s, w, step).Some? && KeepsPace(step)
    requires w.row.nextCheckAt.Some? && w.now < w.row.nextCheckAt.value
    ensures var w' := Next(s, w, step).value;
      && w'.row.nextCheckAt == w.row.nextCheckAt
      && (w'.row.leaseToken == w.row.leaseToken || w'.row.leaseToken.None?)
  {
  }

  // Over every run: until the recorded time of the next check nobody takes the lease unforced, unless an
  // outcome is recorded or checks are toggled in between.
  lemma {:induction false} NoCheckBeforeItsTime(s: Setting, w: World, steps: seq<Step>)
    requires Inv(s, w) && Run(s, w, steps).Some? && forall i :: 0 <= i < |steps| ==> KeepsPace(steps[i])
    requires w.row.nextCheckAt.Some? && Run(s, w, steps).value.now < w.row.nextCheckAt.value
    ensures var w' := Run(s, w, steps).value;
      && w'.row.nextCheckAt == w.row.nextCheckAt
      && (w'.row.leaseToken == w.row.leaseToken || w'.row.leaseToken.None?)
    decreases |steps|
  {
    hide Inv, Next;
    ClockAdvances(s, w, steps);
    if steps != [] {
      StepKeepsInv(s, w, steps[0]);
      PaceKept(s, w, steps[0]);
      assert forall i :: 0 <= i < |steps[1..]| ==> KeepsPace(steps[1..][i]);
      NoCheckBeforeItsTime(s, Next(s, w, steps[0]).value, steps[1..]);
    }
  }

  // The wait after failures starts with an hour and doubles up to six hours.
  lemma BackoffDoubles(failures: nat)
    ensures Backoff(0) == Backoff(1) == 3600000
    ensures failures >= 1 ==> Backoff(failures + 1) == if 2 * Backoff(failures) < 21600000 then 2 * Backoff(failures) else 21600000
  {
  }

  // What the holder of the lease records of a check.
  lemma SuccessIsRecorded(s: Setting, w: World, id: WorkerId, jitter: nat)
    requires id in w.workers && w.workers[id].RecordingSuccess? && Owned(w.row, w.workers[id].token)
    ensures Next(s, w, Succeed(id, jitter)).Some?
    ensures var result, row := w.workers[id].result, Next(s, w, Succeed(id, jitter)).value.row;
      && row.cachedCatalog == Some(result.catalog) && row.feedEtag == result.etag && row.feedSequence == result.sequence
      && row.observed == Some(s.installed(id)) && row.failures == 0 && row.lastErrorCode.None?
      && row.lastAttemptAt == row.lastSuccessAt == Some(w.now) && row.nextCheckAt == Some(w.now + 3600000 + jitter)
      && Owned(row, w.workers[id].token) && row.leaseExpiresAt == Some(w.now + 1800000) && row.checksEnabled == w.row.checksEnabled
  {
  }

  // A failed check keeps what was cached, counts, waits, and holds on to the lease exactly when there is a
  // cached catalogue to mail about.
  lemma FailureIsRecorded(s: Setting, w: World, id: WorkerId)
    requires id in w.workers && w.workers[id].RecordingFailure? && Owned(w.row, w.workers[id].token)
    ensures Next(s, w, Fail(id)).Some?
    ensures var p, row := w.workers[id], Next(s, w, Fail(id)).value.row;
      && row.cachedCatalog == w.row.cachedCatalog && row.feedEtag == w.row.feedEtag && row.feedSequence == w.row.feedSequence
      && row.observed == w.row.observed && row.lastSuccessAt == w.row.lastSuccessAt && row.checksEnabled == w.row.checksEnabled
      && row.failures == p.view.failures + 1 && row.lastErrorCode == Some(p.code) && row.lastAttemptAt == Some(w.now)
      && row.nextCheckAt == Some(w.now + Backoff(row.failures))
      && (Owned(row, p.token) <==> p.view.cachedCatalog.Some?)
      && row.leaseExpiresAt == if p.view.cachedCatalog.Some? then Some(w.now + 1800000) else None
  {
  }

  // A check that ends by itself leaves no lease behind; only an error before the lease is of use, or in the
  // recording of a failure or the release after it, may leave it to run out.
  lemma EndedCheckHasNoLease(s: Setting, w: World, step: Step)
    requires !step.Tick? && !step.Toggle? && !step.Acquire? && !step.Crash?
    requires Next(s, w, step).Some? && Next(s, w, step).value.workers[step.id].Done?
    ensures var p := w.workers[step.id];
      if step.DatabaseError? then p.Loading? || p.Fetching? || p.RecordingFailure? || (p.Releasing? && !p.succeeded)
      else !Owned(Next(s, w, step).value.row, p.token)
  {
  }

  // A check that releases its lease leaves the row free for the next one, and no other field touched.
  lemma ReleaseFreesTheRow(s: Setting, w: World, id: WorkerId, later: nat)
    requires Inv(s, w) && id in w.workers && w.workers[id].Releasing? && Owned(w.row, w.workers[id].token)
    ensures Next(s, w, Step.Release(id)).Some?
    ensures var w' := Next(s, w, Step.Release(id)).value;
      && w'.row == w.row.(leaseToken := None, leaseExpiresAt := None) && w'.workers[id].Done?
      && CanAcquire(w'.row, w.now + later, true) == w.row.checksEnabled
  {
  }

  // What a check takes from an index reply is signed with a key of its own keyring, and goes on from the
  // catalogue, etag and sequence that it has read.
  lemma FetchTrustsOwnKeys(s: Setting, w: World, id: WorkerId, reply: Reply, server: Server)
    requires id in w.workers && w.workers[id].Fetching? && reply.Index? && reply.envelope.Some?
    requires Next(s, w, Fetch(id, reply, server)).Some?
    ensures var p := Next(s, w, Fetch(id, reply, server)).value.workers[id];
      p.RecordingSuccess? ==>
        && p.view == w.workers[id].view && p.result.sequence >= p.view.feedSequence && p.result.catalog.sequence == p.result.sequence
        && var e, keys := reply.envelope.value, s.keyring(id);
           e.keyId in keys && s.env.verify(keys[e.keyId], e.payload, e.signature)
           && exists payload :: s.env.decodePayload(e.payload) == Some(payload) && payload.sequence == Some(p.result.sequence)
  {
    hide FetchCatalog;
    var view := w.workers[id].view;
    if Next(s, w, Fetch(id, reply, server)).value.workers[id].RecordingSuccess? {
      IndexReplyExactly(view.cachedCatalog, view.feedEtag, view.feedSequence, reply, server, EnvOf(s, id));
      var payload :| Announces(reply, EnvOf(s, id), view.feedSequence, payload);
    }
  }

  // Switching checks on makes one due at once for anybody, switching them off stops all, forced or not; and
  // switching to what they are changes nothing.
  lemma ToggleDecides(s: Setting, w: World, enabled: bool, later: nat, force: bool)
    ensures Next(s, w, Toggle(enabled)).Some?
    ensures var w' := Next(s, w, Toggle(enabled)).value;
      if w.row.checksEnabled == enabled then w' == w
      else
        && w'.row.leaseToken.None? && w'.row.cachedCatalog == w.row.cachedCatalog && w'.row.feedSequence == w.row.feedSequence
        && w'.row.nextCheckAt == (if enabled then Some(w.now) else None)
        && (CanAcquire(w'.row, w.now + later, force) <==> enabled)
  {
  }

  // ---------- At most one security mail ----------

  // The worker is between the renewal of its lease and the last delivery row of a user.
  predicate Mailing(p: Worker) {
    p.SelectingSent? || p.SendingMail? || p.RecordingMail?
  }

  predicate Unrecorded(p: Worker) {
    p.RecordingMail? && p.ok
  }

  // Each worker records the mail of a user before the lease that it renewed for it expires.
  ghost predicate OnTime(w: World) {
    forall id :: id in w.workers && Unrecorded(w.workers[id]) ==> w.now < w.workers[id].deadline
  }

  // No owner toggles, no send or record after the deadline, and no crash between a successful mail
  // and its record.
  ghost predicate TimelyStep(s: Setting, w: World, step: Step) {
    && !step.Toggle?
    && (step.Send? || step.RecordMail? ==> !Idle(w, step.id) && Mailing(w.workers[step.id]) && w.now < w.workers[step.id].deadline)
    && (step.Crash? || step.DatabaseError? ==> !Idle(w, step.id) && !Unrecorded(w.workers[step.id]))
    && (Next(s, w, step).Some? ==> OnTime(Next(s, w, step).value))
  }

  // The worker holds the lease that it renewed, as long as that has not expired.
  predicate HoldsLease(row: Row, now: int, p: Worker) {
    Mailing(p) && now < p.deadline ==> Owned(row, p.token) && row.leaseExpiresAt == Some(p.deadline)
  }

  // What the worker knows about the delivery rows while it holds its lease.
  predicate DeliveriesKnown(deliveries: Deliveries, now: int, p: Worker) {
    (p.SendingMail? || (p.RecordingMail? && !p.ok)) && now < p.deadline && p.job.users != [] ==>
      forall i :: 0 <= i < |p.pending| ==> !Sent(deliveries, KeyOf(p.job.users[0], p.job.installed, p.pending[i]))
  }

  ghost predicate AwaitsRecord(p: Worker, key: Key) {
    Unrecorded(p) && p.job.users != [] && key in KeysOf(p.job.users[0], p.job.installed, p.pending)
  }

  ghost predicate Accounted(w: World, key: Key) {
    Sent(w.deliveries, key) || exists id :: id in w.workers && AwaitsRecord(w.workers[id], key)
  }

  // All workers run one installed version, and every mail sent is accounted for.
  ghost predicate MailInv(s: Setting, w: World) {
    && Inv(s, w) && OnTime(w)
    && (forall id :: s.installed(id) == s.installed(0))
    && !Downgrade(w.row.observed, s.installed(0))
    && (forall id :: id in w.workers ==> HoldsLease(w.row, w.now, w.workers[id]) && DeliveriesKnown(w.deliveries, w.now, w.workers[id]))
    && (forall key :: w.mails[key] <= 1)
    && (forall key :: key in w.mails ==> Accounted(w, key))
  }

  // Two workers that hold their leases are one.
  lemma OneMailer(s: Setting, w: World, i: WorkerId, j: WorkerId)
    requires MailInv(s, w) && i in w.workers && j in w.workers
    requires Mailing(w.workers[i]) && Mailing(w.workers[j])
    requires w.now < w.workers[i].deadline && w.now < w.workers[j].deadline
    ensures i == j
  {
    assert HoldsLease(w.row, w.now, w.workers[i]) && HoldsLease(w.row, w.now, w.workers[j]);
  }

  lemma NoDowngradeToItself(installed: VersionText)
    ensures !Downgrade(Some(installed), installed)
  {
  }

  // Only two statements matter for the mails: sending covers the pending keys and leads to their
  // recording, and recording writes the first pending key.
  lemma PerformMail(s: Setting, w: World, id: WorkerId, step: Step)
    requires MailInv(s, w) && id in w.workers && !w.workers[id].Done?
    requires Perform(s, w, w.workers[id], step).Some?
    ensures var p := w.workers[id];
            var e := Perform(s, w, p, step).value;
            && !Downgrade(e.row.observed, s.installed(0))
            && (step.RecordMail? ==>
                (p.RecordingMail? && p.job.users != [] && e.mailed == {}
                 && (p.pending == [] ==> e.deliveries == w.deliveries && e.next.Renewing?)
                 && (p.pending != [] ==>
                     (e.deliveries == RecordAttempt(w.deliveries, KeyOf(p.job.users[0], p.job.installed, p.pending[0]), p.ok)
                      && e.next == RecordingMail(p.token, p.job, p.deadline, p.pending[1..], p.ok)))))
            && (step.Send? ==>
                (p.SendingMail? && p.job.users != [] && e.deliveries == w.deliveries
                 && e.mailed == (if step.ok then KeysOf(p.job.users[0], p.job.installed, p.pending) else {})
                 && e.next == RecordingMail(p.token, p.job, p.deadline, p.pending, step.ok)))
            && (!step.RecordMail? && !step.Send? ==> e.deliveries == w.deliveries && e.mailed == {} && !e.next.RecordingMail?)
            && (!step.RecordMail? && !step.Crash? && !step.DatabaseError? ==> !p.RecordingMail?)
  {
    NoDowngradeToItself(s.installed(0));
    assert WorkerOk(w.row, w.used, s.env, w.workers[id]);
  }

  // A mailing worker keeps the deadline of its renewal, and the row with it.
  lemma PerformLease(s: Setting, w: World, id: WorkerId, step: Step)
    requires MailInv(s, w) && id in w.workers && !w.workers[id].Done?
    requires Perform(s, w, w.workers[id], step).Some?
    ensures var e := Perform(s, w, w.workers[id], step).value;
            HoldsLease(e.row, w.now, e.next)
  {
    assert HoldsLease(w.row, w.now, w.workers[id]);
  }

  lemma OtherLeasesKept(s: Setting, w: World, id: WorkerId, step: Step, i: WorkerId)
    requires MailInv(s, w) && id in w.workers && i in w.workers && i != id && !w.workers[id].Done?
    requires Perform(s, w, w.workers[id], step).Some?
    ensures HoldsLease(Perform(s, w, w.workers[id], step).value.row, w.now, w.workers[i])
  {
    hide Perform;
    PerformKeeps(s, w, id, step);
    assert HoldsLease(w.row, w.now, w.workers[i]);
  }

  // No sent delivery is ever turned back, and every other worker's knowledge survives.
  lemma PerformDeliveries(s: Setting, w: World, id: WorkerId, step: Step)
    requires MailInv(s, w) && id in w.workers && !w.workers[id].Done?
    requires step.Send? || step.RecordMail? ==> Mailing(w.workers[id]) && w.now < w.workers[id].deadline
    requires Perform(s, w, w.workers[id], step).Some?
    ensures var e := Perform(s, w, w.workers[id], step).value;
            && (forall key :: Sent(w.deliveries, key) ==> Sent(e.deliveries, key))
            && (forall i :: i in w.workers && i != id ==> DeliveriesKnown(e.deliveries, w.now, w.workers[i]))
  {
    hide Perform;
    PerformMail(s, w, id, step);
    assert DeliveriesKnown(w.deliveries, w.now, w.workers[id]);
    forall i | i in w.workers && i != id
      ensures DeliveriesKnown(Perform(s, w, w.workers[id], step).value.deliveries, w.now, w.workers[i])
    {
      assert DeliveriesKnown(w.deliveries, w.now, w.workers[i]);
      if step.RecordMail? && Mailing(w.workers[i]) && w.now < w.workers[i].deadline {
        OneMailer(s, w, i, id);
      }
    }
  }

  lemma OwnDeliveriesKnown(s: Setting, w: World, id: WorkerId, step: Step)
    requires MailInv(s, w) && id in w.workers && !w.workers[id].Done?
    requires Perform(s, w, w.workers[id], step).Some?
    ensures var e := Perform(s, w, w.workers[id], step).value;
            DeliveriesKnown(e.deliveries, w.now, e.next)
  {
    assert DeliveriesKnown(w.deliveries, w.now, w.workers[id]);
    PerformMail(s, w, id, step);
  }

  // A key about to be mailed has not been mailed before.
  lemma PendingIsUnmailed(s: Setting, w: World, id: WorkerId, key: Key)
    requires MailInv(s, w) && id in w.workers && w.workers[id].SendingMail?
    requires w.now < w.workers[id].deadline && w.workers[id].job.users != []
    requires key in KeysOf(w.workers[id].job.users[0], w.workers[id].job.installed, w.workers[id].pending)
    ensures key !in w.mails
  {
    assert DeliveriesKnown(w.deliveries, w.now, w.workers[id]);
    if key in w.mails {
      assert Accounted(w, key);
      var i :| i in w.workers && AwaitsRecord(w.workers[i], key);
      OneMailer(s, w, i, id);
    }
  }

  // Every mail stays accounted for: recorded as sent, or about to be by its own worker.
  lemma PerformAccounts(s: Setting, w: World, step: Step, key: Key)
    requires MailInv(s, w) && !step.Tick? && !step.Toggle? && !step.Acquire?
    requires Next(s, w, step).Some? && TimelyStep(s, w, step)
    requires key in Next(s, w, step).value.mails
    ensures Accounted(Next(s, w, step).value, key)
  {
    hide Perform, Inv, Sent;
    var w' := Next(s, w, step).value;
    var id := step.id;
    var p := w.workers[id];
    PerformMail(s, w, id, step);
    PerformDeliveries(s, w, id, step);
    if key in w.mails {
      assert Accounted(w, key);
      if !Sent(w.deliveries, key) {
        var i :| i in w.workers && AwaitsRecord(w.workers[i], key);
        if i != id {
          assert w'.workers[i] == w.workers[i];
        } else {
          RecordedKey(w.deliveries, p.job.users[0], p.job.installed, p.pending, key);
          assert key in KeysOf(p.job.users[0], p.job.installed, p.pending[1..]) ==> AwaitsRecord(w'.workers[id], key);
        }
      }
    } else {
      assert AwaitsRecord(w'.workers[id], key);
    }
  }

  lemma RecordedKey(deliveries: Deliveries, user: User, installed: VersionText, pending: seq<Release>, key: Key)
    requires key in KeysOf(user, installed, pending)
    ensures pending != []
    ensures Sent(RecordAttempt(deliveries, KeyOf(user, installed, pending[0]), true), key) || key in KeysOf(user, installed, pending[1..])
  {
    var i :| 0 <= i < |pending| && key == KeyOf(user, installed, pending[i]);
    if i > 0 {
      assert key == KeyOf(user, installed, pending[1..][i - 1]);
    }
  }

  lemma MailsStayUnique(s: Setting, w: World, step: Step, key: Key)
    requires MailInv(s, w) && !step.Tick? && !step.Toggle? && !step.Acquire?
    requires Next(s, w, step).Some? && TimelyStep(s, w, step)
    ensures Next(s, w, step).value.mails[key] <= 1
  {
    hide Perform, Inv;
    PerformMail(s, w, step.id, step);
    if step.Send? && key in KeysOf(w.workers[step.id].job.users[0], w.workers[step.id].job.installed, w.workers[step.id].pending) {
      PendingIsUnmailed(s, w, step.id, key);
    }
  }

  // What is recorded as sent is not mailed again.
  lemma SentIsNotMailed(s: Setting, w: World, step: Step, key: Key)
    requires MailInv(s, w) && Next(s, w, step).Some? && TimelyStep(s, w, step) && Sent(w.deliveries, key)
    ensures Next(s, w, step).value.mails[key] == w.mails[key]
  {
    hide Perform, Inv, Sent;
    if !step.Tick? && !step.Toggle? && !step.Acquire? {
      var p := w.workers[step.id];
      PerformMail(s, w, step.id, step);
      if step.Send? {
        assert DeliveriesKnown(w.deliveries, w.now, p);
        assert key !in KeysOf(p.job.users[0], p.job.installed, p.pending);
      }
    }
  }

  // A timely step keeps the account of the mails and never turns a sent delivery back.
  lemma TimelyStepKeeps(s: Setting, w: World, step: Step)
    requires MailInv(s, w) && Next(s, w, step).Some? && TimelyStep(s, w, step)
    ensures var w' := Next(s, w, step).value;
            MailInv(s, w') && forall key :: Sent(w.deliveries, key) ==> Sent(w'.deliveries, key)
  {
    hide Perform, Inv, Sent, AwaitsRecord, DeliveriesKnown, HoldsLease;
    var w' := Next(s, w, step).value;
    StepKeepsInv(s, w, step);
    if step.Tick? || step.Acquire? {
      QuietStepKeeps(s, w, step);
    } else {
      var id := step.id;
      PerformMail(s, w, id, step);
      PerformDeliveries(s, w, id, step);
      PerformLease(s, w, id, step);
      OwnDeliveriesKnown(s, w, id, step);
      forall i | i in w'.workers
        ensures HoldsLease(w'.row, w'.now, w'.workers[i]) && DeliveriesKnown(w'.deliveries, w'.now, w'.workers[i])
      {
        if i != id { OtherLeasesKept(s, w, id, step, i); }
      }
      forall key
        ensures w'.mails[key] <= 1
      {
        MailsStayUnique(s, w, step, key);
      }
      forall key | key in w'.mails
        ensures Accounted(w', key)
      {
        PerformAccounts(s, w, step, key);
      }
    }
  }

  // Time and new leases: an unexpired lease cannot be taken over.
  lemma QuietStepKeeps(s: Setting, w: World, step: Step)
    requires MailInv(s, w) && (step.Tick? || step.Acquire?)
    requires Next(s, w, step).Some? && TimelyStep(s, w, step)
    ensures var w' := Next(s, w, step).value;
            MailInv(s, w') && w'.deliveries == w.deliveries
  {
    hide Inv, Sent;
    var w' := Next(s, w, step).value;
    StepKeepsInv(s, w, step);
    forall i | i in w'.workers
      ensures HoldsLease(w'.row, w'.now, w'.workers[i]) && DeliveriesKnown(w'.deliveries, w'.now, w'.workers[i])
    {
      if i in w.workers {
        assert HoldsLease(w.row, w.now, w.workers[i]) && DeliveriesKnown(w.deliveries, w.now, w.workers[i]);
      }
    }
    forall key | key in w'.mails
      ensures Accounted(w', key)
    {
      assert Accounted(w, key);
      if !Sent(w.deliveries, key) {
        var i :| i in w.workers && AwaitsRecord(w.workers[i], key);
        assert AwaitsRecord(w'.workers[i], key);
      }
    }
  }

  ghost predicate TimelyRun(s: Setting, w: World, steps: seq<Step>)
    decreases |steps|
  {
    steps == [] || (TimelyStep(s, w, steps[0]) && Next(s, w, steps[0]).Some? && TimelyRun(s, Next(s, w, steps[0]).value, steps[1..]))
  }

  // Over every timely run of any number of workers, each administrator gets at most one successful
  // mail about a release revision, and none about one that is recorded as sent already; and a sent
  // delivery row never becomes a failed one.
  lemma {:induction false} AtMostOneMail(s: Setting, w: World, steps: seq<Step>)
    requires MailInv(s, w) && TimelyRun(s, w, steps)
    ensures Run(s, w, steps).Some?
    ensures var w' := Run(s, w, steps).value;
            && MailInv(s, w')
            && (forall key :: w'.mails[key] <= 1)
            && (forall key :: Sent(w.deliveries, key) ==> Sent(w'.deliveries, key) && w'.mails[key] == w.mails[key])
    decreases |steps|
  {
    hide MailInv, TimelyStep, Next, Sent;
    if steps != [] {
      TimelyStepKeeps(s, w, steps[0]);
      forall key | Sent(w.deliveries, key)
        ensures Next(s, w, steps[0]).value.mails[key] == w.mails[key]
      {
        SentIsNotMailed(s, w, steps[0], key);
      }
      AtMostOneMail(s, Next(s, w, steps[0]).value, steps[1..]);
    }
    MailsOfInv(s, Run(s, w, steps).value);
  }

  lemma MailsOfInv(s: Setting, w: World)
    requires MailInv(s, w)
    ensures forall key :: w.mails[key] <= 1
  {
  }

  // The account starts with any row that no newer version has written, and with any deliveries.
  lemma InitialMailInv(s: Setting, row: Row, deliveries: Deliveries, now: int)
    requires RowOk(row, s.env) && row.leaseToken.None?
    requires (forall id :: s.installed(id) == s.installed(0)) && !Downgrade(row.observed, s.installed(0))
    ensures MailInv(s, World(row, deliveries, map[], now, {}, multiset{}))
  {
  }

  // ---------- Who is mailed about what ----------

  function ViewOf(p: Worker): Option<Row> {
    match p
    case Loading(_) => None
    case Preparing(_, view) => Some(view)
    case Fetching(_, view) => Some(view)
    case RecordingSuccess(_, view, _) => Some(view)
    case RecordingFailure(_, view, _) => Some(view)
    case CheckingOwner(_, view, _, _) => Some(view)
    case Releasing(_, view, _) => Some(view)
    case Done => None
    case _ => Some(p.job.view)
  }

  predicate HasJob(p: Worker) {
    p.Renewing? || Mailing(p)
  }

  // The releases of a job are those of a genuine catalogue that need a mail, in catalogue order.
  ghost predicate JobIsNeeded(s: Setting, job: Job) {
    exists catalog | GenuineCatalog(catalog, s.env) :: IsNeeded(s, job, catalog)
  }

  ghost predicate IsNeeded(s: Setting, job: Job, catalog: Catalog) {
    && Ascending(job.releases)
    && forall release :: release in job.releases <==> NeedsMail(catalog, job.installed, s.sat, release)
  }

  // What a check carries along comes from genuine catalogues, and is for its own version.
  ghost predicate Informed(s: Setting, id: WorkerId, p: Worker) {
    && (ViewOf(p).Some? ==> ViewOk(ViewOf(p).value, s.env))
    && (p.CheckingOwner? ==> GenuineCatalog(p.catalog, s.env))
    && (HasJob(p) ==> p.job.installed == s.installed(id) && JobIsNeeded(s, p.job))
    && (p.SendingMail? || p.RecordingMail? ==> forall release :: release in p.pending ==> release in p.job.releases)
  }

  ghost predicate AllInformed(s: Setting, w: World) {
    forall id :: id in w.workers ==> Informed(s, id, w.workers[id])
  }

  // The key of some user for a release that needs a mail.
  ghost predicate NeededKey(s: Setting, key: Key) {
    exists catalog, release | GenuineCatalog(catalog, s.env) && NeedsMail(catalog, key.installed, s.sat, release) ::
      key == KeyOf(key.user, key.installed, release)
  }

  lemma JobBegins(s: Setting, id: WorkerId, view: Row, succeeded: bool, catalog: Catalog, users: seq<User>)
    requires GenuineCatalog(catalog, s.env)
    ensures JobIsNeeded(s, Job(view, succeeded, s.installed(id), OutstandingSecurity(catalog, s.installed(id), s.sat), users))
  {
    hide OutstandingSecurity, NeedsMail;
    OutstandingSecurityIs(catalog, s.installed(id), s.sat);
    assert IsNeeded(s, Job(view, succeeded, s.installed(id), OutstandingSecurity(catalog, s.installed(id), s.sat), users), catalog);
  }

  lemma SameJobIsNeeded(s: Setting, job: Job, users: seq<User>)
    requires JobIsNeeded(s, job)
    ensures JobIsNeeded(s, job.(users := users))
  {
    var catalog :| GenuineCatalog(catalog, s.env) && IsNeeded(s, job, catalog);
    assert IsNeeded(s, job.(users := users), catalog);
  }

  lemma PerformKeepsView(s: Setting, w: World, id: WorkerId, step: Step)
    requires Inv(s, w) && id in w.workers && !w.workers[id].Done? && Informed(s, id, w.workers[id])
    requires !step.Tick? && !step.Toggle? && !step.Acquire? && step.id == id
    requires Perform(s, w, w.workers[id], step).Some?
    ensures var p := Perform(s, w, w.workers[id], step).value.next;
      && (ViewOf(p).Some? ==> ViewOk(ViewOf(p).value, s.env))
      && (p.CheckingOwner? ==> GenuineCatalog(p.catalog, s.env))
  {
    hide GenuineCatalog, JobIsNeeded, OutstandingSecurity, FetchCatalog, KeysOf, RecordAttempt;
    assert WorkerOk(w.row, w.used, s.env, w.workers[id]);
  }

  lemma PerformKeepsJob(s: Setting, w: World, id: WorkerId, step: Step)
    requires id in w.workers && !w.workers[id].Done? && Informed(s, id, w.workers[id])
    requires !step.Tick? && !step.Toggle? && !step.Acquire? && step.id == id
    requires Perform(s, w, w.workers[id], step).Some?
    ensures var p := Perform(s, w, w.workers[id], step).value.next;
      && (HasJob(p) ==> p.job.installed == s.installed(id) && JobIsNeeded(s, p.job))
      && (p.SendingMail? || p.RecordingMail? ==> forall release :: release in p.pending ==> release in p.job.releases)
  {
    hide GenuineCatalog, JobIsNeeded, OutstandingSecurity, FetchCatalog, KeysOf, RecordAttempt, ViewOf, ViewOk, Downgrade;
    var p := w.workers[id];
    match step
    case CheckOwner(_, users) => if p.CheckingOwner? { JobBegins(s, id, p.view, p.succeeded, p.catalog, users); }
    case SelectSent(_) => SameJobIsNeeded(s, p.job, p.job.users[1..]);
    case RecordMail(_) => SameJobIsNeeded(s, p.job, p.job.users[1..]);
    case _ =>
  }

  lemma PerformInforms(s: Setting, w: World, id: WorkerId, step: Step)
    requires Inv(s, w) && id in w.workers && !w.workers[id].Done? && Informed(s, id, w.workers[id])
    requires !step.Tick? && !step.Toggle? && !step.Acquire? && step.id == id
    requires Perform(s, w, w.workers[id], step).Some?
    ensures Informed(s, id, Perform(s, w, w.workers[id], step).value.next)
  {
    hide Inv, Perform, GenuineCatalog, JobIsNeeded;
    PerformKeepsView(s, w, id, step);
    PerformKeepsJob(s, w, id, step);
  }

  // A mail covers releases of the job only.
  lemma MailedIsNeeded(s: Setting, w: World, id: WorkerId, step: Step, key: Key)
    requires id in w.workers && Informed(s, id, w.workers[id]) && Perform(s, w, w.workers[id], step).Some?
    requires key in Perform(s, w, w.workers[id], step).value.mailed
    ensures NeededKey(s, key)
  {
    var job, pending := w.workers[id].job, w.workers[id].pending;
    var catalog :| GenuineCatalog(catalog, s.env) && IsNeeded(s, job, catalog);
    var i :| 0 <= i < |pending| && key == KeyOf(job.users[0], job.installed, pending[i]);
    assert pending[i] in pending;
    assert NeedsMail(catalog, key.installed, s.sat, pending[i]);
  }

  lemma StepInforms(s: Setting, w: World, step: Step)
    requires Inv(s, w) && AllInformed(s, w) && Next(s, w, step).Some?
    ensures AllInformed(s, Next(s, w, step).value)
    ensures forall key :: key in Next(s, w, step).value.mails && key !in w.mails ==> NeededKey(s, key)
  {
    hide Inv, Perform, Informed, NeededKey, Acquired, CanAcquire, Toggled;
    if step.Acquire? {
      assert Informed(s, step.id, Loading(step.token)) by { LoadingIsInformed(s, step.id, step.token); }
    } else if !step.Tick? && !step.Toggle? {
      PerformInforms(s, w, step.id, step);
      forall key | key in Perform(s, w, w.workers[step.id], step).value.mailed ensures NeededKey(s, key) {
        MailedIsNeeded(s, w, step.id, step, key);
      }
    }
  }

  lemma LoadingIsInformed(s: Setting, id: WorkerId, token: Token)
    ensures Informed(s, id, Loading(token))
  {
  }

  // Over every run, timely or not: nobody is mailed but about releases of a genuine catalogue that are
  // newer than a listed installed version and carry an advisory that applies to it.
  lemma {:induction false} OnlyNeededIsMailed(s: Setting, w: World, steps: seq<Step>)
    requires Inv(s, w) && AllInformed(s, w) && Run(s, w, steps).Some?
    ensures AllInformed(s, Run(s, w, steps).value)
    ensures forall key :: key in Run(s, w, steps).value.mails && key !in w.mails ==> NeededKey(s, key)
    decreases |steps|
  {
    hide Inv, Next, AllInformed, NeededKey;
    if steps != [] {
      StepKeepsInv(s, w, steps[0]);
      StepInforms(s, w, steps[0]);
      OnlyNeededIsMailed(s, Next(s, w, steps[0]).value, steps[1..]);
    }
  }

  // ---------- That each of them is mailed ----------

  // Every release of the job is recorded as sent to the user at hand or still pending; when the mail has
  // failed it may be recorded as failed instead.
  ghost predicate Covers(deliveries: Deliveries, p: Worker) {
    (p.SendingMail? || p.RecordingMail?) && p.job.users != [] ==>
      forall release :: release in p.job.releases ==>
        var key := KeyOf(p.job.users[0], p.job.installed, release);
        release in p.pending || Sent(deliveries, key) || (p.RecordingMail? && !p.ok && key in deliveries)
  }

  ghost predicate AllCover(w: World) {
    forall id :: id in w.workers ==> Covers(w.deliveries, w.workers[id])
  }

  lemma CoversStays(before: Deliveries, after: Deliveries, p: Worker)
    requires Covers(before, p) && before.Keys <= after.Keys && forall key :: Sent(before, key) ==> Sent(after, key)
    ensures Covers(after, p)
  {
  }

  lemma OwnStepCovers(s: Setting, w: World, id: WorkerId, step: Step)
    requires MailInv(s, w) && id in w.workers && !w.workers[id].Done? && Covers(w.deliveries, w.workers[id])
    requires Perform(s, w, w.workers[id], step).Some?
    requires forall key :: Sent(w.deliveries, key) ==> Sent(Perform(s, w, w.workers[id], step).value.deliveries, key)
    ensures var e := Perform(s, w, w.workers[id], step).value;
      w.deliveries.Keys <= e.deliveries.Keys && Covers(e.deliveries, e.next)
  {
    var p := w.workers[id];
    PerformMail(s, w, id, step);
    if step.Send? || step.RecordMail? {
      hide Perform;
    }
  }

  lemma TimelyStepCovers(s: Setting, w: World, step: Step)
    requires MailInv(s, w) && AllCover(w) && Next(s, w, step).Some? && TimelyStep(s, w, step)
    ensures AllCover(Next(s, w, step).value)
  {
    hide Perform, Inv, Sent, Covers, MailInv;
    var w' := Next(s, w, step).value;
    if step.Tick? || step.Acquire? {
      QuietStepKeeps(s, w, step);
      if step.Acquire? {
        assert Covers(w.deliveries, Loading(step.token)) by { LoadingCovers(w.deliveries, step.token); }
      }
    } else {
      TimelyStepKeeps(s, w, step);
      OwnStepCovers(s, w, step.id, step);
      forall i | i in w'.workers ensures Covers(w'.deliveries, w'.workers[i]) {
        if i != step.id {
          CoversStays(w.deliveries, w'.deliveries, w.workers[i]);
        }
      }
    }
  }

  lemma LoadingCovers(deliveries: Deliveries, token: Token)
    ensures Covers(deliveries, Loading(token))
  {
  }

  lemma {:induction false} TimelyRunCovers(s: Setting, w: World, steps: seq<Step>)
    requires MailInv(s, w) && AllInformed(s, w) && AllCover(w) && TimelyRun(s, w, steps)
    ensures Run(s, w, steps).Some? && MailInv(s, Run(s, w, steps).value)
    ensures AllInformed(s, Run(s, w, steps).value) && AllCover(Run(s, w, steps).value)
    decreases |steps|
  {
    hide MailInv, TimelyStep, Next, AllInformed, AllCover;
    if steps != [] {
      TimelyStepKeeps(s, w, steps[0]);
      TimelyStepCovers(s, w, steps[0]);
      StepInforms(s, w, steps[0]) by { MailInvIsInv(s, w); }
      TimelyRunCovers(s, Next(s, w, steps[0]).value, steps[1..]);
    }
  }

  lemma MailInvIsInv(s: Setting, w: World)
    requires MailInv(s, w)
    ensures Inv(s, w)
  {
  }

  // Over every timely run from a world without checks: when a check leaves an administrator after a
  // successful mail, all releases of a genuine catalogue that need a mail are recorded as sent to that
  // administrator, and after a failed one each of them has its row.
  lemma UserIsServed(s: Setting, w: World, steps: seq<Step>, id: WorkerId) returns (catalog: Catalog)
    requires MailInv(s, w) && w.workers == map[] && TimelyRun(s, w, steps)
    requires Run(s, w, steps).Some? && id in Run(s, w, steps).value.workers
    requires var p := Run(s, w, steps).value.workers[id]; p.RecordingMail? && p.pending == [] && p.job.users != []
    ensures GenuineCatalog(catalog, s.env)
    ensures var w' := Run(s, w, steps).value;
      var p := w'.workers[id];
      forall release | NeedsMail(catalog, s.installed(id), s.sat, release) ::
        var key := KeyOf(p.job.users[0], s.installed(id), release);
        key in w'.deliveries && (p.ok ==> Sent(w'.deliveries, key))
  {
    hide MailInv, TimelyRun, Run, NeedsMail, GenuineCatalog;
    TimelyRunCovers(s, w, steps);
    var w' := Run(s, w, steps).value;
    var p := w'.workers[id];
    assert Informed(s, id, p) && Covers(w'.deliveries, p);
    catalog :| GenuineCatalog(catalog, s.env) && IsNeeded(s, p.job, catalog);
  }

  // The mail phase begins exactly when checks are enabled, the lease is still held and some release of the
  // catalogue needs a mail.
  lemma MailPhaseBegins(s: Setting, w: World, id: WorkerId, users: seq<User>)
    requires id in w.workers && w.workers[id].CheckingOwner? && GenuineCatalog(w.workers[id].catalog, s.env)
    ensures Next(s, w, CheckOwner(id, users)).Some?
    ensures var p, w' := w.workers[id], Next(s, w, CheckOwner(id, users)).value;
      && w'.row == w.row && w'.deliveries == w.deliveries && w'.mails == w.mails
      && (w'.workers[id].Renewing? <==>
            w.row.checksEnabled && Owned(w.row, p.token) && exists release :: NeedsMail(p.catalog, s.installed(id), s.sat, release))
      && (w'.workers[id].Renewing? ==> w'.workers[id].job.users == users)
      && (!w'.workers[id].Renewing? ==> w'.workers[id] == Releasing(p.token, p.view, p.succeeded))
  {
    hide NeedsMail, OutstandingSecurity;
    var p := w.workers[id];
    OutstandingSecurityIs(p.catalog, s.installed(id), s.sat);
    var releases := OutstandingSecurity(p.catalog, s.installed(id), s.sat);
    assert releases != [] ==> releases[0] in releases;
  }

  // A check stamps its version on the row; when the stamp was that of a newer one, the deliveries of all
  // users are forgotten.
  lemma DowngradeForgets(s: Setting, w: World, id: WorkerId)
    requires id in w.workers && w.workers[id].Preparing?
    ensures Next(s, w, Prepare(id)).Some?
    ensures var p, w' := w.workers[id], Next(s, w, Prepare(id)).value;
      if !Owned(w.row, p.token) then w'.row == w.row && w'.deliveries == w.deliveries && w'.workers[id].Done?
      else
        && w'.row == w.row.(observed := Some(s.installed(id)))
        && w'.workers[id] == Fetching(p.token, p.view.(observed := Some(s.installed(id))))
        && match (p.view.observed, s.installed(id))
           case (Some(Stable(before, _)), Stable(now, _)) => w'.deliveries == if Gt(before, now) then map[] else w.deliveries
           case _ => w'.deliveries == w.deliveries
  {
  }

  // ---------- A mail phase left alone ----------

  // The steps of one check in its mail phase, with every mail going out.
  predicate MailsOut(step: Step, id: WorkerId) {
    match step
    case Renew(own) => own == id
    case SelectSent(own) => own == id
    case Send(own, ok) => own == id && ok
    case RecordMail(own) => own == id
    case _ => false
  }

  // What such steps keep: the check still holds the lease, checks are enabled, and what was sent is sent.
  ghost predicate GoesOn(before: World, after: World, id: WorkerId, token: Token) {
    && after.row.checksEnabled && Owned(after.row, token) && id in after.workers
    && forall key :: Sent(before.deliveries, key) ==> Sent(after.deliveries, key)
  }

  lemma RunCons(s: Setting, w: World, step: Step, rest: seq<Step>)
    requires Next(s, w, step).Some?
    ensures Run(s, w, [step] + rest) == Run(s, Next(s, w, step).value, rest)
  {
    assert ([step] + rest)[1..] == rest;
  }

  lemma {:induction false} RunJoin(s: Setting, w: World, a: seq<Step>, b: seq<Step>)
    requires Run(s, w, a).Some?
    ensures Run(s, w, a + b) == Run(s, Run(s, w, a).value, b)
    decreases |a|
  {
    if a == [] {
      assert a + b == b;
    } else {
      assert (a + b)[1..] == a[1..] + b;
      RunJoin(s, Next(s, w, a[0]).value, a[1..], b);
    }
  }

  // After a mail has gone out its keys are recorded one by one, and then the next administrator is due.
  lemma {:induction false} RecordsAll(s: Setting, w: World, id: WorkerId) returns (steps: seq<Step>)
    requires id in w.workers && w.workers[id].RecordingMail? && w.workers[id].ok && w.workers[id].job.users != []
    requires w.row.checksEnabled && Owned(w.row, w.workers[id].token)
    ensures Run(s, w, steps).Some? && forall step | step in steps :: MailsOut(step, id)
    ensures var p, w' := w.workers[id], Run(s, w, steps).value;
      && GoesOn(w, w', id, p.token) && w'.workers[id] == Renewing(p.token, p.job.(users := p.job.users[1..]))
      && forall release | release in p.pending :: Sent(w'.deliveries, KeyOf(p.job.users[0], p.job.installed, release))
    decreases |w.workers[id].pending|
  {
    var p := w.workers[id];
    var next := Next(s, w, RecordMail(id)).value;
    if p.pending == [] {
      steps := [RecordMail(id)];
      RunCons(s, w, RecordMail(id), []);
    } else {
      var rest := RecordsAll(s, next, id);
      steps := [RecordMail(id)] + rest;
      RunCons(s, w, RecordMail(id), rest);
      assert Sent(next.deliveries, KeyOf(p.job.users[0], p.job.installed, p.pending[0]));
      assert forall release | release in p.pending :: release == p.pending[0] || release in p.pending[1..];
    }
  }

  // Renewing the lease and asking for the sent rows leads to the mail about what is unsent, or past the
  // administrator when nothing is.
  lemma SelectsUnsent(s: Setting, w: World, id: WorkerId) returns (renewed: World, selected: World)
    requires id in w.workers && w.workers[id].Renewing? && w.workers[id].job.users != []
    requires w.row.checksEnabled && Owned(w.row, w.workers[id].token)
    ensures Next(s, w, Renew(id)) == Some(renewed) && Next(s, renewed, SelectSent(id)) == Some(selected)
    ensures var p := w.workers[id];
      && GoesOn(w, selected, id, p.token)
      && if forall release | release in p.job.releases :: Sent(w.deliveries, KeyOf(p.job.users[0], p.job.installed, release)) then
           selected.workers[id] == Renewing(p.token, p.job.(users := p.job.users[1..]))
         else
           && selected.workers[id].SendingMail? && selected.workers[id].token == p.token && selected.workers[id].job == p.job
           && forall release | release in p.job.releases ::
                release in selected.workers[id].pending || Sent(selected.deliveries, KeyOf(p.job.users[0], p.job.installed, release))
  {
    var p := w.workers[id];
    renewed := Next(s, w, Renew(id)).value;
    selected := Next(s, renewed, SelectSent(id)).value;
    var pending := PendingReleases(w.deliveries, p.job.users[0], p.job.installed, p.job.releases);
    assert pending != [] ==> pending[0] in pending;
  }

  // One administrator: the mail goes out if anything is unsent, and all of the job is sent then.
  lemma ServesOne(s: Setting, w: World, id: WorkerId) returns (steps: seq<Step>)
    requires id in w.workers && w.workers[id].Renewing? && w.workers[id].job.users != []
    requires w.row.checksEnabled && Owned(w.row, w.workers[id].token)
    ensures Run(s, w, steps).Some? && forall step | step in steps :: MailsOut(step, id)
    ensures var p, w' := w.workers[id], Run(s, w, steps).value;
      && GoesOn(w, w', id, p.token) && w'.workers[id] == Renewing(p.token, p.job.(users := p.job.users[1..]))
      && forall release | release in p.job.releases :: Sent(w'.deliveries, KeyOf(p.job.users[0], p.job.installed, release))
  {
    hide Run, Next;
    var renewed, selected := SelectsUnsent(s, w, id);
    var rest: seq<Step> := [];
    if selected.workers[id].Renewing? {
      NoStepsRun(s, selected);
    } else {
      var sent := MailGoesOut(s, selected, id);
      var records := RecordsAll(s, sent, id);
      RunCons(s, selected, Send(id, true), records);
      rest := [Send(id, true)] + records;
    }
    RunCons(s, renewed, SelectSent(id), rest);
    RunCons(s, w, Renew(id), [SelectSent(id)] + rest);
    steps := [Renew(id)] + ([SelectSent(id)] + rest);
  }

  lemma MailGoesOut(s: Setting, w: World, id: WorkerId) returns (sent: World)
    requires id in w.workers && w.workers[id].SendingMail? && w.workers[id].job.users != []
    ensures Next(s, w, Send(id, true)) == Some(sent)
    ensures sent.row == w.row && sent.deliveries == w.deliveries && id in sent.workers
    ensures var p := w.workers[id]; sent.workers[id] == RecordingMail(p.token, p.job, p.deadline, p.pending, true)
  {
    sent := Next(s, w, Send(id, true)).value;
  }

  lemma NoStepsRun(s: Setting, w: World)
    ensures Run(s, w, []) == Some(w)
  {
  }

  lemma {:induction false} ServesAll(s: Setting, w: World, id: WorkerId) returns (steps: seq<Step>)
    requires id in w.workers && w.workers[id].Renewing?
    requires w.row.checksEnabled && Owned(w.row, w.workers[id].token)
    ensures Run(s, w, steps).Some? && forall step | step in steps :: MailsOut(step, id)
    ensures var p, w' := w.workers[id], Run(s, w, steps).value;
      && GoesOn(w, w', id, p.token) && w'.workers[id] == Releasing(p.token, p.job.view, p.job.succeeded)
      && forall user, release | user in p.job.users && release in p.job.releases :: Sent(w'.deliveries, KeyOf(user, p.job.installed, release))
    decreases |w.workers[id].job.users|
  {
    var p := w.workers[id];
    if p.job.users == [] {
      steps := [Renew(id)];
      RunCons(s, w, Renew(id), []);
    } else {
      hide Run, Next;
      var first := ServesOne(s, w, id);
      var w' := Run(s, w, first).value;
      var rest := ServesAll(s, w', id);
      RunJoin(s, w, first, rest);
      steps := first + rest;
      assert forall user | user in p.job.users :: user == p.job.users[0] || user in p.job.users[1..];
    }
  }

  // From the check of the owner on: a check that holds the lease while checks are enabled can go on, by the
  // steps of its mail phase alone and with every mail going out, until it is about to release the lease and
  // every administrator has a sent row for each release of its catalogue that needs a mail.
  lemma MailPhaseServesAll(s: Setting, w: World, id: WorkerId, users: seq<User>) returns (steps: seq<Step>)
    requires id in w.workers && w.workers[id].CheckingOwner? && GenuineCatalog(w.workers[id].catalog, s.env)
    requires w.row.checksEnabled && Owned(w.row, w.workers[id].token)
    ensures forall step | step in steps :: MailsOut(step, id)
    ensures Run(s, w, [CheckOwner(id, users)] + steps).Some?
    ensures var p, w' := w.workers[id], Run(s, w, [CheckOwner(id, users)] + steps).value;
      && GoesOn(w, w', id, p.token) && w'.workers[id] == Releasing(p.token, p.view, p.succeeded)
      && forall user, release | user in users && NeedsMail(p.catalog, s.installed(id), s.sat, release) ::
           Sent(w'.deliveries, KeyOf(user, s.installed(id), release))
  {
    hide Run, NeedsMail, OutstandingSecurity;
    var p := w.workers[id];
    OutstandingSecurityIs(p.catalog, s.installed(id), s.sat);
    var next := Next(s, w, CheckOwner(id, users)).value;
    if next.workers[id].Renewing? {
      steps := ServesAll(s, next, id);
    } else {
      steps := [];
      NoStepsRun(s, next);
    }
    RunCons(s, w, CheckOwner(id, users), steps);
  }

  // ---------- Attempts ----------

  function Attempts(deliveries: Deliveries, key: Key): nat {
    if key in deliveries then deliveries[key].attempts else 0
  }

  // The step records a mail about the key.
  predicate Records(w: World, step: Step, key: Key) {
    && step.RecordMail? && step.id in w.workers && w.workers[step.id].RecordingMail?
    && var p := w.workers[step.id];
       p.job.users != [] && p.pending != [] && key == KeyOf(p.job.users[0], p.job.installed, p.pending[0])
  }

  // How often a run records a mail about the key.
  ghost function RecordsOf(s: Setting, w: World, steps: seq<Step>, key: Key): nat
    requires Run(s, w, steps).Some?
    decreases |steps|
  {
    if steps == [] then 0
    else (if Records(w, steps[0], key) then 1 else 0) + RecordsOf(s, Next(s, w, steps[0]).value, steps[1..], key)
  }

  // Recording counts the attempt of its own key, and notes how the mail went; other rows stay.
  lemma StepCountsAttempts(s: Setting, w: World, step: Step, key: Key)
    requires MailInv(s, w) && Next(s, w, step).Some? && TimelyStep(s, w, step)
    ensures var deliveries := Next(s, w, step).value.deliveries;
      && Attempts(deliveries, key) == Attempts(w.deliveries, key) + (if Records(w, step, key) then 1 else 0)
      && (Records(w, step, key) ==> deliveries[key].sent == w.workers[step.id].ok)
      && (!Records(w, step, key) ==> (key in deliveries <==> key in w.deliveries) && (key in deliveries ==> deliveries[key] == w.deliveries[key]))
  {
    hide Perform, Inv;
    if !step.Tick? && !step.Toggle? && !step.Acquire? {
      PerformMail(s, w, step.id, step);
    }
  }

  // Over every timely run a delivery row counts the mails recorded for it, successful or not.
  lemma {:induction false} AttemptsAreCounted(s: Setting, w: World, steps: seq<Step>, key: Key)
    requires MailInv(s, w) && TimelyRun(s, w, steps) && Run(s, w, steps).Some?
    ensures Attempts(Run(s, w, steps).value.deliveries, key) == Attempts(w.deliveries, key) + RecordsOf(s, w, steps, key)
    decreases |steps|
  {
    hide MailInv, TimelyStep, Next, Attempts, Records;
    if steps != [] {
      TimelyStepKeeps(s, w, steps[0]);
      StepCountsAttempts(s, w, steps[0], key);
      AttemptsAreCounted(s, Next(s, w, steps[0]).value, steps[1..], key);
    }
  }
}
