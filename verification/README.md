# Nebulynk core: model and proofs

This project models the stateful, concurrent and arithmetic parts of the Nebulynk backend and of its
desktop push-to-talk helper in Dafny, and proves properties of them. `dafny verify dfyconfig.toml`
checks all of it.

Code that changes state step by step is modelled by classes whose methods do the same to their fields;
each method is proved against a function on values, and the theorems are about these functions: about
every step, and about every run. Concurrent code is a state machine whose steps are the blocks that run
without yielding (a database statement, a block under the mutex, an atomic operation, a callback up to
its first wait); a run is any sequence of steps of any number of participants. The methods of the
notification dispatcher, the runtime, the teardown and presence that do just one step have no row of their
own below; the theorems about the step have. Clocks, random numbers, fresh tokens, servers, encoders and
semantic-version ranges are parameters.

| module | part of the system |
|---|---|
| `UpdateLease` | the lease protocol of the update checker: any number of instances, one database row, crashes, expiries, toggles, and the mails sent under the lease |
| `UpdateFeed` | verification of the signed feed, and the incremental fetch against the full one |
| `UpdateCatalog` | comparison of the installed version with the catalogue, severities, the response |
| `PttHelper`, `PttBinding` | pairing, sessions, trust and target of the local helper; the binding of its input service under overlapping handlers |
| `PttInput` | the press and release machine: input thread, fallback threads, one atomic flag |
| `AudioChunks`, `AudioSplitting` | the chunk planner and the work list that splits oversized parts; when the list ends, raises or runs for ever |
| `Base32` | the codec of the authenticator secret |
| `RateLimit` | the fixed-window limiter over the memory store, and the Redis store against it |
| `NotificationDispatcher`, `Runtime`, `Teardown` | notification queue, runtime of background work, ordered shutdown of everything |
| `ReminderRepair` | the four-statement repair of reminders under a partial unique index |
| `SearchIndex` | upkeep of the meeting search documents against the full rebuild |
| `RecordingRetention` | expiry and budget eviction of recordings |
| `Presence` | connection maps and grace timers |
| `Options`, `Text` | shared datatypes and trimming |

## What turned out not to hold

Each of these comes with the condition under which it does hold and with an input or a run where it does not.

- A full refetch does not follow from a successful incremental one: reuse does not look at the publication
  date and needs no server (`UpdateFeed.FullFetchCondition`, `UnservedFetchFails`).
- Splitting audio need not stop: halves overlap by two seconds, so an oversized part of two to four seconds
  is its own second half, and the list runs for ever when its first half fits. With other encoders it raises
  the error instead (`AudioSplitting.SplittingOutcome`, `ShortFitsLoops`, `NothingFitsRaises`).
- A Base32 text is not always restored by decoding and encoding (`Base32.EncodeInvertsDecode`,
  `OneSymbolIsLost`).
- A refused hello of the signed-in target leaves its binding with the input service until the next
  recomputation (`PttHelper.HandlersRightIff`, `PttBinding.RefusedHelloStrands`).
- Helper handlers that overlap can leave the service with a stale binding while paused, and later handlers
  do not mend it (`PttBinding.ServedRightIff`, `RightIff`, `MismatchPersists`, `BindingMayGoStale`).
- The receiver of push-to-talk events can hear an Up before the Down it ends, as soon as one of each is
  outstanding (`PttInput.OrderAssuredIff`, `ReleaseMayOvertakePress`).
- A call made within the scope of tracked work that is already over can be admitted after the drain loop
  has ended and still be in flight when the runtime is stopped, and nothing else can
  (`Runtime.OutlivesExactly`, `DetachedWorkOutlivesStop`).
- A user can be announced offline while connected again: exactly after a login that is not undone
  (`Presence.AnnouncementWrongIff`, `AnnouncementMayCrossLogin`). A connection that logs in as a second user
  holds the first one online (`Presence.LoginKeepsMapsIff`, `SecondLoginHoldsOnline`, `HeldOnlineStays`).

## Assumptions

- Lease tokens are fresh. The document digest is injective where a lemma says so; signature verification,
  document validity and range satisfaction are arbitrary predicates.
- Instances of the update checker may differ in version and keyring; digest, document format and version
  ranges are the same for all.
- "Timely" runs in `UpdateLease` have no toggles, one installed version, each worker sends and records a
  user's mail before the lease it renewed for that user expires, and no crash separates a successful mail
  from its record. The row was not stamped by a newer version before.
- A database statement or transaction is one step that either happens or throws without effect.
- A tracked promise leaves the pending set before anybody waiting for it goes on. A cleared timer never
  fires.
- Postgres checks a unique index at every row an update writes, and a statement reads the table as it was
  when the statement began.
- Identifiers whose order matters (reminders, meetings) are integers in that order.

## Model

| member | source | states |
|---|---|---|
| UpdateLease.StartCheck | backend/src/lib/platform-updates.js:203-218 | asking for the lease does to the row what the first step of a check does, and answers whether a check has started |
| UpdateLease.RunStatement | backend/src/lib/platform-updates.js:301-376 | every row statement of a check does to the row what the step does, and the check goes on by its answer as in the step |
| UpdateLease.SwitchChecks | backend/src/lib/platform-updates.js:508-521 | and so does the owner's switch |
| UpdateLease.PerformKeeps | backend/src/lib/platform-updates.js:203-376 | each single statement of a check changes the row only under its own token, keeps the row consistent and never lowers the stored sequence |
| UpdateLease.StepKeepsInv | backend/src/lib/platform-updates.js:445-482 | every step of every interleaving (time, toggles, acquisitions, statements, crashes, database errors) keeps the protocol invariant |
| UpdateLease.RunKeepsInv | backend/src/lib/platform-updates.js:203-376 | over every run of any number of workers, each with a version and a keyring of its own: the sequence never decreases, it is the cached catalogue's own, and while checks are disabled the token is null |
| UpdateLease.InitialWorldOk | backend/migrations/062_platform_updates.js:2-22 | the freshly created row satisfies the invariant, whatever deliveries exist |
| UpdateLease.StrangerChangesNothing | backend/src/lib/platform-updates.js:319-376 | a worker whose token has left the row never changes the row |
| UpdateLease.LostTokenStaysLost | backend/src/lib/platform-updates.js:203-218 | a token that has left the row is never in it again |
| UpdateLease.DisabledRowIsFrozen | backend/src/lib/platform-updates.js:508-521 | while checks are disabled no step but the toggle changes the row |
| UpdateLease.ReachableFetchEqualsFull | backend/src/lib/platform-updates.js:220-275 | in every reachable state the incremental fetch of a check equals the full refetch whenever that succeeds |
| UpdateLease.CheckStartsIff | backend/src/lib/platform-updates.js:203-218 | a check starts exactly when checks are enabled, the lease is free or has run out, and a check is due or forced |
| UpdateLease.StepAccount | backend/src/lib/platform-updates.js:203-435 | one step touches its own check alone; the clock goes on by ticks, tokens are used up, and the mails that count are those of a successful send |
| UpdateLease.OthersWait | backend/src/lib/platform-updates.js:203-376 | while the lease of a check is alive nobody else's step changes the row, apart from the toggle |
| UpdateLease.NoCheckBeforeItsTime | backend/src/lib/platform-updates.js:203-218 | over every run: until the recorded time of the next check nobody takes the lease unforced |
| UpdateLease.BackoffDoubles | backend/src/lib/platform-updates.js:360-363 | the wait after failures starts with an hour and doubles up to six hours |
| UpdateLease.SuccessIsRecorded | backend/src/lib/platform-updates.js:319-340 | what the holder of the lease records of a successful check |
| UpdateLease.FailureIsRecorded | backend/src/lib/platform-updates.js:360-376 | a failed check keeps what was cached, counts and waits, and keeps the lease exactly when there is a catalogue to mail about |
| UpdateLease.EndedCheckHasNoLease | backend/src/lib/platform-updates.js:455-482 | a check that ends by itself leaves no lease behind |
| UpdateLease.ToggleDecides | backend/src/lib/platform-updates.js:508-521 | switching on makes a check due for anybody, switching off stops all, forced or not |
| UpdateLease.ReleaseFreesTheRow | backend/src/lib/platform-updates.js:342-347 | a check that releases its lease leaves the row free for the next one |
| UpdateLease.FetchTrustsOwnKeys | backend/src/lib/platform-updates.js:220-268 | what a check takes from an index reply is signed with a key of its own keyring and not behind what it has read |
| UpdateLease.DowngradeForgets | backend/src/lib/platform-updates.js:301-317 | a check stamps its version; when the stamp was that of a newer one the deliveries of all users are forgotten |
| UpdateLease.OneMailer | backend/src/lib/platform-updates.js:349-358 | two workers inside an unexpired delivery lease are the same worker |
| UpdateLease.PendingIsUnmailed | backend/src/lib/platform-updates.js:391-399 | a release about to be mailed to an administrator has not been mailed to them before |
| UpdateLease.PerformDeliveries | backend/src/lib/platform-updates.js:408-433 | no statement turns a sent delivery row back, and what other mailing workers know of the rows stays true |
| UpdateLease.TimelyStepKeeps | backend/src/lib/platform-updates.js:378-435 | every timely step keeps each mail accounted for: recorded as sent, or about to be by its own worker |
| UpdateLease.SentIsNotMailed | backend/src/lib/platform-updates.js:393-399 | a timely step mails nothing that is recorded as sent |
| UpdateLease.AtMostOneMail | backend/src/lib/platform-updates.js:378-435 | over every timely run: at most one successful mail per administrator, installed version, release version and revision, none for one recorded as sent at the start, and sent never becomes failed |
| UpdateLease.OutstandingSecurityIs | backend/src/lib/platform-updates.js:381-386 | the mail is about exactly the releases newer than a listed stable build that carry an applicable advisory, in catalogue order |
| UpdateLease.OnlyNeededIsMailed | backend/src/lib/platform-updates.js:378-435 | over every run, timely or not: nobody is mailed about anything but such releases of a genuine catalogue |
| UpdateLease.UserIsServed | backend/src/lib/platform-updates.js:392-433 | over every timely run from a row without checks under way: when a check leaves an administrator, every such release has its row for that administrator, recorded as sent if the mail succeeded |
| UpdateLease.MailPhaseBegins | backend/src/lib/platform-updates.js:378-386 | mailing begins exactly when checks are enabled, the lease is still held and some release needs a mail |
| UpdateLease.MailPhaseServesAll | backend/src/lib/platform-updates.js:378-435 | a check left alone while it holds the lease goes on, by the steps of its mail phase and with every mail going out, until every administrator has a sent row for every release that needs a mail |
| UpdateLease.AttemptsAreCounted | backend/src/lib/platform-updates.js:410-432 | over every timely run a delivery row counts the mails recorded for it |
| UpdateLease.InitialMailInv | backend/src/lib/platform-updates.js:301-317 | the account holds initially for any row without a lease that no newer version has stamped |
| UpdateFeed.ParseAndVerifyFeedEnvelope | backend/src/lib/platform-update-catalog.js:78-113 | the loop reports the first fault in check order, and answers with a payload exactly when the envelope carries it under a valid signature of a known key and its schema, date, sequence and index are good |
| UpdateFeed.AcceptedExactly | backend/src/lib/platform-update-catalog.js:78-113 | accepted are exactly the payloads that are signed with a known key and good: schema, date, sequence not behind the stored one, a well-formed ascending index within the limit |
| UpdateFeed.IndexAcceptedExactly | backend/src/lib/platform-update-catalog.js:101-111 | the loop over neighbours accepts an index exactly when every entry is well formed and the versions ascend strictly throughout |
| UpdateFeed.RefusedBecause | backend/src/lib/platform-update-catalog.js:79-97 | unknown key, bad signature and rolled-back sequence are reported exactly when they are the first thing wrong, whatever the index says |
| UpdateFeed.AcceptedIndexAscends | backend/src/lib/platform-update-catalog.js:101-111 | an accepted index is strictly ascending throughout although only neighbours are compared |
| UpdateFeed.CheckedFeed | backend/src/lib/platform-update-catalog.js:96-99 | an accepted payload has an index and its sequence is not below the stored one |
| UpdateFeed.RunFetchCatalog | backend/src/lib/platform-updates.js:220-275 | the fetch loop reuses cached documents by version, digest and revision, stops at the first failure, and otherwise returns all releases in index order; whatever it takes from an index reply was announced by a signed and good payload |
| UpdateFeed.IndexReplyExactly | backend/src/lib/platform-updates.js:220-268 | an index reply is taken exactly when its payload is signed and good and every release can be had; sequence, date and etag are then those of the payload and the reply |
| UpdateFeed.CachedByVersion | backend/src/lib/platform-updates.js:244-248 | the cache map holds cached releases only, under their own versions |
| UpdateFeed.FetchedReleases | backend/src/lib/platform-updates.js:245-261 | a successful fetch gives one genuine release per index entry, of that entry's version, revision and digest |
| UpdateFeed.FetchKeepsCatalog | backend/src/lib/platform-updates.js:262-266 | every successful fetch gives an ascending catalogue of genuine digests that carries its own sequence, not below the stored one |
| UpdateFeed.ReusedReleaseIsFetched | backend/src/lib/platform-updates.js:249-260 | fetching a reusable entry succeeds exactly when the server still has the bytes and the index still has its publication date, and then gives the cached release |
| UpdateFeed.IncrementalEqualsFull | backend/src/lib/platform-updates.js:244-261 | whenever the full refetch of an index succeeds the incremental fetch gives exactly the same |
| UpdateFeed.FullFetchCondition | backend/src/lib/platform-updates.js:244-261 | conversely, when the incremental fetch succeeds the full one gives the same if and only if every reused entry is still served with its publication date |
| UpdateFeed.UnservedFetchFails | backend/src/lib/platform-updates.js:247-257 | for any valid document and a server that does not answer: the incremental fetch succeeds from a genuine cache and the full one fails |
| UpdateFeed.UnchangedNeedsNoServer | backend/src/lib/platform-updates.js:244-252 | an index that lists the releases of a cached catalogue as they are is fetched from the cache alone, whatever the server does |
| UpdateFeed.OtherReplies | backend/src/lib/platform-updates.js:220-238 | an unmodified feed leaves catalogue, etag and sequence as cached; without cache or keyring the fetch fails |
| UpdateFeed.IncrementalCatalogEqualsFull | backend/src/lib/platform-updates.js:220-275 | the same for whole catalogues over any genuine cache |
| UpdateCatalog.HighestSecuritySeverity | backend/src/lib/platform-update-catalog.js:136-147 | the nested loop returns the highest severity among all applicable advisories, none when there are none, and the one that the comparison reports |
| UpdateCatalog.ReduceSeverityIsHighest | backend/src/lib/platform-updates.js:115-120 | the per-release reduction returns the highest severity of that release |
| UpdateCatalog.AllApplicableMembers | backend/src/lib/platform-update-catalog.js:132-140 | the advisories looked at are exactly the applicable ones of the releases |
| UpdateCatalog.OutstandingIsSuffix | backend/src/lib/platform-update-catalog.js:164-164 | on an ascending catalogue the filter by two version comparisons is the suffix after the installed version |
| UpdateCatalog.ListedBuildReleases | backend/src/lib/platform-update-catalog.js:149-175 | for a listed stable build: outstanding releases are exactly the suffix after it, the latest version is the maximum, up to date exactly at the end |
| UpdateCatalog.ListedBuildStatus | backend/src/lib/platform-update-catalog.js:164-174 | the status is security_update_available exactly when an advisory of an outstanding release applies |
| UpdateCatalog.UnlistedBuildComparison | backend/src/lib/platform-update-catalog.js:149-163 | an unlisted build gets no releases; each of the four other statuses is characterised |
| UpdateCatalog.ResponseIsConsistent | backend/src/lib/platform-updates.js:109-147 | the overall severity of the response is the maximum of the severities of its releases, and the status agrees with the count of security releases |
| UpdateCatalog.SecurityCountIs | backend/src/lib/platform-updates.js:126-147 | the security count is the number of releases with an applicable advisory |
| UpdateCatalog.OverallHighest | backend/src/lib/platform-update-catalog.js:136-147 | the highest severity over all releases is the highest of the releases' own |
| PttHelper.HelperRuntime.RegisterConnection | desktop-ptt-helper/src-tauri/src/main.rs:812-840 | a new connection has an unauthorised session and a fresh id |
| PttHelper.HelperRuntime.RemoveDuplicateSessions | desktop-ptt-helper/src-tauri/src/main.rs:620-651 | exactly the other connections of the same origin and browser session go, with their requests and a target among them |
| PttHelper.HelperRuntime.Hello | desktop-ptt-helper/src-tauri/src/main.rs:860-1019 | the whole block: duplicates out, token compared with that of the socket's origin, session signed in or one pairing request left |
| PttHelper.HelperRuntime.ReportState | desktop-ptt-helper/src-tauri/src/main.rs:1021-1064 | only an authorised session changes, in its focus, visibility and foreground time |
| PttHelper.HelperRuntime.Configure | desktop-ptt-helper/src-tauri/src/main.rs:1071-1104 | only an authorised session changes its configuration |
| PttHelper.HelperRuntime.SetPaused | desktop-ptt-helper/src-tauri/src/main.rs:1500-1514 | only the pause flag changes |
| PttHelper.HelperRuntime.Cleanup | desktop-ptt-helper/src-tauri/src/main.rs:842-858 | the session and its requests go |
| PttHelper.HelperRuntime.TrustOrigin | desktop-ptt-helper/src-tauri/src/main.rs:1137-1153 | the loop replaces the record of the origin, or adds one |
| PttHelper.HelperRuntime.Approve | desktop-ptt-helper/src-tauri/src/main.rs:1124-1161 | the request goes, its origin is trusted and its session authorised; unknown requests and missing sessions are reported |
| PttHelper.HelperRuntime.Reject | desktop-ptt-helper/src-tauri/src/main.rs:1206-1223 | exactly the named request goes |
| PttHelper.HelperRuntime.RevokeOrigin | desktop-ptt-helper/src-tauri/src/main.rs:653-675 | trust, requests and authorisations of the origin go, and nothing else |
| PttHelper.HelperRuntime.ChooseTargetConnection | desktop-ptt-helper/src-tauri/src/main.rs:538-554 | sorting and searching yields a latest-foreground focused authorised session, else a latest-foreground authorised one, else none |
| PttHelper.HelperRuntime.RecomputeTargetAndBinding | desktop-ptt-helper/src-tauri/src/main.rs:738-810 | new target, effective binding applied only when it differs from the active one |
| PttHelper.KnownTokenIsTrusted | desktop-ptt-helper/src-tauri/src/main.rs:418-434 | a token can only match for a trusted origin |
| PttHelper.HelloKeepsInv | desktop-ptt-helper/src-tauri/src/main.rs:860-1019 | a hello keeps the session and pairing invariants |
| PttHelper.ApproveKeepsInv | desktop-ptt-helper/src-tauri/src/main.rs:1124-1161 | an approval keeps them and never finds its session missing |
| PttHelper.RejectKeepsInv | desktop-ptt-helper/src-tauri/src/main.rs:1206-1223 | a rejection keeps them |
| PttHelper.RevokeKeepsInv | desktop-ptt-helper/src-tauri/src/main.rs:653-675 | a revocation keeps them |
| PttHelper.DisconnectKeepsInv | desktop-ptt-helper/src-tauri/src/main.rs:842-858 | a disconnect keeps them |
| PttHelper.StepKeepsInv | desktop-ptt-helper/src-tauri/src/main.rs:812-1260 | every lock-protected block keeps: authorised sessions have trusted origins; requests have unique ids, belong to live unauthorised sessions of their origin, one per connection |
| PttHelper.RunKeepsInv | desktop-ptt-helper/src-tauri/src/main.rs:812-1260 | the same over every sequence of blocks |
| PttHelper.ApprovalFindsItsSession | desktop-ptt-helper/src-tauri/src/main.rs:1124-1161 | after any run an approval pairs exactly when the request is listed |
| PttHelper.EventsReachTrustedSessions | desktop-ptt-helper/src-tauri/src/main.rs:677-686 | after any run a push-to-talk event reaches only an authorised session of a trusted origin, and nobody while paused |
| PttHelper.HelloOutcome | desktop-ptt-helper/src-tauri/src/main.rs:877-957 | a hello signs in exactly with the token of its socket's origin; then exactly the other sessions of its window go, with their requests and a target among them, otherwise nobody goes and one request waits |
| PttHelper.NewConnection | desktop-ptt-helper/src-tauri/src/main.rs:812-840 | a new connection gets a session under an id nobody had, which may do nothing yet; all else stays |
| PttHelper.ClosedConnection | desktop-ptt-helper/src-tauri/src/main.rs:842-858 | a closed connection is gone with its session and requests, and nothing else is |
| PttHelper.ApprovalOutcome | desktop-ptt-helper/src-tauri/src/main.rs:1124-1161 | approving a listed request signs in its session alone, makes the new token the one of its origin, and takes away just that request |
| PttHelper.RejectionOutcome | desktop-ptt-helper/src-tauri/src/main.rs:1206-1223 | rejecting a listed request takes away just that one |
| PttHelper.RevocationOutcome | desktop-ptt-helper/src-tauri/src/main.rs:653-675 | a revocation takes trust, requests and signed-in sessions from the one origin and nothing from others |
| PttHelper.ApprovedTokenWorks | desktop-ptt-helper/src-tauri/src/main.rs:1135-1153 | an approval makes its new token the valid one for its origin and no other token changes |
| PttHelper.RevocationLasts | desktop-ptt-helper/src-tauri/src/main.rs:653-675 | after a revocation and any further run that approves no request of the origin, no session opened from there is authorised and no token signs one in |
| PttHelper.ChosenIsBest | desktop-ptt-helper/src-tauri/src/main.rs:538-583 | after a recomputation the target is the best one |
| PttHelper.HandlerKeeps | desktop-ptt-helper/src-tauri/src/main.rs:738-810 | one handler at a time keeps the input service at the effective binding |
| PttHelper.HandlersKeepBinding | desktop-ptt-helper/src-tauri/src/main.rs:738-810 | over any run of handlers: after every recomputation target and binding are right although unchanged bindings are skipped |
| PttHelper.QuietHandlerBinding | desktop-ptt-helper/src-tauri/src/main.rs:860-1064 | a handler that does not recompute leaves service and effective binding alone, but for a refused hello of the signed-in target |
| PttHelper.HandlersRightIff | desktop-ptt-helper/src-tauri/src/main.rs:738-1019 | after every handler of a serial run the service has the effective binding if and only if no refused hello of the signed-in target has come since the last recomputation |
| PttHelper.SessionAfterBlock | desktop-ptt-helper/src-tauri/src/main.rs:1047-1053 | of a signed-in session, only its own report changes focus, visibility and foreground time, to what was reported; only a hello or an approval signs one in |
| PttHelper.HeardIsStored | desktop-ptt-helper/src-tauri/src/main.rs:1021-1064 | over every run of blocks: what is stored of a signed-in window is what it said last since its sign-in |
| PttHelper.AskedForIsStored | desktop-ptt-helper/src-tauri/src/main.rs:1071-1104 | over every run of blocks: the configuration of a session is what it asked for last while signed in |
| PttHelper.TargetIsWhatWindowsSaid | desktop-ptt-helper/src-tauri/src/main.rs:538-810 | over every run of handlers: after a recomputation the target is, of the windows that said they are focused, if any, the one that said so last; the service has the binding that window asked for, and events go to it |
| PttBinding.RefusedHelloStrands | desktop-ptt-helper/src-tauri/src/main.rs:914-1000 | a concrete serial run: a session binds a key and is refused at its next hello, and the service keeps the binding |
| PttBinding.TraceKeepsInv | desktop-ptt-helper/src-tauri/src/main.rs:738-810 | the session and pairing invariants hold however recomputations of several handlers overlap |
| PttBinding.ServingWasRead | desktop-ptt-helper/src-tauri/src/main.rs:758-774 | what a handler gives to the service it has read as effective in an earlier state of the run |
| PttBinding.ServedRightIff | desktop-ptt-helper/src-tauri/src/main.rs:758-774 | after the service block of a handler the service is right if and only if the binding it read, when that differed from the active one, is still effective, and otherwise the service was right before |
| PttBinding.ServiceIsLastServed | desktop-ptt-helper/src-tauri/src/main.rs:768-793 | over every run service and active binding are what was last served and last stored |
| PttBinding.RightIff | desktop-ptt-helper/src-tauri/src/main.rs:738-810 | at any point of any run: the service is right if and only if what it was last given is effective; and a recomputation running alone sets it right if and only if the binding changed against the one last stored or that one was last served |
| PttBinding.MismatchPersists | desktop-ptt-helper/src-tauri/src/main.rs:764-774 | once service and active binding differ, handlers running alone never mend it while the active one stays effective |
| PttBinding.BoundKeyIs | desktop-ptt-helper/src-tauri/src/main.rs:556-618 | the default binding leaves the input service without a key; the binding of a target has one exactly when the key its session names is known |
| PttBinding.BindingMayGoStale | desktop-ptt-helper/src-tauri/src/main.rs:738-810 | a concrete run from the start in which all handlers finish, the helper is paused, and the service has the push-to-talk binding, which no recomputation mends |
| PttInput.InputState.ResolveRawKeyboardAction | desktop-ptt-helper/src-tauri/src/windows_ptt.rs:632-651 | Down only on a change to pressed, Up only on a change to released, nothing for other keys |
| PttInput.InputState.ReleaseIfPressed | desktop-ptt-helper/src-tauri/src/windows_ptt.rs:676-682 | one fallback at most wins the release of a press |
| PttInput.InputState.ApplyBindingCommand | desktop-ptt-helper/src-tauri/src/windows_ptt.rs:518-555 | the binding is what the request names or none, and the flag is cleared |
| PttInput.InputState.ClearActiveBinding | desktop-ptt-helper/src-tauri/src/windows_ptt.rs:557-564 | no binding, flag cleared |
| PttInput.FlagAlternates | desktop-ptt-helper/src-tauri/src/windows_ptt.rs:632-685 | in every interleaving each release or drop directly follows its own press |
| PttInput.PressesAreAccountedFor | desktop-ptt-helper/src-tauri/src/windows_ptt.rs:632-685 | over every run: presses equal releases plus presses dropped by rebinding plus one while held; without drops they strictly alternate |
| PttInput.NoDropWithoutRebinding | desktop-ptt-helper/src-tauri/src/windows_ptt.rs:545-555 | drops come from rebinding only |
| PttInput.CallbacksMatchFlag | desktop-ptt-helper/src-tauri/src/windows_ptt.rs:566-597 | callbacks made and still to be made match the flag's history in every interleaving |
| PttInput.SettledDeliveries | desktop-ptt-helper/src-tauri/src/windows_ptt.rs:566-597 | with no callback outstanding the receiver's Downs are Ups plus drops plus one while held |
| PttInput.StillToHear | desktop-ptt-helper/src-tauri/src/windows_ptt.rs:566-597 | what the receiver has not heard of the history are exactly the outstanding callbacks |
| PttInput.StepHeardInOrder | desktop-ptt-helper/src-tauri/src/windows_ptt.rs:588-597 | while no Down is outstanding together with an Up every step of every thread is heard in order |
| PttInput.SomeStepBreaksOrder | desktop-ptt-helper/src-tauri/src/windows_ptt.rs:588-597 | with both outstanding some thread can go on so that the receiver hears the wrong one first |
| PttInput.OrderAssuredIff | desktop-ptt-helper/src-tauri/src/windows_ptt.rs:566-685 | over every run the receiver is assured of the order of the history if and only if no Down is ever outstanding together with an Up |
| PttInput.SettledHistory | desktop-ptt-helper/src-tauri/src/windows_ptt.rs:566-597 | then, with nothing outstanding, the receiver has heard exactly the history |
| PttInput.ReleaseMayOvertakePress | desktop-ptt-helper/src-tauri/src/windows_ptt.rs:653-685 | a concrete run in which the receiver hears Down, Up, Up, Down |
| PttInput.MatchersTellKeys | desktop-ptt-helper/src-tauri/src/windows_ptt.rs:722-733 | a matcher takes the events of its own key; two of one sort that take one event are the same |
| PttInput.ModifiersHaveReleaseKeys | desktop-ptt-helper/src-tauri/src/windows_ptt.rs:687-716 | of the scan codes just the six of shift, control and alt can be polled for their release |
| PttInput.BindsWhatIsAskedFor | desktop-ptt-helper/src-tauri/src/windows_ptt.rs:518-564 | a request binds a key exactly when it is for push-to-talk and names a known key, whatever white space surrounds either |
| PttInput.WhoCanGoOn | desktop-ptt-helper/src-tauri/src/windows_ptt.rs:566-685 | which thread can take its next step, exactly |
| PttInput.FallbackEnds | desktop-ptt-helper/src-tauri/src/windows_ptt.rs:662-684 | in every interleaving a fallback thread ends: it takes at most 6003 steps |
| PttInput.ReleaseNeedsKeyUp | desktop-ptt-helper/src-tauri/src/windows_ptt.rs:668-682 | in every interleaving a fallback thread releases the key only after it has found it physically up |
| PttInput.FallbackPerPress | desktop-ptt-helper/src-tauri/src/windows_ptt.rs:592-597 | in every interleaving each press of a key that can be polled gets one fallback thread, other keys get none |
| AudioChunks.CollectSpeech | backend/src/lib/streamed-meeting-audio.js:176-184 | the first loop collects the gaps between silences that are long enough, or the whole recording |
| AudioChunks.PlanBoundedSpeechChunks | backend/src/lib/streamed-meeting-audio.js:171-197 | the planner terminates for any maximum above a nonnegative overlap and yields the specified windows |
| AudioChunks.WindowsTile | backend/src/lib/streamed-meeting-audio.js:186-195 | chunks of a speech interval are inside it, at most the maximum, all but the last exactly so, and overlap by exactly the overlap |
| AudioChunks.WindowsCover | backend/src/lib/streamed-meeting-audio.js:186-195 | they cover it up to its last millisecond |
| AudioChunks.GapsCover | backend/src/lib/streamed-meeting-audio.js:176-183 | every instant is in a gap or in a silence, also for unordered and overlapping silences |
| AudioChunks.PlanCovers | backend/src/lib/streamed-meeting-audio.js:171-197 | every instant is in a chunk, a silence, a dropped gap shorter than the minimum, or the last millisecond of a speech interval |
| AudioChunks.PlanAvoidsSilences | backend/src/lib/streamed-meeting-audio.js:171-197 | for silences in the order of their starts: no chunk reaches into one, unless no gap is long enough; then the whole recording is cut up |
| AudioChunks.GapsAvoidSilences | backend/src/lib/streamed-meeting-audio.js:176-184 | no gap reaches into a silence, for silences in the order of their starts |
| AudioChunks.PlanIsStepwise | backend/src/lib/streamed-meeting-audio.js:171-197 | chunks are within the recording, at most the maximum, and advance by steps that never leave a chunk by more than the overlap |
| AudioChunks.HalvesShrink | backend/src/lib/streamed-meeting-audio.js:254-264 | above the bound both halves are shorter by a fixed amount, which is what ends the work list |
| AudioChunks.IterateBoundedAudioChunks | backend/src/lib/streamed-meeting-audio.js:247-278 | the work list ends; chunks are the pieces in order with consecutive indices, their starts and lengths to the nearest millisecond; the error is raised exactly when some part is hopeless |
| AudioChunks.PiecesOfPart | backend/src/lib/streamed-meeting-audio.js:247-278 | the pieces of a part fit, cover it from start to end and never step back |
| AudioChunks.SplitCovers | backend/src/lib/streamed-meeting-audio.js:247-278 | without a hopeless part every instant of every input part is in an emitted chunk |
| AudioChunks.SplitFitsAndAdvances | backend/src/lib/streamed-meeting-audio.js:247-278 | emitted chunks fit the limit and their starts never step back for planned parts |
| AudioChunks.OffsetsAdvance | backend/src/lib/streamed-meeting-audio.js:247-278 | planner and splitter together: millisecond offsets are nondecreasing |
| AudioChunks.ShortOversizedNeverSplits | backend/src/lib/streamed-meeting-audio.js:254-264 | an oversized part of two to four seconds is its own second half and so is never split up without an error |
| AudioChunks.FittingBoundSplits | backend/src/lib/streamed-meeting-audio.js:247-278 | under a fitting bound above four seconds every part that is not hopeless is split up without an error |
| AudioChunks.AlwaysOversizedNeverSplits | backend/src/lib/streamed-meeting-audio.js:254-264 | when all parts above four seconds are oversized none of them is split up without an error |
| AudioChunks.SplitsUpIff | backend/src/lib/streamed-meeting-audio.js:247-264 | for an encoder that grows with length: a part of at least two seconds is split up without an error if and only if it fits as it is or some length above four seconds fits |
| AudioChunks.AllSplitUpIff | backend/src/lib/audio-chunking.js:6-8 | and all such parts are if and only if some length above four seconds fits |
| AudioSplitting.FittingOutcome | backend/src/lib/streamed-meeting-audio.js:247-278 | under a fitting bound above four seconds the work list always stops: without an error if and only if no part is hopeless, by raising it if and only if one is |
| AudioSplitting.TrappedTurn | backend/src/lib/streamed-meeting-audio.js:250-264 | a turn keeps a trap on the work list: an oversized part whose halves fit in the end |
| AudioSplitting.ListOutcome | backend/src/lib/streamed-meeting-audio.js:247-278 | for every list of parts and every encoder that grows with length: ending without an error, raising it and running for ever are told apart exactly; the first part that is not split up decides |
| AudioSplitting.SplittingOutcome | backend/src/lib/streamed-meeting-audio.js:250-264 | for one part: it runs for ever if and only if it is oversized, no length above four seconds fits and its halves fit once below two; it raises the error if and only if even those do not fit |
| AudioSplitting.NothingFitsRaises | backend/src/lib/streamed-meeting-audio.js:254-258 | when nothing fits every part ends with the error |
| AudioSplitting.ShortFitsLoops | backend/src/lib/streamed-meeting-audio.js:254-264 | when just the parts up to two seconds fit, exactly the longer ones run for ever |
| Base32.Encode | backend/src/lib/two-factor.js:41-60 | the text is the unpadded Base32 form of the bytes (section 6 of RFC 4648) in spite of the 32-bit wrap-around |
| Base32.Decode | backend/src/lib/two-factor.js:62-81 | the bytes are the whole bytes of the bit string of the normalised text |
| Base32.EncodingIsUnique | backend/src/lib/two-factor.js:41-60 | no two texts are the form of the same bytes |
| Base32.DecodeInvertsEncode | backend/src/lib/two-factor.js:41-81 | decoding an encoding gives the bytes back, for every byte sequence |
| Base32.EncodeInvertsDecode | backend/src/lib/two-factor.js:41-81 | encoding a decoded text gives it back if and only if fewer than five bits were dropped and they are zero |
| Base32.DecodeInvertsEncodeInAnyCase | backend/src/lib/two-factor.js:61-81 | a secret typed in any mixture of upper and lower case decodes to its bytes |
| Base32.OneSymbolIsLost | backend/src/lib/two-factor.js:41-81 | a one-symbol text decodes to nothing, nothing encodes to the empty text, and no bytes encode to a one-symbol text |
| Base32.ManualEntryKeepsSecret | backend/src/lib/two-factor.js:25-29 | grouping into blocks of four and normalising keeps the normalised secret |
| Base32.ManualEntryRoundTrip | backend/src/lib/two-factor.js:103-105 | the displayed manual entry key decodes to the generated secret |
| Base32.ShiftInBits | backend/src/lib/two-factor.js:47-49 | shifting into the wrapping accumulator appends the bits |
| RateLimit.MemoryRateLimitStore.Increment | backend/src/lib/rate-limit.js:54-70 | an expired or missing entry restarts at one, a live one is counted up with its expiry |
| RateLimit.MemoryRateLimitStore.Reset | backend/src/lib/rate-limit.js:72-74 | only the key goes |
| RateLimit.MemoryRateLimitStore.Consume | backend/src/lib/rate-limit.js:120-136 | the verdict of the limiter on the counted entry |
| RateLimit.AccountHolds | backend/src/lib/rate-limit.js:48-70 | where the allowed requests of any interval come from: the open window and at most one before it |
| RateLimit.AllowedPerInterval | backend/src/lib/rate-limit.js:48-70 | any half-open interval of one window length has at most 2*limit-1 allowed requests of a key, one fewer than twice the limit, and none for limit 0 |
| RateLimit.BoundIsReached | backend/src/lib/rate-limit.js:48-70 | the bound is attained for every limit of at least 1 and every window of at least 2 ms |
| RateLimit.AllowedPerWindow | backend/src/lib/rate-limit.js:120-136 | each window allows exactly its requests up to the limit |
| RateLimit.RemainingIsExact | backend/src/lib/rate-limit.js:122-135 | the remaining count is exact: a later request of the window is allowed if and only if fewer others came before it |
| RateLimit.OtherKeysKeep | backend/src/lib/rate-limit.js:54-70 | requests of other keys leave a key's entry alone |
| RateLimit.RetryIsAllowed | backend/src/lib/rate-limit.js:120-136 | a denied key left idle for the announced seconds is allowed next when the limit is at least 1 |
| RateLimit.VerdictIs | backend/src/lib/rate-limit.js:120-136 | the verdict is the count against the limit, exactly what is left, and the least whole seconds, at least one, after which the window is over |
| RateLimit.RedisKeyInjective | backend/src/lib/rate-limit.js:85-87 | the prefix keeps keys apart |
| RateLimit.RedisRateLimitStore.Increment | backend/src/lib/rate-limit.js:89-107 | the three commands of an increment, at one instant |
| RateLimit.IncrementsAgree | backend/src/lib/rate-limit.js:89-107 | one increment gives on Redis what it gives in memory and keeps the two alike |
| RateLimit.StoresAgree | backend/src/lib/rate-limit.js:79-107 | over every run in clock order with atomic increments both stores answer alike |
| NotificationDispatcher.RunKeepsInv | backend/src/lib/notification-side-effects.js:121-168 | over every run of blocks: a nonempty queue is scheduled or draining, and enqueued = handled + in hand + queued, in order |
| NotificationDispatcher.StopWaitsForEverything | backend/src/lib/notification-side-effects.js:121-168 | after any run, a stop and any further run: once the awaited drain is over the handled batches are exactly the enqueued ones, in order |
| NotificationDispatcher.DrainFinishes | backend/src/lib/notification-side-effects.js:121-153 | from every reachable state the drain, by its own steps only, reaches its end with everything handled |
| NotificationDispatcher.AwaitedDrainIsOver | backend/src/lib/notification-side-effects.js:121-168 | what the caller of stop waits for is over exactly when the drain of that moment has come to its end since |
| NotificationDispatcher.OneCallbackPerWakeup | backend/src/lib/notification-side-effects.js:121-168 | over every run a callback is scheduled for exactly the batches that come while none is scheduled and no drain goes on, and runs once for each |
| Runtime.Controller.Start | backend/src/lib/runtime.js:59-64 | arms one timer per task, once; throws after a stop |
| Runtime.HoldsOfAllScheduled | backend/src/lib/runtime.js:59-64 | starting arms exactly one timer per task |
| Runtime.StepKeepsInv | backend/src/lib/runtime.js:13-74 | every block keeps: each task is armed, running or settled at most once; no timer after the stop; past the drain loop only late work is pending |
| Runtime.NoOverlap | backend/src/lib/runtime.js:26-37 | no task ever runs beside itself or beside its armed timer |
| Runtime.FiredRunsTask | backend/src/lib/runtime.js:26-37 | a timer that fires before the stop puts work of its task in flight under its name |
| Runtime.FollowUpArmsTask | backend/src/lib/runtime.js:32-34 | the follow-up of a run before the stop arms its task again |
| Runtime.NamedTasksRepeat | backend/src/lib/runtime.js:26-64 | over every run: the tasks are those named before start, readiness and stop, and from the start until the stop each of them is armed, running or about to be armed again, and just one of these |
| Runtime.AdmissionByHistory | backend/src/lib/runtime.js:13-24 | over every run: after the stop nobody is let in, once it was asked for only in-scope calls, and outside calls of external origin only after readiness |
| Runtime.LateIffNotQuiet | backend/src/lib/runtime.js:13-49 | work is admitted past the drain loop if and only if an in-scope call falls between its end and the final state |
| Runtime.AttachedIsQuiet | backend/src/lib/runtime.js:13-49 | when in-scope calls come only from work in flight no call falls there |
| Runtime.StopFinishes | backend/src/lib/runtime.js:45-74 | once asked for, the stop is over as soon as the work in flight has settled; it needs nothing else |
| Runtime.FinishedIsIdle | backend/src/lib/runtime.js:68-74 | over all runs: when finished nothing is pending but such late work, no timer is armed, nothing is admitted |
| Runtime.OutlivesExactly | backend/src/lib/runtime.js:13-74 | over all runs: what is in flight when the runtime has finished is exactly the unsettled work of in-scope calls between the end of the drain loop and then |
| Runtime.DetachedWorkOutlivesStop | backend/src/lib/runtime.js:13-18 | a concrete run in which a detached in-scope call is in flight after the stop |
| Teardown.CloseEverything | backend/src/lib/runtime-teardown.js:14-24 | every resource is closed in order whichever closes fail, the database last, and the errors are exactly the failures |
| Teardown.StepKeepsInv | backend/src/lib/runtime-teardown.js:1-25 | every step of the whole backend keeps the order of the teardown and its guarantees |
| Teardown.ClosingIsSafe | backend/src/lib/runtime-teardown.js:3-23 | over all runs: when resources are closed, the database last, nothing is admitted, handled batches are exactly the enqueued ones in order, and what is in flight is exactly the unsettled work of in-scope calls past the end of the drain loop; nothing at all when these come only from work in flight |
| Teardown.TeardownFinishes | backend/src/lib/runtime-teardown.js:1-25 | from every reachable state the teardown comes to its end as work in flight settles and the dispatcher drains, with all resources closed in their order |
| Teardown.ErrorsAreFailures | backend/src/lib/runtime-teardown.js:14-24 | over every run the errors at the end are exactly the resources whose close has failed |
| Teardown.KeptWork | backend/src/lib/runtime-teardown.js:3-12 | presence work and update checks are pending from the offer, if not stopped, until they settle, and nothing else is |
| Teardown.WorkInFlightCanNotify | backend/src/lib/runtime-teardown.js:8-13 | while any tracked work, presence work or update check is in flight the dispatcher accepts what it enqueues |
| ReminderRepair.Database.Execute | backend/migrations/071_message_reminder_recovery.js:4-31 | a statement applied row by row in any order: the unique index holds after every single row |
| ReminderRepair.Database.Up | backend/migrations/071_message_reminder_recovery.js:2-32 | the four statements in order, with the unique index throughout |
| ReminderRepair.PartlyUnique | backend/migrations/057_message_reminders.js:23-25 | whatever part of the rows a statement has written, the index holds |
| ReminderRepair.LosersMakeRoom | backend/migrations/071_message_reminder_recovery.js:14-31 | cancelling the losers first is what makes reactivation keep the index |
| ReminderRepair.FirstIsNewest | backend/migrations/071_message_reminder_recovery.js:16-20 | row number one is the newest of its partition |
| ReminderRepair.ChosenIsLatest | backend/migrations/071_message_reminder_recovery.js:14-21 | without an active one, the chosen reminder is that of the latest creation date, undated ones last, and of these the one with the greatest id |
| ReminderRepair.FateOfRow | backend/migrations/071_message_reminder_recovery.js:4-31 | settled rows are untouched; a processing row is delivered when notified or stamped, reactivated when it is the chosen one of its pair, else cancelled |
| ReminderRepair.DeliveredIff | backend/migrations/071_message_reminder_recovery.js:4-12 | delivered are exactly the processing rows with a delivery date or with a reminder notification of their own user and message, which lends its date |
| ReminderRepair.NothingIsLeft | backend/migrations/071_message_reminder_recovery.js:29-31 | no row is left processing, and the active rows are exactly the chosen ones |
| ReminderRepair.OneActivePerLivePair | backend/migrations/071_message_reminder_recovery.js:2-32 | exactly the pairs with an active or undelivered processing reminder end with an active one, and with one only: the old active, else the newest |
| ReminderRepair.SecondRunChangesNothing | backend/migrations/071_message_reminder_recovery.js:2-32 | a second run changes nothing, whenever it happens and whatever notifications there are |
| SearchIndex.SearchDocuments.RemoveSearchDocument | backend/src/lib/search-index.js:213-218 | removes the document and, for a transcript, its segments |
| SearchIndex.SearchDocuments.UpsertSearchDocuments | backend/src/lib/search-index.js:204-211 | payloads inserted or merged one after another |
| SearchIndex.SearchDocuments.UpsertMeetingArtifact | backend/src/lib/search-index.js:365-457 | segments cleared first, then removal or upsert depending on status and content |
| SearchIndex.SearchDocuments.UpsertRows | backend/migrations/044_search_meeting_transcript_segments.js:123-133 | inserting in chunks of 250 equals inserting all |
| SearchIndex.SearchDocuments.Rebuild | backend/migrations/044_search_meeting_transcript_segments.js:135-172 | all segments deleted and those of the ready transcripts inserted; no chunk repeats a key |
| SearchIndex.SegmentIdInjective | backend/src/lib/search-index.js:143-143 | a segment id names its transcript and index even when ids hold colons |
| SearchIndex.ValidSegmentGivesContent | backend/src/lib/search-index.js:69-108 | a transcript with a valid segment has content |
| SearchIndex.SegmentsTold | backend/src/lib/search-index.js:39-186 | exactly the spoken segments with speaker, name, text and a nonnegative start have a document, and it tells who said what, when to the nearest millisecond, and when that was |
| SearchIndex.ArtifactTold | backend/src/lib/search-index.js:413-450 | the document of an artifact holds its content, is by the host, and is dated by the first moment known of the meeting |
| SearchIndex.TitleTells | backend/src/lib/search-index.js:15-23 | a title tells the kind of the artifact and the title of the meeting |
| SearchIndex.SpeakersAre | backend/src/lib/search-index.js:25-37 | the speakers of a transcript are those of its spoken segments, each once |
| SearchIndex.ContentIs | backend/src/lib/search-index.js:69-108 | the text is the lines of the actions, else the first text that is not blank, else the lines of the segments |
| SearchIndex.JoinedIs | backend/src/lib/search-index.js:86-104 | the joined text is its lines one after another with one line break between them |
| SearchIndex.DecimalReads | backend/src/lib/search-index.js:143-143 | the number in a segment id reads as the index of the segment |
| SearchIndex.NoContentNoSegments | backend/src/lib/search-index.js:404-411 | the early return without content forgets no segment |
| SearchIndex.AllSegmentKeysDistinct | backend/migrations/044_search_meeting_transcript_segments.js:170-171 | the rebuild never gives one statement two rows with one key |
| SearchIndex.UpsertHolds | backend/src/lib/search-index.js:365-457 | after a change and its upsert the index holds exactly the expected documents and those left under an old kind |
| SearchIndex.UpsertKeepsExactIff | backend/src/lib/search-index.js:365-457 | the obligation on callers: an upsert keeps the index exact if and only if the artifact kept its kind or had nothing indexed |
| SearchIndex.RemoveKeepsExact | backend/src/lib/search-index.js:213-218 | a removal keeps it exact |
| SearchIndex.RunKeepsExact | backend/src/lib/search-index.js:186-218 | over any run of changes the index is exactly what the current ready artifacts call for |
| SearchIndex.BuildersAgree | backend/migrations/044_search_meeting_transcript_segments.js:68-121 | the separately written builder of the rebuild gives a transcript the documents of the upkeep, in the same order |
| SearchIndex.RebuildHolds | backend/migrations/044_search_meeting_transcript_segments.js:135-172 | from any index a rebuild leaves exactly the expected segments and touches nothing else |
| SearchIndex.UpkeepEqualsRebuild | backend/migrations/044_search_meeting_transcript_segments.js:68-172 | on an index kept exact a full rebuild, in any order, changes nothing |
| RecordingRetention.GroupRecordings | backend/src/lib/meeting-recording-retention.js:35-52 | one group per meeting in order of first appearance |
| RecordingRetention.GroupHoldsTheRows | backend/src/lib/meeting-recording-retention.js:35-52 | the group of a meeting holds exactly its rows |
| RecordingRetention.Measure | backend/src/lib/meeting-recording-retention.js:136-145 | the size is the sum of the known sizes, known when all are |
| RecordingRetention.DeletablesSorted | backend/src/lib/meeting-recording-retention.js:147-154 | the candidates are exactly the groups that may go, oldest first |
| RecordingRetention.Database.Expire | backend/src/lib/meeting-recording-retention.js:157-164 | the expiry loop deletes exactly the expired meetings |
| RecordingRetention.Database.Evict | backend/src/lib/meeting-recording-retention.js:174-184 | the running total is at every turn the size of what is kept |
| RecordingRetention.Database.Run | backend/src/lib/meeting-recording-retention.js:116-200 | the pass as a whole: which meetings go and that exactly their rows go |
| RecordingRetention.ExpiredExactly | backend/src/lib/meeting-recording-retention.js:147-164 | exactly the meetings that may go and ended at or before the cutoff expire |
| RecordingRetention.DeletedMayGo | backend/src/lib/meeting-recording-retention.js:147-184 | only ended, unprotected meetings without active recording are deleted, and beyond the expired only nonempty ones |
| RecordingRetention.KeptIsWhatRemains | backend/src/lib/meeting-recording-retention.js:174-176 | the total is the bytes of the rows left in the table |
| RecordingRetention.BudgetIsMet | backend/src/lib/meeting-recording-retention.js:166-193 | with a limit a pass ends deferred because a kept size is unknown, within the limit, or with no nonempty deletable meeting left |
| RecordingRetention.UnresolvedIs | backend/src/lib/meeting-recording-retention.js:136-145 | a pass is deferred exactly when a recording of some meeting left in the table has an unknown size |
| RecordingRetention.OldestGoFirst | backend/src/lib/meeting-recording-retention.js:178-184 | a kept nonempty deletable meeting ended after every meeting the budget took |
| RecordingRetention.NewestWasNeeded | backend/src/lib/meeting-recording-retention.js:178-184 | without its newest eviction the rest would have been over the limit |
| RecordingRetention.SecondPassDeletesNothing | backend/src/lib/meeting-recording-retention.js:116-200 | a second pass at the same time deletes nothing |
| Presence.LoginKeepsMapsIff | backend/src/presence.js:292-310 | a login keeps the maps inverse if and only if the connection was not logged in as another user |
| Presence.DisconnectKeepsInv | backend/src/presence.js:334-389 | a disconnect keeps the maps inverse, without empty sets, and the timers matched |
| Presence.ForcedOutFindsNoTimer | backend/src/presence.js:138-141 | the forced disconnect never finds a timer to clear |
| Presence.StepKeepsInv | backend/src/presence.js:286-398 | every step keeps: inverse maps, no empty sets, the event loop has exactly the timers of the map, and a timer means no connection |
| Presence.OfflineAfterGrace | backend/src/presence.js:349-386 | over every run: whoever is found offline had no connection for the whole grace period |
| Presence.TimerFindsNobody | backend/src/presence.js:353-358 | the double check in the callback never finds the user back |
| Presence.StopEndsAll | backend/src/presence.js:276-398 | after the stop nobody comes or goes, no timer is left and nobody else is found offline |
| Presence.AnnouncedAfterGrace | backend/src/presence.js:353-383 | over every run every announcement sent has a timer run of its own, different ones different runs, each after a whole grace period without any connection; their order is free |
| Presence.ConnectedIff | backend/src/presence.js:286-348 | a user without connections is connected later if and only if some login since has not been undone by its disconnect |
| Presence.AnnouncementWrongIff | backend/src/presence.js:353-383 | an announcement meets its user connected if and only if some login between finding and announcement has not been undone |
| Presence.AnnouncementMayCrossLogin | backend/src/presence.js:358-382 | a concrete run: a login during the writes before the announcement, and the user is announced offline while connected |
| Presence.SecondLoginHoldsOnline | backend/src/presence.js:292-310 | a connection that logs in as a second user holds the first one online |
| Presence.HeldOnlineStays | backend/src/presence.js:334-348 | and nothing but a login of that connection as the first user ends it |

## Left out

- HTTP routes, cookies, mail texts, object storage, media tools, sockets and window messages: foreign calls; where a core needs them they are steps or parameters.
- Cryptography: signatures, digests, tokens and their hashes are opaque.
- Database errors after a commit: a statement that throws is assumed to have had no effect.
- The HTTP side of the update checker: timeouts, size limits and redirects are one failure or one error code of the reply.
- Update acknowledgements: their deletion after a downgrade and the acknowledge operation are not modelled; the response reads them.
- The rest of the update check around the lease: the first read of the row before the lease is asked for, the scheduler timer and the release ping.
- UpdateLease.AtMostOneMail: holds of timely runs only; a worker that records after its lease expired may still write delivery rows, and a crash between a mail and its record may lead to a second mail.
- UpdateLease.StrangerChangesNothing: speaks of the shared row; a stranger that is recording a mail still writes delivery rows.
- UpdateLease.InitialMailInv: a downgrade is one between stable versions; the program also counts prerelease versions there, and deletes the deliveries after a downgrade from or to one.
- UpdateCatalog.ListedBuildReleases: versions are three numbers; prereleases occur only as a case of their own that the code rejects, and are not ordered.
- UpdateFeed.ParseAndVerifyFeedEnvelope: JSON decoding yields typed fields; a field of a wrong type is the fault the code reports for it.
- Helper details that no property needs: routes, base URLs, autostart, the settings window, persistence to disk and the messages sent.
- PttHelper.HelperRuntime.ChooseTargetConnection: sessions with equal foreground times come in any order, as they do from a hash map.
- PttInput.InputState.ApplyBindingCommand: the key-code table is a parameter, and the status answered to the caller is not modelled.
- Polling in the fallback thread: the ten-millisecond sleeps and key states are steps with arbitrary answers, at most as many as the code allows.
- AudioChunks.IterateBoundedAudioChunks: is stated under a bound that makes it stop; the turns of the list without one are those of `AudioSplitting`. Abort signals, temporary files and bytes read back are not modelled.
- AudioSplitting.ListOutcome: the encoded size depends on the length of a part only and grows with it; for other encoders only the bound of `AudioSplitting.FittingOutcome` tells what happens.
- AudioChunks.PlanBoundedSpeechChunks: times are reals, not floating-point numbers, and the maximum exceeds the overlap, without which the loop of the code need not end.
- Text.Trim: trims the white space that JavaScript and Rust agree on; of U+0085 only Rust's and of U+FEFF only JavaScript's is white space.
- Base32.Normalize: upper-cases ASCII letters only; the few other characters whose upper case is an ASCII letter are dropped here and kept by the program.
- Base32.Encode: the accumulator is a number modulo 2^32, and the bitwise or with cleared low bits is an addition.
- RateLimit.StoresAgree: each increment is atomic and server and client share a clock; a counter is dropped exactly when its deadline is reached.
- RateLimit.AllowedPerInterval: runs have no reset, a nondecreasing clock and one limit and window for the key.
- NotificationDispatcher.RunKeepsInv: what handling a batch does, and whether it fails, is not modelled; either way the batch is handled once.
- Runtime.StepKeepsInv: the work itself is opaque; names are kept, results and errors are not.
- Teardown.StepKeepsInv: every component is present; the timers of the update manager and the resets of presence maps are not modelled.
- ReminderRepair.Database.Up: the table lock and the surrounding transaction are not modelled; nothing else runs meanwhile.
- SearchIndex.SearchDocuments.UpsertMeetingArtifact: channel names and other fields copied from the joined meeting are one record; a change of a meeting counts once its artifacts are upserted. Messages and files have no segments and are left out.
- SearchIndex.Content: the lines made of action items and the conversion of numbers are inputs.
- RecordingRetention.Database.Run: sizes do not change and deletes succeed during a pass; size lookups, storage clients and a failed pass are not modelled.
- RecordingRetention.SecondPassDeletesNothing: is stated for the same moment and protection; later more meetings may have expired.
- Presence.StepKeepsInv: the online announcement, foreground states and the automatic away status are not modelled.
- Presence.OfflineAfterGrace: a timer callback and the microtask it queues are one block.
- Presence.LoginKeepsMapsIff: a login event and the microtask with its body are one block; in the program a body can still run after a stop or after the disconnect of its connection.
- PttBinding.ServedRightIff: the service takes a binding at once; its time-outs and refusals are not modelled.
- Routes, views, service worker, settings, schema-only migrations, normalisers of themes, uploads and locales, permission lookups: single branches or thin delegation.
