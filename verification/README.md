# Ghost Browsers: lifecycle, scheduling and delivery

This project models the parts of Ghost Browsers in which state is shared, retried or rolled
back, and proves what they keep.

**The runner** owns browsers, warm workstation slots and VNC displays. A session borrows them,
and every operation (create, update, end, touch, the idle reaper, the operator's maintenance of
slots) moves them between a session, the pools and the operating system. `Runner.dfy` gives the
runner as a value and each operation as a function on it, with everything the surroundings
answer (launch, prewarm, validation, publication, clock) as an argument. `RunnerInvariant.dfy`
says what holds whenever the manager's lock is free:

- the session table is in insertion order, and a session names the workstation it sits on;
- `handles`, `warm` and `vncHandles` name only live stored sessions, and a handle is of a
  browser with the session's endpoint and flags;
- every browser ever launched is held once and running, or was asked to stop exactly once, by
  the party that launched it; each warm session has its own Busy slot;
- active VNC slots are exactly the stored VNC handles, and displays and ports are conserved;
- the active counter and the cached expiry agree with recomputation;
- folding the event log rebuilds the session table, except for changes that were not published;
- the mode's sourcing policy.

`OperatorProofs`, `CreateProofs`, `ReservationProofs`, `UpdateProofs`, `SweepProofs` and
`RunProofs` show that every operation keeps all of it on every path, over every run from boot,
and what each operation does beyond that. `SessionLaws` and `WarmPoolLaws` say what the
operations answer and announce, in terms of the request and the state alone.
`SessionManager.dfy`, `WarmPoolManager.dfy` and `VncPool.dfy` hold the mutable objects: their
methods carry the operations out step by step, in the source's order, and are proved to reach
exactly the state the functions describe.

**The gateway** schedules sessions (`RunnerRegistry.dfy`), reconciles its catalogue of runners
with discovery snapshots (`Discovery.dfy`), rewrites VNC addresses (`VncPaths.dfy`) and checks
access tokens (`ReplayCache.dfy`). **The worker** polls a job queue (`JobQueue.dfy`) and drives
the gateway over HTTP with retries (`Orchestrator.dfy`, `Backoff.dfy`). **The event bridge**
fans session events out to subscribers (`EventBridge.dfy`).

Time is an integer; identifiers produced by a random generator are numbers not used before. A
region under one lock is one step, with one exception: the operator's requests go to the pool
without the session manager's lock, and any sequence of them may land between a create's
reservation and its mark-busy, and again before the session is stored. A slot taken by a create
that is under way counts as lent, like one the operator took. `dafny verify dfyconfig.toml` checks everything.

Seven expectations turn out to need a condition, and the exact condition is proved:

- *A token accepted once is never accepted again.* It is, when the second validation reads the
  clock before the expiry for the claims and at or after it for the cache
  (`ReplayAcceptedIff`, `StraddleAcceptsTwice`).
- *Merging VNC paths is idempotent.* Not when the leftover of the fallback is a border of the
  override (`MergeIdempotentIff`, `MergeNotIdempotent`).
- *A create keeps the runner's invariant.* It does exactly when, while it waits for its slot, the
  operator disturbs no session, and a create that reaches its end finds its slot Busy with the
  browser it reserved. Recycling and reserving the slot before it is marked busy, or releasing it
  after, leaves a session with a stopped browser (`CreateKeepsInvIff`, `SwapMeanwhileBreaks`,
  `ReleaseAfterwardsBreaks`; from a booted runner `SwappedFromBoot`, `ReleasedFromBoot`).
- *A create that fails gives its slot back.* Not when the operator marked it busy meanwhile; then
  it stays Busy for no session (`StrandedIff`, `BusyMeanwhileStrands`, `StrandedFromBoot`).
- *The registered runners are those of the latest snapshot.* Runners configured at start-up that
  no snapshot ever listed stay registered (`RunReconciles`, `ConfiguredRunnerStays`).
- *Sessions of removed runners are purged.* Every stored session names a registered runner after a
  purge exactly when none was left behind before it. One is left behind by a refresh that follows
  a skipped purge while a session is still due and its runner still gone, because the refresh
  forgets what was due; nothing makes the purge up later (`PurgeHostsAllIff`,
  `NoneLeftBehindIff`, `SkippedPurgeLeavesSession`).
- *Health reports keep the free slots within the capacity.* A report that names the free slots
  does so exactly when the capacity that then applies is not negative, any other one exactly when
  that capacity covers the free slots already stored (`ReportsKeepRangeIff`,
  `ReportsThatBreakRange`).

The documentation of `JobQueueEnvelope` calls delivery tags unique; the in-memory backend reuses
them, so the model follows the code and the proofs rest on there being one consumer. The field
description of `Runner.available_slots` promises at most `total_slots`; `record_health` bypasses
that validation, see above.

## Model

| member | source | states |
|---|---|---|
| RunProofs.EveryReachableStateIsSound | services/runner/app/session_manager.py:223-558 | from boot, over every run of creates, updates, ends, touches, reaper scans and operator actions, each permitted, with any failures of launch, recycle or publication, the whole runner invariant holds |
| RunProofs.BusySlotsAreSessions | services/runner/app/warm_pool.py:377-504 | over every run whose operator only restarts, drains and enables, also while a create waits: sessions on warm slots have distinct ones, these are exactly the Busy slots, none is left Reserved, and all tables name live sessions only |
| RunProofs.BrowsersShutOnceByOwner | services/runner/app/session_manager.py:1194-1213 | over every run each browser is asked to stop at most once, a cold one only by the manager, a warm one only by the pool |
| RunProofs.SourcingPolicyHolds | services/runner/app/session_manager.py:694-765 | over every run: warm-only means every browser comes from a warm slot, cold-only that none does; a session's running browser has the session's flags; a session on a warm slot has the pool's flags, also one whose browser handle an endpoint update took away |
| RunProofs.LogRebuildsSessions | services/runner/app/session_manager.py:1149-1164 | when no update of a run fails, folding the published events in order gives the session table; at every position of the log the event is CREATED exactly when it is its session's first, and ENDED exactly when its snapshot is DEAD |
| OperatorProofs.OperatorKeepsInvIff | services/runner/app/warm_pool.py:457-637 | an operator action keeps the runner's invariant if and only if it is not the release of a workstation a session sits on |
| RunProofs.StepKeepsInvIff | services/runner/app/session_manager.py:223-558 | a single operation, succeeding or failing, keeps the invariant if and only if it is permitted: updates, ends, touches and scans always, an operator action and a create under the conditions of OperatorKeepsInvIff and CreateKeepsInvIff, which do not refer to the outcome |
| RunProofs.RunIsSoundIff | services/runner/app/session_manager.py:223-558 | the invariant holds before and after every step of a run exactly when every step was permitted |
| RunProofs.BootEstablishesInv | services/runner/app/session_manager.py:181-221 | a freshly started runner, whatever its warm slots' launches did, satisfies the invariant |
| SessionLaws.BootedExact | services/runner/app/warm_pool.py:332-375 | a freshly started runner has no session and an empty log, the configured warm slots in order, each Idle exactly if some attempt warmed it, and all displays free |
| RunProofs.StopReleasesEverything | services/runner/app/session_manager.py:578-609 | after stop every browser ever launched was asked to stop exactly once by its owner, no temporary directory is left, every display and port is free; sessions and events are unchanged |
| CreateProofs.CreateIsAllOrNothing | services/runner/app/session_manager.py:223-348 | whatever the operator asks of the pool while the create waits, short of disturbing a session: the create succeeds exactly when VNC, browser, validation, mark-busy and publication all do; any failure, the lost reservation included, keeps the invariant and leaves the tables, the counter and the log as they were, the expiry again minimal; a success keeps the invariant exactly when the slot it stores is Busy with the browser it reserved; a TERMINATING or DEAD create always rolls back |
| ReservationProofs.CreateKeepsInvIff | services/runner/app/session_manager.py:233-310 | a create, with any sequence of operator requests before and after its mark-busy, keeps the invariant if and only if they release no session's workstation and, if all its stages go well, its slot is Busy with the reserved browser when the session is stored |
| ReservationProofs.StrandedIff | services/runner/app/session_manager.py:293-303 | the slot a create reserved ends up taken for no session if and only if the operator marked it busy before the create did; the create then fails and leaves the pool as it found it |
| ReservationProofs.BusyMeanwhileStrands | services/runner/app/routers/workstations.py:147-162 | one mark-busy by the operator on the reserved slot: the create fails and the slot stays Busy for no session |
| ReservationProofs.SwapMeanwhileBreaks | services/runner/app/routers/workstations.py:183-198 | one release and one reserve by the operator on the reserved slot: the create succeeds and the invariant is broken |
| ReservationProofs.ReleaseAfterwardsBreaks | services/runner/app/routers/workstations.py:183-198 | one release by the operator after the slot was marked busy and before the session is stored: the create succeeds and the invariant is broken |
| ReservationProofs.MaintenanceIsHarmless | services/runner/app/warm_pool.py:525-637 | restarts, drains and enables while a create waits leave its reservation intact and nothing more taken than before |
| RunProofs.StrandedFromBoot | services/runner/app/routers/workstations.py:147-162 | that failure on a concrete run: one booted slot and a headless create |
| RunProofs.SwappedFromBoot | services/runner/app/routers/workstations.py:183-198 | release and reserve during a concrete create on a booted runner break its invariant |
| RunProofs.ReleasedFromBoot | services/runner/app/routers/workstations.py:183-198 | a late release during a concrete create on a booted runner breaks its invariant |
| CreateProofs.CreateStores | services/runner/app/session_manager.py:274-324 | a successful create appends exactly the requested session, with the required flags overridden by the normalised request, and one CREATED event; its browser is running, its own, launched with the session's flags at its endpoint; a warm slot is used exactly when one will do, and was Idle and nobody's |
| SessionLaws.DisplayAsAsked | services/runner/app/session_manager.py:611-663 | the created session has no view when it is headless or VNC is off, the one it came with without token and time to live, or one on a display allocated for it and free before; only an allocation touches the displays |
| SessionLaws.CreateAnswers | services/runner/app/session_manager.py:223-348 | which error a create answers, in the order of its steps: no VNC exactly when an allocation was due and all displays were taken or the helpers failed, no capacity without a browser to be had, invalid, no capacity again for a lost reservation, not delivered; success exactly otherwise |
| SessionLaws.FailedCreateReleases | services/runner/app/session_manager.py:285-345 | a create that fails after acquiring a browser: a cold one is stopped, a reserved slot is Idle as before, a slot already taken is recycled with a browser launched since |
| CreateProofs.AcquireCorrect | services/runner/app/session_manager.py:656-765 | a warm slot is used exactly when the mode allows it, no further flags are asked and one can be reserved; otherwise a cold launch exactly when the mode allows it and it works |
| CreateProofs.HandleRuns | services/runner/app/session_manager.py:1194-1213 | every stored handle is of a running browser and of one session only |
| Runners.RollbackUndoesStore | services/runner/app/session_manager.py:326-345 | undoing a stored session table by table, with its release calls, equals never having stored it, but for what was recycled or stopped |
| UpdateProofs.UpdateKeepsInv | services/runner/app/session_manager.py:350-418 | an update keeps the invariant also when the recycle or the publication fails, replaces one session only, always builds an acceptable event, and fails in exactly the stated ways |
| UpdateProofs.UpdateKeepsResourcesIff | services/runner/app/session_manager.py:400-411 | the browser stays exactly with a live session of unchanged endpoint, the display with one that still shows it, the warm slot with a live one; no other session's entries move |
| UpdateProofs.UpdateAppliesFields | services/runner/app/session_manager.py:350-394 | set fields take their value, others stay, labels and metadata merge, identity and flags never change, DEAD implies an end time, a view is stored without token and time to live, the view flag is as asked or as before, and off where there is nothing to view; no other session changes |
| SessionLaws.UpdateAnswers | services/runner/app/session_manager.py:350-418 | unknown sessions are not found, a recycle fails exactly when the update ends a warm session and no launch attempt warms, then delivery; without a failure one event is appended, with the session as stored, the time and the reason, ENDED exactly for DEAD |
| SessionLaws.ViewSwitches | services/runner/app/session_manager.py:386-406 | switching the view of a live session off frees its display and no other, switching it on where there is something to view keeps it; browser and warm slot stay |
| SessionLaws.EndRecyclesSlot | services/runner/app/session_manager.py:1090-1116 | ending a session on a warm slot stops its browser and removes its directory; the slot gets a browser launched since exactly when some attempt warms, else it is in Error |
| SessionLaws.EndStopsColdBrowser | services/runner/app/session_manager.py:1194-1213 | ending a session with a cold browser stops that browser |
| UpdateProofs.EndReleasesEverything | services/runner/app/session_manager.py:420-437 | ending a session makes it DEAD with an end time, clears endpoint, view and workstation and nothing else, and takes it out of all side tables, even if a failure is reported |
| UpdateProofs.TouchOnlyMovesDeadline | services/runner/app/session_manager.py:496-511 | a touch sets the deadline to now plus the time to live, keeps browser and warm slot, and keeps a display exactly if its view is enabled |
| UpdateProofs.DeadHoldsNothing | services/runner/app/session_manager.py:400-411 | a session that is not live is in no side table |
| SweepProofs.SweepIsExact | services/runner/app/session_manager.py:513-558 | an uninterrupted sweep without failures makes a live session DEAD, ended at now, if and only if its deadline had passed, changes no other, counts the transitions, and leaves an expiry after now or none |
| SessionLaws.SweepAnnounces | services/runner/app/session_manager.py:513-558 | a sweep without failures appends one ENDED event with reason idle-timeout for each overdue session, in table order, with the session as stored |
| SweepProofs.ScanKeepsInv | services/runner/app/session_manager.py:524-542 | the scan collects each expired session once, and the expiry it caches is the minimum over the sessions it does not end |
| SweepProofs.EndAllExact | services/runner/app/session_manager.py:543-558 | ending the collected sessions one by one changes exactly those, and stops at the first failure |
| TableProofs.ActiveReplaced | services/runner/app/session_manager.py:1118-1129 | the counter's step equals recounting the live sessions, and its clamp at zero never takes effect |
| TableProofs.MinExpiryIsLeast | services/runner/app/session_manager.py:1131-1147 | the cached expiry is the deadline of some live session considered and no other's is earlier; it is absent only if there is none |
| SessionManagers.SessionManager.CreateSession | services/runner/app/session_manager.py:223-348 | carried out step by step with its rollback, a create reaches exactly the specified state and result, and the invariant holds again exactly when it was permitted |
| SessionManagers.SessionManager.UpdateSession | services/runner/app/session_manager.py:350-418 | the update's steps, in order and with early exit on a failing recycle, reach exactly the specified state |
| SessionManagers.SessionManager.EndSession | services/runner/app/session_manager.py:420-437 | an end is the update that sets DEAD, clears endpoint and view, and takes the given end time |
| SessionManagers.SessionManager.TouchSession | services/runner/app/session_manager.py:496-511 | a touch is the update that sets the last activity |
| SessionManagers.SessionManager.ReapExpiredSessions | services/runner/app/session_manager.py:513-558 | scan loop and ending loop reach exactly the specified sweep, and the invariant holds again |
| SessionManagers.SessionManager.CollectExpired | services/runner/app/session_manager.py:525-537 | one pass collects the expired sessions in table order and the minimum over the others |
| SessionManagers.SessionManager.RecalculateNextExpiry | services/runner/app/session_manager.py:1131-1147 | the loop computes the minimum deadline over live sessions and changes nothing else |
| SessionManagers.SessionManager.AcquireHandle | services/runner/app/session_manager.py:656-765 | reserve or launch, following mode, flags and pool, exactly as specified |
| SessionManagers.SessionManager.PrepareSession | services/runner/app/session_manager.py:229-309 | acquire display and browser, let the operator's requests in, validate, mark busy; each failure gives back what was acquired before it |
| SessionManagers.SessionManager.Rollback | services/runner/app/session_manager.py:326-345 | removes the session from the tables, then releases display and browser, then recomputes the expiry |
| SessionManagers.SessionManager.ReleaseWarmSlot | services/runner/app/session_manager.py:1090-1116 | the table entry goes before the recycle, so it is gone even if the recycle fails |
| SessionManagers.SessionManager.ShutdownBrowserOf | services/runner/app/session_manager.py:1194-1213 | forgets the handle and stops the browser only if it is a cold one |
| SessionManagers.SessionManager.StopManager | services/runner/app/session_manager.py:578-609 | the loops over cold browsers, slots and displays reach exactly the specified stopped state |
| WarmPoolProofs.PoolRunKeepsInv | services/runner/app/warm_pool.py:377-637 | over every run of pool operations: Idle, Reserved and Busy slots have a browser, Error and Draining none; every browser and directory ever made is owned by exactly one slot or was given up |
| WarmPoolProofs.AfterDrainNothingIsTaken | services/runner/app/warm_pool.py:506-523 | once drain has returned, no slot is ever Reserved or Busy again, whatever is enabled afterwards |
| WarmPoolProofs.DrainReleasesEverything | services/runner/app/warm_pool.py:506-523 | drain leaves every slot Draining, every pool browser stopped, every directory removed |
| WarmPoolProofs.MaintenanceSparesTakenSlots | services/runner/app/warm_pool.py:525-637 | restart, drain-slot and enable never change a Reserved or Busy slot |
| WarmPoolProofs.ReserveCorrect | services/runner/app/warm_pool.py:377-423 | a reservation fails exactly when the pool drains or no suitable slot is Idle; otherwise it takes that slot's browser and touches no other slot |
| WarmPoolProofs.FirstIdleIsFirst | services/runner/app/warm_pool.py:823-837 | without a hint the earliest Idle slot in pool order is selected, and none only if none is Idle |
| WarmPoolProofs.RecycledFromKeepsInv | services/runner/app/warm_pool.py:457-504 | a recycle is refused without effect outside its states; else the slot ends Idle or in Error with everything conserved, and no other slot changes |
| WarmPoolProofs.LaunchedKeepsOne | services/runner/app/warm_pool.py:687-729 | of all browsers launched by the retries at most the last is kept, every other was stopped at once |
| WarmPoolProofs.LeaveReservedCorrect | services/runner/app/warm_pool.py:425-455 | mark-busy and cancel succeed exactly on a Reserved slot |
| WarmPoolProofs.StartedKeepsInv | services/runner/app/warm_pool.py:332-375 | adding a workstation keeps the invariant and the other slots, and leaves the new slot Idle or in Error |
| WarmPoolLaws.OperationsAcceptIff | services/runner/app/warm_pool.py:425-637 | release is accepted exactly on Busy or Reserved, enable on Draining or Error, restart and drain-slot on Idle or Error, mark-busy and cancel on Reserved; anything else changes nothing |
| WarmPoolLaws.OperationsLeadTo | services/runner/app/warm_pool.py:425-540 | mark-busy, cancel and drain-slot change the state of that slot and, for the drain, empty it |
| WarmPoolLaws.LaunchedExact | services/runner/app/warm_pool.py:687-729 | a launch keeps the browser of the first attempt that prewarms, and none exactly when no allowed attempt does |
| WarmPoolLaws.RecycledExact | services/runner/app/warm_pool.py:457-504 | a recycle stops the old browser, removes the old directory and gives a new one; the slot is Idle with a browser launched by the first warm attempt, or in Error and marked as failed when none warms |
| WarmPoolLaws.AcceptedRecycles | services/runner/app/warm_pool.py:457-637 | an accepted release, enable or restart answers no error exactly when some attempt warms, and leaves the slot so |
| WarmPoolLaws.DrainedComesBack | services/runner/app/warm_pool.py:525-589 | drain-slot and then enable, with a first attempt that warms, make the slot Idle with a new browser |
| WarmPoolLaws.StateRequestsTakeEffect | services/runner/app/routers/workstations.py:147-218 | the busy, cancel and drain requests do what they are named after |
| WarmPoolLaws.RecycleRequestsTakeEffect | services/runner/app/routers/workstations.py:183-252 | the release, enable and restart requests recycle the slot in the states meant for them |
| WarmPoolLaws.StartPoolExact | services/runner/app/warm_pool.py:332-375 | the pool lists its workstations as configured; each is Idle after the start exactly when some attempt warmed, else in Error |
| WarmPoolManagers.WarmPoolManager.Start | services/runner/app/warm_pool.py:332-375 | the loop builds and provisions each configured slot in order |
| WarmPoolManagers.WarmPoolManager.ReserveSlot | services/runner/app/warm_pool.py:377-423 | carried out on the slot objects, it reaches the specified pool and answer |
| WarmPoolManagers.WarmPoolManager.SelectIdleSlot | services/runner/app/warm_pool.py:823-837 | the loop finds the hinted or the first Idle slot |
| WarmPoolManagers.WarmPoolManager.MarkBusy | services/runner/app/warm_pool.py:425-439 | Reserved becomes Busy, anything else is refused unchanged |
| WarmPoolManagers.WarmPoolManager.CancelReservation | services/runner/app/warm_pool.py:441-455 | Reserved becomes Idle, anything else is refused unchanged |
| WarmPoolManagers.WarmPoolManager.ReleaseSlot | services/runner/app/warm_pool.py:457-504 | recycles from Busy or Reserved: tear down, new directory, provision |
| WarmPoolManagers.WarmPoolManager.EnableSlot | services/runner/app/warm_pool.py:542-589 | the same from Draining or Error |
| WarmPoolManagers.WarmPoolManager.RestartSlot | services/runner/app/warm_pool.py:591-637 | the same from Idle or Error |
| WarmPoolManagers.WarmPoolManager.DrainOneSlot | services/runner/app/warm_pool.py:525-540 | tears down an Idle or Error slot, refuses any other |
| WarmPoolManagers.WarmPoolManager.DrainPool | services/runner/app/warm_pool.py:506-523 | sets the draining flag and tears every slot down in order |
| WarmPoolManagers.WarmPoolManager.TeardownSlot | services/runner/app/warm_pool.py:772-779 | stops the browser and removes the directory, if there are any |
| WarmPoolManagers.WarmPoolManager.AttemptLaunch | services/runner/app/warm_pool.py:687-729 | at most max_retries launches, stopping at the first that also prewarms; the waits between them double from the base delay, and none follows the last |
| Backoffs.BackoffTotal | services/runner/app/warm_pool.py:687-729 | n waits that start at base and double add up to base * (2^n - 1) |
| Backoffs.DelayClosedForm | services/camoufox_worker/worker/runner_orch.py:505-517 | doubling n times is the factor 2^n |
| VncPools.AcquireCorrect | services/runner/app/vnc.py:75-87 | a slot is granted exactly while fewer are active than the smallest range has values, it is new, and displays and ports stay partitioned into free and active |
| VncPools.ReleaseCorrect | services/runner/app/vnc.py:89-100 | releasing frees exactly that slot, and an inactive one changes nothing |
| VncPools.ReleaseUndoesAcquire | services/runner/app/vnc.py:75-100 | releasing what was just acquired restores the free resources |
| VncPools.SlotsInTurn | services/runner/app/vnc.py:75-100 | displays and ports are handed out in turn, and what was released last comes after all that was free before |
| VncPools.VncRunConserves | services/runner/app/vnc.py:59-100 | over every run no two active slots share a display or port, and free and active values partition each range |
| VncPools.AllocateCorrect | services/runner/app/vnc.py:141-229 | an allocation whose helpers fail to start leaves the active slots as they were |
| VncPools.VncResourcePool.AcquireSlot | services/runner/app/vnc.py:75-87 | takes the head of each queue, or nothing if one is empty |
| VncPools.VncResourcePool.ReleaseSlot | services/runner/app/vnc.py:89-100 | appends an active slot's values to the queues |
| VncPools.VncController.Allocate | services/runner/app/vnc.py:141-229 | acquires and, when start-up fails, releases again |
| BrowserFlags.NormaliseBrowserFlags | services/runner/app/browser_flags.py:14-46 | the loop computes the normalised flags, later entries winning |
| BrowserFlags.NormalisedIsNormal | services/runner/app/browser_flags.py:14-46 | normalised names are trimmed and not empty |
| BrowserFlags.StripTrims | services/runner/app/browser_flags.py:36-40 | trimming takes away white space at both ends and nothing else |
| BrowserFlags.NormalisedNames | services/runner/app/browser_flags.py:14-46 | the normalised mapping has exactly the trimmed names of entries with a text key that is not blank and a value that is not null |
| BrowserFlags.NormalisedValue | services/runner/app/browser_flags.py:14-46 | a name has the value of the last entry that sets it: a boolean as 1 or 0, a text as it is |
| BrowserFlags.NormalFlagsAreFixed | services/runner/app/browser_flags.py:14-46 | normalising normal flags changes nothing, in whatever order they are listed |
| BrowserFlags.MergeBrowserFlags | services/runner/app/browser_flags.py:49-72 | the loop merges the normalised sources, later ones winning |
| BrowserFlags.MergedSourcesExact | services/runner/app/browser_flags.py:49-72 | a merged flag has the value of the last source that has it, and there are no others |
| BrowserFlags.MergeIntoNormal | services/runner/app/session_manager.py:832-839 | with normal required flags the effective flags are these, overridden by the normalised request |
| BrowserFlags.RequiresAdditionalFlags | services/runner/app/browser_flags.py:75-100 | the scan answers whether some requested flag is missing from the baseline or differs there |
| BrowserFlags.WarmFlagsSufficeIff | services/runner/app/browser_flags.py:49-100 | no additional flags are required exactly when merging leaves the baseline unchanged |
| RunnerRegistries.RoundRobinIsFair | services/gateway/app/services/runner_registry.py:293-320 | with k eligible runners, k selections from any cursor return each exactly once, nearest to the cursor first, and the rotation is then where it was |
| RunnerRegistries.SelectsIffEligible | services/gateway/app/services/runner_registry.py:293-320 | none is returned exactly when none is eligible, and then nothing changes; otherwise an eligible registered runner |
| RunnerRegistries.SearchRotates | services/gateway/app/services/runner_registry.py:298-320 | one selection takes the head of the rotation and moves it to the end |
| RunnerRegistries.RotationExact | services/gateway/app/services/runner_registry.py:298-320 | the rotation is exactly the eligible positions, ordered by distance from the cursor |
| RunnerRegistries.ChosenPrefersHealthy | services/gateway/app/routers/sessions.py:82-98 | the two passes pick a healthy eligible runner whenever there is one, and any eligible one otherwise |
| RunnerRegistries.SelectedServes | services/gateway/app/services/runner_registry.py:293-320 | a selected runner is healthy and supports VNC where required, is starting or idle and not known to be full; none is selected exactly when no registered runner is so |
| RunnerRegistries.ChosenServes | services/gateway/app/routers/sessions.py:82-98 | the choice can serve the session, is unhealthy only when no healthy runner can, and is none only when no runner can |
| RunnerRegistries.UpsertKeepsInv | services/gateway/app/services/runner_registry.py:62-78 | an upsert adds at most one place, at the end, and leaves cursor and bindings alone |
| RunnerRegistries.RemoveKeepsInv | services/gateway/app/services/runner_registry.py:230-267 | a removal takes the runner out of the rotation, drops exactly the bindings naming it, and keeps the cursor in range |
| RunnerRegistries.SeededIsSoundIff | services/gateway/app/services/runner_registry.py:36-54 | a seeded registry is sound exactly when the seed names no runner twice |
| RunnerRegistries.SeededExact | services/gateway/app/services/runner_registry.py:36-54 | a seeded registry knows each runner as configured and no binding |
| RunnerRegistries.BoundExact | services/gateway/app/services/runner_registry.py:104-148 | a session is bound to the runner and target last registered, to none after a missing or empty target; no other binding moves |
| RunnerRegistries.ReportKeepsRangeIff | services/gateway/app/services/runner_registry.py:358-378 | a health report, whatever capacity and free slots it names, keeps the free slots in range if and only if it names them and the capacity is not negative, or does not and the capacity still covers the stored ones |
| RunnerRegistries.ReportsKeepRangeIff | services/gateway/app/services/runner_registry.py:358-378 | over a run of reports the range is never left exactly when each report is tolerable where it arrives |
| RunnerRegistries.ReportsThatBreakRange | services/gateway/app/services/runner_registry.py:358-378 | with 2 of 4 slots free, a report of capacity 1 without free slots and one of capacity -1 with 0 free slots both leave the range |
| RunnerRegistries.HealthKeepsInv | services/gateway/app/services/runner_registry.py:352-378 | a health report changes neither the registered runners nor the bindings |
| RunnerRegistries.ReportApplies | services/gateway/app/services/runner_registry.py:352-378 | health and capacity are as reported, VNC support and free slots as reported or as before, the free slots clamped between zero and the capacity; no other runner changes |
| RunnerRegistries.UnknownReportIgnored | services/gateway/app/services/runner_registry.py:352-358 | a report for an unregistered runner is answered with none and changes nothing |
| RunnerRegistries.RunnerRegistry.constructor | services/gateway/app/services/runner_registry.py:36-54 | the seeding loop |
| RunnerRegistries.RunnerRegistry.Upsert | services/gateway/app/services/runner_registry.py:62-78 | carried out in place |
| RunnerRegistries.RunnerRegistry.Remove | services/gateway/app/services/runner_registry.py:230-267 | carried out in place, returning the removed runner |
| RunnerRegistries.RunnerRegistry.SelectNext | services/gateway/app/services/runner_registry.py:293-320 | the offset loop finds the first eligible runner after the cursor |
| RunnerRegistries.RunnerRegistry.ChooseForCreate | services/gateway/app/routers/sessions.py:82-98 | the two passes, in place |
| RunnerRegistries.RunnerRegistry.RegisterSessionWsEndpoint | services/gateway/app/services/runner_registry.py:104-148 | a missing or empty target removes the binding |
| RunnerRegistries.RunnerRegistry.RecordHealth | services/gateway/app/services/runner_registry.py:352-378 | the reported fields replace the stored ones, free slots clamped to the capacity |
| Discoveries.RunReconciles | services/gateway/app/services/discovery.py:130-157 | over every run of refreshes, purges (also skipped ones), selections, health reports, bindings and session changes, the registered runners are those of the latest snapshot and the configured ones no snapshot ever listed |
| Discoveries.ConfiguredRunnerStays | services/gateway/app/services/discovery.py:130-157 | one configured runner and an empty snapshot: the runner stays registered |
| Discoveries.PurgeHostsAllIff | services/gateway/app/main.py:158-171 | after a purge every stored session names a registered runner if and only if each named one, or one due to be purged, before it |
| Discoveries.CoveredStepIff | services/gateway/app/main.py:158-171 | a step leaves no session behind exactly when it is not a refresh that forgets a due purge of sessions whose runner is still gone, nor the storing of a session of an unregistered runner |
| Discoveries.NoneLeftBehindIff | services/gateway/app/main.py:158-171 | over every run no session is ever left behind exactly when no step leaves one behind that way |
| Discoveries.LeftBehindStays | services/gateway/app/main.py:158-171 | a session left behind survives every further step but its own deletion, its replacement or its runner's return |
| Discoveries.SkippedPurgeLeavesSession | services/gateway/app/main.py:158-171 | a purge skipped after the refresh that removed a runner: the next refresh and purge do not remove its session |
| Discoveries.RefreshReconciles | services/gateway/app/services/discovery.py:130-170 | added and updated partition the snapshot, removed is what is gone; survivors keep their relative order, newcomers follow; only bindings of removed runners or their sessions are dropped; the cursor stays in range |
| Discoveries.LastListedWins | services/gateway/app/services/discovery.py:130-157 | a runner listed more than once is registered as listed last |
| Discoveries.PurgeLeavesNoTrace | services/gateway/app/services/discovery.py:196-230 | after a refresh and its purge no session and no binding names a removed runner, and other runners' sessions are untouched |
| Discoveries.PurgeDropsBindings | services/gateway/app/services/discovery.py:196-230 | a purge drops exactly the bindings of the sessions it purges, and leaves the runners alone |
| Discoveries.PurgeKeepsOrder | services/gateway/app/services/discovery.py:196-230 | sessions that stay keep their order, and those that go are reported in theirs |
| Discoveries.PlacedExact | services/gateway/app/services/session_registry.py:54-68 | a stored session is replaced where it stands, a new one goes to the end |
| Discoveries.RemovedOneMore | services/gateway/app/services/discovery.py:159-170 | removing runners one by one gives the same catalogue in any order |
| Discoveries.WithoutKeepsOrder | services/gateway/app/services/runner_registry.py:246-267 | runners that stay keep their relative order |
| Discoveries.UpkeepStepKeepsInv | services/gateway/app/main.py:158-171 | every step keeps the catalogue sound, only a refresh changes which runners are registered, and it alone decides which are due to be purged |
| Discoveries.RunnerDiscoveryService.Refresh | services/gateway/app/services/discovery.py:130-157 | the loops over snapshot and removed runners reach exactly the specified state and result |
| Discoveries.RunnerDiscoveryService.HandleRemovedRunners | services/gateway/app/services/discovery.py:159-170 | drops the sessions' bindings, then removes the runners, whatever the iteration order of the set |
| Discoveries.PurgeSessionsForMissingRunners | services/gateway/app/services/discovery.py:196-230 | deletes while walking a copy of the list, and returns the deleted identifiers in order |
| Discoveries.SessionRegistry.Delete | services/gateway/app/services/session_registry.py:79-86 | removes the entry, or reports that there is none |
| JobQueues.MessageLife | services/camoufox_worker/worker/queue.py:357-482 | over every run each message is queued, in flight, acknowledged or rejected, exactly once; it runs at most as often as allowed (max_attempts when enqueued at attempt 1), is rejected only after exactly that many failures; a message in flight has begun at least one and at most the allowed number of runs; executions are successes, retries and drops |
| JobQueues.AckedForAReason | services/camoufox_worker/worker/queue.py:374-452 | over every run, an acknowledged message succeeded, or a success with its key had left a mark that was alive when it was acknowledged |
| JobQueues.EveryMessageWasOffered | services/camoufox_worker/worker/queue.py:497-504 | over every run each message carries key, time to live, attempt number and allowance of one enqueue call, each call its own |
| JobQueues.FirstComeFirstServed | services/camoufox_worker/worker/queue.py:497-527 | over every run nothing that has begun, been decided or stands before it was offered later than a message that waits for its first run |
| JobQueues.BeginsWithOldest | services/camoufox_worker/worker/queue.py:357-384 | a poll takes the head of the queue; it is acknowledged without a run exactly when a live mark covers its key, otherwise its execution starts |
| JobQueues.EndsAsRun | services/camoufox_worker/worker/queue.py:438-482 | a success is acknowledged and covers its key; a failure is dropped at the last attempt, else goes behind all that wait, one attempt later |
| JobQueues.IdempotencyWindow | services/camoufox_worker/worker/queue.py:276-300 | with a monotone clock a key counts as completed exactly while its latest mark has not expired, and no execution with a key starts before an earlier success's time to live has elapsed |
| JobQueues.PollUsesWork | services/camoufox_worker/worker/queue.py:454-482 | every poll that finds a message leaves less work than there was and came in |
| JobQueues.PollingDrains | services/camoufox_worker/worker/queue.py:347-397 | without arrivals, as many polls as there is work empty the queue, whatever the executor does |
| JobQueues.QueueRunKeepsInv | services/camoufox_worker/worker/queue.py:357-530 | accounting, attempt counts, marks and the single message in flight hold over every run |
| JobQueues.RecordsPurged | services/camoufox_worker/worker/queue.py:283-293 | purging never changes the answer for any key |
| JobQueues.JobQueueConsumer.PollOnce | services/camoufox_worker/worker/queue.py:357-397 | one poll, with whatever producers enqueue while the job runs, reaches the specified state |
| JobQueues.JobQueueConsumer.BeginPoll | services/camoufox_worker/worker/queue.py:357-381 | receives, and skips a completed key without executing |
| JobQueues.JobQueueConsumer.HandleSuccess | services/camoufox_worker/worker/queue.py:438-452 | acknowledges and marks the key |
| JobQueues.JobQueueConsumer.HandleFailure | services/camoufox_worker/worker/queue.py:454-482 | rejects at the last attempt, else requeues with the next attempt number |
| JobQueues.InMemoryQueueBackend.Enqueue | services/camoufox_worker/worker/queue.py:497-504 | the tag counts queued and in-flight messages |
| JobQueues.InMemoryQueueBackend.Receive | services/camoufox_worker/worker/queue.py:506-513 | moves the oldest message in flight |
| JobQueues.InMemoryQueueBackend.Requeue | services/camoufox_worker/worker/queue.py:518-527 | the same tag and message again, at the back, one attempt later |
| JobQueues.IdempotencyRegistry.IsCompleted | services/camoufox_worker/worker/queue.py:289-293 | purges, then looks the key up |
| JobQueues.IdempotencyRegistry.MarkCompleted | services/camoufox_worker/worker/queue.py:295-300 | purges, then records the new expiry |
| EventBridges.SubscriberSeesSuffix | packages/core/core/websocket_bridge.py:72-112 | for every run before and after it joins, a subscriber received the log from its joining point (one event earlier with replay), without gap, duplicate or reordering, and the rest up to the newest event is queued |
| EventBridges.BridgeRunKeepsInv | packages/core/core/websocket_bridge.py:72-112 | over every run delivered plus queued is one stretch of the log for every subscriber, also after it left, and joining points never move |
| EventBridges.PublicationReachesAll | packages/core/core/websocket_bridge.py:72-86 | a publication is logged and reaches the end of every subscriber's queue and no other |
| EventBridges.SubscriptionAdds | packages/core/core/websocket_bridge.py:88-102 | a new subscriber's queue holds the latest event exactly if it asks for it and there is one |
| EventBridges.ReceivingTakesOldest | packages/core/core/websocket_bridge.py:104-107 | receiving delivers the oldest queued event and touches no other queue |
| EventBridges.ReceivingCatchesUp | packages/core/core/websocket_bridge.py:104-107 | as many receives as events are queued deliver them all, in order |
| EventBridges.LeavingRemoves | packages/core/core/websocket_bridge.py:108-110 | one that leaves is no subscriber any more |
| EventBridges.EventBridge.Publish | packages/core/core/websocket_bridge.py:72-86 | the loop puts the event on every subscriber's queue, in any order of the set |
| EventBridges.EventBridge.Subscribe | packages/core/core/websocket_bridge.py:88-102 | a new queue, holding the latest event if replay is asked and there is one |
| EventBridges.EventBridge.Receive | packages/core/core/websocket_bridge.py:104-107 | takes the oldest queued event |
| EventBridges.EventBridge.Unsubscribe | packages/core/core/websocket_bridge.py:108-110 | leaves, with no effect on the others |
| ReplayCaches.ReplayAcceptedIff | services/vnc-gateway/app/camou_vnc_gateway/token.py:97-197 | while fewer than the limit of other tokens were accepted for the session, an accepted token is accepted again if and only if it is unexpired at the first clock reading and expired at the second; expiry as in section 4.1.4 of RFC 7519 |
| ReplayCaches.StraddleAcceptsTwice | services/vnc-gateway/app/camou_vnc_gateway/token.py:134-197 | a concrete token that passes twice that way |
| ReplayCaches.AcceptedIff | services/vnc-gateway/app/camou_vnc_gateway/token.py:97-197 | a token is accepted if and only if it was issued for the session, has expiry and issue time, is not from the future beyond the skew, is unexpired at the first clock reading and, with a nonce, not remembered at the second; each failing condition has its own error |
| ReplayCaches.ValidationForgets | services/vnc-gateway/app/camou_vnc_gateway/token.py:156-208 | a validation leaves other sessions' caches alone, and without an insertion drops nothing but expired entries |
| ReplayCaches.ValidateKeepsBound | services/vnc-gateway/app/camou_vnc_gateway/token.py:180-197 | each session's cache has at most limit entries, one per key |
| ReplayCaches.CacheKeyInjective | services/vnc-gateway/app/camou_vnc_gateway/token.py:143-145 | a cache key determines nonce and issue time, even if the nonce contains colons |
| ReplayCaches.RememberedAfter | services/vnc-gateway/app/camou_vnc_gateway/token.py:180-208 | with fewer than limit other acceptances the entry is still cached or the clock has passed its expiry |
| ReplayCaches.TokenValidator.Validate | services/vnc-gateway/app/camou_vnc_gateway/token.py:97-154 | the checks in order, each with its own error |
| ReplayCaches.TokenValidator.RegisterNonce | services/vnc-gateway/app/camou_vnc_gateway/token.py:156-197 | evict, reject a replay, insert at the end, drop the oldest beyond the limit |
| ReplayCaches.TokenValidator.EvictExpired | services/vnc-gateway/app/camou_vnc_gateway/token.py:199-208 | the loop removes exactly the expired entries, keeping order |
| VncPaths.MergeVncPaths | services/gateway/app/services/vnc_overrides.py:126-163 | the resulting text has exactly the merged segments, and is their rendering, absolute if either path is; with an empty or root fallback it is the override without trailing slashes, or the root |
| VncPaths.MergeSegmentLists | services/gateway/app/services/vnc_overrides.py:145-157 | the comparison loop stops at the longest common prefix |
| VncPaths.MergeBeginsWithBase | services/gateway/app/services/vnc_overrides.py:145-157 | the merge begins with the override, followed by the fallback beyond the longest common prefix unless the fallback ends with the override; with an empty override it is the fallback |
| VncPaths.MergeIdempotentIff | services/gateway/app/services/vnc_overrides.py:145-157 | merging again changes nothing exactly when the leftover, shorter than the override, does not complete a shifted override to the override |
| VncPaths.MergeIdempotentWithoutRepeats | services/gateway/app/services/vnc_overrides.py:145-157 | an override without repeated segments always merges idempotently |
| VncPaths.MergeNotIdempotent | services/gateway/app/services/vnc_overrides.py:145-157 | override a/b/a with fallback b/a: the second merge drops what the first added |
| VncPaths.JoinRoundTrip | services/gateway/app/services/vnc_overrides.py:134-163 | joining segments with slashes and splitting again gives the segments back |
| VncPaths.RenderedShape | services/gateway/app/services/vnc_overrides.py:134-163 | a merged path is absolute exactly if asked and has no slash at its end nor two in a row |
| VncPaths.StrippedExact | services/gateway/app/services/vnc_overrides.py:126-133 | stripping takes away the slashes at the end and nothing else |
| VncPaths.MergeQueries | services/gateway/app/services/vnc_overrides.py:115-122 | the loop appends each fallback key not seen before |
| VncPaths.QueryMergeExact | services/gateway/app/services/vnc_overrides.py:115-122 | the merged keys are those of both; the override's values win, and another key keeps the fallback's first value, once |
| VncPaths.QueryMergeIdempotent | services/gateway/app/services/vnc_overrides.py:115-122 | merging the merged query again changes nothing |
| Orchestrators.RequestWithRetry | services/camoufox_worker/worker/runner_orch.py:475-523 | at most retries + 1 requests; success exactly when the deciding answer has an expected status; the waits are base * 2^j; the trailing assertion is reached exactly when retries is negative |
| Orchestrators.RequestedExact | services/camoufox_worker/worker/runner_orch.py:475-523 | a request is accepted exactly when the first answer that is neither a network error nor an unexpected 500, 502, 503 or 504 comes within the retries and has an expected status; otherwise it is refused |
| Orchestrators.PollSessionStatus | services/camoufox_worker/worker/runner_orch.py:240-305 | polling goes on exactly while the session is not ready and time is left; a ready session is reported ready even after the timeout |
| Orchestrators.RunOrchestratedJob | services/camoufox_worker/worker/runner_orch.py:308-437 | when the creation returned an identifier the session is deleted exactly once, last, on every path; ok exactly when every stage and the deletion succeed; the error is the first failure |
| Orchestrators.RunStages | services/camoufox_worker/worker/runner_orch.py:363-406 | create, proxy, poll and touch run in order, each only after the previous one succeeded |
| Orchestrators.StagesFollowPlan | services/camoufox_worker/worker/runner_orch.py:363-406 | the stages run are create, proxy if there is one, poll and touch, up to the first failure; without an identifier only the creation |
| Orchestrators.OutcomesMean | services/camoufox_worker/worker/runner_orch.py:240-306 | when a stage, a deletion and a poll count as fine, refused, timed out or crashed, and which identifier counts |
| Orchestrators.FirstFailureExact | services/camoufox_worker/worker/runner_orch.py:406-437 | the error of a job is that of its earliest step that is not fine |

## Left out

- Processes, sockets, Xvfb, x11vnc, websockify and the file system: their outcomes are arguments.
- HTTP and WebSocket relays, the FastAPI routers, the Redis and AMQP backends, JWT signatures and their own expiry check, Keycloak.
- Metrics, logging, the workstation event stream, configuration parsing and the user interface.
- Slot statistics, listings, `get_metrics` and the prewarm failure history: read-only or free of rules.
- Session fields without influence on the lifecycle: start URL, proxy, browser family; the descriptors `browser_origin` and `warm_pool` written into the metadata.
- A metadata update that overwrites `browser_flags`: the model keeps a session's effective flags in a field of their own, which no update changes.
- Required flags are taken as normal, that is with trimmed names; `MergeIntoNormal` shows what merging then means.
- Trimming knows the ASCII white space characters only.
- Explicit nulls in an update for status, last activity, time to live or headless: a field is unset or has a value.
- A temporary directory that cannot be removed: a teardown here always removes it, while the source ignores errors of the removal.
- Cancellation, and exceptions from a browser's own shutdown.
- Workstation configurations with blank fingerprints, which would fail while the workstation description is built; each workstation is configured once.
- Starting the warm pool concurrently with other operations: it runs once, first.
- Requests of the operator's inside other waits of the session manager, that is while a stored session is published or rolled back, or a slot whose table entry is already gone is recycled: they come before or after the whole operation.
- Interleavings inside one pool operation: each is one step, so a slot seen in the middle of a recycle, or a reservation that waits for a slot lock while the pool drains, does not occur.
- SessionManagers.SessionManager.StopManager: is the last step of a run, not interleaved with others; as in the source the sessions stay listed, so the invariant does not hold afterwards.
- SessionManagers.SessionManager.ReapExpiredSessions: nothing runs between its scan and its ends; interleaved sweeps are covered by the runs, where the scan and each end are separate steps, and a touch between them does not save a session.
- In the job queue: several consumers on one backend, delayed requeueing, the choice of executor, the profile toggles.
- In discovery: a service without a session registry, which drops no session's bindings; requests that land in the middle of one refresh or one purge.
- Clocks that are set back: the replay cache is proved for readings that never decrease, while the source reads the wall clock there.
- In the token validator: times beyond the range of the calendar type, and Boolean claims, which Python accepts as integers.
- In the VNC addresses: splitting and formatting whole URLs; paths are merged as text, queries as lists of pairs.
- In the worker's HTTP client: job payloads and metrics; the status text is taken in upper case.
- In the event bridge: a queue is unbounded, so a put never waits, and publication is one step.
