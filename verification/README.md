# Staminads verification

A Dafny model of the parts of Staminads whose guarantees are easy to get wrong, with proofs that they hold for every
input, every run and every interleaving.

**The tracking path.** A browser SDK keeps a cumulative action log and sends it again and again; a server turns
every payload into events with deterministic deduplication tokens, buffers them per workspace, and inserts them
into a table that keeps one row for each token. `Sdk` and `SdkClient` model the SDK's handlers, `SessionState` the log,
`Heartbeat` the timers, `Sender` the offline queue, `SessionPayloadHandler` the ingest, `EventBuffer` the buffer,
`EventBatches` the concurrent calls of `addBatch` in front of it, and `EventTable` the table. A module that holds state
has a machine (a record, a step function, runs) and a class whose methods are proved to perform exactly its steps;
whatever runs between two awaits is one step, and steps interleave freely. Documents of one tab share their storage: an
SDK run has a step by which another document replaces what is stored. `SdkActions` is about what gets into the log and
into payloads, `SdkSession` about session time and its limit, `SdkFocus` about focus time, and `SdkPayloads` about payloads
that build on each other, which `SdkTab` extends over the page loads of a tab. `Delivery` composes the machines: from any SDK run, through any
reordering, duplication and loss of payloads, any interleaving of calls and any failure of inserts, to the table.

**Reports.** `LikePattern` and `FilterBuilder` compile filters to parameterised conditions and evaluate both sides;
`FilteredTotals` compiles two-stage totals; `Calendar` and `FillGaps` enumerate buckets and fill time series;
`UserEventExport` pages through events; `CsvExport` prints reports and reads them back; `SessionLink` encodes the
cross-domain parameter; `Subscriptions` schedules reports. `Decimal` is decimal text, `SessionPayload` the
payload's types.

## What the proofs found

Where the code does not keep a property on all inputs, the model says exactly when it does, and a lemma gives an input or
a run on which it does not.

- Focus time never over-counts in a document alone in its tab (`SdkFocus.AloneRestoresFit`). A page that returns from the
  back-forward cache and takes over the log of another document can over-count (`SdkFocus.OverCount`): it does so if and
  only if the current page of the log it takes over was entered less long ago than the page's own focus time
  (`SdkFocus.FocusTimeIffRestoresFit`).
- A page that is left and returned to is not current again: until the next pageview its focus time stays what it was when
  the page was first left (`SdkActions.FocusEndsWhenLeft`), and goals go to page 1 with the path "/". A goal names the page
  that the visitor is on if and only if the page has not been left since it was entered, or happens to be that page
  (`SdkActions.GoalNamesPageIff`). `SdkActions.ReturnIsNotCounted` is a run: ten seconds of 50 are sent, and the goal goes
  astray.
- Session time is exact if and only if no active heartbeat was woken up, which forgets how long it has been active
  (`SdkSession.SessionTimeExactIff`); the limit is applied to session time as it then is (`SdkSession.StoppedIff`).
- A page's return from the back-forward cache can also replace actions that were sent, so that later payloads do not extend earlier ones
  (`SdkPayloads.LostGoal`). Payloads build on each other if and only if no return, and no load of a further page, lacks an
  action that was sent (`SdkPayloads.CumulativeIffNothingSentIsLost`, `SdkTab.TabCumulativeIff`). Without other documents this takes unsaved actions at an unload that
  saves nothing, because a flush had already happened or the write failed (`SdkPayloads.LossNeedsUnsavedUnload`).
- A non-empty buffer can be left without a timer (`EventBuffer.StrandedByFailure`): by a failed insert, and by a flush that
  is requested while an insert of the same workspace is in flight. `EventBuffer.ArmedUnlessStranded` gives the exact
  condition, and such events stay without a timer until some flush takes them (`EventBuffer.StrandedUntilTaken`).
- Shutdown leaves a workspace's events in memory exactly when one of its inserts is in flight
  (`EventBuffer.ShutdownEmptiesBuffer`, `EventBuffer.LeftBehindAtShutdown`).
- A call of `addBatch` always adds a prefix of its events, and all of them if and only if no insert that it awaited failed
  before its last add (`EventBatches.CompleteIffNoneFailedBefore`); `EventBatches.CutShort` is a run in which the rest of a
  large batch is dropped.
- A stale payload received late keeps the stored keys but overwrites newer values (`Delivery.StaleValuesOverwrite`). For
  every action the table shows the event of the latest reception that added it, so the stored rows are those of a longest
  payload if and only if the latest reception of every action carries that payload's event (`Delivery.ShowsPayloadIff`).
- Used without the SDK, the log numbers pageviews from 1 if and only if the first call records one or none of the first
  1000 calls does (`SessionState.NumbersFromOne`).
- `validateTiers` returns tiers out of order when one starts at a negative time (`Heartbeat.ValidatedTiers`).
- `contains` is substring search exactly for texts without a LIKE wildcard or an escape that changes their meaning
  (`LikePattern.SubstringIffPlain`), and without a value it searches for `undefined` (`FilterBuilder.BoundIffHasValues`).
- The totals query sums averages and rates over groups. The sum is the average over the rows of all passing groups if and
  only if at most one group passes or none of those rows adds anything to it (`FilteredTotals.AveragesAddIff`). Numbers of
  different pages or sessions are right if and only if none occurs in two passing groups (`FilteredTotals.UniquesAddIff`).
- Two rows whose dimension values contain `|` can be merged by gap filling (`FillGaps.BarsMergeRows`), and the
  dimensions of a filled gap come back exactly when no value contains one (`FillGaps.GapRow`).
- Weekly buckets get one extra exactly when the end is a Sunday, because the loop compares weeks that begin on Sunday
  (`Calendar.LoopCondition`).
- Paging delivers the full list if and only if no two rows with the same `updated_at` and `id` lie on the two sides of a
  page boundary (`UserEventExport.CompleteIffCleanBoundaries`); `UserEventExport.TieIsLost` is the smallest loss.
- A daily subscription that is updated to monthly without a day stores a null day. Its next time is then computed from
  the last day of the month before, lies in the future only while the hour of that day has not begun, and makes a report
  due again at the moment it was sent (`Subscriptions.SentIsNotDue`, `Subscriptions.SentAgainAndAgain`).

## Model

| member | source | states |
|---|---|---|
| EventTable.KeptRowIsVisible | api/src/database/schemas.ts:281-283 | a deduplicating read shows a row if and only if the engine keeps it: greatest version of its key, the later insert on ties |
| EventTable.ViewShowsKeptRow | api/src/database/schemas.ts:281-283 | every key that is shown comes with a kept row of that key |
| EventTable.ViewKeys | api/src/database/schemas.ts:281-283 | the keys shown are exactly the keys inserted |
| EventTable.StrayRowsAbsorbed | api/src/database/schemas.ts:281-283 | rows inserted early, in any order and multiplicity, leave no trace once the same rows are all inserted |
| EventTable.SessionViewOf | api/src/database/schemas.ts:281-283 | what is shown for one session depends only on the rows of that session |
| EventBuffer.RunKeepsInv | api/src/events/event-buffer.service.ts:34-147 | in every state of every interleaving, per workspace: inserted, in flight and buffered events together are the added ones in order; at most one insert is in flight; an armed timer has events to flush; inserting what is pending completes the table |
| EventBuffer.StepKeepsInv | api/src/events/event-buffer.service.ts:18-147 | each of the six kinds of steps keeps that invariant, whatever rows a failing insert applied |
| EventBuffer.ExactlyOnceView | api/src/events/event-buffer.service.ts:109-147 | once drained, the deduplicated table equals that of inserting every added event once, in order, so duplicates of retries are invisible |
| EventBuffer.FailureKeepsWorkspaceInv | api/src/events/event-buffer.service.ts:135-146 | an insert that applies any rows and then fails loses, moves and reorders nothing, and can still be completed |
| EventBuffer.ArmedUnlessStranded | api/src/events/event-buffer.service.ts:34-147 | a buffer covered by a timer stays covered by a step if and only if the step is not a failed insert or a flush during an insert |
| EventBuffer.ShutdownEmptiesBuffer | api/src/events/event-buffer.service.ts:18-32 | shutdown hands over a workspace's events if and only if none of its inserts is in flight |
| EventBuffer.StrandedUntilTaken | api/src/events/event-buffer.service.ts:34-113 | buffered events without a timer stay without one, whatever is added, until a step takes them out of the buffer |
| EventBuffer.StrandedByFailure | api/src/events/event-buffer.service.ts:135-146 | a run from the empty buffer: an event is added, its insert fails, and it is left without a timer |
| EventBuffer.LeftBehindAtShutdown | api/src/events/event-buffer.service.ts:18-32 | a run from the empty buffer: an event added during an insert is still in memory after shutdown |
| EventBuffer.BatchKeepsOrder | api/src/events/event-buffer.service.ts:54-72 | adding a batch group by group adds each workspace's events in the batch's order |
| EventBuffer.EventBufferService.Add | api/src/events/event-buffer.service.ts:34-52 | appends the event, starts the timer on the first one, and starts a flush at 500: exactly the Add step |
| EventBuffer.EventBufferService.Flush | api/src/events/event-buffer.service.ts:109-131 | exactly the Flush step: stops the timer, and takes all events unless there are none or an insert is in flight |
| EventBuffer.EventBufferService.InsertSucceeded | api/src/events/event-buffer.service.ts:125-134 | the rest of a flush whose insert succeeded |
| EventBuffer.EventBufferService.InsertFailed | api/src/events/event-buffer.service.ts:135-146 | the rest of a flush whose insert failed: its events return to the front of the buffer |
| EventBuffer.EventBufferService.StartFlushTimer | api/src/events/event-buffer.service.ts:86-99 | arms the workspace's timer and no other |
| EventBuffer.EventBufferService.StopFlushTimer | api/src/events/event-buffer.service.ts:101-107 | disarms the workspace's timer and no other |
| EventBuffer.EventBufferService.OnModuleDestroy | api/src/events/event-buffer.service.ts:18-32 | both shutdown loops: exactly the Shutdown step in some order of the workspaces |
| EventBuffer.EventBufferService.GroupByWorkspace | api/src/events/event-buffer.service.ts:54-72 | groups are the batch's events by workspace, and adding them in this order keeps each workspace's order |
| EventBatches.RunKeepsInv | api/src/events/event-buffer.service.ts:34-147 | in every interleaving of any number of `addBatch` calls and inserts: the buffer keeps its invariant, every added event stands at its recorded place of its call's queue, and everything before a call's next event was added, in order |
| EventBatches.BatchAddsPrefix | api/src/events/event-buffer.service.ts:65-71 | what a call has added is a prefix of its events taken group by group, whatever other calls and inserts did meanwhile |
| EventBatches.CompleteIffNoneFailedBefore | api/src/events/event-buffer.service.ts:49-71 | a call that has settled added all its events if and only if no insert that it awaited failed before its last add |
| EventBatches.BatchesGoOn | api/src/events/event-buffer.service.ts:49-71 | a call that has not settled can add its next event or awaits an insert that is under way |
| EventBatches.OneGroup | api/src/events/event-buffer.service.ts:54-71 | events of one workspace are added in the order given |
| EventBatches.CutShort | api/src/events/event-buffer.service.ts:49-71 | a run in which a batch of more than 500 events loses those after the five hundredth to a failed insert |
| EventBatches.AddBatchCalls.AddBatch | api/src/events/event-buffer.service.ts:54-65 | exactly the start of a call: its events grouped, in the order of their workspaces |
| EventBatches.AddBatchCalls.AddNextEvent | api/src/events/event-buffer.service.ts:67-71 | exactly one turn of the inner loop: the next event is added, and the insert that this starts is awaited |
| EventBatches.AddBatchCalls.InsertSucceeded | api/src/events/event-buffer.service.ts:49-51 | the call that awaits the insert goes on |
| EventBatches.AddBatchCalls.InsertFailed | api/src/events/event-buffer.service.ts:135-146 | the error ends the call that awaits the insert |
| SessionState.TouchSoundIffFits | sdk/src/core/session-state.ts:196-203 | writing a focus time to the current page keeps the log sound if and only if the focus time is at most the time since that page was entered |
| SessionState.TouchWritesCurrentPage | sdk/src/core/session-state.ts:191-203 | the current page gets the focus time as duration and the moment as exit; its path, number, entry and scroll depth and all other actions stay |
| SessionState.PageviewIsRecorded | sdk/src/core/session-state.ts:85-123 | below 1000 actions a pageview is recorded with its path, the next number and the time, and becomes current; the page before gets focus time and exit; beyond, nothing changes |
| SessionState.GoalIsRecorded | sdk/src/core/session-state.ts:142-187 | below 1000 actions a goal is recorded as given, with exactly the current page's number and path ("/" if empty), or page 1 and "/" without one; nothing else changes |
| SessionState.ScrollIsGreatest | sdk/src/core/session-state.ts:125-138 | after any readings the scroll depth is the greatest of what it was and of the readings, each cut to 0 to 100, and nothing else has changed |
| SessionState.PageviewKeepsOrdered | sdk/src/core/session-state.ts:85-123 | a pageview extends the log and keeps it numbered and below its limit |
| SessionState.PageviewKeepsLog | sdk/src/core/session-state.ts:85-123 | with a focus time that fits it keeps visits disjoint and in order, and the page timer may start again at zero |
| SessionState.GoalKeepsOrdered | sdk/src/core/session-state.ts:142-187 | a goal extends the log and keeps it numbered and below its limit |
| SessionState.GoalKeepsLog | sdk/src/core/session-state.ts:142-187 | it keeps visits as they are |
| SessionState.FocusNeverOverCounts | sdk/src/core/session-state.ts:97-111 | in a sound log the total focus time is at most the time from the first entry to the last exit |
| SessionState.NumbersFromOne | sdk/src/core/session-state.ts:308-319 | the log's own operations number pageviews from 1 if and only if the first call records one or none of the first 1000 does |
| SessionState.SessionStateStore.AddPageviewAt | sdk/src/core/session-state.ts:85-123 | the limit of 1000, finalization of the previous page, the next number, the new current page |
| SessionState.SessionStateStore.GetNextPageNumber | sdk/src/core/session-state.ts:308-319 | one more than the greatest page number |
| SessionState.SessionStateStore.FinalizeCurrentPageDuration | sdk/src/core/session-state.ts:297-306 | writes duration and exit of the current page and nothing else |
| SessionState.SessionStateStore.UpdateScrollTo | sdk/src/core/session-state.ts:125-138 | the clamped maximum of the current page's scroll depth |
| SessionState.SessionStateStore.AddGoalAt | sdk/src/core/session-state.ts:142-187 | the goal with the current page's path and number, or refusal at 1000 actions |
| SessionState.SessionStateStore.BuildPayload | sdk/src/core/session-state.ts:191-227 | the payload carries the log as updated at that moment |
| SessionState.SessionStateStore.FinalizeOnUnload | sdk/src/core/session-state.ts:231-243 | finalizes the current page and leaves none current |
| Heartbeat.ValidatedTiers | sdk/src/sdk.ts:699-728 | normalized tiers, also the default ones for an empty list, start at 0 and respect the minimum interval; they ascend if and only if no tier starts at a negative time |
| Heartbeat.SortTiersSorts | sdk/src/sdk.ts:704-705 | the tiers are sorted and none is lost |
| Heartbeat.SortTiersIsStable | sdk/src/sdk.ts:704-705 | tiers that start at the same time keep their order |
| Heartbeat.TiersAreKept | sdk/src/sdk.ts:699-728 | every tier is kept with its own desktop and mobile intervals, each raised to the minimum, behind a first default tier if none starts at 0 |
| Heartbeat.IntervalOfTier | sdk/src/sdk.ts:648-654 | the interval is that of the last tier reached, the mobile one exactly on mobile devices |
| Heartbeat.PingsKeepDistance | sdk/src/sdk.ts:494-497 | the next ping comes one interval after the last, or at once if that has passed, and never sooner than the minimum interval |
| Heartbeat.CurrentTierIsHighest | sdk/src/sdk.ts:623-643 | on ascending tiers the current tier is the highest that has been reached |
| Heartbeat.GetCurrentTier | sdk/src/sdk.ts:623-643 | the tier loop finds it |
| Heartbeat.ScheduleKeepsPageTime | sdk/src/sdk.ts:475-530 | scheduling never changes the page focus time, also when it stops the heartbeat for good |
| Sdk.RunKeepsInv | sdk/src/sdk.ts:285-423 | in every run of the SDK's events and of other documents' writes the log, the stored log and all payloads are numbered, storage keeps what was written or read last, and the focus ledger balances |
| Sdk.HandleKeepsInv | sdk/src/sdk.ts:285-530 | every handler keeps that, whenever it occurs |
| Sdk.NextLoadStartsWell | sdk/src/core/session-state.ts:247-289 | what a document leaves in storage is what the next page load's start is assumed to find |
| Sdk.PayloadActionLog | sdk/src/core/session-state.ts:85-187 | in every payload of every run, whatever other documents store, pageviews are numbered 1, 2, 3, ..., goals point to a page already seen, and there are at most 1000 actions |
| Sdk.FocusLedger | sdk/src/sdk.ts:455-470 | page focus time plus time discarded by resuming an active heartbeat is the true active time since the page timer was restarted; exact if and only if no event since then resumed an active heartbeat later than it had started |
| SdkActions.LogIsCalls | sdk/src/core/session-state.ts:85-187 | within a session, without a restore, the log grows by exactly one action for each pageview and each goal, in order, as given and at the time of the call, up to 1000, and by nothing else |
| SdkActions.SessionBegins | sdk/src/sdk.ts:225-249 | a page load continues what storage has of the session with a pageview of its path |
| SdkActions.ResetBegins | sdk/src/sdk.ts:972-999 | a reset begins the new session with page 1 |
| SdkActions.StoredIsRestored | sdk/src/core/session-state.ts:247-289 | what was stored is restored as it was |
| SdkActions.SendsIff | sdk/src/sdk.ts:362-386 | a step sends one payload or none: on a request, a goal, a reset, a ping that is due, or leaving the page for the first time since it was shown; the payload carries the session, the log as it then is, and the time |
| SdkActions.FlushedIff | sdk/src/sdk.ts:285-365 | a page counts as left exactly if it was left after it was last shown or focused, so that every leaving sends one final payload |
| SdkActions.ScrollStep | sdk/src/sdk.ts:362-423 | the current page's scroll depth takes the reading at each leaving, page change and ping, and at nothing else |
| SdkActions.StoresIff | sdk/src/sdk.ts:344-423 | storage gets the log after leaving a page, after entering one and on request, and nothing else of this document changes it, except that another session's log is removed on return |
| SdkActions.PingIsNoted | sdk/src/sdk.ts:503-525 | a ping that is sent is noted with its time and with the highest tier reached |
| SdkActions.SentFocusIsLive | sdk/src/core/session-state.ts:191-203 | while a page is current everything that is sent carries its focus time and exit as of that moment |
| SdkActions.PageIsCurrentIff | sdk/src/core/session-state.ts:231-243 | a page stays current exactly until it is first left, also when the visitor returns to it |
| SdkActions.FocusEndsWhenLeft | sdk/src/core/session-state.ts:231-243 | from then on its duration and exit stay what they were at that moment |
| SdkActions.GoalNamesPageIff | sdk/src/core/session-state.ts:142-187 | a goal names the page the visitor is on if and only if it was not left since it was entered, or is page 1 with the path "/" |
| SdkActions.ReturnIsNotCounted | sdk/src/sdk.ts:301-386 | a run in which a return costs 40 seconds of focus time and the page of a goal |
| SdkSession.SessionLedger | sdk/src/sdk.ts:428-593 | session time plus what waking an active heartbeat threw away is the time during which the heartbeat was active since its restart, over any number of interruptions |
| SdkSession.SessionTimeExactIff | sdk/src/sdk.ts:455-593 | session time never over-counts and is exact if and only if no active heartbeat was woken up |
| SdkSession.StoppedIff | sdk/src/sdk.ts:475-618 | the heartbeat is stopped for good if and only if the session time had reached the limit, or a tier without interval, at an event that arms a ping, or at the restart; then it is inactive |
| SdkSession.ActiveIff | sdk/src/sdk.ts:285-470 | otherwise it is active exactly if the last hiding, blur, freeze or pause was followed by an event that wakes it |
| SdkSession.PausedIff | sdk/src/sdk.ts:951-967 | tracking is paused exactly if it was paused after it was last resumed |
| SdkSession.PingSendsIff | sdk/src/sdk.ts:503-525 | a ping sends if and only if tracking is not paused, the heartbeat is active and the page is visible |
| SdkFocus.RunKeepsFocus | sdk/src/sdk.ts:285-530 | in every run whose restores fit, the log and what is stored stay sound and the focus time fits the current page |
| SdkFocus.RestoreKeepsFocusIff | sdk/src/sdk.ts:344-357 | a return from the back-forward cache keeps that if and only if the page's focus time fits the current page of the log it takes over |
| SdkFocus.PayloadFocusTime | sdk/src/sdk.ts:564-694 | in every payload of such a run visits are disjoint intervals in order, none in focus for longer than it lasted, and in all for at most the time from first entry to last exit |
| SdkFocus.FocusTimeIffRestoresFit | sdk/src/sdk.ts:344-357 | if every restore is followed by a payload, no payload of the run over-counts if and only if every restored page fits |
| SdkFocus.AloneRestoresFit | sdk/src/sdk.ts:344-357 | without writes by other documents every restored page fits |
| SdkFocus.OverCount | sdk/src/sdk.ts:344-357 | a run in which a page takes over a visit of 11 seconds and claims 70 for it |
| SdkFocus.NextLoadIsSound | sdk/src/core/session-state.ts:247-289 | what a document of such a run leaves in storage is sound for the next page load and for other documents |
| SdkFocus.FocusDurationBound | sdk/src/sdk.ts:813-837 | the focus duration read at any moment of such a run is at most the time since the first page was entered |
| SdkPayloads.CumulativeUnlessSentIsLost | sdk/src/sdk.ts:285-530 | a step keeps the log an extension of what was sent if and only if it is not a restore that lacks an action that was sent |
| SdkPayloads.PayloadsAreCumulative | sdk/src/core/session-state.ts:191-227 | every payload of a session extends its earlier ones, in every run without such a restore |
| SdkPayloads.CumulativeIffNothingSentIsLost | sdk/src/sdk.ts:344-357 | if every restore is followed by a payload, all payloads of the run are cumulative if and only if there is no such restore |
| SdkPayloads.LogGrowsUnlessLost | sdk/src/core/session-state.ts:267-289 | within a session a step keeps every logged action if and only if it is not a restore that lacks one logged since storage was last written or read |
| SdkPayloads.AloneLosesIff | sdk/src/core/session-state.ts:247-289 | without other documents a restore loses actions, or sent actions, if and only if more were logged, or sent, than storage holds |
| SdkPayloads.LossNeedsUnsavedUnload | sdk/src/sdk.ts:337-386 | after an unload a restore would lose actions if and only if there were unsaved ones and the unload saved nothing, because it was flushed already or the write failed |
| SdkPayloads.LostGoal | sdk/src/sdk.ts:311-386 | a run: blur, goal, unload, return from the cache, goal; the second goal takes the place of the first |
| SdkTab.TabActionLog | sdk/src/core/session-state.ts:85-187 | numbering, goals and the limit of 1000 in every payload over all page loads of a tab |
| SdkTab.TabStepExtendsIff | sdk/src/sdk.ts:225-530 | a step, also a page load, keeps the log an extension of what was sent if and only if it is not a restore or load that lacks an action that was sent |
| SdkTab.TabPayloadsAreCumulative | sdk/src/core/session-state.ts:191-227 | every payload of a session extends its earlier ones over all page loads, in every run without such a restore or load |
| SdkTab.TabCumulativeIff | sdk/src/sdk.ts:225-357 | if every restore is followed by a payload, as every load is, all payloads of the tab are cumulative if and only if there is no such restore or load |
| SdkTab.LoadKeepsWhatIsStored | sdk/src/core/session-state.ts:267-289 | a load loses nothing when storage has everything that was sent |
| SdkClient.StaminadsSdk.constructor | sdk/src/sdk.ts:225-249 | restore, first pageview, heartbeat and first payload: exactly the start of the machine |
| SdkClient.StaminadsSdk.OnVisibilityChange | sdk/src/sdk.ts:285-296 | exactly the machine's step for hidden or visible |
| SdkClient.StaminadsSdk.OnFocus | sdk/src/sdk.ts:301-306 | exactly the machine's step |
| SdkClient.StaminadsSdk.OnBlur | sdk/src/sdk.ts:311-314 | exactly the machine's step |
| SdkClient.StaminadsSdk.OnFreeze | sdk/src/sdk.ts:319-322 | exactly the machine's step |
| SdkClient.StaminadsSdk.OnResume | sdk/src/sdk.ts:327-332 | exactly the machine's step |
| SdkClient.StaminadsSdk.OnUnload | sdk/src/sdk.ts:337-339 | exactly the machine's step |
| SdkClient.StaminadsSdk.OnPageShow | sdk/src/sdk.ts:344-357 | exactly the machine's step, with the log restored last |
| SdkClient.StaminadsSdk.FlushOnceOnly | sdk/src/sdk.ts:362-386 | one final payload and save per hidden period |
| SdkClient.StaminadsSdk.OnNavigation | sdk/src/sdk.ts:391-423 | exactly the machine's step, with or without the heartbeat reset |
| SdkClient.StaminadsSdk.StartPinging | sdk/src/sdk.ts:428-450 | starts the heartbeat without accumulating, unless the limit was reached |
| SdkClient.StaminadsSdk.ResumePinging | sdk/src/sdk.ts:455-470 | resumes with fresh timing; the ledger notes what an active heartbeat loses |
| SdkClient.StaminadsSdk.ScheduleNextHeartbeat | sdk/src/sdk.ts:475-501 | stops for good at the limit or at a null interval, else sets a timer with that delay |
| SdkClient.StaminadsSdk.OnPingTimer | sdk/src/sdk.ts:503-529 | exactly the machine's step |
| SdkClient.StaminadsSdk.Stop | sdk/src/sdk.ts:564-582 | accumulates session and page time if asked to, and becomes inactive |
| SdkClient.StaminadsSdk.CheckAndUpdateMaxDuration | sdk/src/sdk.ts:598-618 | whether the limit is set and reached |
| SdkClient.StaminadsSdk.ResetHeartbeat | sdk/src/sdk.ts:659-671 | all timers at zero, page timer from now |
| SdkClient.StaminadsSdk.ResetPageTimer | sdk/src/sdk.ts:676-680 | page time at zero, session time kept |
| SdkClient.StaminadsSdk.GetFocusDuration | sdk/src/sdk.ts:813-837 | the loop computes the sum that the bound is about |
| SdkClient.StaminadsSdk.TrackPageViewAt | sdk/src/sdk.ts:852-875 | exactly the machine's step |
| SdkClient.StaminadsSdk.TrackGoalAt | sdk/src/sdk.ts:880-894 | exactly the machine's step up to its network call |
| SdkClient.StaminadsSdk.PauseTracking | sdk/src/sdk.ts:951-955 | exactly the machine's step |
| SdkClient.StaminadsSdk.ResumeTracking | sdk/src/sdk.ts:960-967 | exactly the machine's step |
| SdkClient.StaminadsSdk.ResetSession | sdk/src/sdk.ts:972-999 | exactly the machine's step: the new session's log starts with a pageview |
| Sender.RunKeepsInv | sdk/src/transport/sender.ts:74-140 | from any queue that an earlier load left, in every interleaving of enqueues and flushes, each item is in exactly one of delivered, expired, evicted, in flush, queued; the queue is sorted and is the newest 100 of an unbounded one; the 24 hour limit is kept |
| Sender.DeliveredOnce | sdk/src/transport/sender.ts:95-140 | no item is delivered from the queue more often than it was queued, nor delivered and still queued; what is left is a queue that the next load may start from |
| Sender.RecordsAreTrue | sdk/src/transport/sender.ts:82-126 | the queue's history is what storage had and every payload with the moment of its queueing, in order; delivered are the items whose sends succeeded, in order |
| Sender.FlushBegan | sdk/src/transport/sender.ts:95-122 | a flush under way began by going online with a non-empty queue, measures ages by that moment, and has left the end of the queue it took |
| Sender.FlushEnds | sdk/src/transport/sender.ts:101-136 | when a flush ends, at a send that returns or at once, the queue is the newest 100 of the failed items in order followed by those queued meanwhile; a flush that ends at once had only expired items |
| Sender.StampedWhenSent | sdk/src/transport/sender.ts:50-55 | every request from the queue carries a queued item, no older than 24 hours when the flush began, and a send time that is the time of sending and not before that of queueing |
| Sender.NewestOfNewest | sdk/src/transport/sender.ts:74-77 | trimming twice keeps the same items as trimming once |
| Sender.OfflineSender.EnqueuePayload | sdk/src/transport/sender.ts:82-90 | exactly the Enqueue step |
| Sender.OfflineSender.SaveQueue | sdk/src/transport/sender.ts:74-77 | stores the newest 100 items |
| Sender.OfflineSender.HandleOnline | sdk/src/transport/sender.ts:95-122 | exactly the Online step: nothing while flushing or empty, else up to the first send |
| Sender.OfflineSender.RunToNextSend | sdk/src/transport/sender.ts:114-136 | the flush loop from one send to the next, or to its end and the merge |
| Sender.OfflineSender.SendReturned | sdk/src/transport/sender.ts:122-126 | exactly the step of a send that returns |
| Sender.OfflineSender.SendSession | sdk/src/transport/sender.ts:177-201 | an offline browser queues at once, any other sends a freshly stamped request |
| Sender.OfflineSender.FetchSettled | sdk/src/transport/sender.ts:203-238 | of the failures only a timeout queues the payload |
| SessionPayloadHandler.TokensDetermineActions | api/src/events/session-payload.handler.ts:304-336 | two actions of a session share a token if and only if they are pageviews with one number or goals with one name and timestamp, whatever the name contains |
| SessionPayloadHandler.LogTokensDiffer | api/src/events/session-payload.handler.ts:304-336 | different actions of a log share a token if and only if they are goals of one name in one millisecond |
| SessionPayloadHandler.EventIdentity | api/src/events/session-payload.handler.ts:187-193 | key and version of an event do not depend on skew, geo data or filters |
| SessionPayloadHandler.PageviewRow | api/src/events/session-payload.handler.ts:96-114 | a pageview's row has the pageview's path, number, duration and scroll depth, and the path of the last pageview before it or none |
| SessionPayloadHandler.GoalRow | api/src/events/session-payload.handler.ts:319-345 | a goal's row has the goal's name, path, page number, value (0 if missing) and properties, and nothing of a pageview |
| SessionPayloadHandler.RowAttributes | api/src/events/session-payload.handler.ts:166-285 | every row has the payload's attributes with geo data, and filters change attributes only |
| SessionPayloadHandler.RowTimes | api/src/events/session-payload.handler.ts:396-424 | all times move by the clocks' difference if it exceeds five seconds, and not otherwise |
| SessionPayloadHandler.ClockSkewBound | api/src/events/session-payload.handler.ts:396-424 | with a constant client offset and delay d every stored timestamp is within 5000 + d ms of the true time, and exactly d late when corrected |
| SessionPayloadHandler.GapsKept | api/src/events/session-payload.handler.ts:287-352 | gaps and order inside a payload are unchanged by the correction |
| SessionPayloadHandler.Handler.GetWorkspace | api/src/events/session-payload.handler.ts:130-148 | the cached workspace while fresh, else the loaded one, which is cached for a minute; other entries are untouched |
| SessionPayloadHandler.Handler.InvalidateWorkspace | api/src/events/session-payload.handler.ts:150-164 | a change of filters or settings makes the next request load the workspace again |
| SessionPayloadHandler.Handler.DeserializeActions | api/src/events/session-payload.handler.ts:96-114 | the loop yields the event of every action, with the path of the pageview before it |
| SessionPayloadHandler.Handler.Handle | api/src/events/session-payload.handler.ts:46-128 | one event per action in order, with filters applied; none for a refused domain or no actions; an error without a workspace |
| Delivery.RunRows | api/src/events/session-payload.handler.ts:46-128 | in every run of the server the rows of a session are exactly the events that its calls of `addBatch` added, each a prefix of one payload's events |
| Delivery.StoredKeys | api/src/events/session-payload.handler.ts:79-125 | if all received payloads are prefixes of one log, then in any order, multiplicity and loss the stored keys are exactly the tokens of the longest part received |
| Delivery.LatestIsShown | api/src/events/session-payload.handler.ts:79-94 | for every action the table shows the event of the reception with the greatest time, then the last place in the buffer, among those that added the action |
| Delivery.LatestPageviewIsShown | api/src/events/session-payload.handler.ts:287-318 | for a pageview that is what this reception says: path, number, duration, scroll depth and the path before |
| Delivery.ShowsPayloadIff | api/src/events/session-payload.handler.ts:79-94 | the stored rows are those of a longest payload if and only if for every action the latest reception that added it carries that payload's event |
| Delivery.LastReceivedWins | api/src/events/session-payload.handler.ts:79-94 | in particular, if the last payload received is complete and a longest one |
| Delivery.StaleValuesOverwrite | api/src/events/session-payload.handler.ts:79-94 | otherwise values can go back: an older payload received later overwrites them |
| Delivery.EndToEndKeys | api/src/events/event-buffer.service.ts:54-147 | from any run over the page loads of a tab in which no restore or load loses what was sent, through any arrivals, any interleaving and failure of `addBatch` calls and any buffer run that drains: the table shows exactly the keys of the longest part of the log that was added |
| Delivery.EndToEndRowsIff | api/src/events/event-buffer.service.ts:54-147 | and exactly the events of a longest arrival if and only if the latest reception of every action carries them |
| Delivery.QueuedPayloadSkew | sdk/src/transport/sender.ts:145-153 | a payload that the offline queue sends is stamped at sending, so its stored times obey the skew bound however long it was queued |
| LikePattern.SubstringIffPlain | api/src/analytics/lib/filter-builder.ts:55-62 | `LIKE %v%` is substring search of v for all texts if and only if v has no wildcard and no escape that changes it |
| LikePattern.PlainIsSubstring | api/src/analytics/lib/filter-builder.ts:55-62 | for such v the pattern matches exactly the texts that contain v |
| FilterBuilder.FilterMeaning | api/src/analytics/lib/filter-builder.ts:20-105 | with the values they need and plain searches, compiled filters bind every placeholder and are true of a row if and only if every filter holds of it, under any larger parameter map |
| FilterBuilder.BuiltFiltersMeaning | api/src/analytics/lib/filter-builder.ts:11-106 | the same from the filters as given, through the catalogue |
| FilterBuilder.SearchMeaningIffPlain | api/src/analytics/lib/filter-builder.ts:55-62 | a search means what it promises for all values if and only if its text is plain |
| FilterBuilder.BoundIffHasValues | api/src/analytics/lib/filter-builder.ts:38-98 | all parameters of a condition are bound if and only if the filter has the values its operator needs, or it is a search |
| FilterBuilder.ParamNamesDiffer | api/src/analytics/lib/filter-builder.ts:36-96 | names of different filters, with their suffixes, never coincide, for any list length |
| FilterBuilder.ParamsSurvive | api/src/analytics/lib/filter-builder.ts:20-100 | later filters do not overwrite the parameters of earlier ones |
| FilterBuilder.QueryParamsDisjoint | api/src/analytics/lib/query-builder.ts:199-204 | merging date, filter and metric filter parameters loses none |
| FilterBuilder.LookupFails | api/src/analytics/lib/filter-builder.ts:25-33 | filters are refused if and only if one has an unknown field or one that the table lacks; the first such is reported |
| FilterBuilder.BuildFilters | api/src/analytics/lib/filter-builder.ts:11-170 | the loop with its index, for filters and for metric filters |
| FilteredTotals.TotalsPreserveMeaning | api/src/analytics/lib/query-builder.ts:117-197 | grouping, HAVING and the outer aggregate equal one aggregate over all rows whose group passes, for counts, sums, average goal value, bounce rate and conditional counts |
| FilteredTotals.MediansPreserveMeaning | api/src/analytics/lib/query-builder.ts:134-150 | merging the groups' states gives the median duration or scroll depth of all rows whose group passes |
| FilteredTotals.GroupingCommutes | api/src/analytics/lib/query-builder.ts:186-197 | summing per group and then over passing groups is summing over the rows of passing groups |
| FilteredTotals.AliasesAreUnique | api/src/analytics/lib/query-builder.ts:183-184 | after removing duplicates every inner alias names one aggregate, for any list of metrics |
| FilteredTotals.HavingMeaning | api/src/analytics/lib/query-builder.ts:96-107 | HAVING under the merged parameters keeps exactly the groups that are large enough and of which all metric filters hold |
| FilteredTotals.WhereMeaning | api/src/analytics/lib/query-builder.ts:86-94 | WHERE under the merged parameters keeps exactly the rows between the two dates of which all filters hold |
| FilteredTotals.FilteredTotalsMeaning | api/src/analytics/lib/query-builder.ts:55-207 | the three together for the whole query |
| FilteredTotals.AveragesAddIff | api/src/analytics/lib/query-builder.ts:173-179 | the summed average scroll depth, pages per session or exit rate is that of all rows whose group passes if and only if at most one group passes or none of those rows adds anything to it |
| FilteredTotals.UniquesAddIff | api/src/analytics/lib/query-builder.ts:173-179 | the summed numbers of different pages or sessions are those of all rows whose group passes if and only if none occurs in two passing groups |
| FilteredTotals.OtherMediansAreAdded | api/src/analytics/lib/query-builder.ts:173-179 | the other medians are summed over the groups |
| FilteredTotals.BuildTotals | api/src/analytics/lib/query-builder.ts:112-184 | the metric loop, and duplicates removed at their first place |
| Calendar.EnumerateBuckets | api/src/analytics/lib/date-utils.ts:195-209 | the loop ends and lists every hour, day, month or year bucket from start to end once and in order; for weeks every ISO week, and one more if and only if the end is a Sunday |
| Calendar.StepAdvancesIndex | api/src/analytics/lib/date-utils.ts:206-209 | adding a unit moves to the next bucket, also from the 31st and from February 29 |
| Calendar.LoopCondition | api/src/analytics/lib/date-utils.ts:206-209 | before-or-same is the same as not yet past the last bucket |
| Calendar.EveryMomentIsCovered | api/src/analytics/lib/date-utils.ts:195-209 | every moment from start to end falls into a listed bucket |
| Calendar.BucketsAscend | api/src/analytics/lib/date-utils.ts:206-209 | listed buckets ascend |
| FillGaps.FillGaps | api/src/analytics/lib/date-utils.ts:155-270 | the loops produce one row for every bucket and combination, in order: the last row with that key, or zeros |
| FillGaps.GapsFilled | api/src/analytics/lib/date-utils.ts:211-269 | the result is every input row once and otherwise rows of zeros, if and only if all rows are in range and no two share a key; then every metric's sum is unchanged |
| FillGaps.PlacesAt | api/src/analytics/lib/date-utils.ts:248-251 | the result has buckets times combinations rows, by bucket and then by combination |
| FillGaps.DistinctKeys | api/src/analytics/lib/date-utils.ts:234-246 | with values free of bars, keys are distinct if and only if no two rows share bucket and dimensions |
| FillGaps.GapRow | api/src/analytics/lib/date-utils.ts:254-265 | a gap has zero for every metric, and its dimensions come back through join and split if and only if no value has a bar |
| FillGaps.FormatInjective | api/src/analytics/lib/date-utils.ts:169-193 | two bucket starts print alike if and only if they are the same bucket |
| FillGaps.LabelReads | api/src/analytics/lib/date-utils.ts:169-193 | a label has year, month, day and hour at their places, as far as its unit goes |
| FillGaps.RowInGrid | api/src/analytics/lib/date-utils.ts:248-253 | a row's key is looked up if and only if its bucket is listed |
| FillGaps.BarsMergeRows | api/src/analytics/lib/date-utils.ts:243-245 | two different rows with one key |
| FillGaps.CollectRows | api/src/analytics/lib/date-utils.ts:231-246 | the combinations in order of first appearance and the last row of every key |
| FillGaps.FillGrid | api/src/analytics/lib/date-utils.ts:248-269 | the two nested loops visit every place in order |
| UserEventExport.PagesAreComplete | api/src/export/export.service.ts:50-164 | following next_cursor ends, and the pages together are the full filtered sorted list, if no two wanted rows share updated_at and id, for every limit |
| UserEventExport.CompleteIffCleanBoundaries | api/src/export/export.service.ts:50-164 | the pages together are the full list if and only if no tie straddles a page boundary, for every limit |
| UserEventExport.TieIsLost | api/src/export/export.service.ts:50-55 | two tied rows on two pages: the second is never delivered |
| UserEventExport.NextPage | api/src/export/export.service.ts:133-151 | the request with the next cursor is about exactly the rows not delivered, except rows that tie with the last one |
| UserEventExport.GetUserEvents | api/src/export/export.service.ts:22-159 | the conditions pushed select exactly the wanted rows; page, cursor and has_more follow from one row beyond the limit; both errors |
| CsvExport.CsvRoundTrip | console/src/lib/csv-utils.ts:9-126 | an RFC 4180 reader recovers the records for arbitrary strings, if and only if the last of several records is not a single empty field |
| CsvExport.FieldRoundTrip | console/src/lib/csv-utils.ts:9-16 | an escaped value reads back as the value before any separator |
| CsvExport.GenerateCSV | console/src/lib/csv-utils.ts:107-126 | the text of a report reads back as its headers and one record for each row, all with as many fields |
| CsvExport.GenerateCSVHeaders | console/src/lib/csv-utils.ts:21-50 | dimension labels, six headers, and eight more with a comparison |
| CsvExport.RowToCSVValues | console/src/lib/csv-utils.ts:55-102 | the values under those headers: missing and empty dimensions read `(empty)`, unknown numbers count as 0, the share is of all sessions, and missing comparison values are blank |
| CsvExport.ValuesMatchHeaders | console/src/lib/csv-utils.ts:21-102 | every value of a row stands under the header that promises it |
| SessionLink.LinkRoundTrip | sdk/src/core/cross-domain.ts:25-60 | for every plain session id and integer time decoding undoes encoding if the id is a UUID, and rejects the text otherwise |
| SessionLink.Base64RoundTrip | sdk/src/core/cross-domain.ts:25-41 | `atob` undoes `btoa` at all three length residues, with and without padding |
| SessionLink.EncodeIsUrlSafe | sdk/src/core/cross-domain.ts:25-30 | the text uses only the alphabet of section 5 of RFC 4648, without padding |
| SessionLink.LinksDiffer | sdk/src/core/cross-domain.ts:25-30 | different sessions or times have different links |
| SessionLink.JsonRoundTrip | sdk/src/core/cross-domain.ts:26-42 | the two-field JSON text reads back |
| SessionLink.LinkWindow | sdk/src/core/cross-domain.ts:237-270 | a link is accepted if and only if it is not older than the expiry and at most 60 seconds ahead |
| SessionLink.ReadParam | sdk/src/core/cross-domain.ts:237-270 | whatever the parameter's text, an accepted payload has a UUID and a time inside the window |
| Subscriptions.NextSendIsNextSlot | api/src/subscriptions/subscriptions.service.ts:298-334 | the result is the earliest strictly future moment with the schedule's hour and day, across week, month and year ends, a weekly schedule with a null day meaning Sunday; it is in the future if and only if the schedule has its day of month or its fallback day is ahead |
| Subscriptions.FallbackSend | api/src/subscriptions/subscriptions.service.ts:323-331 | a monthly schedule with a null day gets the last day of the month before, moved into this month |
| Subscriptions.CalculateNextSendAt | api/src/subscriptions/subscriptions.service.ts:298-334 | the branches compute it |
| Subscriptions.RunKeepsInv | api/src/subscriptions/subscriptions.service.ts:248-296 | in every run failures stay at most 5, visible subscriptions have fewer, and active ones have a next time |
| Subscriptions.DisabledIsFinal | api/src/subscriptions/subscriptions.service.ts:89-121 | no operation changes a disabled subscription |
| Subscriptions.FailuresAreCounted | api/src/subscriptions/subscriptions.service.ts:248-296 | without a success or deletion the counter is the number of failures, capped at 5, and the subscription is disabled if and only if that reached 5 |
| Subscriptions.ConsecutiveFailures | api/src/subscriptions/subscriptions.service.ts:248-296 | in every run the counter of a subscription that is not disabled is the number of failures since the last success or its creation; it is disabled if and only if its owner deleted it or a failure was the fifth in a row |
| Subscriptions.OthersAreUntouched | api/src/subscriptions/subscriptions.service.ts:89-231 | an operation changes only the subscription it names, only for its owner or the scheduler, and never a disabled one or an owner |
| Subscriptions.ScheduleFollows | api/src/subscriptions/subscriptions.service.ts:123-173 | an update changes the fields it gives and keeps the others; nothing else changes a schedule |
| Subscriptions.PausedIff | api/src/subscriptions/subscriptions.service.ts:175-215 | in every run a subscription that is not disabled is paused exactly if its owner paused it last, and else active |
| Subscriptions.NextTimeFollows | api/src/subscriptions/subscriptions.service.ts:27-274 | an active one's next time is the next slot of its present schedule as of the last creation, success, resumption or update; failures leave it |
| Subscriptions.SentIsNotDue | api/src/subscriptions/subscriptions.service.ts:233-274 | a report just sent is due again at once if and only if its schedule is monthly with a null day and the hour of the fallback day has begun |
| Subscriptions.SentAgainAndAgain | api/src/subscriptions/subscriptions.service.ts:123-274 | a run from the empty table in which that happens: daily, updated to monthly without a day, sent on March 29 |
| Subscriptions.SubscriptionsService.CreateSubscription | api/src/subscriptions/subscriptions.service.ts:27-71 | exactly the machine's operation: active, no failures, and due at the next slot |
| Subscriptions.SubscriptionsService.SendSucceeded | api/src/subscriptions/subscriptions.service.ts:248-274 | exactly the machine's operation |
| Subscriptions.SubscriptionsService.SendFailed | api/src/subscriptions/subscriptions.service.ts:276-296 | exactly the machine's operation |
| Subscriptions.SubscriptionsService.UpdateSubscription | api/src/subscriptions/subscriptions.service.ts:123-173 | exactly the machine's operation: a new time only while active |
| Subscriptions.SubscriptionsService.ResumeSubscription | api/src/subscriptions/subscriptions.service.ts:192-215 | exactly the machine's operation |
| Subscriptions.SubscriptionsService.PauseSubscription | api/src/subscriptions/subscriptions.service.ts:175-190 | exactly the machine's operation |
| Subscriptions.SubscriptionsService.DeleteSubscription | api/src/subscriptions/subscriptions.service.ts:217-231 | exactly the machine's operation |

## Left out

- Partitions by `received_at`, the 7 day TTL and the materialized views over the events table.
- ClickHouse itself: the meaning of LIKE, NULL, comparisons and typed parameters is stated in the model; a cell has a
  text and a number, and converting between them is not modelled.
- How the database computes a median, which is a parameter, and the rounding of averages, rates and medians.
- IANA time zones and daylight saving: times are local at a fixed offset; ISO text and years that print with a sign are
  not part of the bucket labels' theorem.
- SessionLink.ReadParam: does not read link payloads in other JSON forms than the one the SDK writes, such as other
  spacing, field order or additional fields, because JSON in general is not part of this model; session ids with
  characters that JSON would escape are not modelled either.
- JavaScript's rounding of integers above 2^53: times are unbounded integers.
- Domain checks and header parsing: whether a domain is allowed is a parameter of `Handle`; so are geo data.
- Server filters: one function from an event to the columns it writes, none of which takes part in keys or versions.
- Aliasing: payloads in the offline queue share action records with the log until they are serialized; the model copies.
- Custom dimensions, user id and attributes that change during a session: one unchanging set of attributes per session.
- When timers fire and the debounced send: those steps may occur at any moment, so the theorems hold for all timings.
- Beacon and fetchLater fallbacks, a queue or session shared across tabs, and storage that falls back to memory.
- Payloads that other documents of the tab send between a page's leaving and its return from the back-forward cache:
  what those documents store is modelled, what they send is not.
- `getBufferSize` and `flushAll`: reads and repetitions of steps that are modelled.
- Encoding of the paging cursor: it is carried as a decoded pair or as malformed.
- How JavaScript prints and reads numbers and durations in the CSV export, and the labels of dimensions: parameters.
- `fillGaps` for dimensions whose name differs from their column, which it reads as missing.
- The analytics result cache, query ordering and limits, and the query without totals beyond its filters.
- Mails, subscription names, metrics and filters, and a day out of range that is sent along with a frequency that does
  not validate it. That `dayjs` reads a null day as 0 is stated in the model; `dayjs` is not part of this model.
- Subscription ids are fresh, and the read and write of an operation are one step: concurrent operations on one
  subscription are not modelled.
