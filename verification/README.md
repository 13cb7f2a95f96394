# Agent Odometer: a model in Dafny

Agent Odometer reads the local transcripts of coding agents, keeps a history of their token usage, watches
their configuration files, raises notices, correlates usage with external events and can apply reversible
edits to configuration files. This project models the parts of its Rust backend whose correctness spans
several functions or a whole run, and proves what they promise. `dafny verify dfyconfig.toml` checks it.

| modules | what they model |
|---|---|
| `ActionJournal`, `ActionTables`, `ActionHistory`, `ActionEngine`, `ActionBatch` | the write-ahead action engine: backup, journal events, check-and-replace, undo, recovery by content hash, batches with reverse-order rollback; other programs write any files between any two steps, by a schedule fixed in advance and otherwise arbitrary, and any durable write can be the last one before a crash. A run is a sequence of moves: their edits, journal growth, and replacements under warrant and licence |
| `Attention`, `AttentionRuns`, `AttentionAlerts` | attention alerts: several services over one saved store, with watermarks, a bounded log, a rate limit, failing locks and saves, restarts and any clock |
| `Ambient`, `AmbientRuns`, `AmbientNotices` | edge-triggered ambient notices and the round that persists before it publishes |
| `ConfigMerge` | the three-way merge of a slow configuration scan with watcher callbacks |
| `StableHash`, `Scopes` | FNV-1a, and scope matching on hashed ancestors |
| `Buckets`, `Correlation`, `CorrelationFilter`, `CorrelationOrder`, `CorrelationReport`, `ParsedCorrelation` | correlation of sessions with events, its summary-level pre-filter, order independence and conservation |
| `LineReader`, `SessionLedger`, `SessionDetails`, `ClaudeParser`, `GeminiParser`, `ClaudeBilling`, `GeminiBilling`, `ParsedDetails` | the resumable read loop, and the stateful record fold of the two transcript parsers |
| `ProjectKeys`, `Projects`, `Settings` | merged project keys, project grouping, configuration normalization and the save path |

How to read it. Code that changes things step by step is a class or a method with loops, proved against a
function of its inputs or of the old state; the promises are then proved about those functions and over whole
runs. Reference definitions are kept apart from the code they judge: a journal's life cycles, a trace of file
changes, a table of stages for undo and recovery, the sums a log of prompts and replies calls for, the positions
of a transcript that can be billed, the candidates a round may announce, the sessions that contribute to a window.
Digests (`sha256`, the key digest of the alert store) are given functions; a theorem that needs them to tell
two contents apart says which two. Time is an integer number of nanoseconds, so that rounding to milliseconds
is explicit. Tokens are unbounded natural numbers; FNV-1a is computed modulo 2^64.

Where the code and its documentation disagree, the model follows the code, and the difference is a theorem:

- The pre-filter's documentation says that it never drops a session that would contribute. Session spans are
  compared at full precision while totals look at whole milliseconds, so a session can be dropped whose only
  event shares a millisecond with the query event (`CorrelationFilter.SameMillisecondIsMissed`). The exact
  condition is `Missed`; it cannot occur with times in whole milliseconds.
- Ambient conditions are documented as rearmed only by an observed resolution. Log pruning rearms them too,
  after 30 days or 500 newer entries (`AmbientRuns.ForgottenConditionRepeats`, exactly when:
  `AmbientRuns.ForgottenExactlyWhen`); the bound proved counts those evictions.
- A condition first seen while suppressed can be delivered late if that round fails to save
  (`AmbientRuns.UnsavedSuppressionIsLost`, exactly when: `AmbientRuns.ConsumedExactlyWhen`).
- An undo that crashed after its replacement cannot be completed by calling undo again; recovery must come
  first, and refuses once the second undo has recorded its conflict (`ActionEngine.UndoRetryIsNotRecovery`).
- Two configuration roots with different identities over one path can make a merge drop an unchanged file
  (`ConfigMerge.TwoRootsLoseAFile`).
- Reused turn ids leave turns in progress for good (`SessionLedger.ReusedPromptStaysOpen`), and Claude usage
  without a timestamp is in the total but not in the history (`SessionLedger.HistoryIsTotalExactlyWhen`).
- A chain of redirects that closes a cycle, possible only in a hand-edited database, does not bring its keys
  together (`ProjectKeys.RedirectSharesExactlyWhen`).
- A settings save relabels the file of a newer schema (`Settings.SaveOfLoadedExactlyWhen`) and reseeds Gemini when the
  payload omits it (`Settings.GeminiKeptExactlyWhen`).

## Model

| member | source | states |
|---|---|---|
| `ActionJournal.ValidJournalsAreLifeCycles` | src-tauri/src/action_executor.rs:338-361 | `validate_journal` accepts exactly the event maps of one of the seven started life cycles, all of whose records describe the transaction of `prepared`; both directions. |
| `ActionEngine.Engine.PublishEvent` | src-tauri/src/action_executor.rs:372-420 | An event is published exactly when it, and the journal with it added, are valid and no event of that kind exists; otherwise the disk is unchanged. Journals stay valid. |
| `ActionEngine.Engine.ReplaceNow` | src-tauri/src/action_executor.rs:691-706 | One atomic step: the target is replaced exactly when its current content has the expected hash, and nothing else changes. |
| `ActionEngine.Engine.WriteBackup` | src-tauri/src/action_executor.rs:668-673 | The backup is created exclusively and is never changed once it exists; an interruption leaves no event behind. |
| `ActionEngine.Engine.Prepare` | src-tauri/src/action_executor.rs:634-690 | Success means: fresh id, expected hash met, exact old bytes in the backup, `prepared` published, target untouched. Failure leaves the events as they were. |
| `ActionEngine.Engine.Commit` | src-tauri/src/action_executor.rs:691-724 | The target is replaced only while it hashes to the expected content, whatever others write. When nobody else writes it: exactly the old or the new bytes if it matched, left alone if not; uninterrupted, success exactly when it matched, with `applied` or `conflict` recorded accordingly. |
| `ActionEngine.Engine.ApplyTransaction` | src-tauri/src/action_executor.rs:634-724 | Over any interleaving with other programs and any interruption, it replaces only its target and only while that hashes to the expected content. If nobody else writes the target: exactly old or new bytes and the journal says which; content that does not match stays, and is a Conflict when the call is in good order; it succeeds whenever nothing stands in its way; a used id changes nothing. |
| `ActionEngine.Engine.UndoTransaction` | src-tauri/src/action_executor.rs:726-766 | It replaces only its target and only while that holds what its journal says the action wrote. If nobody else writes the target: every possible end, interrupted or not; uninterrupted, success exactly when journal, backup and content are in place, and otherwise the content stays and the refusal is recorded once; answer, slot and content are given for every stage of the journal and every content of the target. A tampered journal gives InvalidJournal with no journal and not the target changed and nothing replaced, while others work on other files. |
| `ActionEngine.Engine.MarkUndone` | src-tauri/src/action_executor.rs:752-765 | Over restored bytes it publishes `undone` and nothing else; a failure leaves the journal at `applied`. |
| `ActionEngine.Engine.RecoverTransaction` | src-tauri/src/action_executor.rs:768-828 | Replaces nothing; decides by content hash; uninterrupted, verdict, journal and target are as decided, whatever happens to other files. For every valid journal with its backup, by stage: `aborted` or `undone` is added only over content with the old hash, `applied` only over content with the new one; any other content, and any recorded refusal, is a Conflict that writes nothing. A tampered journal gives InvalidJournal with no journal and not the target changed and nothing replaced, while others work on other files. |
| `ActionEngine.DecisionWritable` | src-tauri/src/action_executor.rs:768-828 | Whatever event recovery decides on, its journal can take. |
| `ActionEngine.DecideIdempotent` | src-tauri/src/action_executor.rs:768-828 | After the decided event has been published, deciding again settles on the same verdict, also when both hashes are equal. |
| `ActionEngine.Engine.RecoverTwice` | src-tauri/src/action_executor.rs:768-828 | Two recoveries in a row, with other programs at work on other files, return the same verdict; the second changes no journal and not the target. |
| `ActionEngine.RecoverStep` | src-tauri/src/action_executor.rs:768-828 | From every state a transaction can be in without interference, one recovery, interrupted or not, leads to another such state. |
| `ActionEngine.RecoverVerdict` | src-tauri/src/action_executor.rs:768-828 | A concluded recovery's verdict agrees with the journal and with the bytes of the target. |
| `ActionEngine.DecideAgain` | src-tauri/src/action_executor.rs:768-828 | After a recovery has concluded, deciding again publishes nothing and comes to the same verdict or error. |
| `ActionEngine.ByStage` | src-tauri/src/action_executor.rs:768-828 | On every disk, recovery is what the table of stages says: verdict, event added and content by stage and content hash; a failure without effect when journal or backup do not read back. |
| `ActionEngine.UndoByStage` | src-tauri/src/action_executor.rs:726-766 | On every disk, undo is what the table of stages says: only an applied, not yet undone journal over its new content is taken back; errors and the one refusal event otherwise. |
| `ActionTables.RollbackByStage` | src-tauri/src/action_executor.rs:599-613 | Recovery by the table followed by undo by the table is rollback by a table of its own: the old content is back, or nothing has changed and the conflict is reported. |
| `ActionEngine.UndoEventWritable` | src-tauri/src/action_executor.rs:735-765 | The journal of an undo can always take `undone`, and `undo-conflict` exactly when it has none yet. |
| `ActionEngine.UndoableInFlight` | src-tauri/src/action_executor.rs:726-751 | Without interference, a transaction can be undone exactly when it is applied and still holds its new content. |
| `ActionEngine.UndoStep` | src-tauri/src/action_executor.rs:726-766 | An undo keeps a transaction in a known state; success means undone with its old content, an uninterrupted failure of an applied one records the refusal. |
| `ActionEngine.TamperedIsRefused` | src-tauri/src/action_executor.rs:338-370 | Every invalid non-empty event map makes undo and recovery stop with InvalidJournal before any write. |
| `ActionEngine.Engine.RollbackFailedAttempt` | src-tauri/src/action_executor.rs:599-613 | It replaces only the target and only while that holds what the journal says was written; other content stays. From every point an apply can stop at, it ends with the exact old bytes and succeeds exactly when no earlier undo was refused; for every stage of the journal and every content of the target the outcome is given. A tampered journal gives InvalidJournal with no journal and not the target changed and nothing replaced, while others work on other files. |
| `ActionHistory.TracedAppend` | src-tauri/src/action_executor.rs:691-706 | A replacement with a warrant keeps the trace truthful: the engine overwrites only the bytes its journal entitles it to. |
| `ActionHistory.TracedGrows` | src-tauri/src/action_executor.rs:372-420 | Warrants never expire, because event maps and backups only grow. |
| `ActionHistory.ContinuesFacts` | src-tauri/src/action_executor.rs:520-828 | Every run keeps its past, stays accounted for (its trace holds other programs' edits exactly as scheduled, warranted replacements, and nothing else), keeps every journal sound, and replaces only under licence. |
| `ActionEngine.UndoRetryIsNotRecovery` | src-tauri/src/action_executor.rs:726-828 | An undo cut off between its replacement and its event must be finished by recovery: a second undo finds a hash mismatch and records a refusal; from then on, on any disk, recovery stops with Conflict and an undo is possible exactly when the new bytes are back; it then leaves a journal that recovery calls undone. |
| `ActionHistory.ExternalBytesKept` | src-tauri/src/action_executor.rs:691-706 | At any moment of an accounted run, the bytes in a file stay until another program writes it or they are exactly what a journal entitles the engine to replace. |
| `ActionHistory.ForeignBytesSpared` | src-tauri/src/action_executor.rs:691-751 | Over any stretch of any run, content that no licence covers survives until another program writes the file, whoever wrote it and at whatever moment. |
| `ActionHistory.UndisturbedBytesKept` | src-tauri/src/action_executor.rs:691-751 | A file that nobody else is scheduled to write still holds content that no licence covers. |
| `ActionBatch.CrashAndRollBack` | src-tauri/src/action_executor.rs:599-613 | An apply cut short anywhere, then any sequence of retries each cut short anywhere, then one complete rollback: the target holds the old bytes, and nothing but its expected and its written content was ever replaced. |
| `ActionBatch.ApplyItem` | src-tauri/src/action_executor.rs:568-597 | One item, interrupted or not: on success the batch has advanced by exactly this item, on failure the attempt is in a state rollback can close. |
| `ActionBatch.UndoLast` | src-tauri/src/action_executor.rs:580-593 | Undoing the last applied item of a chain puts the content before that item back and leaves every other attempt alone. |
| `ActionBatch.RollBack` | src-tauri/src/action_executor.rs:580-597 | Reconciling the failing item and undoing in reverse order closes every attempt and restores every file nobody else writes, whatever others did to the remaining targets; the error of the item itself is reported when nothing goes wrong on the way back. |
| `ActionBatch.ApplyBatch` | src-tauri/src/action_executor.rs:568-597 | All or nothing for 1 to 16 items with repeated targets: on Ok each file holds its last replacement, on Err every file nobody else writes is byte-identical to its start and no attempt is left open. On every file, at any moment, content that is neither what an item expects there nor what it writes there survives the batch, failing or not, until somebody else writes the file. It fails only if some item is obstructed; the first item in good order that does not find its content makes it a Conflict when the items before it are unobstructed. |
| `Attention.ConsumeExactly` | src-tauri/src/attention.rs:366-402 | The candidate loop takes exactly the candidates that are neither below the watermark nor in the log, whether or not the rate limit lets one be alerted: log, watermark, last alert and chosen signal are those of what was taken. |
| `Attention.ConsumeFacts` | src-tauri/src/attention.rs:366-412 | What the candidate loop does to the store, stated without the loop: watermark, log, last alert and at most one chosen signal. |
| `Attention.ChosenWhenNew` | src-tauri/src/attention.rs:366-412 | A signal is alerted exactly when the rate limit allows it and some candidate is neither below the watermark nor in the log. |
| `Attention.DigestCandidates` | src-tauri/src/attention.rs:359-412 | The imperative loop computes that function, including the eviction of expired watermarks and of the oldest log entries. |
| `Attention.TrimmedLogStillNew` | src-tauri/src/attention.rs:410-415 | Cutting the log to 512 entries never hides that something was appended, so a changed store is always saved. |
| `Attention.PublishFacts` | src-tauri/src/attention.rs:351-424 | Every publish call: unexpired watermarks survive and never move back, an alert becomes visible only when the saved file already records its watermark and time, and the bounds hold. |
| `Attention.SavedSettles` | src-tauri/src/attention.rs:384-423 | A publish that saves the store leaves a watermark over everything it consumed, alerts the first of it or nothing, and leaves the latest alert less than 30 s old and not earlier than before. |
| `Attention.PublishServiceFacts` | src-tauri/src/attention.rs:351-424 | A failed publish leaves file and service as they were; a successful one keeps the preferences and at most 20 alerts. |
| `Attention.AttentionService.Publish` | src-tauri/src/attention.rs:351-424 | The method has exactly the effect of the specified function on file and service; if a signal is chosen, the list is the newest 20 of the old alerts and one alert with that signal's id, session, category and time, and otherwise it is unchanged. |
| `Attention.AttentionService.Observe` | src-tauri/src/attention.rs:275-350 | Same for observe, with the table update: newest observation kept, least recent session evicted over the limit. |
| `Attention.AttentionService.SavePreferences` | src-tauri/src/attention.rs:248-274 | Same for saving preferences: refused unless valid, locked, loadable and of the current revision. |
| `Attention.AttentionService.Refresh` | src-tauri/src/attention.rs:425-445 | A snapshot first adopts the store on disk, which is authoritative; an unreadable store makes the service unavailable. |
| `Attention.Oldest` | src-tauri/src/attention.rs:313-322 | The evicted session is one that was observed least recently. |
| `AttentionRuns.LimitsStep` | src-tauri/src/attention.rs:165-181 | Every step of every service keeps seen ≤ 512, watermarks ≤ 100, observations ≤ 100, alerts ≤ 20 and valid preferences. |
| `AttentionRuns.AlertsAreSpaced` | src-tauri/src/attention.rs:359-423 | In every run of any number of services over one store, under any clock, consecutive alerts are at least 30 s apart and the saved file records the latest one. |
| `AttentionRuns.SettledStep` | src-tauri/src/attention.rs:326-423 | In every step, under any clock, what was consumed stays settled: under a saved watermark, or so old that every alert the rate limit still allows is about something later. |
| `AttentionRuns.ReplayStep` | src-tauri/src/attention.rs:326-412 | In every step, under any clock, an alert is about a later moment than all earlier alerts of its session. |
| `AttentionRuns.NoSignalAlertedTwice` | src-tauri/src/attention.rs:326-412 | In every run of any number of services over one store, however the clock jumps, each alert of a session is about a later moment than all before it, across restarts, preference changes, log and watermark eviction and failed saves; so no (session, signal) pair is alerted twice. |
| `AttentionRuns.ConsumedIsNotAlerted` | src-tauri/src/attention.rs:384-412 | In every such run, whatever a saved publish consumed, alerted or held back by the rate limit, is never alerted afterwards by any service: every later alert of its session is about a later moment. |
| `AttentionAlerts.AlertedExactlyWhen` | src-tauri/src/attention.rs:351-412 | A publish call raises an alert exactly when it can lock, load, agree with and save the store, there is room for a watermark, thirty seconds have passed, and some candidate is newer than its session's watermark and not in the log. |
| `AttentionAlerts.ObservedAlertsExactlyWhen` | src-tauri/src/attention.rs:275-350 | An observation raises an alert exactly when the session is watched, the append is live, the store allows it and some signal is wanted (category, tool kind, age, not before the preferences, not in the future) and new; and it is the first such signal. |
| `AttentionAlerts.ClosesExactlyWhen` | src-tauri/src/attention.rs:340-350 | A service closes exactly when a live observation has something to publish and lock, load, agreement or a needed save fails; it then shows nothing and has changed nothing on file. |
| `AttentionAlerts.ClosedStaysSilent` | src-tauri/src/attention.rs:275-285 | A closed service raises nothing, and only an accepted change of preferences opens it. |
| `AttentionAlerts.PublishedLists` | src-tauri/src/attention.rs:416-422 | What a publish call does to the list of alerts, on every store and service. |
| `AttentionAlerts.ShowsNewestRaised` | src-tauri/src/attention.rs:248-445 | In every run, each service shows exactly the newest twenty of the alerts it has raised since its list was last cleared. |
| `AttentionAlerts.ArmedWhenAdopted` | src-tauri/src/attention.rs:268-274 | In every run, a service counts from when it last adopted preferences: opened, saved, or found changed on file. |
| `AttentionAlerts.NothingFromBefore` | src-tauri/src/attention.rs:326-336 | In every run, no alert is about a signal older than the preferences it is raised under, nor about one in the future. |
| `AttentionAlerts.NoLostUpdate` | src-tauri/src/attention.rs:255-268 | In every run, no two accepted changes of preferences name the same revision, by whichever services. |
| `Ambient.Evaluate` | src-tauri/src/ambient.rs:83-139 | The loop computes the specified evaluation, entry by entry. |
| `Ambient.EvaluateAllFacts` | src-tauri/src/ambient.rs:83-139 | A condition is armed afterwards exactly when it was or is a candidate; an armed one is not delivered; at most one delivery; none on a baseline or after a failed save. |
| `Ambient.RetainArmed` | src-tauri/src/ambient.rs:92-93 | A resolved condition is disarmed, and only those. |
| `Ambient.PruneArmed` | src-tauri/src/quota_store.rs:270-296 | For every log and every set of live-account rules, a condition is armed after pruning exactly when an entry arming it is within retention and the newer recent entries and those of rules together are fewer than 500. |
| `Ambient.PrunedFree` | src-tauri/src/quota_store.rs:270-296 | Pruning leaves, of the entries no rule protects, the newest of the recent ones in the order of the stable sort, as many as the entries of rules leave room for. |
| `Ambient.PruneMembers` | src-tauri/src/quota_store.rs:270-296 | Pruning invents nothing, and only rules keep an entry past retention. |
| `Ambient.PruneBound` | src-tauri/src/quota_store.rs:267-296 | At most 500 entries remain, unless there are more rules than that. |
| `Ambient.SortPlaces` | src-tauri/src/quota_store.rs:270-296 | The stable sort by time leaves behind each entry exactly those that are newer, or as new and further down. |
| `Ambient.SortPermutes` | src-tauri/src/quota_store.rs:270-296 | Sorting keeps every entry. |
| `AmbientRuns.BudgetsKeepArmed` | src-tauri/src/quota.rs:1316-1362 | Rebuilding the log as a map sorted by key, with the budget entries rewritten, arms and disarms no condition. |
| `AmbientRuns.AmbientMonitor.Check` | src-tauri/src/commands.rs:5275-5501 | One round on the monitor's fields and the log file is one turn of the state machine. |
| `AmbientRuns.TurnFacts` | src-tauri/src/commands.rs:5427-5488 | Deliveries in one turn are paid for by disarming: resolution or eviction. |
| `AmbientRuns.DeliveriesAreEdges` | src-tauri/src/ambient.rs:80-139 | Over any run with restarts and failed saves, deliveries of one condition are at most one plus its saved resolutions plus the evictions of its log entry. |
| `AmbientRuns.NeverLateExactlyWhen` | src-tauri/src/ambient.rs:80-82 | From any state, a condition is delivered only after a resolution or an eviction, in all continuations, exactly when it is armed. |
| `AmbientRuns.ConsumedExactlyWhen` | src-tauri/src/commands.rs:5427-5488 | After a round that reports a condition, suppressed or not, it is never delivered late exactly when the round was saved and the entry outlasts pruning, or was not saved and the condition was armed before. |
| `AmbientRuns.FailuresThenReported` | src-tauri/src/commands.rs:5478-5488 | Any number of failed rounds and restarts, then a saved round that still reports the condition: nothing has been delivered, and nothing will be late. |
| `AmbientRuns.FailureSuppresses` | src-tauri/src/commands.rs:5478-5488 | A failed save delivers nothing and keeps the log; the next round delivers nothing. |
| `AmbientRuns.ForgottenExactlyWhen` | src-tauri/src/quota_store.rs:270-296 | For every log and rules, an armed condition is forgotten by a saved round exactly when every entry arming it is past retention, or newer recent entries and those of rules reach the limit. |
| `AmbientRuns.ForgottenByAge` | src-tauri/src/quota_store.rs:270-296 | Within the entry limit, exactly age makes a saved round forget. |
| `AmbientRuns.ActiveIsNotForgotten` | src-tauri/src/ambient.rs:97-101 | A condition that is still reported is never forgotten, however full the log, unless the entries from now or later and those of rules are more than 500 together. |
| `AmbientRuns.ActiveSurvives` | src-tauri/src/ambient.rs:95-101 | In particular never while the entries of the stored log from now or later, what the round pushes after its evaluation and the rules leave room for two entries for each of the 100 candidates. |
| `AmbientRuns.ForgottenConditionRepeats` | src-tauri/src/ambient.rs:80-82 | Counterexample, from any time on: without a resolution, a condition neither reported nor resolved for longer than the retention age is delivered twice. |
| `AmbientRuns.UnsavedSuppressionIsLost` | src-tauri/src/commands.rs:5478-5488 | Counterexample: a condition first seen while suppressed, in a round whose save fails, can be delivered later without a resolution. |
| `AmbientNotices.QuietHoursAre` | src-tauri/src/quota.rs:1250-1263 | The test on hours is membership on the clock face: (hour - start) mod 24 < (end - start) mod 24, past midnight and for empty ranges too. |
| `AmbientNotices.NoticesExactly` | src-tauri/src/ambient.rs:92-139 | An evaluation delivers exactly the first mention of every condition that is not armed, by an enabled, fresh candidate not from the future, with notifications on and neither hour quiet: one notice each, in order, with its code and time; nothing on a baseline or after a failed save. |
| `AmbientNotices.AlertsExactly` | src-tauri/src/commands.rs:5280-5292 | A round publishes exactly that if it is saved and no baseline (initialized, last save fine, at most a minute since the last check and the clock not back, quiet hours not just over), and otherwise nothing. |
| `AmbientNotices.RuntimeAfter` | src-tauri/src/commands.rs:5290-5292 | The runtime a round leaves: checked now, failed exactly when not saved, quiet exactly when the clock was in quiet hours. |
| `AmbientNotices.NoticesAreLogged` | src-tauri/src/ambient.rs:122-136 | Every notice delivered is on the log as recent, and entries that are not about a candidate's condition stay. |
| `ConfigMerge.Differences` | src-tauri/src/config_events.rs:370-388 | The differing keys of the two tracked parts, each once, and no others. |
| `ConfigMerge.MergeTracked` | src-tauri/src/config_events.rs:422-462 | The emitted changes are exactly the reportable ones, each starts from the value just before it, and replaying them over the old snapshot gives the new one. |
| `ConfigMerge.MergeBaseline` | src-tauri/src/config_events.rs:464-477 | The second loop takes scanned values of newly tracked roots only. |
| `ConfigMerge.MergeDiscovery` | src-tauri/src/config_events.rs:415-481 | The merged snapshot, the tracked roots and the emitted list, key by key, with the replay law. |
| `ConfigMerge.ThreeWayMerge` | src-tauri/src/config_events.rs:415-481 | With one root per path: a value changed since the scan began stays, any other managed value becomes the scanned one; each report has old = value before and new = value after. |
| `ConfigMerge.ReportedRoot` | src-tauri/src/config_events.rs:446-451 | A change is reported under the root that found the file, or else the first root that covers its path. |
| `ConfigMerge.NewerKeptExactlyWhen` | src-tauri/src/config_events.rs:442-477 | The scans that can overwrite a newer observation, for all snapshots: exactly those that find an observed file under a tracked root while the root covering its path was not tracked. |
| `ConfigMerge.ScanTakenExactlyWhen` | src-tauri/src/config_events.rs:442-477 | An undisturbed key takes its scanned value, a file found or a file gone, exactly under the stated root condition. |
| `ConfigMerge.TwoRootsLoseAFile` | src-tauri/src/config_events.rs:422-462 | Counterexample: with two roots over one path an unchanged file is dropped and reported removed. |
| `ConfigMerge.ConfigStore.RecordChange` | src-tauri/src/config_events.rs:587-620 | One watcher callback: the snapshot takes the current value, a change is logged exactly when it differs and its root is tracked; the log keeps explaining the snapshot. |
| `ConfigMerge.ConfigStore.Discover` | src-tauri/src/config_events.rs:622-717 | A discovery that finishes after any number of callbacks appends exactly its reportable changes; replaying the whole log over the first snapshot still gives the current one on paths tracked from the start. |
| `ConfigMerge.StillChained` | src-tauri/src/config_events.rs:415-481 | Appending a chained list to a log that explains the snapshot keeps every old value right. |
| `StableHash.Fnv1a64` | src-tauri/src/stable_hash.rs:2-9 | The loop is the fold of the step function from the offset basis, within 64 bits. |
| `StableHash.MultiplyInjective` | src-tauri/src/stable_hash.rs:6-7 | Wrapping multiplication by the prime is injective modulo 2^64. |
| `StableHash.StepInjective` | src-tauri/src/stable_hash.rs:4-8 | One step is injective in the hash and in the byte. |
| `StableHash.FoldConcat` | src-tauri/src/stable_hash.rs:2-9 | Hashing a concatenation continues from the hash of its first part. |
| `StableHash.OneByteDetected` | src-tauri/src/stable_hash.rs:2-9 | For any prefix and suffix, the hashes agree exactly when the one byte between them does. |
| `Scopes.NormalizeIdempotent` | src-tauri/src/correlation.rs:133-138 | Normalizing a scope twice is normalizing it once. |
| `Scopes.RedactedScopeMatches` | src-tauri/src/correlation.rs:153-164 | The truncating loop ends and finds a match exactly when some cut of the path hashes to the scope. |
| `Scopes.CutsAreScopes` | src-tauri/src/correlation.rs:153-164 | The cuts of a normalized path are, up to trailing slashes, exactly the scopes it lies within. |
| `Scopes.RedactedMeansWithin` | src-tauri/src/correlation.rs:146-164 | With a hash that separates the scope from the path and its ancestors, the redacted match holds exactly when the path equals the scope or starts with scope + "/". |
| `Scopes.RedactionLosesOnlyNestedScopes` | src-tauri/src/correlation.rs:166-191 | Compared with the plain scope, the redacted one loses exactly the events below the session's own directory. |
| `Buckets.AddBucketLookup` | src-tauri/src/correlation.rs:197-206 | Adding a bucket adds its tokens to its own key and changes no other. |
| `Buckets.AddBucketUnique` | src-tauri/src/correlation.rs:197-206 | Keys stay unique. |
| `Buckets.AddBucketsSum` | src-tauri/src/correlation.rs:197-206 | Nothing is lost or invented: the sums add up. |
| `Buckets.SortedIsCanonical` | src-tauri/src/correlation.rs:441-449 | A sorted list with unique keys is determined by what it says about each key. |
| `Correlation.PartitionPoint` | src-tauri/src/model.rs:1028-1038 | The binary search finds the boundary of a chronological history. |
| `Correlation.SelectPoints` | src-tauri/src/model.rs:1028-1056 | Slicing a chronological history or filtering any other selects exactly the points of the inclusive window. |
| `Correlation.Correlate` | src-tauri/src/correlation.rs:382-436 | The nested loops give, for every event and side, the accumulation over all sessions. |
| `CorrelationFilter.PrefilterLossless` | src-tauri/src/correlation.rs:352-376 | If no session is missed and events lie within their spans, correlating the candidates gives the same observations as correlating all sessions. |
| `CorrelationFilter.PrefilterExact` | src-tauri/src/correlation.rs:327-376 | Dropping a non-candidate is harmless for every content it may have exactly when it is not missed. |
| `CorrelationFilter.AlignedTimesMissNothing` | src-tauri/src/correlation.rs:272-289 | With event times and session starts in whole milliseconds nothing is missed. |
| `CorrelationFilter.MissedCanCount` | src-tauri/src/correlation.rs:352-376 | Every missed session has a content that changes an observation. |
| `CorrelationFilter.SameMillisecondIsMissed` | src-tauri/src/correlation.rs:327-376 | Counterexample: a session whose event shares its millisecond with a later query event is missed. |
| `CorrelationOrder.AccumulatePermuted` | src-tauri/src/correlation.rs:398-436 | Permuting the sessions changes no observation, up to the order inside bucket lists. |
| `CorrelationOrder.CorrelateAt` | src-tauri/src/correlation.rs:382-480 | Each result is a report on its event with every bucket list in canonical order; what a report says is `CorrelationReport.ReportSays`. |
| `CorrelationOrder.ReportIgnoresOrder` | src-tauri/src/correlation.rs:382-480 | Permuted sessions give equal reports. |
| `CorrelationOrder.ReportIgnoresFilter` | src-tauri/src/correlation.rs:352-480 | Reports on the candidates are exactly the reports on all sessions. |
| `CorrelationOrder.RangeConserves` | src-tauri/src/model.rs:1011-1056 | The buckets of a range hold exactly the tokens of its points that name a model. |
| `CorrelationOrder.BucketsConserve` | src-tauri/src/correlation.rs:228-262 | The buckets of a harness sum to what its sessions brought in. |
| `CorrelationReport.ReportSays` | src-tauri/src/correlation.rs:438-480 | Token and session deltas are after minus before, of the sums over the points and of the numbers of contributing sessions; readiness is three sessions on both sides; completeness is the clock reaching the end of the days after; confounders are the ids of the other events around this one with a shared scope, in order. |
| `CorrelationReport.AccumulatesExactly` | src-tauri/src/correlation.rs:228-262 | Each side holds exactly what the contributing sessions bring in: tokens, turns, milliseconds, tool counters, and for every harness, model and tier its own tokens. |
| `CorrelationReport.RelevantTakesPart` | src-tauri/src/correlation.rs:166-191 | A session takes part exactly when subagents are wanted or it is none, no rival event excludes the sample, and harness and scope fit: a hash of its directory or an ancestor, or a path above or below it. |
| `CorrelationReport.FallsInWindow` | src-tauri/src/correlation.rs:267-289 | A point counts exactly when its millisecond is among the days before the event's millisecond, or is that one or among the days after. |
| `CorrelationReport.BucketsSay` | src-tauri/src/model.rs:1011-1056 | The buckets of a session say of every model and tier what its points in the window say. |
| `ParsedCorrelation.SpanExactlyWhenStartsFirst` | src-tauri/src/correlation.rs:327-351 | A parsed session meets the filter's assumption exactly when nothing in its transcript was recorded for a time before its start. |
| `ParsedCorrelation.FilterIgnoresNothingParsed` | src-tauri/src/correlation.rs:352-376 | End to end: reports on the candidates among parsed transcripts are reports on all of them. |
| `LineReader.OffsetPastLastNewline` | src-tauri/src/claude_parser.rs:91-110 | The offset ends just past the last newline. |
| `LineReader.ResumingIsContinuing` | src-tauri/src/claude_parser.rs:81-130 | Stopping and resuming on any file that keeps the consumed bytes is the same as not stopping. |
| `LineReader.Reader.ParseToEnd` | src-tauri/src/claude_parser.rs:81-139 | Whatever file the reader had caught up with: if the consumed bytes are still there, or the file has shrunk below them, state and offset are those of one fresh parse. |
| `LineReader.Reader.FollowFile` | src-tauri/src/claude_parser.rs:81-139 | Any sequence of appends cut at any byte, and of rewrites by something shorter than what had been consumed, with a parse after each, ends in the state of one parse of the final bytes, at the end of its complete lines. |
| `LineReader.ParsingIsFolding` | src-tauri/src/claude_parser.rs:90-130 | Parsing a file is folding over the records of its complete lines; undecodable lines are skipped. |
| `SessionLedger.StepExplained` | src-tauri/src/claude_parser.rs:366-588 | Every prompt or reply keeps all accumulators equal to the sums that the log of prompts and replies calls for: totals, per-model totals, history with running totals, tool calls, turn ids, indices, statuses and tokens, and conservation over turns. |
| `SessionLedger.ReplyTurn` | src-tauri/src/claude_parser.rs:553-587 | One reply changes exactly the turn found first under the open prompt's id, and gives it the status and tokens the log calls for. |
| `SessionLedger.SettledTurn` | src-tauri/src/claude_parser.rs:366-375 | A new prompt leaves every earlier turn with the status the log calls for. |
| `SessionLedger.SettledExactlyWhen` | src-tauri/src/claude_parser.rs:366-388 | At most the latest turn is in progress exactly when no prompt but the latest reuses the id of an earlier one. |
| `SessionLedger.ReusedPromptStaysOpen` | src-tauri/src/claude_parser.rs:366-388 | Counterexample: prompts a, a, b leave the second turn in progress for good. |
| `SessionLedger.HistoryMissesUntimed` | src-tauri/src/claude_parser.rs:532-556 | The total is the sum of the history plus the charges that carry no time. |
| `SessionLedger.HistoryIsTotalExactlyWhen` | src-tauri/src/claude_parser.rs:532-556 | The total is the sum of the history exactly when no charge lacks a time. |
| `SessionLedger.RunningTotals` | src-tauri/src/gemini_parser.rs:332-345 | When every charge has a time, each point's running total is the sum of the deltas up to it. |
| `SessionLedger.AccumulatorsObey` | src-tauri/src/claude_parser.rs:532-560 | Any law of token totals that sums keep holds of every accumulator if it holds of every charge. |
| `ClaudeParser.Parser.HandleUser` | src-tauri/src/claude_parser.rs:347-389 | The method has the specified effect: the open turn is settled, one turn is appended and becomes current; nothing on filtered records. |
| `ClaudeParser.Parser.TakeNewTools` | src-tauri/src/claude_parser.rs:478-503 | The loop takes each tool id once, skipping empty and known ones. |
| `ClaudeParser.Parser.HandleAssistant` | src-tauri/src/claude_parser.rs:439-588 | The method has the specified effect on session, seen ids and current turn. |
| `ClaudeParser.Parser.ApplyRecord` | src-tauri/src/claude_parser.rs:149-214 | One record changes the parser object exactly as specified, for every kind of record. |
| `ClaudeParser.StepMirrors` | src-tauri/src/claude_parser.rs:149-214 | Every record keeps parser state and transcript in agreement: session exists, its identity and start, seen ids, thread name, and every accumulator. |
| `ClaudeParser.ParsedMirrors` | src-tauri/src/claude_parser.rs:149-588 | For every transcript, the parser state is what the transcript as a whole calls for; the name is the latest custom title or else the earliest summary. |
| `ClaudeParser.FileMirrors` | src-tauri/src/claude_parser.rs:81-130 | The same for every file, through the records of its complete lines. |
| `ClaudeParser.ApplyAll` | src-tauri/src/claude_parser.rs:90-130 | The parser object, record by record, computes the fold the reader uses. |
| `ClaudeParser.FollowTranscript` | src-tauri/src/claude_parser.rs:81-139 | End to end: a file followed through any appends cut at any byte, and any rewrites by something shorter, ends in the state its complete lines call for, with the offset at their end. |
| `ClaudeParser.BilledExactlyWhen` | src-tauri/src/claude_parser.rs:463-556 | A message is billed exactly when its first record can be: non-empty id, session opened by then, positive usage; and for that record's usage. |
| `ClaudeParser.BilledOnce` | src-tauri/src/claude_parser.rs:463-463 | No message id is billed twice. |
| `ClaudeParser.SessionAccounts` | src-tauri/src/claude_parser.rs:532-587 | Every accumulator keeps cached + cache creation ≤ input and total = input + output; total_turns is the number of completed turns; exact conditions for the history and for open turns. |
| `ClaudeParser.SpansItsEvents` | src-tauri/src/claude_parser.rs:161-167 | The session spans its events exactly when nothing was recorded for a time before its start; the end always covers them. |
| `ClaudeBilling.TotalsCharge` | src-tauri/src/claude_parser.rs:670-692 | A charge repeats the reported numbers: cache reads and cache writes each in their own field, the rest of the input besides, output, no reasoning, and the sum of all four as total. |
| `ClaudeBilling.ChargedAsReported` | src-tauri/src/claude_parser.rs:463-556 | A message is charged with given tokens exactly when a billed record of it reports those numbers. |
| `ClaudeBilling.TotalsAreReported` | src-tauri/src/claude_parser.rs:532-547 | Every field of the session's total, and of each model's, is the sum of that reported number over the billed records. |
| `ClaudeBilling.HistoryIsReported` | src-tauri/src/claude_parser.rs:548-560 | The history has one point for each billed record with a time, in order, with that record's time, model, tier (a speed other than standard, or else the service tier) and numbers, and the sum up to it. |
| `ParsedDetails.ClaudeShows` | src-tauri/src/claude_parser.rs:347-588 | The session is labelled with the newest model, tier and context fill; each turn begins with its prompt, shows the newest model, tier and time of the replies under it and lasts until then; each tool call is one of a reply, at its time and under its prompt. |
| `ParsedDetails.ClaudeTurns` | src-tauri/src/claude_parser.rs:347-389 | The turns are, in order, exactly the human prompts with an id, outside sidechains unless the transcript is a subagent's, in an opened session. |
| `ParsedDetails.ClaudeIdentity` | src-tauri/src/claude_parser.rs:218-290 | The session is named and dated by the first record with a time that names it: a subagent by its agent id, others by the session id, else by the file stem. |
| `GeminiParser.Parser.ObserveCalls` | src-tauri/src/gemini_parser.rs:297-328 | The loop observes each new tool id once. |
| `GeminiParser.Parser.HandleGemini` | src-tauri/src/gemini_parser.rs:279-376 | The method has the specified effect on session, seen ids and current turn. |
| `GeminiParser.Parser.ApplyRecord` | src-tauri/src/gemini_parser.rs:128-165 | One record changes the parser object exactly as specified, with nothing counted before the header. |
| `GeminiParser.ParsedMirrors` | src-tauri/src/gemini_parser.rs:128-376 | For every transcript, the parser state is what the transcript as a whole calls for. |
| `GeminiParser.FileMirrors` | src-tauri/src/gemini_parser.rs:68-126 | The same for every file, through the records of its complete lines. |
| `GeminiParser.ApplyAll` | src-tauri/src/gemini_parser.rs:77-118 | The parser object, record by record, computes the fold the reader uses. |
| `GeminiParser.FollowTranscript` | src-tauri/src/gemini_parser.rs:68-126 | End to end: a file followed through any appends cut at any byte, and any rewrites by something shorter, ends in the state its complete lines call for, with the offset at their end. |
| `GeminiParser.BilledExactlyWhen` | src-tauri/src/gemini_parser.rs:286-350 | A message is billed exactly when its first record after the header has a time and positive usage, and for that usage. |
| `GeminiParser.BilledOnce` | src-tauri/src/gemini_parser.rs:286-286 | No message id is billed twice. |
| `GeminiParser.SessionAccounts` | src-tauri/src/gemini_parser.rs:330-375 | tokens_total is the sum of the history deltas; total_turns is the number of completed turns; reasoning ≤ output and total = input + output everywhere; exact condition for open turns. |
| `GeminiParser.HistoryRuns` | src-tauri/src/gemini_parser.rs:332-345 | Each point's running total is its prefix sum. |
| `GeminiBilling.TotalsCharge` | src-tauri/src/gemini_parser.rs:450-470 | A charge repeats the reported numbers: input with what was cached in it, thoughts as part of the output, and their sum as total. |
| `GeminiBilling.ChargedAsReported` | src-tauri/src/gemini_parser.rs:286-350 | A message is charged with given tokens exactly when a billed record of it reports those numbers. |
| `GeminiBilling.TotalsAreReported` | src-tauri/src/gemini_parser.rs:330-340 | Every field of the session's total, and of each model's, is the sum of that reported number over the billed records. |
| `GeminiBilling.HistoryIsReported` | src-tauri/src/gemini_parser.rs:338-345 | The history has one point for each billed record, in order, with that record's time, model and numbers, and the sum up to it. |
| `ParsedDetails.GeminiShows` | src-tauri/src/gemini_parser.rs:235-376 | Labels, turns and tool calls of a Gemini session are what its prompts and replies call for. |
| `ParsedDetails.GeminiTurns` | src-tauri/src/gemini_parser.rs:235-277 | The turns are, in order, exactly the user records with an id and some text after the header. |
| `SessionDetails.ReplayShows` | src-tauri/src/claude_parser.rs:347-588 | Whatever the log of prompts and replies: labels, turn times, models and durations, and tool calls of the session it builds up are those of the log. |
| `ProjectKeys.ResolveCanonical` | src-tauri/src/history_store.rs:6138-6154 | The chase ends for all rows, cyclic ones included, and returns the specified key. |
| `ProjectKeys.CanonicalRepeats` | src-tauri/src/history_store.rs:6133-6154 | It stops at the first key that comes back, or where redirects end. |
| `ProjectKeys.CanonicalIdempotent` | src-tauri/src/history_store.rs:6138-6154 | A canonical key is its own canonical key, whatever cycles the rows contain. |
| `ProjectKeys.RedirectSharesExactlyWhen` | src-tauri/src/history_store.rs:6138-6154 | A redirected key shares the project of its target exactly when it is not on a cycle. |
| `ProjectKeys.CanonicalIsFinal` | src-tauri/src/history_store.rs:6138-6154 | Without cycles, the canonical key redirects no further. |
| `ProjectKeys.KeyReaches` | src-tauri/src/history_store.rs:6159-6179 | The loop answers reachability, both directions. |
| `ProjectKeys.MergeCyclesExactlyWhen` | src-tauri/src/history_store.rs:1464-1470 | A merge creates a cycle exactly when the target already leads to the merged key. |
| `ProjectKeys.MergedOffCycle` | src-tauri/src/history_store.rs:1464-1470 | Whatever cycles there are, a merge whose target does not lead back puts none through the merged key. |
| `ProjectKeys.ProjectOverrides.Merge` | src-tauri/src/history_store.rs:1458-1479 | For all rows, cyclic ones included: refused exactly when it would merge a key into itself or the target already leads to it; afterwards both keys share a project. Without cycles: refused exactly when it would close one, and rows stay acyclic. |
| `ProjectKeys.ProjectOverrides.Unmerge` | src-tauri/src/history_store.rs:1483-1494 | The key stands for itself again, for all rows; acyclic rows stay acyclic. |
| `Projects.CountSessions` | src-tauri/src/commands.rs:4462-4494 | Every session with an effective key is counted under that key, and only those keys have entries. |
| `Projects.GroupEntries` | src-tauri/src/commands.rs:4511-4533 | Each project gathers exactly the entries whose canonical key it is, and their counts. |
| `Projects.GroupingPartitions` | src-tauri/src/commands.rs:4449-4565 | Entries and projects together partition the sessions. |
| `Projects.ResolveProjects` | src-tauri/src/commands.rs:4449-4565 | Session counts are exact and sum to the number of sessions with an effective key; every raw key is a member of exactly one project, once. |
| `Projects.ReassignMovesOne` | src-tauri/src/commands.rs:4462-4494 | Reassigning one session moves exactly that session from the project of its key so far to the project of its new key. |
| `Settings.NormalizedInStep` | src-tauri/src/config.rs:214-262 | Normalizing brings provider map and flat mirror into step, and changes exactly the configurations that are not. |
| `Settings.NormalizedIdempotent` | src-tauri/src/config.rs:214-262 | Normalizing twice is normalizing once. |
| `Settings.Preserve` | src-tauri/src/commands.rs:1636-1660 | The loop keeps every previously saved non-builtin provider unless the payload has its own entry. |
| `Settings.SaveKeeps` | src-tauri/src/commands.rs:1636-1660 | After a save: the payload's flat roots win, the receipt and foreign providers of the previous file survive, and the entry of every provider is determined. |
| `Settings.SaveOfLoadedExactlyWhen` | src-tauri/src/config.rs:214-262 | Saving an unchanged configuration writes it back unchanged exactly under the stated conditions; a newer schema's version is relabelled. |
| `Settings.GeminiKeptExactlyWhen` | src-tauri/src/commands.rs:1636-1660 | A payload without a Gemini entry forgets that Gemini was switched off; exact condition. |

## Left out

- File permissions, symlink and ACL checks, private directories and temporary files of the action engine: replacing a file and publishing an event are single steps.
- The race between the last hash check and the rename, which the source names as a known residue: check and replace are one step.
- ActionBatch.ApplyBatch: assumes fresh ids (they are random in the source) and a hash that separates the contents each item overwrites and writes.
- ActionBatch.CrashAndRollBack: when an earlier undo was refused, the rollback reports an error and the old bytes are there; finishing such a journal is not promised by the source.
- Decoding of JSON and checks of UTF-8: a line decodes to an optional record, and lengths count characters.
- `extract_user_prompt`, message previews, working directory, CLI version and storage ids of parsed sessions: a record says whether it passes as a prompt; the rest would only add copied fields.
- Tool results, tool classification and `telemetry::refresh_session`: derived from the observed calls.
- ClaudeParser.SpansItsEvents: a record timestamped before the session's start is allowed, and is exactly what breaks the span.
- ProjectKeys.ResolveCanonical: display labels in the same rows are not modelled.
- Projects.ResolveProjects: labels, provenance, the list of reassigned session keys and the final order are not modelled.
- Settings.Preserve: settings that neither operation touches are one opaque field.
- The derivation of signals from a session (`attention::signals`), the visible-alert filter of `snapshot`, sorting of preference lists (sets here) and the hexadecimal format check of store keys.
- How budget and live-account notices are decided, and their baseline policy: the entries they leave in the log, push after a round's evaluation and protect from pruning are arbitrary inputs of every round.
- `ambient::recent`: a read-only projection.
- The order in which configuration changes are emitted, debouncing, log rotation and file discovery.
- Correlation.Correlate: tool metrics are reduced to five additive counters, and the metrics of a selection are a given function.
- Pricing, budgets, quotas, diagnostics, instruction inventory, the Codex parser, history storage and the user interface.
