# oc-proxy-downloader core, modelled in Dafny

oc-proxy-downloader is a download manager for 1fichier and related file
hosts. It has a Python/FastAPI server and a Svelte web interface. This
project models the pieces of it that decide things, and proves what those
decisions promise:

- **`EventSource`**: the browser-side manager of the server-sent event
  stream. It routes each frame: a frame is ignored, delivered at once, or
  coalesced per download id for 50 ms and then delivered as one batch.
  It also reconnects with a capped linear back-off. The browser's clock,
  timer table and transport handles are explicit state. The proofs cover
  both single events and runs of events.
- **`DownloadCore`**: the download manager of the download core. It holds
  - the registered, local-1fichier and running ids, and the stop flags;
  - the admission test and the 1fichier cooldown;
  - the scheduler that starts waiting downloads. It serves proxy rows
    first, then local rows not from 1fichier, then at most one local
    1fichier row, oldest first and capped at five.
- **`ServiceDownloadManager`**: the smaller admission set of the download
  service, and the cap it keeps when `start` follows `can_start`.
- **`RetryPolicy`**: the general retry decision, and the automatic retry
  of 1fichier downloads.
- **`FileNaming`**: the collision-free numbered file names, and the
  renaming of a finished `.part` file.
- **`WaitStore`** and **`Auth`**: the store of host-imposed waits and the
  per-address login lock-out, both over an injected clock.
- **`FileHelpers`**: total size, progress throttling, validation of a
  finished file, and the resume decision.
- **`Downloader`**: the status guards of the start, resume, pause, retry
  and delete routes.
- **`ProxyManager`**: the unused-proxy ordering, the `ip:port` usage
  upsert, and the search for a working proxy.
- **`I18nClient`** and **`I18nServer`**: translation lookup with
  fallbacks, `{name}` substitution, the language choice and the
  translation caches.
- **`ErrorHandling`**: the exception classification and the `safe_execute`
  wrapper.
- **`Common`**: the link allow-list.
- **`Logging`** and **`Logger`**: the log-level filter and once-only
  logging. `Logger` models `backend/logger.py`; `log_once` and
  `clear_log_cache` in `backend/utils/logging.py` are a copy of the same
  code, with their own set.

`Text` (ASCII case mapping, substring search, replacement, decimal
rendering) and `Wrappers` (`Option`) are shared helpers.

Conventions:
- Every clock is an integer number of milliseconds, passed in by the
  caller.
- A database query is an input sequence of rows, in request order.
- The file system is the set of paths that exist.
- A network test is the set of addresses that pass it.
- Where the server's code keeps state in a class or a module-level
  dictionary, the model is a Dafny `class`. Its methods are specified by
  pure functions, and the properties are proved about those functions.

## Model

| member | source | states |
|---|---|---|
| EventSource.RouteOf | frontend/src/EventSource.js:26-78 | heartbeat and connection frames are ignored; a `status_update` without `data` is dropped; a `status_update` that is not stopped, done, failed or downloading with progress above 0 is coalesced under its own payload; every other frame is delivered at once |
| EventSource.MapSet | frontend/src/EventSource.js:115 | `Map.set` grows the queue by one exactly when the key is new |
| EventSource.MapSetSpec | frontend/src/EventSource.js:115 | after `set` the key occurs once and holds the new entry; every other key keeps its value and its position; keys stay distinct |
| EventSource.Payloads | frontend/src/EventSource.js:141 | the batch data is the queued updates' `data`, one per entry, in queue order |
| EventSource.Init | frontend/src/EventSource.js:3-8 | a fresh manager satisfies the invariant, has delivered nothing and has no open handle |
| EventSource.QueueUpdateInv | frontend/src/EventSource.js:111-126 | queueing an update keeps the invariant: the old flush timer is cancelled, one new flush timer is due 50 ms from now, and no other timer changes |
| EventSource.FireInv | frontend/src/EventSource.js:93-95 | firing a due timer, whichever action it runs, keeps the invariant |
| EventSource.StepInv | frontend/src/EventSource.js:10-164 | every enabled event (handler call, timer, clock advance) keeps the invariant |
| EventSource.RunInv | frontend/src/EventSource.js:10-164 | every run of enabled events keeps the invariant |
| EventSource.SingleFlushTimer | frontend/src/EventSource.js:117-125 | at most one flush timer is ever pending, and one is pending exactly while updates are queued |
| EventSource.SilentFrames | frontend/src/EventSource.js:26-39 | undecodable text, heartbeat and connection frames and a `status_update` without `data` leave the whole state unchanged |
| EventSource.ImmediateFrame | frontend/src/EventSource.js:42-64 | an urgent frame is handed to the handle's callback once, if there is one, and the queue, timers and debounce timer are untouched |
| EventSource.CoalescedFrame | frontend/src/EventSource.js:66 | a non-urgent update replaces the queued entry for its id in place or is appended; other ids keep value and position; nothing is delivered; every flush timer is due 50 ms from now; non-flush timers survive |
| EventSource.FlushBatch | frontend/src/EventSource.js:128-146 | an empty queue is a no-op; otherwise exactly one batch of all queued data, in insertion order, goes to the first entry's callback (none when that callback is missing) and the queue ends empty |
| EventSource.BatchOnePerId | frontend/src/EventSource.js:128-146 | a batch holds one update per download id |
| EventSource.ErrorSchedulesReconnect | frontend/src/EventSource.js:80-96 | an error increments the attempt count; up to 15 it adds exactly one reconnect timer after the back-off; beyond 15 it schedules nothing; the queue and deliveries are unchanged |
| EventSource.ReconnectDelays | frontend/src/EventSource.js:91 | the back-off for attempts 1 to 15 is 1.5 s, 2 s, ..., 8 s, 8 s; it never decreases and never exceeds 8 s |
| EventSource.OpenResets | frontend/src/EventSource.js:21-24 | opening a connecting handle makes it open and resets the attempt count to 0 |
| EventSource.DisconnectKeepsReconnects | frontend/src/EventSource.js:152-164 | after `disconnect` there is no handle, no queue, no debounce timer and no flush timer, yet every other pending timer is kept |
| EventSource.ReconnectRevives | frontend/src/EventSource.js:99-109 | a reconnect timer closes the handle and schedules a connect 1000 ms later; that connect creates a new handle with the remembered callback, whether or not `disconnect` ran in between |
| EventSource.TimersAloneDeliverNothing | frontend/src/EventSource.js:93-108 | with nothing queued, timers and the clock alone deliver nothing and queue nothing |
| EventSource.NoDeliveryAfterDisconnect | frontend/src/EventSource.js:152-164 | after `disconnect`, no run of timers and clock advances delivers anything |
| EventSource.CoalescedFrames | frontend/src/EventSource.js:51-68 | builds one `status_update` frame per payload, in order |
| EventSource.BurstCoalesces | frontend/src/EventSource.js:111-126 | a burst of non-urgent updates for one id leaves one entry holding the last update; other ids keep their entries; nothing is delivered; a flush is pending |
| EventSource.TwoUpdatesQueued | frontend/src/EventSource.js:111-126 | two updates for one id on an empty queue leave one entry holding the second; the first flush timer is cancelled and the second is due 50 ms later |
| EventSource.CoalescedRoute | frontend/src/EventSource.js:66 | a non-urgent `status_update` is exactly a `queueUpdate` with the handle's callback |
| EventSource.UpdateOnEmpty | frontend/src/EventSource.js:111-126 | the first queued update is queued alone and its flush takes the next timer id |
| EventSource.UpdateOnSameKey | frontend/src/EventSource.js:111-126 | an update for the one queued id replaces it and moves the flush to a new timer |
| EventSource.TwoUpdatesOneBatch | frontend/src/EventSource.js:111-146 | two updates for one id, then 50 ms: exactly one batch, holding only the second update, reaches the callback, and the queue ends empty |
| EventSource.FlushAfterDelay | frontend/src/EventSource.js:123-146 | once the flush timer is due and fires, the queued entry is delivered as a batch of one |
| EventSource.EventSourceManager.constructor | frontend/src/EventSource.js:3-8 | the fields start as the initial state |
| EventSource.EventSourceManager.SetTimeout | frontend/src/EventSource.js:93 | a timer is added under the next id |
| EventSource.EventSourceManager.Connect | frontend/src/EventSource.js:10-19 | stores the callback, opens a new handle and keeps the invariant |
| EventSource.EventSourceManager.OnOpen | frontend/src/EventSource.js:21-24 | the new state is the `open` transition |
| EventSource.EventSourceManager.OnMessage | frontend/src/EventSource.js:26-78 | the new state is the message transition chosen by the route |
| EventSource.EventSourceManager.OnError | frontend/src/EventSource.js:80-96 | the new state is the `error` transition |
| EventSource.EventSourceManager.Reconnect | frontend/src/EventSource.js:99-109 | the new state is the `reconnect` transition |
| EventSource.EventSourceManager.QueueUpdate | frontend/src/EventSource.js:111-126 | the new state is the queueing transition and keeps the invariant |
| EventSource.EventSourceManager.FlushUpdates | frontend/src/EventSource.js:128-146 | the new state is the flush transition |
| EventSource.EventSourceManager.IsConnected | frontend/src/EventSource.js:148-150 | true exactly when a handle exists and is open |
| EventSource.EventSourceManager.Disconnect | frontend/src/EventSource.js:152-164 | the new state is the `disconnect` transition and keeps the invariant |
| EventSource.EventSourceManager.FireTimer | frontend/src/EventSource.js:93-95 | the browser runs a due timer's action and keeps the invariant |
| EventSource.EventSourceManager.AdvanceClock | frontend/src/EventSource.js:93 | the clock moves on and nothing else changes |
| DownloadCore.CountActive | backend/core/download_core.py:2525-2527 | the number of rows that are downloading, proxying or parsing |
| DownloadCore.CountActiveLocalFichier | backend/core/download_core.py:2529-2533 | the count is 0 exactly when no row is a running local 1fichier row |
| DownloadCore.ActiveIds | backend/core/download_core.py:2565-2567 | exactly the ids of the rows that are downloading, proxying or parsing |
| DownloadCore.CooldownRemaining | backend/core/download_core.py:2253-2265 | 0 before any 1fichier completion and once 5 s have passed; otherwise the positive time left of the 5 s |
| DownloadCore.CanStart | backend/core/download_core.py:2206-2251 | refused at 5 registered downloads; a 1fichier url is admitted exactly when the totals allow it, no local 1fichier download is registered, none runs in the database (when the query works) and the cooldown is over; any other url only needs the total below 5 |
| DownloadCore.FichierAdmission | backend/core/download_core.py:2206-2251 | outside the cooldown, a 1fichier download is admitted exactly when the totals allow it and no local 1fichier row runs |
| DownloadCore.WaitingIds | backend/core/download_core.py:2576-2582 | every pending row of the lane whose id is not excluded is listed, and the list is no longer than the rows |
| DownloadCore.WaitingInOrder | backend/core/download_core.py:2576-2600 | the waiting list is exactly the ids of the lane's non-excluded pending rows, in request order |
| DownloadCore.WaitingMembers | backend/core/download_core.py:2577-2621 | each waiting id is not excluded and belongs to a row of its lane |
| DownloadCore.LaneNotFichier | backend/core/download_core.py:2594-2597 | the proxy lane and the other-local lane never hold a local 1fichier row |
| DownloadCore.WaitingDistinct | backend/core/download_core.py:2577-2621 | no id waits twice in a lane |
| DownloadCore.NextWaiting | backend/core/download_core.py:2576-2590 | each query of a scheduler loop, with the ids started so far excluded, returns the next waiting id in request order, or nothing at the end |
| DownloadCore.RestoreCooldown | backend/core/download_core.py:2538-2550 | once the cooldown is over, exactly the cooling-down local 1fichier rows become pending; nothing else changes |
| DownloadCore.MarkNextCooldown | backend/core/download_core.py:2267-2289 | the oldest pending local 1fichier row, when there is one, becomes cooling down, and no other row changes |
| DownloadCore.PlanFromSteps | backend/core/download_core.py:2576-2626 | the three lane picks together are the scheduler's plan |
| DownloadCore.PlanRespectsCap | backend/core/download_core.py:2556-2611 | nothing starts at 5 running downloads, and running plus started never exceeds 5 |
| DownloadCore.PlanStartsWaitingRows | backend/core/download_core.py:2561-2621 | every started id is a pending row that neither the manager nor the database counts as running |
| DownloadCore.PlanOneFichier | backend/core/download_core.py:2592-2626 | the first two lanes start no local 1fichier row; the third starts at most one, and only when none runs and the cooldown is over |
| DownloadCore.PlanProxyFirst | backend/core/download_core.py:2575-2590 | proxy rows start oldest first, and every waiting proxy row starts before any row of another lane |
| DownloadCore.PlanFillsRoom | backend/core/download_core.py:2576-2626 | each lane starts as many of its oldest waiting rows as the free slots left allow; a 1fichier row starts exactly when a slot is left, none runs, the cooldown is over and one waits |
| DownloadCore.DownloadManager.constructor | backend/core/download_core.py:2174-2199 | all sets and flags empty, no completion time, no check yet |
| DownloadCore.DownloadManager.CanStartDownload | backend/core/download_core.py:2206-2251 | answers the admission decision and changes nothing |
| DownloadCore.DownloadManager.Get1fichierCooldownRemaining | backend/core/download_core.py:2253-2265 | answers the remaining cooldown |
| DownloadCore.DownloadManager.RegisterDownload | backend/core/download_core.py:2423-2444 | a known id changes nothing; a new id is registered, keeps a stop flag written before it (set or clear) and otherwise gets a clear one, and is counted as local 1fichier only for a 1fichier url without a proxy; registered ids always have a flag |
| DownloadCore.DownloadManager.ResetStopFlag | backend/core/download_core.py:1826-1827 | the id's stop flag becomes a fresh clear one, registered or not; nothing else changes |
| DownloadCore.DownloadManager.RegisterGeneralDownload | backend/core/download_core.py:1826-1829 | resetting the flag and then registering leaves the id registered with a clear flag, local 1fichier only when new with a 1fichier url and no proxy |
| DownloadCore.DownloadManager.UnregisterDownload | backend/core/download_core.py:2450-2472 | removes the id everywhere; the completion time is set only for a completed local 1fichier download |
| DownloadCore.DownloadManager.StopDownloadImmediately | backend/core/download_core.py:2489-2498 | succeeds exactly for an id with a stop flag and sets that flag; changes nothing else |
| DownloadCore.DownloadManager.IsDownloadStopped | backend/core/download_core.py:2500-2508 | true exactly when the id has a stop flag and it is set |
| DownloadCore.DownloadManager.StartWaitingDownload | backend/core/download_core.py:2641-2680 | the id ends among the running ids |
| DownloadCore.DownloadManager.StartFromLane | backend/core/download_core.py:2576-2608 | one scheduler loop starts the oldest waiting rows of the lane that fit, and adds them to the excluded and running ids |
| DownloadCore.DownloadManager.CheckAndStartWaitingDownloads | backend/core/download_core.py:2510-2626 | unless forced, nothing happens within 5 s of the last check; otherwise the rows are restored or marked for the cooldown and exactly the plan is started |
| DownloadCore.DownloadManager.StartFichierRequest | backend/core/download_core.py:2610-2626 | when allowed, starts the oldest waiting local 1fichier row, if any |
| DownloadCore.DownloadManager.StartWaitingRows | backend/core/download_core.py:2556-2626 | the ids started are exactly the plan, in order |
| ServiceDownloadManager.DownloadManager.constructor | backend/services/download_manager.py:11-13 | nothing runs and the cap is 5 |
| ServiceDownloadManager.DownloadManager.CanStart | backend/services/download_manager.py:15-26 | a running id is refused; otherwise yes exactly below the cap; nothing changes |
| ServiceDownloadManager.DownloadManager.Start | backend/services/download_manager.py:28-31 | adds exactly the id |
| ServiceDownloadManager.DownloadManager.Finish | backend/services/download_manager.py:33-36 | removes exactly the id; an absent id changes nothing |
| ServiceDownloadManager.Perform | backend/services/download_manager.py:28-36 | `start` adds its id and `finish` removes it, leaving every other id alone |
| ServiceDownloadManager.GuardedRunStaysUnderCap | backend/services/download_manager.py:13-31 | when every `start` follows a `can_start` that said yes, the running count never exceeds the cap |
| ServiceDownloadManager.Starts | backend/services/download_manager.py:28-31 | `n` starts of consecutive ids |
| ServiceDownloadManager.StartsPerformed | backend/services/download_manager.py:28-31 | starting `n` ids none of which runs adds `n` running downloads |
| ServiceDownloadManager.UnguardedRunPassesCap | backend/services/download_manager.py:28-31 | `start` alone does not enforce the cap: `cap + 1` starts leave `cap + 1` downloads running |
| RetryPolicy.ShouldRetryDownload | backend/core/download_core.py:385-462 | never at 10 retries or more; below that, exactly when the lower-cased message holds neither `dstorage.fr`, nor a DNS phrase, nor a no-retry phrase |
| RetryPolicy.Should1fichierAutoRetry | backend/core/download_core.py:465-512 | exactly when the lower-cased url holds `1fichier.com`, the name and size are set, the name is not a placeholder, fewer than 10 retries were made and no blocking phrase appears |
| RetryPolicy.RetryIgnoresCase | backend/core/download_core.py:409 | upper-casing the message never changes the decision |
| RetryPolicy.BlockedStaysBlocked | backend/core/download_core.py:426-460 | a message that stops retries still stops them with any text before and after it |
| RetryPolicy.NameResolutionNotRetried | backend/core/download_core.py:411-440 | a name-resolution error is logged as a network error yet not retried |
| RetryPolicy.FichierPhrasesAreBlocking | backend/core/download_core.py:443-512 | every phrase that blocks the 1fichier retry is `dstorage.fr` or a general no-retry phrase |
| RetryPolicy.RetryImpliesAutoRetry | backend/core/download_core.py:385-512 | for a 1fichier download with a real name and size, whatever the general policy retries is retried automatically too |
| FileNaming.RFind | backend/core/download_core.py:1787 | the last index of a character, or -1 when it is absent |
| FileNaming.StemSuffix | backend/core/download_core.py:64-66 | the stem followed by the suffix is the name |
| FileNaming.Numbered | backend/core/download_core.py:68-70 | the numbered variant stays in the same directory |
| FileNaming.NumberedInjective | backend/core/download_core.py:68-70 | distinct numbers give distinct paths |
| FileNaming.GetUniqueFilepath | backend/core/download_core.py:57-75 | the result does not exist; a free path is kept; otherwise it is `stem (n)suffix` for the least `n >= 1` that is free |
| FileNaming.SplitExt | backend/core/download_core.py:1787 | the base and the extension make up the path; the extension is empty or starts with a dot, and holds no `/` |
| FileNaming.RenumberedInjective | backend/core/download_core.py:1788-1794 | distinct numbers give distinct names |
| FileNaming.CleanupDownloadFile | backend/core/download_core.py:1751-1807 | a non-`.part` path is kept; a missing `.part` file gives nothing; an error page is deleted and reported; otherwise the file moves to the path without `.part`, or to `base_n` plus the extension for the least free `n >= 1`, and the new path did not exist before |
| FileNaming.FirstFreeNumber | backend/core/download_core.py:1787-1794 | the least `n >= 1` whose `base_n` name does not exist |
| WaitStore.RemainingMs | backend/utils/wait_store.py:44-48 | the time left is never negative, and positive exactly while the wait runs |
| WaitStore.Query | backend/utils/wait_store.py:38-57 | an unknown id gets nothing; an expired wait is deleted and gets nothing; a running one gets its whole seconds left, its total and its url; other ids are never touched |
| WaitStore.StartThenQuery | backend/utils/wait_store.py:19-57 | a wait queried as it starts reports its full length, or nothing when that length is not positive |
| WaitStore.CountsDown | backend/utils/wait_store.py:44-57 | as time passes the reported seconds never increase and never exceed the total |
| WaitStore.ExpiredStaysGone | backend/utils/wait_store.py:50-52 | once expired, a wait stays gone |
| WaitStore.WaitTimeStore.constructor | backend/utils/wait_store.py:15-17 | the store starts empty |
| WaitStore.WaitTimeStore.StartWait | backend/utils/wait_store.py:19-27 | stores the wait under the id, replacing any earlier one |
| WaitStore.WaitTimeStore.FinishWait | backend/utils/wait_store.py:29-36 | true and deleted exactly when the id was present; otherwise nothing changes |
| WaitStore.WaitTimeStore.GetRemainingTime | backend/utils/wait_store.py:38-57 | the answer and the new store are those of the query |
| Auth.CheckBlocked | backend/core/auth.py:38-52 | blocked exactly when the record has 5 failures and the block has not ended; an ended block deletes the record; the table stays well-formed |
| Auth.RecordFailed | backend/core/auth.py:55-70 | the count starts at 1 or grows by 1; the first-failure time is kept; from the fifth failure on, every failure sets the block to end 5 minutes after it, and before that there is no block; other addresses are untouched |
| Auth.RemainingLockout | backend/core/auth.py:79-89 | given exactly while a block runs, as the whole seconds left |
| Auth.LockoutReportedIffBlocked | backend/core/auth.py:38-89 | a remaining time is reported exactly when the address is blocked |
| Auth.FewFailuresNeverExpire | backend/core/auth.py:43-52 | fewer than 5 failures: never blocked, and the record never expires |
| Auth.FailTimes | backend/core/auth.py:55-70 | repeated failures keep the table well-formed |
| Auth.FailuresCount | backend/core/auth.py:55-70 | `n` failures from a fresh address count `n` and block for 5 minutes once `n >= 5` |
| Auth.FiveFailuresBlockFiveMinutes | backend/core/auth.py:38-70 | five failures block the address until 5 minutes have passed, and then the record is removed |
| Auth.VerifyCredentials | backend/core/auth.py:92-97 | everything passes while authentication is off; otherwise only the configured pair |
| Auth.AuthManager.constructor | backend/core/auth.py:32 | no recorded failures |
| Auth.AuthManager.CheckIpBlocked | backend/core/auth.py:38-52 | answer and new table as `CheckBlocked` |
| Auth.AuthManager.RecordFailedLogin | backend/core/auth.py:55-70 | new table as `RecordFailed` |
| Auth.AuthManager.ClearLoginAttempts | backend/core/auth.py:73-76 | only the address's record is removed |
| Auth.AuthManager.GetRemainingLockoutTime | backend/core/auth.py:79-89 | answers `RemainingLockout` and changes nothing |
| FileHelpers.CalculateTotalSize | backend/utils/file_helpers.py:32-43 | the bytes on disk plus the announced ones for a resumed download, the announced ones otherwise; a total of 0 is an error |
| FileHelpers.TotalSizeBounds | backend/utils/file_helpers.py:32-43 | a resumed download with bytes to come totals more than what is on disk; a fresh download fails exactly on an empty body |
| FileHelpers.ShouldUpdateProgress | backend/utils/file_helpers.py:91-101 | send exactly when the download is complete or 2.5 s have passed since the last send |
| FileHelpers.ProgressUpdateFacts | backend/utils/file_helpers.py:91-101 | a due update stays due as time passes; completion is always sent; the last update's size plays no part |
| FileHelpers.ValidateDownloadedFile | backend/utils/file_helpers.py:149-169 | as written: rejected exactly for no data or a web content type, never for the content |
| FileHelpers.ValidateDownloadedFileIntended | backend/utils/file_helpers.py:149-169 | as intended: a small file that looks like an error page is rejected too |
| FileHelpers.ValidationsAgreeElsewhere | backend/utils/file_helpers.py:149-169 | the two differ exactly on small error-page files |
| FileHelpers.ErrorPageAccepted | backend/utils/file_helpers.py:157-169 | a 100-byte `video/mp4` holding an HTML 404 page passes as written and is rejected as intended |
| FileHelpers.CheckFileResumeStatus | backend/utils/file_helpers.py:172-193 | no file: a new download; a known total reached: completed; otherwise a resume when something is on disk and an initial size was given, an existing file when only something is on disk, else a new download |
| FileHelpers.ResumeWithoutTotal | backend/utils/file_helpers.py:172-193 | without a known total a non-empty file is never complete; a negative total makes every existing file complete |
| Downloader.WaitReasonOf | backend/core/downloader.py:324-334 | the total limit when 5 run, the local limit when 1 local runs, else the cooldown |
| Downloader.UnknownIdUntouched | backend/core/downloader.py:252-454 | every route answers 404 for an unknown id and changes nothing |
| Downloader.OtherRowsUntouched | backend/core/downloader.py:252-454 | every route touches only the row it names and adds none |
| Downloader.PauseGuard | backend/core/downloader.py:386-409 | pause succeeds exactly for pending, downloading and proxying rows and then only stops the row; otherwise 400 and nothing changes |
| Downloader.ResumeGuard | backend/core/downloader.py:292-358 | resume accepts exactly stopped and pending rows; a row without a proxy setting counts as local and waits when not admitted; a proxy row always starts |
| Downloader.StartGuard | backend/core/downloader.py:251-290 | start acts only on pending rows: kept pending when not admitted, downloading otherwise |
| Downloader.RetryClears | backend/core/downloader.py:411-454 | retry clears the error and the direct link; the row ends downloading exactly in proxy mode, pending otherwise |
| Downloader.DeleteRemoves | backend/core/downloader.py:360-384 | delete removes the row whatever its status |
| Downloader.PauseThenResume | backend/core/downloader.py:292-409 | resuming a row that pause accepted is never refused as a bad request |
| Downloader.RetryThenStart | backend/core/downloader.py:251-454 | a retried local row can be started from the queue |
| Downloader.DownloadTable.constructor | backend/core/downloader.py:251 | the table starts as given |
| Downloader.DownloadTable.StartActualDownload | backend/core/downloader.py:251-290 | answer and new table as the start route |
| Downloader.DownloadTable.ResumeDownload | backend/core/downloader.py:292-358 | answer and new table as the resume route |
| Downloader.DownloadTable.DeleteDownload | backend/core/downloader.py:360-384 | answer and new table as the delete route |
| Downloader.DownloadTable.PauseDownload | backend/core/downloader.py:386-409 | answer and new table as the pause route |
| Downloader.DownloadTable.RetryDownload | backend/core/downloader.py:411-454 | answer and new table as the retry route |
| ProxyManager.UsedAddresses | backend/core/proxy_manager.py:19-23 | exactly the addresses of the records whose ip and port are both set |
| ProxyManager.Unused | backend/core/proxy_manager.py:26-34 | exactly the proxies of a list that are not in a given set, in list order: the unused proxies, and the unused proxies outside the priority group |
| ProxyManager.Priority | backend/core/proxy_manager.py:30-33 | exactly the addresses of the success records that are among the unused proxies |
| ProxyManager.PriorityInOrder | backend/core/proxy_manager.py:30-33 | the priority list holds those addresses one per success record, in table order |
| ProxyManager.UnusedProxiesExact | backend/core/proxy_manager.py:16-42 | a proxy is offered exactly when it is listed and has no complete status record |
| ProxyManager.PriorityFromIncompleteRecords | backend/core/proxy_manager.py:19-33 | only a success record with a NULL ip or port can put a proxy first |
| ProxyManager.NoPriorityWithCompleteRecords | backend/core/proxy_manager.py:16-42 | with complete records the result is the unused list in list order |
| ProxyManager.AfterResetAllOffered | backend/core/proxy_manager.py:85-93 | with no records every listed proxy is offered, in order |
| ProxyManager.SplitFirst | backend/core/proxy_manager.py:51 | splits at the first separator: the part before holds none |
| ProxyManager.ParsePort | backend/core/proxy_manager.py:57 | a port parses exactly when, once the surrounding whitespace is removed, it is non-empty decimal digits |
| ProxyManager.ParsePortPadded | backend/core/proxy_manager.py:52-57 | a written port number with whitespace around it, as in `1.2.3.4: 8080`, parses to that number |
| ProxyManager.ParsePortRoundTrip | backend/core/proxy_manager.py:57 | a rendered port parses back to itself |
| ProxyManager.FindRecord | backend/core/proxy_manager.py:56-59 | the first record with that ip and port, or none |
| ProxyManager.MarkUsedShape | backend/core/proxy_manager.py:45-82 | an address without `:` changes nothing; otherwise the matching record is updated, or exactly one record is appended |
| ProxyManager.MarkUsedKeepsUsed | backend/core/proxy_manager.py:45-82 | marking never makes a used proxy unused |
| ProxyManager.StripCanonical | backend/core/proxy_manager.py:51 | a canonical `ip:port` survives stripping |
| ProxyManager.SplitCanonical | backend/core/proxy_manager.py:51 | a canonical `ip:port` splits into its ip and port |
| ProxyManager.MarkedNotOffered | backend/core/proxy_manager.py:16-82 | a marked canonical address is used and no longer offered |
| ProxyManager.Take | backend/core/proxy_manager.py:127 | the first `max_test` proxies |
| ProxyManager.FirstWorking | backend/core/proxy_manager.py:127-133 | the first candidate that passes, or nothing when none does |
| ProxyManager.FailedBefore | backend/core/proxy_manager.py:127-134 | the candidates tested and failed before the first passing one |
| ProxyManager.FailedNotOfferedAgain | backend/core/proxy_manager.py:123-137 | a canonical proxy that failed the test is not offered again |
| ProxyManager.ProxyTable.constructor | backend/core/proxy_manager.py:16 | the table starts as given |
| ProxyManager.ProxyTable.MarkProxyUsed | backend/core/proxy_manager.py:45-82 | the new table is the upsert |
| ProxyManager.ProxyTable.ResetProxyUsage | backend/core/proxy_manager.py:85-93 | the table ends empty |
| ProxyManager.ProxyTable.GetWorkingProxy | backend/core/proxy_manager.py:123-137 | tests at most `max_test` unused proxies in order, returns the first that passes and marks each earlier one failed |
| ProxyManager.ProxyTable.TestCandidates | backend/core/proxy_manager.py:127-137 | answers the first working candidate and marks exactly those tested before it as failed |
| I18nClient.Lookup | frontend/src/lib/i18n.js:37-101 | the loaded translation, else the built-in text, else the key |
| I18nClient.Placeholder | frontend/src/lib/i18n.js:105 | a name in braces |
| I18nClient.TranslateNoVars | frontend/src/lib/i18n.js:103-110 | without variables the text comes back as looked up |
| I18nClient.SubstituteAbsent | frontend/src/lib/i18n.js:103-107 | a text without the placeholders is unchanged |
| I18nClient.NoBraceNoChange | frontend/src/lib/i18n.js:103-107 | a text without `{` is never changed by substitution |
| I18nClient.FillOne | frontend/src/lib/i18n.js:103-107 | one placeholder gets its value in place |
| I18nClient.FillTwo | frontend/src/lib/i18n.js:103-107 | two placeholders each get their own value |
| I18nClient.TranslationWins | frontend/src/lib/i18n.js:39 | a loaded translation wins over every fallback |
| I18nClient.Loaded | frontend/src/lib/i18n.js:7-35 | the file of the language, else English, else nothing in English |
| I18nClient.LoadedLocale | frontend/src/lib/i18n.js:7-35 | the locale is the one asked for exactly when its file loaded, and English otherwise |
| I18nClient.PrimaryTag | frontend/src/lib/i18n.js:114 | the part of the browser language before the first `-` |
| I18nClient.InitialLanguage | frontend/src/lib/i18n.js:113-118 | a supported prefix is kept, anything else becomes English |
| I18nClient.InitialLanguageExamples | frontend/src/lib/i18n.js:113-118 | `ko-KR` gives Korean and `fr-FR` gives English |
| I18nClient.I18nStore.constructor | frontend/src/lib/i18n.js:3-5 | loading, no translations, English |
| I18nClient.I18nStore.LoadTranslations | frontend/src/lib/i18n.js:7-35 | the stores end as `Loaded`, and loading ends false |
| I18nClient.I18nStore.InitializeLocale | frontend/src/lib/i18n.js:113-118 | loads the initial language |
| I18nClient.I18nStore.T | frontend/src/lib/i18n.js:37-111 | the text is the translation with each variable substituted in turn |
| I18nServer.Merge | backend/core/i18n.py:30 | the file's entries win and the others are kept |
| I18nServer.LoadedCacheFacts | backend/core/i18n.py:7-35 | the cache holds Korean and English; file entries win; a failed file keeps the built-in dictionary |
| I18nServer.GetTranslations | backend/core/i18n.py:37-39 | the language's dictionary, else English, else empty |
| I18nServer.GetMessage | backend/core/i18n.py:41-44 | the translation, or the key itself |
| I18nServer.MessageAfterLoad | backend/core/i18n.py:7-44 | an unknown language reads from the English file; a key in no file comes back as itself |
| I18nServer.MessageBeforeLoad | backend/core/i18n.py:5-44 | before loading every key comes back as itself |
| I18nServer.TranslationCache.constructor | backend/core/i18n.py:5 | the cache starts empty |
| I18nServer.TranslationCache.LoadAllTranslations | backend/core/i18n.py:7-35 | the cache ends as the loaded cache |
| I18nServer.TranslationCache.ReloadTranslations | backend/core/i18n.py:46-50 | reloads and answers true |
| ErrorHandling.CodeValueInjective | backend/core/error_handling.py:13-21 | distinct codes have distinct values |
| ErrorHandling.NewAppError | backend/core/error_handling.py:24-30 | keeps code and message; missing details become empty |
| ErrorHandling.HandleErrorShape | backend/core/error_handling.py:33-79 | never success; always the given context; details only for an application error |
| ErrorHandling.AppErrorPassesThrough | backend/core/error_handling.py:52-57 | an application error reports its own code, message and details |
| ErrorHandling.ClassificationByKind | backend/core/error_handling.py:44-74 | connection and timeout errors are network errors; missing files and refused access are file errors; anything else is unknown, with its own text when it has one |
| ErrorHandling.TextIgnoredForKnownKinds | backend/core/error_handling.py:58-72 | the text of a known kind of exception does not matter |
| ErrorHandling.SafeExecute | backend/core/error_handling.py:94-113 | a normal return gives the result; an exception gives the error dictionary, with the function name as context when none is given |
| ErrorHandling.SafeExecuteFailure | backend/core/error_handling.py:94-113 | a failed call never reports success and always has a context |
| Common.IsValidLink | backend/core/common.py:18-23 | accepted exactly when the lower-cased link holds one of the 11 hosts with its `/` |
| Common.IsValidLinkIgnoresCase | backend/core/common.py:23 | upper-casing the link does not change the answer |
| Common.IsValidLinkAppend | backend/core/common.py:18-23 | text appended to an accepted link keeps it accepted |
| Common.DomainEnds | backend/core/common.py:19-22 | every host ends in `/` after a character that is neither `/` nor `:` |
| Common.HostNeedsSlash | backend/core/common.py:18-23 | a link whose only slashes are those of its scheme is rejected |
| Common.FichierLinkAccepted | backend/core/common.py:18-23 | a 1fichier link with its `/` is accepted whatever surrounds it |
| Common.BareHostRejected | backend/core/common.py:18-23 | `https://1fichier.com` is rejected |
| Logging.JoinArgs | backend/utils/logging.py:29 | no arguments give the empty message; one gives itself |
| Logging.LevelIgnoresCase | backend/utils/logging.py:32 | the level is compared after upper-casing |
| Logging.UnsetWritesAll | backend/utils/logging.py:32-41 | without a level everything is written |
| Logging.LevelsNest | backend/utils/logging.py:35-41 | a higher level only drops messages |
| Logging.WarnTagDropped | backend/utils/logging.py:37-38 | a `[WARN]` message is dropped at WARNING |
| Logging.Console.constructor | backend/utils/logging.py:26 | nothing written yet |
| Logging.Console.SmartPrint | backend/utils/logging.py:26-48 | the joined message and a newline are written exactly when the level lets them through |
| Logger.LogOnce | backend/logger.py:9-13 | the first time a message is printed and remembered; a repeat changes nothing |
| Logger.ClearLogCache | backend/logger.py:15-18 | the set empties; what was printed stays printed |
| Logger.LogAllFacts | backend/logger.py:9-13 | logging a sequence remembers all of it and prints, once each, exactly the messages not seen before |
| Logger.LogTwice | backend/logger.py:9-13 | logging twice is logging once |
| Logger.ClearThenLogPrints | backend/logger.py:15-18 | after clearing, the next log prints again |
| Logger.MessageLog.constructor | backend/logger.py:7 | nothing remembered or printed |
| Logger.MessageLog.LogOnceMessage | backend/logger.py:9-13 | new state as `LogOnce` |
| Logger.MessageLog.ClearLogCacheNow | backend/logger.py:15-18 | new state as `ClearLogCache` |

## Left out

- Threads, locks and asyncio are left out. Every `with self._lock` section is one sequential step. The thread that `unregister_download` starts to re-run the scheduler is not modelled, and neither is `_start_cooldown_timer`.
- Database errors are left out. An exception caught by a `try` around a whole query block would end the scheduler early; that path is not modelled. The one exception the admission test tolerates is modelled: a failed query skips its check.
- The database schema, the `StatusEnum` and `ProxyStatus` models and `get_all_proxies` are not part of this model. Rows and the proxy list are inputs.
- The `_send_cooldown_updates` event message is left out: only its status change is modelled. So are the thread that `_start_waiting_download` starts, and its re-read of the proxy setting.
- `check_immediate_cooldown`, `start_download`, `cancel_download`, `is_download_active`, `terminate_all_downloads`, `register_local_download`, `unregister_local_download` and `can_start_local_download` are thin wrappers or thread plumbing. They are not modelled.
- Downloader: the routes are modelled as if every call they make succeeded, with admission as an input. As written they fail. `start` and local `resume` call `can_start_download` on the manager from `backend/core/shared.py`, which has no such method, so they raise before changing anything. `pause` and the proxy-mode `resume` import `notify_status_update` from `main`, which does not define it, so they raise after their commit and answer 500. Proxy-mode `retry` imports the missing `download_1fichier_file_new` before it sets the row downloading, so the row stays pending and the route answers 500, where `Downloader.RetryClears` says it ends downloading. The application factory does not include this router at all.
- `DownloadCore.DownloadManager.CheckAndStartWaitingDownloads` reads the clock once per call, while the source reads it again for each cooldown query. The cooldown can only end between those reads, not start.
- `WaitStore`: `get_all_active_waits` is left out. It takes the store's non-reentrant lock and then calls `get_remaining_time`, which takes it again. On a non-empty store it never returns.
- Floating-point arithmetic is left out: `format_file_size`, `convert_size`, progress percentages, speed, and the fractional seconds of `time.time()` (all clocks are whole milliseconds).
- Case mapping is ASCII only. Python and JavaScript map all of Unicode. So the case-insensitivity lemmas hold for the model's mapping, and Python can differ on letters such as the dotless ı.
- `str.strip` is modelled for its ASCII whitespace (space, tab, line feed, carriage return, vertical tab, form feed, 0x1c to 0x1f). The non-ASCII whitespace it also removes is left out.
- ParsePort: Python's `int()` also accepts a sign, underscores between digits, non-ASCII digits and non-ASCII whitespace around the number. The model accepts only ASCII digits with ASCII whitespace around them, and a negative port cannot be represented.
- `I18nClient`: JavaScript `replace` with a `RegExp` built from the variable name is modelled as plain text replacement. Regex metacharacters in names and `$` patterns in values are not modelled. Non-string JSON values and interleaved asynchronous loads are left out. The fetch is an input.
- `I18nClient.FillTwo` requires the second placeholder name to be shorter than the first. Otherwise the proof of where each value lands would need a full analysis of overlapping occurrences.
- `ErrorHandling`: an exception is its kind and its text. The `requests` library's `ConnectionError`, which does not derive from the built-in one, counts as `Other`. `log_error` and logging are left out.
- `ProxyManager`: `test_proxy` makes a network request. It is an input: the set of addresses that pass.
- `EventSource`: the transport is modelled by its `open`, `message` and `error` events. Console output is left out.
- `EventSource`: a payload's `id` is an integer. A `status_update` whose data has no `id`, which JavaScript queues under the key `undefined`, cannot be represented.
- `Logging`: `setup_logging`, `force_print` and `replace_print` are left out. So is the swallowing of an exception raised while writing.
- `Auth`: JWT creation and verification and the FastAPI dependencies are left out; they call into a library.

## Findings

| source | as written | input that shows it | evidently intended | confidence | as-written member | corrected member |
|---|---|---|---|---|---|---|
| backend/utils/file_helpers.py:164-169 | the error-page exception of the small-file check is raised inside the `try` whose `except Exception` catches it and only logs it, so the file is accepted | a 100-byte download served as `video/mp4` whose content is `<HTML>404 Not Found</HTML>` | the file is rejected as an error page | high; not executed | FileHelpers.ValidateDownloadedFile, FileHelpers.ErrorPageAccepted | FileHelpers.ValidateDownloadedFileIntended, FileHelpers.ValidationsAgreeElsewhere |
