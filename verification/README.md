# Verification of dldw

dldw is a download accelerator: a client fetches files in parallel byte ranges, a server runs cache tasks
through a state machine, and a tunnel enforces limits per token. This project models the parts of it that
carry unbounded properties and proves them in Dafny 4.11. `dafny verify dfyconfig.toml` checks everything.

- **Ranged download** (`Chunks`, `RangeDownload*`, `OutputFile`): chunk arithmetic; `runChunked` as a step
  machine of workers, publisher, main loop, URL refresh, bitmap, crash and restart; crash safety, exact progress,
  completion, a bound on every schedule, and the move of the finished part into place. A 206 body is never longer
  than the range and is the range itself when it has full length (RFC 9110, sections 14.2 and 15.3.7); a shorter
  body is a prefix of the range, or else all runs use one chunk size. `CrashSafeExactly` shows that crash safety
  needs one of the two for every content of two bytes or more.
- **Task engine** (`TaskState`, `TaskStore`, `TaskEngine*`, `TaskProcess`, `Singleflight`): the store as a class
  with two indexes and persistence; any number of drivers, Resolve calls and mirror inserts interleaved at single
  store operations; the sequential loops proved as methods over the store.
- **Limits** (`RateLimit*`, `Window*`, `Tunnel`, `Auth*`): token bucket over reals, sliding window, slots,
  pumps, token rotation and nonces. The limiters and the nonce store read the clock before they take their lock
  (`ratelimit.go:34-36`, `auth.go:228-230`), so that calls may be served out of the order of their times. The
  results are about runs in serving order with an arbitrary bound on how much older than an earlier served call a
  call may be; with lateness 0 they are the usual bounds.
- **Text formats** (`Text`, `Letters`, `Wire*`, `Whitelist*`, `Yaml*`): the handshake, the domain whitelist, and the
  configuration language, each with its printer or meaning on the other side.

Concurrent code is a step relation: `Enabled` says which steps are possible, `Apply` what they do, `Run` and
`Exec` cover every schedule. Outcomes of the network, the disk and the clock are arguments of the steps. Code that
changes an object in place is a class whose methods are proved against functions on the old state; the theorems
are about these functions.

Functions that say what a step or a parser does are pinned from outside as well, in terms of schedules and literal
texts only: which URL is asked (`RangeDownloadCalls`), what a Resolve answers and starts (`TaskResolve`), what a lone
driver leaves (`TaskEngineLone`), which writes take effect (`TaskStoreWrites`), which secrets validate when
(`AuthExpiry`), which calls a bucket admits (`RateLimitExact`), which hosts an entry admits (`WhitelistForms`), and what
handshake lines and configuration texts mean (`WireAlphabet`, `YamlScalars`, `YamlDocuments`).

Where the code does less than one would expect, a lemma gives the run and another the exact condition:

- `runChunked` can report success with chunks missing (`SuccessWithMissingChunks`; exactly when: `OkMeansComplete`)
  and can wait for ever after an abort (`AbortCanPark`, `ParkedNeverReturns`; exactly when:
  `ReturnsUnlessParked`; for exactly which calls: `CanParkExactly`).
- A stale Resolve can make the driver's last write illegal (exactly when: `RefusedIffReArmedAtBurial`); if the
  driver that it started also reaches the guard before the first one leaves it, the task is orphaned
  (`StaleResolveOrphans`, `OrphanForever`).
- The token bucket's collector hands out tokens early for refill times of centuries, or if calls are served later
  than the idle time allows for (`SpoilerGetsTwo`; exactly when: `CollectorUnseenExactly`).
- Calls served out of the order of their times can exceed the nominal bounds (`OrderMatters`, `OvertakenScores`,
  `Replays`; exactly when: `NominalBoundExactly` for the bucket, `CapExactly` for the window, `SeparationExactly` for
  nonces; what a bucket grants at most in any order: `RateBound`).
- The documentation of the handshake puts no limit on the resolved address and the message; the parser refuses IPv6
  addresses and changes some messages (exactly which: `OKRoundTrip`, `ErrRoundTrip`).
- `normalizeHost` has a condition for bracketed addresses that never strips anything, so `[::1]:443` keeps its
  port (`PortRule`).
- Entries written as `*.d` widen to `d` itself when the list is republished (`RepublishedHosts`), and entries with a
  doubled dot admit another name (`DoubledDotWidens`); exactly when the client's list is the published one:
  `RepublicationExact`.

## Model

| member | source | states |
|---|---|---|
| `Chunks.ChunkCount` | internal/client/downloader/chunk.go:40-49 | The count is the smallest number of chunks that covers the file; a plan without size or chunk size has none |
| `Chunks.RegionsTile` | internal/client/downloader/chunk.go:187-196 | Every byte position of the file lies in exactly one chunk region |
| `Chunks.RegionsAbut` | internal/client/downloader/chunk.go:340-346 | Each region ends where the next one starts, and the last one ends exactly at the file size |
| `Chunks.ProgressBound` | internal/client/downloader/chunk.go:124-134 | The summed length of done chunks is at most the size, and equal to it exactly when all chunks are done |
| `Chunks.ResumedBytes` | internal/client/downloader/chunk.go:124-131 | The resume loop computes the summed length and the number of done chunks |
| `RangeDownloadSafety.StepKeeps` | internal/client/downloader/chunk.go:187-337 | Every step of worker, publisher, main loop, URL refresh, crash and restart keeps the invariant that ties file, bitmaps, jobs and copies together |
| `RangeDownloadSafety.PersistedBitsNeverLie` | internal/client/downloader/chunk.go:112-134 | In every interleaving with crashes and restarts, each persisted bit that some run could load names a region of the file that holds exactly the remote bytes |
| `RangeDownloadSafety.DoneChunkNotRefetched` | internal/client/downloader/chunk.go:289-302 | A chunk that is done on disk is in no worker's hands and cannot be published |
| `RangeDownloadSafety.ProgressExact` | internal/client/downloader/chunk.go:256-269 | Progress equals the summed length of the done chunks in every reachable state, never exceeds the size, and reaches it exactly when all are done |
| `RangeDownloadSafety.PublisherReadsUnshared` | internal/client/downloader/chunk.go:289-302 | The publisher's unlocked reads of the bitmap never concern a chunk that a worker holds |
| `RangeDownloadSafety.OkMeansComplete` | internal/client/downloader/chunk.go:304-337 | After a reported success all chunks are done if and only if no job was given up and everything missing had been handed out; then the file is the remote content |
| `RangeDownloadSafety.CleanRunComplete` | internal/client/downloader/chunk.go:304-337 | Success with no error ever posted and a live context leaves the file equal to the whole remote content |
| `RangeDownloadLiveness.StepSpends` | internal/client/downloader/chunk.go:187-337 | Every step inside a run lowers a budget computed from attempts, bytes and jobs left |
| `RangeDownloadLiveness.RunIsFinite` | internal/client/downloader/chunk.go:187-337 | Between a launch and the next crash no schedule has more steps than that budget |
| `RangeDownloadLiveness.CleanRunNotStuck` | internal/client/downloader/chunk.go:187-337 | While no error was posted and the context lives, a run that has not returned has a possible step |
| `RangeDownloadLiveness.CleanRunEnds` | internal/client/downloader/chunk.go:304-337 | A clean run at rest has returned, and unless opening the file failed all chunks are done, the file is the remote content and progress is its size, even if the last save fails |
| `RangeDownloadLiveness.CleanReturnComplete` | internal/client/downloader/chunk.go:304-337 | Whatever a run returns with no error ever posted and a live context, the whole content is in the file unless opening it failed |
| `RangeDownloadLiveness.ReturnsUnlessParked` | internal/client/downloader/chunk.go:289-337 | At rest the call has returned if and only if no worker is parked, and parking takes a posted error or a cancelled context |
| `RangeDownloadLiveness.ParkedNeverReturns` | internal/client/downloader/chunk.go:289-302 | Once a worker waits on the job channel after the publisher left without closing it, the call returns in no continuation |
| `RangeDownloadLiveness.AbortCanPark` | internal/client/downloader/chunk.go:295-297 | A run in which one failed worker parks the other one that way |
| `RangeDownloadParking.ParkingTakesTwo` | internal/client/downloader/chunk.go:187-302 | In a live context a worker is parked only in a call with at least two workers and two chunks |
| `RangeDownloadParking.CanParkExactly` | internal/client/downloader/chunk.go:187-326 | Every call can hang if its context is cancelled; in a live context a call can hang if and only if it has at least two workers and two chunks |
| `RangeDownloadLiveness.SuccessWithMissingChunks` | internal/client/downloader/chunk.go:311-327 | A run that reports success with chunks missing, because the finished channel is taken while an error is queued |
| `RangeDownloadTrust.ChunkSizeChangeLies` | internal/client/downloader/chunk.go:112-122 | For every content of at least two bytes whose cut-off bodies may hold anything, a restart with another chunk size makes a persisted bit lie |
| `RangeDownloadTrust.CrashSafeExactly` | internal/client/downloader/chunk.go:112-134 | The persisted bits tell the truth in every run if and only if cut-off bodies are prefixes, or one chunk size is used, or the content is shorter than two bytes |
| `RangeDownloadCalls.AskedUrlIsNewest` | internal/client/downloader/chunk.go:157-182 | In every run, each request of a call goes to the URL that its last successful refresh brought, or else to the one the call was launched with |
| `RangeDownloadCalls.RenewalIsUsed` | internal/client/downloader/chunk.go:226-236 | Once a worker has renewed the URL, every later request of every worker goes to it until it is renewed again |
| `RangeDownloadCalls.SaveWritesCall` | internal/client/downloader/chunk.go:256-266 | Every save of a call writes the URL that its refreshes leave, its size and chunk size, and its bitmap |
| `RangeDownloadCalls.CommitMarksOne` | internal/client/downloader/chunk.go:256-266 | A finished copy marks its chunk and no other and adds its length, and a failed save becomes an error of the call |
| `RangeDownloadCalls.FourRequests` | internal/client/downloader/chunk.go:198-280 | A worker sends at most four requests for a chunk and gives it up only after the fourth |
| `RangeDownloadCalls.ErrorIsReturned` | internal/client/downloader/chunk.go:310-332 | A call that took an error from its channel or saw its context end returns success in no continuation |
| `RangeDownloadCalls.CompleteReturnsAtOnce` | internal/client/downloader/chunk.go:132-134 | A call that finds a complete bitmap of its size and chunk size returns success at once and starts no worker |
| `OutputFile.FinishFile` | internal/client/downloader/downloader.go:399-431 | Succeeds exactly when the part exists, passes the checksum, may replace the output and the rename is allowed; every crash state shows the old output or the verified one; a refused part is removed with its bitmap |
| `OutputFile.FetchPresigned` | internal/client/downloader/downloader.go:176-236 | After a ranged run the output is old or the verified part; with an injective hash and the artifact's own hash success means the artifact's bytes, and a clean run does succeed |
| `OutputFile.MoveIntoPlace` | internal/client/downloader/downloader.go:423-431 | The rename comes before the removal of the bitmap; between the two the output is already the part |
| `TaskState.TerminalIsSink` | internal/transfer/tasks/state.go:24-46 | Exactly ready and dead have no successor and every other status has one |
| `TaskState.TerminalAbsorbs` | internal/transfer/tasks/state.go:24-54 | A status history with stutters never leaves a terminal status |
| `TaskState.StagesInOrder` | internal/transfer/tasks/state.go:27-36 | A history reaches a stage of the happy path only through all earlier stages, in order |
| `TaskState.DeadAfterFailed` | internal/transfer/tasks/state.go:27-46 | The first dead entry of a history stands right behind a failed one |
| `TaskStore.Store.constructor` | internal/transfer/tasks/store.go:69-96 | Loading a persisted list builds the two indexes of the specification |
| `TaskStore.Store.Put` | internal/transfer/tasks/store.go:98-121 | Refuses missing ids and illegal transitions without any change, ignores stale tasks, otherwise writes both indexes; a failed save keeps the memory change |
| `TaskStore.Store.Update` | internal/transfer/tasks/store.go:123-144 | Returns not found or conflict without any change, otherwise the changed task with the new time in both indexes |
| `TaskStore.Store.Delete` | internal/transfer/tasks/store.go:180-193 | Removes the task, and its key only if the key answers with this very task |
| `TaskStore.Store.PersistLocked` | internal/transfer/tasks/store.go:212-229 | A successful save holds every stored task exactly once, in any order |
| `TaskStore.StepKeepsIndex` | internal/transfer/tasks/store.go:98-193 | Each write, delete and reload keeps the index invariant under increasing times |
| `TaskStore.AnswerIsNewest` | internal/transfer/tasks/store.go:69-193 | Over every history each present answer for a key is the stored task of that key with the newest update |
| `TaskStore.ReloadKeepsAnswers` | internal/transfer/tasks/store.go:69-96 | Reloading a save in any order keeps byID and every present answer, and gives every key with stored tasks an answer |
| `TaskStore.ReloadAddsExactly` | internal/transfer/tasks/store.go:69-193 | After any history from an empty store, a reload adds an answer for a key if and only if the key has stored tasks and a delete took its last answer |
| `TaskStore.LifetimeIsPath` | internal/transfer/tasks/store.go:98-144 | Whatever puts, changes, deletes and reloads come, the statuses of a stored task are a path of the transition graph with stutters |
| `TaskStoreWrites.PutTakesEffect` | internal/transfer/tasks/store.go:98-121 | A put goes in if and only if it has an id and a key, makes no forbidden move and is no older than what is stored; then both indexes answer it with the new time, otherwise nothing changes |
| `TaskStoreWrites.StoredStays` | internal/transfer/tasks/store.go:69-193 | Over every history with reloads, what is stored under an id stays until an operation names the id |
| `TaskStoreWrites.StaleCopyIgnored` | internal/transfer/tasks/store.go:104-113 | Over every history, putting a copy of a task that somebody else has written since it was read changes nothing; if nobody has, it goes in |
| `TaskStoreWrites.ReadYourWrite` | internal/transfer/tasks/store.go:98-121 | A new task that was put is what its id answers after every history that does not name the id |
| `TaskEngineSafety.StepKeeps` | internal/transfer/tasks/engine.go:138-352 | Every step of drivers, Resolve calls, mirrors and collection keeps the engine invariant |
| `TaskEngineSafety.RefusedIffReArmedAtBurial` | internal/transfer/tasks/engine.go:261-352 | A driver's write would be refused if and only if it is about to bury a task that is downloading again, and then a Resolve re-armed a task past its retry limit |
| `TaskEngineSafety.NoConflictWithoutLateRearm` | internal/transfer/tasks/engine.go:153-165 | Without such a re-arm no driver write is refused, retries stay within the limit plus one, and a finished driver leaves its task ready or dead |
| `TaskEngineSafety.RearmAtBurialRefuses` | internal/transfer/tasks/engine.go:153-165 | A re-arm that goes through while a driver is about to bury the task always costs the driver its write |
| `TaskEngineSafety.OneDriverPerTask` | internal/transfer/tasks/engine.go:229-241 | Two drivers past the guard never have the same task |
| `TaskEngineSafety.ReadyTasksAreBacked` | internal/transfer/tasks/engine.go:202-225 | Every ready task readable by id or key, whoever wrote it, has its artifact under the presigned key, and that object is stored |
| `TaskEngineSafety.FetchesBounded` | internal/transfer/tasks/engine.go:261-282 | A driver fetches at most once or at most retries left plus one times, and the stored retry count is its start value plus its failures |
| `TaskEngineSafety.StepFollowsGraph` | internal/transfer/tasks/engine.go:138-352 | One step changes a stored status along an edge or not at all |
| `TaskEngineSafety.HistoryIsPath` | internal/transfer/tasks/state.go:27-54 | From any moment of any run on, the status history of a task, loaded or created on the way, is a path of the graph with stutters |
| `TaskEngineSafety.TerminalForever` | internal/transfer/tasks/state.go:24-36 | A task that is ready or dead at any moment of any run has that status as long as it is stored |
| `TaskResolve.ReadDecides` | internal/transfer/tasks/engine.go:146-174 | After its read a Resolve re-arms exactly when the answer is failed with retries left and creates exactly when there is none, or it is dead, or failed without retries; a task under way is returned as it is, a ready one with its artifact's key, whose object is stored |
| `TaskResolve.ResolveActs` | internal/transfer/tasks/engine.go:146-176 | In every continuation a Resolve writes nothing for a ready or running task, creates at most once for a vacant key, and re-arms at most once and creates only behind that for a failed task with retries left |
| `TaskResolve.HitCostsNothing` | internal/transfer/tasks/engine.go:146-149 | A ready task costs no write and no driver in any continuation, and the answer stands |
| `TaskResolve.RearmEffect` | internal/transfer/tasks/engine.go:153-165 | A re-arm goes through exactly when the task is stored and queued, failed or downloading; it then starts one driver, and otherwise leaves the call to create a task |
| `TaskResolve.CreateEffect` | internal/transfer/tasks/engine.go:171-176 | A creation adds one queued task without retries that answers for the key, and starts one driver for it |
| `TaskResolve.OnlyResolveStarts` | internal/transfer/tasks/engine.go:138-176 | No step but a re-arm or a creation starts a driver |
| `TaskResolve.MirrorProbe` | internal/server/mirrorcore/mirrorcore.go:41-71 | A mirror request with a ready task is served the artifact's key and changes nothing; otherwise it stores the object and only then may put a task |
| `TaskResolve.MirrorPutEffect` | internal/server/mirrorcore/mirrorcore.go:72-84 | Its put adds one ready task whose artifact is the stored object, which then answers for the key, and starts no driver |
| `TaskResolve.MirrorActs` | internal/server/mirrorcore/mirrorcore.go:41-84 | A mirror request puts at most one task, and none after a hit or a failed store |
| `TaskResolve.HandedOutIsStored` | internal/transfer/tasks/engine.go:202-225 | Every key that a Resolve or a mirror ever handed out names a stored object at every later moment |
| `TaskEngineLone.LoneDriver` | internal/transfer/tasks/engine.go:227-331 | A driver of the step machine that is left alone ends, and leaves its task, the other tasks, the objects and the guard as the sequential process promises |
| `TaskEngineLone.LoneDriverOnly` | internal/transfer/tasks/engine.go:227-331 | However far such a schedule is carried, it can end in no other way |
| `TaskEngineLiveness.DriverEnds` | internal/transfer/tasks/engine.go:227-331 | In every interleaving a driver that has read its task acts a bounded number of times |
| `TaskEngineLiveness.DriverFinishes` | internal/transfer/tasks/engine.go:227-331 | From any reachable state a driver left alone finishes whatever its fetches and uploads do, and without a late re-arm a task it worked on is then ready or dead |
| `TaskEngineLiveness.OrphanForever` | internal/transfer/tasks/engine.go:146-176 | A downloading task without a driver stays downloading in every continuation |
| `TaskEngineLiveness.StaleResolveOrphans` | internal/transfer/tasks/engine.go:153-165 | From an empty store, a Resolve that read before the last retry and writes before the burial leads to the refused write and an orphaned task |
| `TaskProcess.Engine.Process` | internal/transfer/tasks/engine.go:227-331 | A task that can be started ends ready after its first good round or dead when its rounds are used up; other tasks are untouched, and a guarded, missing or settled task is left alone |
| `TaskProcess.Engine.Round` | internal/transfer/tasks/engine.go:275-330 | A good round registers the object under the storage key; a bad one adds one retry and leaves failed or dead |
| `TaskProcess.Engine.Fail` | internal/transfer/tasks/engine.go:333-352 | One more retry and failed, or dead when the limit is passed |
| `TaskProcess.Engine.Collect` | internal/transfer/tasks/engine.go:367-373 | Exactly the dead and failed tasks that are older than a day are deleted |
| `TaskProcess.PresignOrFetchMulti` | internal/server/mirrorcore/mirrorcore.go:38-87 | A hit presigns the artifact's key; otherwise the first origin that stores wins and object, ready task and URL use the canonical address's key; if none wins nothing changes and the last error is returned |
| `TaskProcess.StorageKeyInjective` | internal/transfer/tasks/engine.go:112-119 | Two cache keys of one length share a storage key only if key and family are the same |
| `Singleflight.StepKeeps` | internal/transfer/tasks/singleflight.go:24-45 | Every step of any number of callers keeps the invariant of flights and leaders, with and without the identity test |
| `Singleflight.OneRunPerKey` | internal/transfer/tasks/singleflight.go:24-45 | At most one function per key runs at a time |
| `Singleflight.OwnResult` | internal/transfer/tasks/singleflight.go:24-45 | Every returned caller has the value of a finished run for its own key |
| `Singleflight.WaitersHaveLeader` | internal/transfer/tasks/singleflight.go:26-30 | Whoever still waits has a caller that runs the function it waits for |
| `Singleflight.DeleteOwnEntry` | internal/transfer/tasks/singleflight.go:38-43 | At every delete the entry is the caller's own |
| `Singleflight.CopiesAgree` | internal/server/mirrorcore/mirrorcore.go:116-136 | The copies without the identity test have the same runs and reach the same states |
| `Singleflight.EveryoneReturns` | internal/server/registrymirror/mirror.go:453-472 | No schedule has more than three steps per caller, and at its end all callers returned |
| `Singleflight.ValueWasReturned` | internal/transfer/tasks/singleflight.go:24-45 | Every value that a caller gets was returned by a function call of the schedule for the caller's key |
| `Singleflight.LeaderGetsItsOwn` | internal/transfer/tasks/singleflight.go:36-44 | Whoever ran the function returns what its own call returned |
| `Singleflight.EnterDecides` | internal/transfer/tasks/singleflight.go:25-34 | A caller runs the function itself if and only if nobody who runs one for its key has still to clear up |
| `RateLimit.Limiter.Allow` | internal/server/ratelimit/ratelimit.go:33-60 | The method's new buckets and answer are those of the specification function |
| `RateLimit.Limiter.Collect` | internal/server/ratelimit/ratelimit.go:62-73 | Drops exactly the buckets idle for longer than the truncated, wrapped and floored time |
| `RateLimitBounds.PlainBound` | internal/server/ratelimit/ratelimit.go:33-60 | Without a collector and whatever the order of the times, the accepted calls of a key in a stretch of a run are at most the burst and the rate times the forward steps of its clock |
| `RateLimitBounds.EarnedLate` | internal/server/ratelimit/ratelimit.go:42-50 | These steps earn at most the rate times the length of the interval, and the rate times the lateness once for each overtaken call of the key |
| `RateLimitBounds.IdleCoversRefill` | internal/server/ratelimit/ratelimit.go:64-67 | The idle time is at least the refill time if and only if it fits into 64 bits of nanoseconds |
| `RateLimitBounds.IdleLeavesRoom` | internal/server/ratelimit/ratelimit.go:64-67 | An idle time that fits exceeds the refill time by nineteen seconds |
| `RateLimitBounds.CollectorUnseen` | internal/server/ratelimit/ratelimit.go:62-73 | If the idle time covers the refill time and the lateness of calls, the limiter answers every run like one that never collects |
| `RateLimitCollector.CollectorUnseenExactly` | internal/server/ratelimit/ratelimit.go:62-73 | For every lateness, the collector is invisible in all runs if and only if the idle time covers the refill time and the lateness |
| `RateLimitCollector.CollectorUnseenInOrder` | internal/server/ratelimit/ratelimit.go:62-73 | In runs served in the order of their times that is so if and only if the idle time fits into 64 bits of nanoseconds |
| `RateLimitCollector.SpoilerGetsTwo` | internal/server/ratelimit/ratelimit.go:33-73 | The run that otherwise shows it: two whole bursts of one key before the bucket could have refilled |
| `RateLimitBounds.RateBound` | internal/server/ratelimit/ratelimit.go:33-73 | Both bounds for the limiter as it is, with its collector and any lateness that the idle time covers |
| `RateLimitBounds.RateBoundInOrder` | internal/server/ratelimit/ratelimit.go:33-73 | Served in the order of their times, the accepted calls of a key in an interval of length d are at most burst + rate * d |
| `RateLimitExact.AdmitsExactly` | internal/server/ratelimit/ratelimit.go:33-60 | Whatever the order of the times, a call is admitted if and only if since each call of its key the accepted calls and this one fit into the burst and the rate times the forward steps of the key's clock |
| `RateLimitExact.AdmitsInOrder` | internal/server/ratelimit/ratelimit.go:33-60 | Served in the order of their times, a call is admitted if and only if since each call of its key the accepted calls and this one are at most the burst and the rate times the time passed |
| `RateLimitOrder.OrderMatters` | internal/server/ratelimit/ratelimit.go:33-60 | For every positive lateness, any number of calls of a fresh key is accepted within an interval of that length |
| `RateLimitOrder.NominalBoundExactly` | internal/server/ratelimit/ratelimit.go:33-73 | The bound burst + rate * d for every interval holds in all runs with a lateness if and only if the lateness is zero and the idle time fits into 64 bits of nanoseconds |
| `RateLimit.Count.Allow` | internal/server/ratelimit/ratelimit.go:88-113 | The method's new event lists and answer are those of the specification function |
| `WindowBounds.AcceptsWithin` | internal/server/ratelimit/ratelimit.go:88-113 | For every lateness, a call is accepted if fewer than max earlier calls of its key were accepted in the closed window ending now, and only if fewer were in the window less twice the lateness, in spite of dropped keys |
| `WindowBounds.AcceptsExactly` | internal/server/ratelimit/ratelimit.go:88-113 | Served in the order of their times, a call is accepted if and only if fewer than max earlier calls of its key were accepted in the closed window ending now |
| `WindowBounds.WindowCap` | internal/server/ratelimit/ratelimit.go:88-113 | No closed interval as long as the window less twice the lateness holds more than max accepted calls of a key |
| `WindowLateness.CapExactly` | internal/server/ratelimit/ratelimit.go:88-113 | For caps of at least two and every lateness, the cap holds of closed intervals of a length in all runs if and only if the length is at most the window less twice the lateness |
| `WindowLateness.OvertakenScores` | internal/server/ratelimit/ratelimit.go:88-113 | The run that otherwise breaks it: twice the cap less one call in an interval one longer than that |
| `RateLimit.Conc.Acquire` | internal/server/ratelimit/ratelimit.go:131-137 | Adds one holder below the cap and hands out a fresh release, otherwise changes nothing |
| `RateLimit.Conc.Release` | internal/server/ratelimit/ratelimit.go:139-149 | Only the first call of a release counts; a key without holders leaves the map |
| `Auth.Store.Validate` | internal/server/auth/auth.go:115-143 | Unknown, revoked and expired are told apart; success touches only the last-seen time |
| `Auth.Store.Register` | internal/server/auth/auth.go:91-113 | Adds one record and its hash |
| `Auth.Store.Refresh` | internal/server/auth/auth.go:145-163 | Uninterrupted, it replaces the hash and the expiry of the validated record |
| `Auth.Store.Revoke` | internal/server/auth/auth.go:165-178 | Marks the record of a known hash, otherwise reports an invalid token |
| `AuthRuns.IndexIsInverse` | internal/server/auth/auth.go:91-178 | In every interleaving with split Refresh calls byHash is the exact inverse of the records' hashes |
| `AuthRuns.OneSecretPerRecord` | internal/server/auth/auth.go:145-163 | Two secrets recognised for one record are the same |
| `AuthRuns.RotationReplaces` | internal/server/auth/auth.go:145-163 | A rotation removes the record's current secret and installs the new one |
| `AuthRuns.RotatedNeverValidates` | internal/server/auth/auth.go:115-163 | A secret that was issued and is no longer indexed is invalid in every continuation |
| `AuthRuns.RevokedNeverValidates` | internal/server/auth/auth.go:145-178 | A revoked record validates no secret ever again, even if a Refresh validated before the revocation rotates it afterwards |
| `AuthRuns.OverlappingRefreshLoses` | internal/server/auth/auth.go:145-163 | Of two overlapping refreshes of one record the first one's new secret is dead after the second |
| `AuthExpiry.ValidatesExactly` | internal/server/auth/auth.go:91-178 | In every interleaving, a secret is accepted for a record if and only if it is not empty, it was issued last for the record, no current secret revoked the record, and no more than a positive ttl has passed since it was issued |
| `AuthExpiry.RefusesExactly` | internal/server/auth/auth.go:115-143 | Invalid, revoked and expired are reported exactly for secrets that are no record's current one, whose record was revoked, and that are only too old |
| `AuthExpiry.RegisteredLifetime` | internal/server/auth/auth.go:91-143 | A registered secret that is only validated is accepted up to its ttl and not longer; without a positive ttl it never expires |
| `Auth.NonceStore.CheckAndAdd` | internal/server/auth/auth.go:227-247 | Evicts when full, empties the map if that does not help, and accepts exactly the nonces not in it |
| `AuthRuns.NoReplayWithinTTL` | internal/server/auth/auth.go:227-247 | For every lateness, two acceptances of one nonce key are more than the ttl less the lateness apart or separated by a hard reset |
| `AuthRuns.FirstUseAccepted` | internal/server/auth/auth.go:227-247 | A nonce that was never checked before is accepted, whatever became of the map |
| `AuthRuns.AcceptedUntilFull` | internal/server/auth/auth.go:227-247 | Until the map has been full, exactly the nonces that come for the first time are accepted |
| `AuthReplay.SeparationExactly` | internal/server/auth/auth.go:227-247 | For every lateness, two acceptances of one nonce without a reset in between are always more than a time apart if and only if the time is at most the ttl less the lateness |
| `AuthReplay.Replays` | internal/server/auth/auth.go:227-247 | The run that attains it: a full map is evicted just after the ttl, and the nonce comes again as late as allowed |
| `AuthRuns.NonceKeyInjective` | internal/server/auth/auth.go:228 | With nonces of one length the joined key determines token and nonce |
| `Tunnel.DeliveredBound` | internal/server/tunnel/tunnel.go:268-303 | For every schedule of the two pumps and every pattern of short writes at most MaxBytesPerConn + 2 * CopyBuffer bytes are delivered, and each output is a prefix of what was read |
| `Tunnel.CounterAccuracy` | internal/server/tunnel/tunnel.go:268-303 | The shared counter misses at most one buffer per direction, and nothing after two clean ends |
| `Tunnel.BoundIsReached` | internal/server/tunnel/tunnel.go:268-303 | For every non-empty buffer there is a schedule that reaches the bound |
| `Tunnel.EndedPumpFinishes` | internal/server/tunnel/tunnel.go:268-303 | After a read that reported an end a pump reads nothing more in any continuation, and without a failing write it stops only when everything read is delivered and counted |
| `Tunnel.WholePass` | internal/server/tunnel/tunnel.go:268-303 | After a whole pass over a buffer a pump reads again if and only if its read reported no end and the count is within the limit, and otherwise has stopped |
| `Tunnel.SlotsExact` | internal/server/tunnel/tunnel.go:200-207 | Per token the handlers that hold a slot equal the counter, never exceed the cap, and the map has an entry exactly when there are some |
| `Tunnel.SlotGrantedExactly` | internal/server/tunnel/tunnel.go:200-207 | In every run a handler that asks for a slot gets one if and only if fewer than the cap of its token's handlers hold one |
| `Tunnel.FreshNonceAdmitted` | internal/server/tunnel/tunnel.go:158-168 | A handler whose token never came with its nonce is let through |
| `Tunnel.NoReplayAdmitted` | internal/server/tunnel/tunnel.go:158-168 | Of all handlers of a run, two that passed the nonce check with one token and nonce did so more than the ttl less the lateness apart or with a hard reset in between |
| `Wire.EncodeFlags` | internal/protocol/dldw1/dldw1.go:55-69 | The collecting loop and the in-place sort print the same text whatever the iteration order: the sorted parts, or a dash for no flags |
| `Wire.ReadFlags` | internal/protocol/dldw1/dldw1.go:107-135 | The flag loop computes the specified map or stops at the first bad part |
| `WireRoundTrip.FlagsRoundTrip` | internal/protocol/dldw1/dldw1.go:55-135 | For every iteration order a valid flag map is printed as one field that parses back to it |
| `WireRoundTrip.EncodeIgnoresMapOrder` | internal/protocol/dldw1/dldw1.go:55-69 | Two iteration orders print the same line |
| `WireRoundTrip.AcceptedIsValid` | internal/protocol/dldw1/dldw1.go:71-105 | Whatever is accepted is a valid request |
| `WireRoundTrip.ConnectRoundTrip` | internal/protocol/dldw1/dldw1.go:49-105 | Parsing the printed request gives it back if and only if it is valid |
| `WireRoundTrip.ReparseIdentity` | internal/protocol/dldw1/dldw1.go:71-105 | For every accepted line, printing what it means and parsing again gives the same |
| `WireRoundTrip.OKRoundTrip` | internal/protocol/dldw1/dldw1.go:144-192 | An acceptance comes back if and only if its id and address are valid and its expiry is a non-negative 64-bit integer |
| `WireRoundTrip.ColonNeverReturned` | internal/protocol/dldw1/dldw1.go:236-249 | An address with a colon is never returned |
| `WireRoundTrip.MarkerIsHeader` | internal/protocol/dldw1/dldw1.go:198-203 | The first place where the code marker matches is the header's, whatever the message holds |
| `WireRoundTrip.ErrRoundTrip` | internal/protocol/dldw1/dldw1.go:158-206 | A rejection comes back if and only if its code is valid and its message is non-empty and does not end in CR or LF |
| `WireRoundTrip.EmptyIsReplaced` | internal/protocol/dldw1/dldw1.go:158-164 | An empty message comes back as the standing text |
| `WireAlphabet.ConnectExactly` | internal/protocol/dldw1/dldw1.go:71-105 | A line of tokens is accepted as a request if and only if they are the protocol's name, CONNECT, and six fields over the listed alphabets and lengths, and then it means what they say |
| `WireAlphabet.FlagsExactly` | internal/protocol/dldw1/dldw1.go:107-135 | Flags are a dash, or names with or without a value between commas; of several with one name the last counts |
| `WireAlphabet.FlagsPrinted` | internal/protocol/dldw1/dldw1.go:55-69 | The printed flags: a dash, or the parts in bytewise order between commas |
| `WireAlphabet.OKExactly` | internal/protocol/dldw1/dldw1.go:168-193 | A line of tokens is an acceptance if and only if it has five tokens over the listed alphabets and lengths, and then it means what they say |
| `WireAlphabet.ErrExactly` | internal/protocol/dldw1/dldw1.go:194-203 | A rejection is accepted if and only if its code has 3 to 48 capitals, digits and underscores; its message is the rest of the line |
| `WireAlphabet.OtherwiseRefused` | internal/protocol/dldw1/dldw1.go:171-206 | Without the protocol's name or one of the two words a response is refused |
| `WireRoundTrip.FieldsAtBlanks` | internal/protocol/dldw1/dldw1.go:71-74 | A run of blanks of any length ends a field: splitting distributes over it |
| `Text.InsertionSort` | internal/protocol/dldw1/dldw1.go:63-67 | The in-place loop leaves the sorted arrangement of the array |
| `Text.SortSorts` | internal/protocol/dldw1/dldw1.go:63-67 | The result is in bytewise order and a permutation |
| `Text.SortIgnoresOrder` | internal/protocol/dldw1/dldw1.go:59-67 | Permutations sort to the same sequence |
| `Text.JoinSplit` | internal/protocol/dldw1/dldw1.go:112 | Joining the pieces of a split gives the text back, and no piece holds the separator |
| `Text.SplitJoin` | internal/protocol/dldw1/dldw1.go:68-112 | Splitting joined pieces gives them back |
| `Text.AtoiIntText` | internal/protocol/dldw1/dldw1.go:81-84 | Decimal text of a 64-bit integer is read back as that integer |
| `Whitelist.Parse` | internal/policy/whitelist/whitelist.go:24-49 | The loop over the entries builds the specified two sets |
| `Whitelist.Entries` | internal/policy/whitelist/whitelist.go:54-78 | The result is sorted, duplicate-free, and holds exactly the domains of both sets |
| `Whitelist.Match` | internal/policy/whitelist/whitelist.go:86-105 | The loop over the suffixes computes the specified answer |
| `WhitelistMeaning.SuffixIsLabelSuffix` | internal/policy/whitelist/whitelist.go:94-103 | A host ends in a dot and a domain if and only if the domain's labels are a proper suffix of the host's |
| `WhitelistMeaning.MatchMeaning` | internal/policy/whitelist/whitelist.go:24-105 | For every list of entries, a host is accepted if and only if it is non-empty, no IP literal, and its labels equal (where the rule covers the bare domain) or properly extend those of the domain that an entry reads as |
| `WhitelistForms.EntryAdmits` | internal/policy/whitelist/whitelist.go:24-105 | A domain alone or behind a dot admits exactly the hosts whose labels are its own or properly extend them, behind "*." exactly the proper extensions; letter case, blanks, one trailing dot and a port make no difference, and IP literals are never admitted |
| `WhitelistForms.EntryAdmitsText` | internal/policy/whitelist/whitelist.go:94-103 | The same in characters: the host is the domain or ends in a dot and the domain |
| `WhitelistForms.BracketsGo` | internal/policy/whitelist/whitelist.go:120-123 | A name in brackets is admitted exactly when the name is |
| `WhitelistForms.NothingAdmits` | internal/policy/whitelist/whitelist.go:32-36 | Blank entries, lone dots and entries that start with a hash admit nobody |
| `WhitelistForms.ListIsUnion` | internal/policy/whitelist/whitelist.go:24-105 | A list admits a host if and only if one of its entries alone does |
| `WhitelistForms.EntryPublishes` | internal/policy/whitelist/whitelist.go:54-78 | Whatever its form, an entry publishes exactly its bare domain |
| `WhitelistMeaning.PortRule` | internal/policy/whitelist/whitelist.go:107-119 | The bracket branch never strips anything; a port goes exactly from a name without a bracket in front |
| `WhitelistMeaning.HostDressing` | internal/policy/whitelist/whitelist.go:107-124 | Case, one trailing dot and a port make no difference to a name |
| `WhitelistMeaning.PlainReadsAsItself` | internal/policy/whitelist/whitelist.go:32-47 | The domains that read as themselves are exactly the plain ones |
| `WhitelistMeaning.RepublicationExact` | internal/server/api/api.go:443-451 | A client that parses the published entries holds exactly the published domains with their subdomains if and only if all domains are plain |
| `WhitelistMeaning.DoubledDotWidens` | internal/policy/whitelist/whitelist.go:24-78 | An entry with a doubled dot in front makes the client accept the bare name that the server refuses |
| `WhitelistMeaning.RepublishedHosts` | internal/client/wrapper/wrapper.go:207-208 | For plain domains the client accepts the server's hosts and the bare domains of "*." entries, and nothing else |
| `WhitelistMeaning.RepublicationSettles` | internal/policy/whitelist/whitelist.go:54-78 | Republishing the republished list gives the same entries |
| `Yaml.StripComment` | internal/yamlmin/yamlmin.go:74-93 | The scan with its two quote flags cuts where the specification does |
| `Yaml.ReadAll` | internal/yamlmin/yamlmin.go:39-61 | The line loop yields the specified lines or the tab error |
| `Yaml.ReadScalar` | internal/yamlmin/yamlmin.go:183-225 | The loop over an inline list computes the specified value |
| `Yaml.Parser.ParseList` | internal/yamlmin/yamlmin.go:145-160 | Reads the values of the leading items and stops behind them |
| `Yaml.Parser.ParseMap` | internal/yamlmin/yamlmin.go:100-143 | Mutually recursive with the nested blocks, on lines remaining, it computes what the block denotes or the specified error, and stops behind the block |
| `Yaml.Parse` | internal/yamlmin/yamlmin.go:39-72 | The whole parser computes the specified map or error |
| `YamlLayout.LayoutParses` | internal/yamlmin/yamlmin.go:100-160 | A well-laid block at any increasing indentation is parsed from its lines, whatever comes further left behind it |
| `YamlLayout.ParseIsLaid` | internal/yamlmin/yamlmin.go:100-160 | Parsing uses up exactly the layout of the block it returns |
| `YamlLayout.AcceptedIffLaid` | internal/yamlmin/yamlmin.go:65-71 | Lines are accepted as a block if and only if they are its layout: every line is used once and every dedent returns to an open level |
| `YamlLayout.LayoutInjective` | internal/yamlmin/yamlmin.go:100-160 | No lines have two readings |
| `YamlLines.ShownIsRead` | internal/yamlmin/yamlmin.go:42-60 | Indentation, trailing blanks and a comment behind a blank leave the line's text and indentation |
| `YamlLines.NoiseIsSkipped` | internal/yamlmin/yamlmin.go:42-50 | Blank lines, comment lines and document markers, indented or followed by blanks or a comment, are skipped |
| `YamlLines.LineEndsAgree` | internal/yamlmin/yamlmin.go:41 | Both kinds of line end read the same |
| `YamlScalars.UnwrappedExactly` | internal/yamlmin/yamlmin.go:211-225 | A text not between quotes or brackets is true, false or null exactly when it is one of the listed words in any letter case, an integer exactly when it is a signed 64-bit decimal, else a float if it reads as one, else itself |
| `YamlScalars.DoubleQuotedReads` | internal/yamlmin/yamlmin.go:202-207 | A text between double quotes is the decoded string if the library decodes it, and otherwise what stands between them |
| `YamlScalars.StringComesBack` | internal/yamlmin/yamlmin.go:208-210 | Every string between single quotes, with its own doubled, is read back |
| `YamlScalars.SingleQuotedReads` | internal/yamlmin/yamlmin.go:208-210 | A single quote that stands alone between single quotes stays |
| `YamlScalars.InlineList` | internal/yamlmin/yamlmin.go:188-201 | An inline list is the list of its comma-separated pieces |
| `YamlScalars.TextReads` | internal/yamlmin/yamlmin.go:183-225 | Every text is read as the value that its letters, digits, quotes and brackets mean |
| `YamlRoundTrip.EntrySplits` | internal/yamlmin/yamlmin.go:162-181 | A key text and any non-empty tight text are split at the first colon and space, even if the text holds more of them, and the key loses its quotes |
| `YamlRoundTrip.TreeDenotes` | internal/yamlmin/yamlmin.go:100-143 | The block of a tree denotes the map that the tree writes |
| `YamlRoundTrip.BlockRoundTrip` | internal/yamlmin/yamlmin.go:39-72 | Every text that shows a well-laid block is parsed to what the block denotes |
| `YamlRoundTrip.TreeRoundTrip` | internal/yamlmin/yamlmin.go:39-225 | For every nested map written in any key order at any increasing indentation, with plain or quoted keys and scalars in any form that means their value, with comments, noise and either line end, parsing gives the map |
| `YamlRoundTrip.EveryMapCanBeWritten` | internal/yamlmin/yamlmin.go:39-225 | Every non-empty map whose keys hold no line end, no colon with a space behind it and not both quotes, of 64-bit integers, floats, booleans, null, one-line strings, lists of scalars and such maps, has a text that is read back |
| `YamlDocuments.EntryReads` | internal/yamlmin/yamlmin.go:39-225 | One entry at any indentation is the map of its name to what its text means |
| `YamlDocuments.DoubleQuotedEntry` | internal/yamlmin/yamlmin.go:202-207 | An entry with a value between double quotes gives the decoded string, or the text between them |
| `YamlDocuments.TwoEntries` | internal/yamlmin/yamlmin.go:100-143 | Two entries at one indentation are both read, the later one winning; a deeper second one is bad indentation, a shallower one unexpected content |
| `YamlDocuments.CommentExactly` | internal/yamlmin/yamlmin.go:74-93 | In a line without quotes the comment starts at the first hash that stands first or behind a blank |
| `YamlDocuments.NoColonRefused` | internal/yamlmin/yamlmin.go:162-170 | A line that is no item and has no colon at its end or in front of a space is refused |
| `YamlDocuments.TabRefused` | internal/yamlmin/yamlmin.go:54-56 | A tab behind the leading spaces of a line with text is refused |
| `YamlDocuments.EmptyDocument` | internal/yamlmin/yamlmin.go:44-62 | A document of blank lines, comments and markers is empty |
| `YamlDocuments.DashSkipped` | internal/yamlmin/yamlmin.go:152-156 | A dash alone is skipped wherever it stands in a list |

## Left out

- Sockets, TLS, HTTP, DNS, the SSRF tables and dialer, presigning, audit logs, metrics and progress display: their outcomes are nondeterministic.
- SHA-256 and HMAC: an uninterpreted hash, injective where a theorem says so.
- Address canonicalization: the cache key is given.
- `downloadStream`, `downloadDirect` and the branch of `fetchPresigned` without ranges; they rewrite or remove the part without its bitmap, so the crash invariant is about ranged runs over one content.
- Which HTTP status makes a worker refresh, retry or give up: the schedule chooses between these steps.
- fsync and power loss: a rename is atomic and a completed write is durable. Saving the bitmap is one step for the same reason.
- ETag and hash in the resume file: the code stores them and never compares them.
- `closeOnce` is a check followed by a close in the code; two workers that close at once would panic. The model closes atomically.
- Backoff times, deadlines and the temporary directories of `GC`: only order matters in the step machines.
- TaskResolve.HitCostsNothing: presigning succeeds, and a presigned URL is represented by its object key.
- The engine machine does not enforce singleflight between Resolve calls, so its theorems hold for more schedules than the code has; `StaleResolveOrphans` uses one Resolve at a time per key.
- Saving the store always succeeds in the engine machine; `TaskStore.Store` models failing saves. Restarted servers do not resume queued or downloading tasks, so liveness is about one process lifetime.
- TaskProcess.Engine.Process: runs with the store to itself and successful saves; the interleaved driver is in `TaskEngineSafety` and `TaskEngineLiveness`.
- TaskEngineSafety.ReadyTasksAreBacked: the registry mirror is the mirror machine with one origin; its token and manifest caches are not modelled.
- `List` sorting, task descriptions, progress fractions and error codes of the task store.
- RateLimitBounds.RateBound: tokens and times are real numbers, so floating-point rounding is not captured.
- RateLimitCollector.CollectorUnseenExactly: idle times beyond 2^63 seconds, whose conversion from floating point Go leaves to the platform, and a rate of zero or less.
- AuthExpiry.ValidatesExactly: issue times are positive, because 0 stands for a time that is not set.
- Token persistence and reload in `auth.go`; records are shared through their id instead of a pointer, so that a returned record is a snapshot.
- Auth.Store.Refresh: the uninterrupted case only; interleaved refreshes are the two steps of `AuthRuns`.
- The tunnel handler's policy checks, dial and reply are one nondeterministic rejection or go-ahead.
- Text is a sequence of characters: invalid UTF-8 is not represented, lower-casing is ASCII only, and length limits count characters, which is the same for every text the validators accept.
- The 4096-byte limit of `ReadLine`: `Encode` does not enforce it, and the round trips are about the line itself.
- WhitelistMeaning.MatchMeaning: whether a name is an IP literal is a parameter.
- Hot swapping of whitelists, and the client's choice to keep its built-in list when the published one is empty.
- Line numbers in YAML errors, `Unmarshal`, and the JSON mapping behind it.
- Yaml.ReadScalar: JSON decoding of double-quoted strings and the syntax of floats are parameters; a float keeps its text.
- YamlRoundTrip.EveryMapCanBeWritten: empty maps have no text, and a block list whose items are all empty yields Go's nil slice, which is a separate value.
