# ClawQL: team sync, auto-push, sessions, vault and audit, verified

This project models the stateful and algorithmic core of ClawQL in Dafny and proves what it guarantees.
`dafny verify dfyconfig.toml` checks everything.

**Team vault sync.** Each machine has a vault directory, a map from paths to bytes. One bucket holds objects and a
manifest that maps paths to content hashes. A push collects, fetches the manifest, plans, uploads one by one and puts
the merged manifest; a pull collects, fetches, plans, and downloads, verifies and writes one by one. `SyncEngine` has
the loops as methods proved against descriptions of what they compute, `SyncTheorems` what a single push, pull or
status guarantees, `SyncProtocol` any number of machines whose steps interleave and crash, `Convergence` how serial
rounds bring everyone to the same files, and `MemorySync` the combined tool. `Collect` is the walk
that decides what is synced, `Collected` what it yields and under which object keys, `Exclusion` what is never synced
and what an include item names, `ListingOrder` when the order of
listings and include items matters; `RelPaths` and `ObjectKeys` are paths and keys as text, `SyncTypes` and
`Collections` the data.

**Timed state machines.** `AutoPush` is the debounced, throttled push scheduler, `AutoPushDelivery` what its pushes
bring to the bucket, by the same push as in `SyncEngine`, and `AutoPull` the throttled pull before
a recall; `Sessions` the Streamable-HTTP session table with its cap and idle eviction; `StreamPrune` the clean-up of the
transport's stream map; `ApiBootstrap` the single-flight creation of the API handle. Each is a class whose methods are
the source's handlers, proved against a step function, and a run is any sequence of such steps. A stretch of code
between two suspension points is one step. Clocks are part of the state and only move forward.

**Provider vault and audit.** `ProviderVault` relates vault properties, environment variables and the local file over
any catalog; `ToolAudit` covers argument redaction and the audit record; `Texts` has the string helpers of both.

Where the code does not do what one would expect of it, the model follows the code. One lemma says exactly when the
expectation holds, another exhibits a case:

- An unforced push records the local hash of its conflict paths without uploading them: `PushKeepsCoherenceIff`,
  `OneConflict`. From then on the path is in sync by its hash, which is tested before force, and no push of the same
  file repairs it: `PushIsMasked`, `ForceRepairsIff`.
- So the advice of memory_sync to run again with force does nothing: `RerunDoesNothing`, `ForceStillWorksIff`.
- An auto-push is never forced, so a note changed after its first push is a conflict for its own author: its object
  keeps the first contents: `ListedPathsAreFrozen`, `LeftBehindStays`, `ChangedNoteRun`.
- A manifest entry whose hash is the empty string is not verified on download: `PulledFilesVerifyIff`,
  `EmptyHashIsNotChecked`.
- A put can drop another machine's fresh manifest entry: `LostIff`, `PutKeepsManifestIff`, `LostEntry`.
- A pull takes files outside the include roots for missing ones: it downloads them again every time and overwrites
  them without force: `SecondPull`, `PullOverwritesIff`, `DownloadedAgain`.
- A forced dry run of memory_sync over-counts the pushes: `ForcedRun`, `OneConflict`.
- A successful auto-push clears the dirty flag even when an ingest came after its snapshot; that write then waits
  for the next ingest, and a shutdown flush does not push it: `StrandedIffInWindow`, `NothingPushesStranded`,
  `FlushDeliversIff`, `StrandedRun`.
- A disposal while a build's starter waits breaks single flight: `DisposeKeepsSingleFlightIff`, `DisposeDuringBuild`,
  `LateResumeClearsNextPromise`.
- A backslash in a file name can make two files share a path, and then the order of listings and include items
  decides which is collected: `OrderFreeIff`, `ListingFreeIff`, `BackslashNamesCollide`.
- A collected path can begin with a slash, and then its object key decodes to another path: `CollectedKeysIff`,
  `LeadingSlashIff`, `LeadingBackslash`.
- Building an audit record can throw, although its host function is documented never to: `SummaryThrowsIff`,
  `SummaryThrows`. This is about the function on any arguments. Registered tools are called behind their schemas
  (src/mcp/tools.ts:605-660), and behind one that declares the printed fields as strings, numbers or booleans, as
  memory_ingest declares `insights` (packages/clawql-memory/src/schema/memory-zod-edge.ts:89), it does not occur.

## Model

| member | source | states |
|---|---|---|
| SyncEngine.PlanPush | src/home-sync/engine.ts:40-62 | the plan lists every local path once; upload, skip or conflict is decided by comparing its hash with the manifest's, and force turns conflicts into uploads |
| SyncEngine.PlanPull | src/home-sync/engine.ts:64-86 | the plan lists every manifest path once (none without a manifest); download, skip or conflict likewise |
| SyncEngine.PushPlanLists | src/home-sync/engine.ts:40-62 | in every push plan the uploads, skips and conflicts list exactly the paths each action is for, without repetition |
| SyncEngine.PullPlanLists | src/home-sync/engine.ts:64-86 | the same for every pull plan |
| SyncEngine.ApplyUploads | src/home-sync/engine.ts:88-109 | puts exactly the planned uploads and counts them; a vanished file stops it with exactly the uploads before it done; a dry run counts and changes nothing; the manifest is untouched |
| SyncEngine.ApplyDownloads | src/home-sync/engine.ts:111-140 | leaves the files, count and failure that the planned downloads taken one by one give: missing objects passed over, wrong hashes stopping the run, earlier files kept |
| SyncEngine.MergeManifestFiles | src/home-sync/engine.ts:147-161 | the merged manifest is the remote one overridden by the local hashes |
| SyncEngine.RunSyncPush | src/home-sync/engine.ts:184-199 | a push leaves the bucket with the planned uploads stored and the merged manifest put, and reports the sizes of the upload, skip and conflict sets; a dry run leaves the bucket alone |
| SyncEngine.RunSyncPull | src/home-sync/engine.ts:206-220 | a pull ends where its planned downloads, in some order, end, failed or not; its report counts the skips and conflicts of the comparison; a dry run changes no file and predicts every planned path |
| SyncEngine.RunSyncStatus | src/home-sync/engine.ts:227-258 | counts and lists without repetition the in-sync, local-only, remote-only and differing paths |
| SyncTypes.CompareSplits | src/home-sync/engine.ts:227-258 | two indexes split the paths of the first into equal, missing and differing ones, and the three sizes add up |
| SyncTheorems.PushIncoherence | src/home-sync/engine.ts:40-62 | for arbitrary contents, the manifest paths whose hash disagrees with the object after a push are exactly those that disagreed before, less the uploaded and conflicting ones, plus the conflict paths whose object is not the local file |
| SyncTheorems.PushKeepsCoherenceIff | src/home-sync/engine.ts:147-161 | on a coherent bucket a push leaves exactly its conflict paths incoherent, so it preserves coherence if and only if it has no conflicts, and always when forced |
| SyncTheorems.CutOffPush | src/home-sync/engine.ts:88-109 | an unforced push cut off after any of its uploads has disturbed no manifest path; a forced one, on a coherent bucket, exactly those it overwrote |
| SyncTheorems.PushDeliversIff | src/home-sync/engine.ts:40-62 | after a push a local path's contents are on the remote if and only if it was uploaded or the object already held them; otherwise it was a conflict, or was skipped as in sync with a manifest hash its object does not have |
| SyncTheorems.NothingLeftBehindIff | src/home-sync/engine.ts:40-62 | on a coherent bucket a push leaves behind exactly its conflict paths |
| SyncTheorems.PushIsMasked | src/home-sync/engine.ts:50-51 | after an unforced push the same files all look in sync: a second push, forced or not, uploads nothing, reports no conflict and changes nothing |
| SyncTheorems.StillLeftBehind | src/home-sync/engine.ts:50-51 | the second push of the same files leaves behind exactly what the first one did |
| SyncTheorems.ForceRepairsIff | src/home-sync/engine.ts:50-58 | a forced push brings the local contents of a path whose object disagrees with the manifest if and only if the local hash is not the manifest's |
| SyncTheorems.PullPrefixSafe | src/home-sync/engine.ts:111-140 | after any number of downloads, aborted or not, each local file is unchanged or holds its planned object, whose hash is the manifest's unless that hash is the empty string |
| SyncTheorems.PullSparesSkipsAndConflicts | src/home-sync/engine.ts:64-86 | wherever a pull stops, in-sync files, unforced conflicts and files outside the manifest are as before |
| SyncTheorems.PullCompletesIff | src/home-sync/verify.ts:12-19 | a pull runs to its end if and only if every planned path has no object, an unchecked hash, or a matching object; otherwise the path it fails at is one that has not |
| SyncTheorems.PullBrings | src/home-sync/engine.ts:111-140 | a completed pull has written the planned paths' objects and nothing else |
| SyncTheorems.PullCounts | src/home-sync/engine.ts:135-139 | the downloads a completed pull reports are the planned paths that had an object |
| SyncTheorems.PulledFilesVerifyIff | src/home-sync/engine.ts:126-134 | every file a completed pull wrote hashes to its manifest entry if and only if none of those entries is the empty string |
| SyncTheorems.EmptyHashIsNotChecked | src/home-sync/engine.ts:130-133 | a concrete manifest entry with an empty hash lets unverified bytes in |
| SyncTheorems.CoherentPull | src/home-sync/engine.ts:206-220 | on a coherent bucket a pull never aborts and brings every planned path |
| SyncTheorems.SecondPull | src/home-sync/engine.ts:64-86 | after a pull from a coherent bucket a second one plans as downloads exactly the manifest paths collection does not reach, finds the conflicts the first one left, and skips the rest |
| SyncTheorems.AfterPull | src/home-sync/engine.ts:206-220 | after such a pull every manifest path is there and agrees with the manifest unless it is an unforced conflict |
| SyncTheorems.PullOverwritesIff | src/home-sync/engine.ts:64-86 | such a pull changes a local file if and only if the manifest has another hash for it and the pull is forced or collection does not reach the file |
| SyncTheorems.PlansAndStatusAgree | src/home-sync/engine.ts:227-258 | status and both unforced plans name the same local-only, remote-only, in-sync and conflicting paths, and the counts add up to the local and remote totals |
| SyncProtocol.ManifestPathsHaveObjects | src/home-sync/engine.ts:184-199 | over every interleaving of any number of machines with any contents, crashes included, objects stay and every manifest path has one |
| SyncProtocol.StepKeepsAgreed | src/home-sync/engine.ts:88-199 | every fetch, upload, put, download, edit, deletion and crash keeps manifest, objects, vaults and unfinished jobs in agreement, when edits write agreed contents |
| SyncProtocol.InterleavingCoherence | src/home-sync/engine.ts:88-199 | machines that never disagree on a path's contents keep every manifest hash equal to its object's in every interleaving |
| SyncProtocol.PullsNeverFail | src/home-sync/engine.ts:111-140 | in such a run no download misses its object or fails its check, even against a manifest replaced since it was fetched |
| SyncProtocol.LossNeedsOverlap | src/home-sync/engine.ts:147-182 | whatever the contents, a manifest path disappears only in a put, and then another push added it after the putting one had fetched |
| SyncProtocol.PutKeepsManifestIff | src/home-sync/engine.ts:147-161 | a put keeps every manifest path if and only if the pusher fetched or holds each of them |
| SyncProtocol.LostIff | src/home-sync/engine.ts:147-182 | over every run, the put of a push drops a path if and only if another push's put added it after this one fetched, it is still listed, and this one neither fetched nor holds it |
| SyncProtocol.LostEntry | src/home-sync/engine.ts:163-182 | for any two paths and contents, a run of two overlapping pushes whose second put drops the first one's entry while its object stays |
| Convergence.SerialPushIsRun | src/home-sync/engine.ts:184-199 | an uninterrupted push is a run of the protocol and ends in exactly the bucket the push method computes |
| Convergence.SerialPullIsRun | src/home-sync/engine.ts:206-220 | an uninterrupted pull in any download order is a run and ends in exactly the files the pull method computes, failed or not |
| Convergence.PushRoundMerges | src/home-sync/engine.ts:147-199 | after one unforced push per machine in any order the manifest's paths are the old ones and everything collected, still in agreement |
| Convergence.PullRoundCompletes | src/home-sync/engine.ts:206-220 | after any prefix of a round of pulls the bucket is as before, vaults have gained only manifest files, agreement is kept, and every machine that has pulled holds the whole manifest |
| Convergence.VaultMatchesManifestIff | src/home-sync/engine.ts:206-220 | a vault that holds the manifest collects exactly the manifest if and only if collection reaches every manifest path |
| Convergence.Convergence | src/home-sync/engine.ts:147-220 | from any agreed state a round of pushes and a round of pulls, in any orders, give every machine the union of the old manifest and all vaults; its collected files equal the manifest if and only if collection reaches all of it |
| Convergence.ReachableStatesConverge | src/home-sync/engine.ts:147-220 | every state a content-respecting run reaches, with whatever jobs left unfinished, converges in those two rounds |
| MemorySync.MergeConflicts | src/home-sync/memory-sync.ts:58-67 | the conflicts of both runs, each path once |
| MemorySync.RunMemorySync | src/home-sync/memory-sync.ts:77-148 | status, then pull, then push by direction; the result names the direction and dryRun it was called with, holds a pull run exactly when the direction is not push and a push run exactly when it is not pull, each with its own plan of the files and manifest it saw, and their counts, skips and conflicts; dry runs change nothing and plan both against the files as they are; a real auto run ends at the pull's result followed by the push of what is then there, a one-way run at the pull's or the push's; ok exactly without conflicts |
| MemorySync.PushAfterPull | src/home-sync/memory-sync.ts:91-96 | after a pull from a coherent bucket the push uploads exactly the formerly local-only paths and has the conflicts it had before the pull |
| MemorySync.DryRunPredicts | src/home-sync/memory-sync.ts:77-148 | without force, on a coherent bucket, the dry run's pulled and pushed counts and conflict set are the real run's, although the real push plans against the files the pull left |
| MemorySync.ForcedRun | src/home-sync/memory-sync.ts:77-148 | with force, on a coherent bucket, the run ends with no conflict and a coherent bucket, remote contents win on overlap, local hashes equal the manifest if and only if collection reaches it, and the dry run over-counts the pushes by exactly the differing paths |
| MemorySync.RerunDoesNothing | src/home-sync/memory-sync.ts:112-114 | after an unforced run on a coherent bucket every former conflict looks in sync with the other machine's object still there: running again, with force or without, neither transfers it nor reports it nor repairs it |
| MemorySync.ForceStillWorksIff | src/home-sync/memory-sync.ts:112-114 | force brings such a path's contents if and only if the file has been changed since, so that its hash is not the manifest's; a pull, which a run in both directions makes first, then fails on it unless the object is missing or its hash is empty |
| MemorySync.OneConflict | src/home-sync/memory-sync.ts:77-148 | one conflicting path: an unforced push puts a manifest that disagrees with the object, and a forced dry run counts a push that the real run does not make |
| MemorySync.DownloadedAgain | src/home-sync/engine.ts:64-86 | a path outside the include items is planned for download although it was just downloaded |
| MemorySync.PullPredictionIff | src/home-sync/memory-sync.ts:77-148 | on any bucket the predicted number of pulls comes true if and only if every planned path has an object verification accepts |
| AutoPush.AutoSync.ScheduleAfterIngest | src/home-sync/auto.ts:103-107 | an ingest marks dirty and replaces the timer by one a debounce away; nothing when disabled |
| AutoPush.AutoSync.TryAutoPush | src/home-sync/auto.ts:109-148 | starts a push exactly when dirty, none in flight and the interval over or forced; a throttled attempt re-arms for the rest of the interval |
| AutoPush.AutoSync.TimerFires | src/home-sync/auto.ts:91-100 | a firing timer is forgotten and an unforced attempt made |
| AutoPush.AutoSync.PushSucceeds | src/home-sync/auto.ts:124-131 | clears the dirty and in-flight flags and records the time |
| AutoPush.AutoSync.PushFails | src/home-sync/auto.ts:134-146 | clears only the in-flight flag |
| AutoPush.AutoSync.FlushPending | src/home-sync/auto.ts:154-161 | cancels the timer and makes a forced attempt when there is something to push |
| AutoPush.IngestRestartsTimer | src/home-sync/auto.ts:91-107 | in every run an ingest leaves the timer armed for exactly a debounce later, also when one was pending or a push is in flight, until it fires, a flush cancels it or another ingest restarts it; no timer is due earlier |
| AutoPush.DebounceHolds | src/home-sync/auto.ts:91-107 | in every run a timer fires only when every ingest before it is at least a debounce ago, so a burst is never pushed in its middle without a flush |
| AutoPush.OffNeverPushes | src/home-sync/auto.ts:103-107 | with auto-push off no ingest, timer or flush changes the scheduler or starts a push |
| AutoPush.DirtyIsActedOn | src/home-sync/auto.ts:91-161 | in every run the in-flight flag is set exactly while a push is in flight, and a dirty scheduler has a timer, a push in flight or a failed last attempt |
| AutoPush.OnePushAtATime | src/home-sync/auto.ts:109-148 | a push starts only by a timer or a flush and only when none is in flight |
| AutoPush.PushesAreSpaced | src/home-sync/auto.ts:115-121 | in every run an unforced success comes at least the interval after the success before it |
| AutoPush.RateBound | src/home-sync/auto.ts:109-148 | between any two successful pushes at least the interval has passed for every unforced one after the first, whatever ingests, failures and flushes intervene |
| AutoPush.FireStartsOrRearms | src/home-sync/auto.ts:115-121 | a due waiting timer starts the push, or is re-armed for the exact end of the interval, at which it starts it |
| AutoPush.LatencyBound | src/home-sync/auto.ts:76-121 | after an ingest with no push in flight, the last one for a while and with no flush, a push starts no earlier and (up to timer lateness) no later than the later of debounce end and interval end, whatever timer was pending before |
| AutoPushDelivery.NoLostWrite | src/home-sync/auto.ts:91-161 | in every run, whatever other machines do, each ingested write is still to be acted on (dirty), stranded, or in the last successful push as it is; that push then left it on the remote unless it is among the paths it left behind |
| AutoPushDelivery.StrandedIffInWindow | src/home-sync/auto.ts:124-131 | a write is stranded if and only if it was written and ingested between the snapshot and the success of the last successful push and has not changed since |
| AutoPushDelivery.SuccessDeliversIff | src/home-sync/auto.ts:122-127 | after a success an ingested write is on the remote if and only if the push collected it and did not leave it behind; a write that came too late is there only if it was before and the push collected nothing at its path |
| AutoPushDelivery.ConflictFreeDelivers | src/home-sync/auto.ts:91-161 | one machine on a coherent bucket, with pushes that meet no conflict: in every run each ingested write is on the remote, or dirty is set, or it is stranded; failed pushes in between undo nothing |
| AutoPushDelivery.ListedPathsAreFrozen | src/home-sync/engine.ts:50-58 | once a path is in the manifest no auto-push changes its object, so contents the object did not have then never reach the remote, as long as other machines leave the object too |
| AutoPushDelivery.LeftBehindStays | src/home-sync/engine.ts:50-58 | what one push leaves behind is not on the remote after any number of later auto-pushes either |
| AutoPushDelivery.FlushDeliversIff | src/home-sync/auto.ts:154-161 | after a flush of a dirty scheduler and the success of the push then in flight, a path ingested at the call and unchanged since is on the remote if and only if it was not late for a push already past its snapshot and that push did not leave it behind; a flush during a push only cancels the timer |
| AutoPushDelivery.NothingPushesStranded | src/home-sync/auto.ts:154-161 | without a further ingest neither timers nor flushes push anything: from a clean scheduler no push succeeds and the bucket stays as it is unless others change it |
| AutoPushDelivery.StrandedRun | src/home-sync/auto.ts:126-127 | a run for any two paths that ends idle and clean with an ingested write missing from the remote |
| AutoPushDelivery.ChangedNoteRun | src/home-sync/engine.ts:53-58 | one machine alone pushes a note, changes it and pushes it again: the run ends clean, the manifest has the new hash and the object the old contents |
| AutoPull.AutoPuller.MaybeAutoPullBeforeRecall | src/home-sync/auto.ts:169-176 | a recall starts a pull exactly when pulls are on, none is in flight and the interval has passed, and then counts the interval from its start |
| AutoPull.AutoPuller.PullSettles | src/home-sync/auto.ts:192-196 | a pull that ends, either way, is no longer in flight |
| AutoPull.PullRateBound | src/home-sync/auto.ts:169-199 | in every run at most one pull is unfinished, and the starts of any two pulls are at least the interval apart for each one from the first to the second, failures included |
| AutoPull.RecallSkipsIff | src/home-sync/auto.ts:169-176 | a recall goes without a pull if and only if pulls are off, one is unfinished, one began within the interval, or the clock is still within its first interval |
| Sessions.SessionTable.Sweep | src/http/mcp-session-idle.ts:59-75 | removes exactly the sessions idle for at least the idle time, counts them, and forgets every touch without a session |
| Sessions.SessionTable.Admit | src/http/mcp-http-server.ts:796-809 | sweeps, then admits exactly below the cap |
| Sessions.SessionTable.Register | src/http/mcp-http-server.ts:815-816 | registers the session and touches it |
| Sessions.SessionTable.OnClose | src/http/mcp-http-server.ts:832-835 | forgets the transport, not the touch |
| Sessions.SessionTable.Lookup | src/http/mcp-http-server.ts:781-783 | finds and touches a registered session; refuses others |
| Sessions.CapacityBound | src/http/mcp-http-server.ts:796-851 | with at most k initializes between check and registration at any time, live sessions never exceed the cap by more than k - 1 in any interleaving with closes, requests and sweeps |
| Sessions.CapacityBoundIsTight | src/http/mcp-http-server.ts:796-851 | for every cap and k some run with at most k overlapping initializes reaches cap + k - 1 |
| Sessions.RunsStayAligned | src/http/mcp-session-idle.ts:54-75 | over every run each registered session has a touch, and none was idle at the last timer sweep |
| Sessions.IdleSessionsGo | src/http/mcp-session-idle.ts:49-80 | over every run no session is idle for as long as the idle time plus one sweep interval plus the timer's lateness |
| Sessions.EvictsExactlyIdle | src/http/mcp-session-idle.ts:59-75 | a session disappears unclosed only in a sweep and exactly when untouched for the idle time; after a sweep the touches are those of the live sessions |
| Sessions.TouchedLast | src/http/mcp-session-idle.ts:54-57 | in every run the touch of a live session is the time of its last registration or request |
| Sessions.SweepEvictsIff | src/http/mcp-session-idle.ts:59-70 | a sweep evicts a session if and only if its last registration or request is at least the idle time ago |
| Sessions.SessionsInUseStay | src/http/mcp-session-idle.ts:59-75 | over every run a session registered or asked within the idle time, or at any time when idle eviction is off, is there unless it was closed |
| Sessions.GoneStaysGone | src/http/mcp-http-server.ts:832-835 | a closed or evicted session is not there again before it is registered anew |
| Sessions.TickWithinQuarter | src/http/mcp-session-idle.ts:51-51 | the sweep interval is a quarter of the idle time in whole milliseconds, at least a quarter second and at most five seconds |
| StreamPrune.StreamMaps.Prune | src/http/prune-json-stream-mappings.ts:38-60 | removes and counts exactly the JSON-only registrations that are neither standalone nor referenced by a pending request; nothing outside JSON mode |
| StreamPrune.PruneExact | src/http/prune-json-stream-mappings.ts:38-60 | an entry survives if and only if it is standalone, referenced, or not resolveJson-only; pruning twice prunes nothing more |
| StreamPrune.StreamMapBound | src/http/mcp-http-server.ts:881-886 | over every run of overlapping requests the map holds at most the distinct active streams, the streams of answered POSTs whose handlers have yet to return, the SSE entries, and one; with no POST open only SSE entries and one, however many POSTs there were |
| StreamPrune.ReturnLeavesActive | src/http/mcp-http-server.ts:881-886 | as a POST returns, an entry stays if and only if a pending request refers to it or it is SSE or standalone, so the map is within the distinct active streams, the SSE entries and one |
| StreamPrune.PruneStopsGrowth | src/http/prune-json-stream-mappings.ts:38-60 | after any number of POSTs one after the other the map is empty; if handlers returned without pruning it would hold one entry for each |
| ApiBootstrap.ApiHolder.Ensure | src/composition/clawql-api-adapters.ts:97-111 | answers with the handle there is, the build under way, or a new build |
| ApiBootstrap.ApiHolder.BuildSucceeds | src/composition/clawql-api-adapters.ts:106-109 | a successful build sets the handle |
| ApiBootstrap.ApiHolder.StarterResumes | src/composition/clawql-api-adapters.ts:112-116 | the starting call clears the promise, whatever became of the build |
| ApiBootstrap.ApiHolder.Dispose | src/composition/clawql-api-adapters.ts:153-159 | hands back the handle and clears both variables |
| ApiBootstrap.SingleFlightBootstrap | src/composition/clawql-api-adapters.ts:97-117 | in every interleaving in which no disposal lands while a starter waits, at most one build runs, at most one handle is created between disposals, and all callers that succeeded have that handle |
| ApiBootstrap.ReadyAtOnce | src/composition/clawql-api-adapters.ts:97-111 | in such an interleaving every call after a successful build gets its handle at once and begins nothing, also before the starter has resumed; every call before it waits for a build |
| ApiBootstrap.RetryAfterFailure | src/composition/clawql-api-adapters.ts:112-116 | calls join a failed build until its starter resumes; the next one starts a fresh build |
| ApiBootstrap.DisposeKeepsSingleFlightIff | src/composition/clawql-api-adapters.ts:153-159 | a disposal keeps single flight if and only if no starter is waiting |
| ApiBootstrap.DisposeDuringBuild | src/composition/clawql-api-adapters.ts:153-159 | after a disposal during a build the next call runs a second one beside it |
| ApiBootstrap.LateResumeClearsNextPromise | src/composition/clawql-api-adapters.ts:112-116 | a starter that resumes after a disposal clears the next build's promise, so a third call starts another build beside it |
| Collect.Collector.WalkFile | src/home-sync/collect.ts:28-42 | adds the file under its relative path unless that is excluded |
| Collect.Collector.WalkDir | src/home-sync/collect.ts:44-65 | overlays, in listing order, everything below a directory that is not excluded |
| Collect.Collector.WalkRoot | src/home-sync/collect.ts:72-90 | walks one include item; blank, excluded and missing ones add nothing; one that passes through something other than a directory fails |
| Collect.CollectLocalSyncFiles | src/home-sync/collect.ts:68-91 | the overlay of all include items (what that holds the rows of Exclusion and Collected say), or a failure if and only if some item fails |
| Collected.RootIsGood | src/home-sync/collect.ts:75-78 | an item that is not skipped, joined to the vault, gives good names without backslashes: only a leading .. leaves the vault |
| Collected.CollectedAreFiles | src/home-sync/collect.ts:21-91 | every collected path is that of a file, with its contents, that some include item reaches, and passes the textual test |
| Collected.ReachedAreCollected | src/home-sync/collect.ts:44-91 | every file some include item reaches has its path collected |
| Exclusion.ExcludedIff | src/home-sync/collect.ts:21-26 | the textual test of a path is a test of its names: anything below vault, memory.db, sync.json, clawql.env, Dashboard/logs, and any name but the first that begins with a dot |
| Exclusion.NothingPrivateCollected | src/home-sync/paths.ts:17-24 | whatever the tree and the include items, no collected path is below vault, one of the five fixed ones, or has a dot after a slash |
| Exclusion.CollectedAreAllowed | src/home-sync/collect.ts:21-91 | every collected path is that of a file at or below an item that is neither blank nor private, with no hidden name below the item and no private directory on the way |
| Exclusion.AllowedAreCollected | src/home-sync/collect.ts:44-91 | and the path of every such file is collected |
| Exclusion.RootOfPath | src/home-sync/collect.ts:73-75 | an item that is a plain path names that path in the vault, with or without a slash before it, and beside the vault with two dots before it |
| Exclusion.ItemCollectsBelow | src/home-sync/collect.ts:44-91 | such an item collects every plain file at or below it unless the file or a directory on the way is private |
| Exclusion.MemoryIsCollected | src/home-sync/paths.ts:9-15 | the first default item collects every plain note below Memory |
| RelPaths.SamePathIff | src/home-sync/collect.ts:17-19 | two paths have the same text if and only if their names, cut at backslashes, are the same |
| Collected.CollectedIff | src/home-sync/collect.ts:44-91 | unless reached files of different contents share a path, a path is collected with given contents if and only if a reached file with that path has them |
| Collected.PlainIsUnambiguous | src/home-sync/collect.ts:17-19 | when no reached file has a backslash in its path, none share a path |
| Collected.CollectedIsRestricted | src/home-sync/collect.ts:68-91 | in a tree without backslashes what is collected is the tree's files restricted to the paths some include item reaches, which is what being in scope means in the sync modules |
| ListingOrder.OrderFreeIff | src/home-sync/collect.ts:68-91 | what is collected depends neither on the listing order of directories nor on the order and repetition of include items if and only if no two reached files of different contents have the same names once cut at backslashes |
| ListingOrder.ListingFreeIff | src/home-sync/collect.ts:44-65 | with the items as they are, the listing order does not matter if and only if no item reaches two such files without a later item reaching one |
| ListingOrder.LaterRootSettles | src/home-sync/collect.ts:75-86 | an include item that names a file decides its path in every listing order, whatever shares the path |
| ListingOrder.BackslashNamesCollide | src/home-sync/collect.ts:17-19 | a directory with two files that share a path, where the listing order decides which is collected |
| Collected.CollectedKeysIff | src/home-sync/paths.ts:30-46 | collected paths decode back from their object keys if and only if the path of no reached file has a first name that begins with a backslash; then distinct paths have distinct keys |
| Collected.LeadingSlashIff | src/home-sync/collect.ts:17-19 | a collected path begins with a slash if and only if the first of its names begins with a backslash |
| Collected.LeadingBackslash | src/home-sync/paths.ts:36-46 | a file whose name begins with a backslash has a path whose key decodes to another path |
| Collected.ManifestKeyNeedsDotRoot | src/home-sync/paths.ts:36-40 | a collected path has the manifest's key only if some include item lies in the vault's own .clawql directory |
| ObjectKeys.KeyRoundTripIff | src/home-sync/paths.ts:36-46 | for every prefix a key decodes back to its path if and only if the path has no backslash and no leading slash |
| ObjectKeys.KeysAreUnderPrefix | src/home-sync/paths.ts:29-46 | a key is the trimmed prefix with a slash at its end, or nothing when that is blank, and then the path with slashes for backslashes and exactly its leading ones cut off; a key decodes if and only if it begins like that, to what follows |
| ObjectKeys.KeysDistinct | src/home-sync/paths.ts:36-40 | such paths have equal keys if and only if they are equal |
| ObjectKeys.ManifestKeyIsReserved | src/home-sync/paths.ts:7-7 | only the manifest's own path gets the manifest's key |
| ProviderVault.BuildProvidersVaultPayload | src/provider-vault/catalog.ts:236-248 | computes, with its early exit, the vault in which each property has the trimmed value of its first alias that is not blank: for a well-formed catalog alias j wins exactly when it is set and all before it are blank, and the property is absent when all are |
| ProviderVault.VaultProviderDataToEnv | src/provider-vault/catalog.ts:256-263 | computes the environment in which each entry's variable has its property's non-blank value, trimmed |
| ProviderVault.BuiltAt | src/provider-vault/catalog.ts:236-248 | over a well-formed catalog a property has the trimmed value of the alias that is set with all before it blank, and is absent if and only if all are blank |
| ProviderVault.ProjectedAt | src/provider-vault/catalog.ts:256-263 | over a well-formed catalog a variable is projected if and only if its property is not blank, with the trimmed value |
| ProviderVault.BuildInvertsProjection | src/provider-vault/catalog.ts:236-263 | building from a projected vault gives that vault cleaned and restricted to the catalog |
| ProviderVault.ApplyEnvChangesToVaultProviderData | src/provider-vault/catalog.ts:265-281 | literals set and removals delete the properties behind known variables, in the order given; unknown variables do nothing |
| ProviderVault.EditedAt | src/provider-vault/catalog.ts:265-281 | after edits in any enumeration order a property is absent if its variable is removed, else holds the literal if there is one, else is as it was |
| ProviderVault.EditsCommute | src/provider-vault/catalog.ts:256-281 | editing a vault and projecting it equals projecting it and editing the environment |
| ProviderVault.OthersAreKept | src/provider-vault/catalog.ts:265-281 | edits and merges leave every property alone that is not in the catalog; unknown variables do nothing |
| ProviderVault.LocalStore.Read | src/provider-vault/local-store.ts:22-39 | missing file, unreadable file, non-object, or the non-blank strings of the object, trimmed |
| ProviderVault.LocalStore.Write | src/provider-vault/local-store.ts:57-72 | the file holds exactly the non-blank values, trimmed |
| ProviderVault.LocalStore.MergeEnv | src/provider-vault/local-store.ts:92-103 | returns the stored vault overridden by what the environment sets, and the file then holds and reads back as exactly that; a parse error leaves the file alone |
| ProviderVault.MergeIdempotent | src/provider-vault/local-store.ts:92-103 | merging the same environment again changes nothing |
| ProviderVault.MergeThenProject | src/provider-vault/local-store.ts:92-103 | after a merge each catalog variable projects to the alias that is set in the environment with all before it blank, or, when all are blank, to what was stored; a missing file is an empty vault |
| ProviderVault.ProcessEnv.ApplyLocalProvidersVault | src/provider-vault/local-store.ts:114-123 | a variable that is set and not blank keeps its value; a missing or blank one gets what is projected for it, and exactly those are returned, once each; nothing else changes |
| ToolAudit.RedactValue | src/mcp/mcp-tool-audit.ts:41-55 | the recursive redaction with its property-by-property output equals the structural one on every JSON tree |
| ToolAudit.SensitiveIff | src/mcp/mcp-tool-audit.ts:9-10 | a name is sensitive if and only if it is, letter by letter in either ASCII case, one of the seven words or api or private followed by key with nothing, an underscore or a hyphen between |
| ToolAudit.PatternHides | src/mcp/mcp-tool-audit.ts:48-52 | in every object above the depth limit the value under a name the pattern matches is replaced by the marker whatever it is, and every other property keeps its name and the redaction of its value |
| ToolAudit.RedactionLimits | src/mcp/mcp-tool-audit.ts:41-47 | in numbers: depth 4, 119 characters and an ellipsis of a string longer than 120, the first 8 items of an array |
| ToolAudit.RedactionHides | src/mcp/mcp-tool-audit.ts:41-55 | two values equal except under sensitive names, at any depth, have the same redaction |
| ToolAudit.RedactedIsBounded | src/mcp/mcp-tool-audit.ts:41-55 | output strings have at most 120 characters, arrays 8 items, nothing but a marker lies below the depth limit or under a sensitive name |
| ToolAudit.RedactionFixesIff | src/mcp/mcp-tool-audit.ts:41-55 | redaction leaves a value alone if and only if it is within those bounds |
| ToolAudit.RedactedAt | src/mcp/mcp-tool-audit.ts:41-55 | wherever a path through the first eight items and non-sensitive names leads, the redacted value has there the redaction of what is there, and it leads nowhere else |
| ToolAudit.HiddenAt | src/mcp/mcp-tool-audit.ts:41-55 | one step further, a sensitive name that is there holds exactly the marker, and items past the eighth are gone |
| Texts.Truncate | src/mcp/mcp-tool-audit.ts:32-35 | at most the given length, unchanged when short enough, otherwise the beginning of the text and an ellipsis |
| Texts.TrimCuts | src/provider-vault/catalog.ts:240-240 | trimming takes white space off both ends, nothing else, and leaves none there |
| ToolAudit.RedactionIdempotent | src/mcp/mcp-tool-audit.ts:41-55 | redacting twice is redacting once |
| ToolAudit.SummaryThrowsIff | src/mcp/mcp-tool-audit.ts:68-95 | summarizing throws if and only if a value it prints is an object with a toString property of its own, alone or in nested arrays |
| ToolAudit.SummaryThrows | src/mcp/mcp-tool-audit.ts:68-95 | an ingest whose title is an object with its own toString makes the summary throw; as another tool's argument it does not |
| ToolAudit.Prints | src/mcp/mcp-tool-audit.ts:37-39 | how printed values read: null as nothing, booleans, numbers and strings as themselves, arrays joined by commas, objects as [object Object] |
| ToolAudit.DecimalReadsBack | src/mcp/mcp-tool-audit.ts:65-65 | a printed length is digits without a leading zero that read back as the length |
| ToolAudit.IngestSays | src/mcp/mcp-tool-audit.ts:72-73 | a memory_ingest summary has the first 80 characters of the title, the append flag and the length of the insights |
| ToolAudit.RecallSays | src/mcp/mcp-tool-audit.ts:74-75 | a memory_recall summary has the first 80 characters of the query and both limits |
| ToolAudit.PlainRecallSays | src/mcp/mcp-tool-audit.ts:74-75 | absent or null limits leave nothing after their names |
| ToolAudit.SearchSays | src/mcp/mcp-tool-audit.ts:76-77 | a search or web_search summary has the first 80 characters of the query |
| ToolAudit.ExecuteSays | src/mcp/mcp-tool-audit.ts:78-79 | an execute summary has the operation id and dry_run, or dryRun when that is absent or null |
| ToolAudit.SqlSays | src/mcp/mcp-tool-audit.ts:80-82 | a data_query or clawql_sql summary has only the length of sql, or of query when that is absent or null |
| ToolAudit.CacheSays | src/mcp/mcp-tool-audit.ts:85-86 | a cache summary has the operation and the first 80 characters of the key |
| ToolAudit.OthersSay | src/mcp/mcp-tool-audit.ts:87-93 | any other tool's summary is its redacted arguments cut to 400 characters, and nothing when they are no object |
| ToolAudit.RecordSays | src/mcp/mcp-tool-audit.ts:105-132 | the whole record of a call with one text in its result: tool, outcome, summary, error flag, length of the text, error message and trimmed correlation id, each cut to its limit |
| ToolAudit.SummaryHides | src/mcp/mcp-tool-audit.ts:68-95 | for every tool, not only the default branch, arguments equal except under sensitive names have the same summary or both throw |
| ToolAudit.SnippetHides | src/mcp/mcp-tool-audit.ts:57-66 | results equal except for the characters of strings have the same snippet |
| ToolAudit.RecordHides | src/mcp/mcp-tool-audit.ts:105-132 | neither a value under a sensitive argument name nor a character of the result's text influences the record |
| ToolAudit.RecordBounds | src/mcp/mcp-tool-audit.ts:105-132 | there is no record if and only if auditing is off or the tool is nameless or audit; building throws exactly when the summary does; a record has an action of at most 128 and a summary of at most 512 characters, both non-empty, the summary starting with the outcome, so its fallback is never taken; correlation id 1 to 128 |

## Left out

Weaker than the source, or under assumptions:

- AutoPushDelivery.NoLostWrite: between its snapshot and its success a push is one step of the run, with the bucket
  as it is at the success; `SyncProtocol` has the fetch, the uploads and the put as separate steps. A file that
  changes between its collection and its upload is not modelled, and the vault is what collection reaches of it.
- AutoPush.LatencyBound: timers may fire late by a parameter `delta`; with `delta` zero the bound is exact.
- Sessions.IdleSessionsGo: the sweep timer may be late by a parameter.
- Sessions.SessionTable.Lookup: the standalone GET that is answered 405 and the DELETE that looks up without touching
  are not separate methods; in runs a DELETE is the close that follows it.
- SyncProtocol.InterleavingCoherence: the contents of a path are agreed between machines; without that only
  `ManifestPathsHaveObjects`, `LossNeedsOverlap` and the single-push results hold.
- Convergence.ReachableStatesConverge: the rounds run while nobody else pushes, pulls or edits.
- Collected.CollectedIff: symbolic links, a vault that is the root of the file system, and files that change during
  the walk are not modelled; directories outside the vault that an item starting with .. reaches are.
- Collected.CollectedIsRestricted: for trees without backslashes; with them a path does not determine its file.
- ProviderVault.EditsCommute: the catalog's properties are unique and not empty, its alias lists disjoint, and each
  variable among its own aliases, as the shipped catalog's are; its actual entries are not part of this model.
- StreamPrune.StreamMapBound: that the SDK registers a stream of its own for each POST, answers all its requests at
  once and then lets the handler return, and that `cleanup` deletes its own entry, are assumed; a handler that fails
  while its requests are pending is not modelled.
- ApiBootstrap.ApiHolder.Dispose: awaiting the handle's own disposal and the memory stores' is not modelled.
- ToolAudit.RecordHides: `JSON.stringify` is any function from JSON values to strings; it does not fail on them,
  so the fallback for unserializable arguments is not modelled. The error message is part of the record unredacted.
- ToolAudit.RedactValue: arguments are JSON trees; other JavaScript values and the name `__proto__` are not modelled.

Not modelled:

- SHA-256 itself: a hash is an injective constructor.
- File sizes and modification times in the manifest, the wording of plan reasons, formatted status text, and the
  validation of a fetched manifest's shape and version (a rejected one is no manifest).
- Bucket and network failures inside a method; in `SyncProtocol` any job may vanish between two steps instead.
- Object keys inside the sync modules: objects are addressed by path, which `Collected.CollectedKeysIff` justifies.
- The sort order of the conflicts memory_sync reports, and paths named like members of `Object.prototype`.
- The pull at start-up, environment flags and defaults, stopping the idle watcher, session start and end
  hooks, session labels and stateless transports.
- Iteration order of maps and records is arbitrary instead of insertion order; the results hold for every order.
- Strings are sequences of characters instead of UTF-16 code units.
- The S3, R2 and GCS clients, command-line tools, governance and payment wiring.
