# atomwall: a verified model of its stateful core

atomwall is a reverse proxy and web application firewall.  Around its socket code sits a set of
self-contained components with invariants of their own, and this project models those in Dafny and
proves what they promise.

Three kinds of statement run through the modules.

* **One call.** Every object of the source that updates its fields in place is a class; each method
  is proved to do what a function on its abstract state says (`Abs() == F(old(Abs()))`), loops
  included.
* **Every run.** The functions are folded over arbitrary lists of calls, and the bounded, lazily
  pruned structure is compared with an unbounded reference that never forgets (`History`,
  `Current`, `Outstanding`, the plain log of requests).
* **Every interleaving.** For the concurrent components each critical section and each look at a file is one
  step, and program counters, the disk or file, and the file system are part of the state.

| module | subject |
|---|---|
| `ConfigStore` | read-mutate-swap updates with a collapsing background writer |
| `TlsSiteContexts` | the single-flight cache of per-site TLS contexts |
| `RequestLog`, `CsvRows`, `SseStream` | ring, batches, writer thread, CSV rows, live view |
| `ScoreTracker`, `ChallengeStore`, `RequestRateTracker`, `IpBlockTracker` | bounded stores with lazy deletion |
| `Words`, `Base64Url`, `Base32`, `Hotp`, `Totp`, `NetUtils` | bit-level codecs, one-time codes, CIDR matching |
| `AwardScore`, `HttpSession` | scores and bans, the order of the request gates |
| `Accounts`, `Tokens`, `Login`, `AuthHandlers`, `LoginRuns`, `LoginPolicy`, `LoginLaws` | the admin login |
| `RobotsTxt` | the robots.txt merge |

## Conventions

Clocks, random tokens, salts and challenges are parameters.  HMAC, password hashing, WebAuthn
verification, certificate loading and address parsing are functions given as parameters.  The content
of the configuration file is the configuration itself.  Where the source works on 32-bit words, `Words`
defines the operators bit by bit and the wrap is written out (`U32`, `S32`); sequence numbers and
counters that the source keeps in 64 bits are unbounded.  Times are whole seconds or ticks as plain
integers.  File opens and writes succeed.  The
route strings of the admin API are represented by their access class, and a missing cookie by a token that was never issued.

What the concurrent results assume is written in their contracts.  A file may get any modification time, by the
store's own writes, by edits and by the touches of certificate files: later, earlier, the same or none.  Files are
looked at one at a time, and anything may happen between two looks.  Three named conditions appear:

* `ConfigStore.Undisturbed`, which is shown to be exactly what keeps published changes from being dropped
  (`NothingIsDroppedExactly`); the results about the replay, the file and the exit are for such runs;
* `s.foreign`, true while the configuration file was last written by somebody else and nothing was published from it since: what the store promises about the
  contents of the file it promises while it is false;
* `TlsSiteContexts.Rising`, times of the caller's own listed files that never go down: only the results that tie a map
  that is *kept* to the looks of the call keeping it need it, up to the end of that call.

Findings where the code does not do what one might expect are proved as such, with the input and the exact condition:

* a poll reverts published configuration changes unless what it read was the newest when it read it and no update came
  in between, and an update reverts a reload that came after its copy (`PollRevertsPendingUpdate`,
  `PollRevertsLaterUpdate`, `UpdateRevertsReload`, `NothingIsDroppedExactly`);
* an edit by hand is read by the next poll to begin exactly if the writer has not written the file by then and the
  time last known, from the writer's note or a poll that was under way, is not the edit's (`EditIsReloadedExactly`,
  `PollUnderWayReads`, `EditIsOverwritten`, `EditIsTakenForOwn`, `EditIsTakenForEarlier`, `UnseenForGood`);
* the TLS map is read after its fingerprint is taken and can be newer (`MapBelongsExactly`, `MapCanOutrunFingerprint`);
  this does no harm until an old file comes back with its old time (`MatchMeansBelongs`, `KeptMapIsOwnExactly`,
  `RestoredFileIsMissed`); and a
  snapshot already checked is answered without a look at its files (`AnswerIsCurrentExactly`, `RenewalIsMissed`);
* restarting a challenge within one clock tick costs it its full lifetime in the queue (`RestartInOneTickDiesEarly`);
* a limit of 0 in `events_since` acts as 1;
* sessions outlive the deletion of their user, so the policy is kept exactly for users not deleted since they enrolled
  (`SessionsOutliveTheirUser`, `RequiredMeansRequired`);
* a removal of an expired block answers by whether a prune came first (`RemoveAnswersExactly`);
* a visitor on the whitelist still fills its rate window (contract of `HttpSession.CheckRequestRate`).

The comment at source/src/admin/admin_server.cpp:565-567 speaks of TOTP as the only
second factor; the code, which the model follows, refuses to disable TOTP under the policy even for
a user who has passkeys.

## Model

| member | source | states |
|---|---|---|
| `ConfigStore.Store.Update` | source/src/config/config_store.cpp:56-85 | publishes and enqueues the mutator's result; a mutator that throws leaves the whole store as it was |
| `ConfigStore.Store.Shutdown` | source/src/config/config_store.cpp:19-26 | with the writer idle, shutdown leaves nothing pending and persists what was; the interleaved case is `ShutdownDrains` |
| `ConfigStore.ThrowingUpdateChangesNothing` | source/src/config/config_store.cpp:56-70 | from any state in which the update mutex is free, an update whose mutator throws ends in exactly that state, the mutex free again |
| `ConfigStore.UpdaterFinishes` | source/src/config/config_store.cpp:56-85 | from every invariant state the updating thread gives the mutex back within four steps of its own; it publishes and enqueues its mutator's result once, or changes nothing of object and file if the mutator refuses the copy |
| `ConfigStore.PollAlone` | source/src/config/config_store.cpp:87-114 | a poll with nothing in between leaves everything as it was if the file's time is known or the file does not parse, and else publishes the file's configuration and notes the time it saw |
| `ConfigStore.PollerFinishes` | source/src/config/config_store.cpp:87-114 | a poll under way ends within three steps of its own and publishes one reload at most |
| `ConfigStore.WriterCatchesUp` | source/src/config/config_store.cpp:120-141 | from every invariant state the writer's own steps leave nothing pending and bring the file up to what is published, but for an update not yet enqueued or a file somebody else wrote |
| `ConfigStore.RunKeepsInv` | source/src/config/config_store.cpp:56-141 | the protocol invariant holds after every undisturbed run: updates, writer and the four sections of a poll interleaved in any way, and any edits by hand at any time, so long as no update is published over a reload it has not seen and no poll publishes what was not the newest when read or is not when published |
| `ConfigStore.StepIsLinearExactly` | source/src/config/config_store.cpp:56-114 | a step publishes something based on the newest configuration if and only if it keeps those two things apart, for any invariant state |
| `ConfigStore.NothingIsDroppedExactly` | source/src/config/config_store.cpp:56-114 | over every interleaving, disturbed ones included: no published change is dropped by a later one if and only if the run is undisturbed |
| `ConfigStore.NoUpdateIsLost` | source/src/config/config_store.cpp:56-85 | in every undisturbed run the published configuration is all committed changes and reloads performed in order; the newest of pending, in-flight and persisted equals it, except between swap and enqueue and, when nothing is pending or in flight, except for a file somebody else wrote last; a file that nobody else wrote equals it when nothing is under way |
| `ConfigStore.DiskIsAPrefix` | source/src/config/config_store.cpp:120-136 | in every undisturbed run a file the store wrote last is a configuration that was once current, and each own write moves strictly forward through the commits however many were collapsed |
| `ConfigStore.ExitedMeansPersisted` | source/src/config/config_store.cpp:19-26 | in every undisturbed run, once the writer has exited, a file that nobody else wrote last holds the last published configuration |
| `ConfigStore.ShutdownDrains` | source/src/config/config_store.cpp:120-141 | from every invariant state with shutdown requested the writer's own steps lead to its exit, with everything persisted unless somebody else wrote the file last and nothing was left to write |
| `ConfigStore.PollRevertsPendingUpdate` | source/src/config/config_store.cpp:87-136 | a run in which a poll between the writer's write and its note of the time reverts an update already published |
| `ConfigStore.PollRevertsLaterUpdate` | source/src/config/config_store.cpp:87-114 | a run in which the poll reads the newest configuration and still reverts the update published before it stores |
| `ConfigStore.UpdateRevertsReload` | source/src/config/config_store.cpp:56-85 | a run in which an update with an older copy reverts an edit that was just reloaded |
| `ConfigStore.EditIsReloadedExactly` | source/src/config/config_store.hpp:48-51 | whatever is under way when the file is edited, a poll then included, the next poll to begin reads the edit if and only if until then the writer did not write the file and the time last known, by the writer's note or from the poll under way, is not the edit's; over all runs of updates, writer and that poll in between |
| `ConfigStore.PollUnderWayReads` | source/src/config/config_store.cpp:103-108 | a poll already under way that has still to read gets the edit itself if and only if the writer does not write the file first |
| `ConfigStore.EditIsTakenForEarlier` | source/src/config/config_store.cpp:87-113 | a run in which a second edit within the same tick, under a poll that has read the first, is taken for the first and left unseen with all quiet |
| `ConfigStore.EditIsOverwritten` | source/src/config/config_store.cpp:120-136 | a run in which an edit made while all was quiet is overwritten by the next update before any poll saw it |
| `ConfigStore.EditIsTakenForOwn` | source/src/config/config_store.cpp:133-136 | a run in which an edit between the write and the note of its time leaves the store quiet and the edit unseen |
| `ConfigStore.UnseenForGood` | source/src/config/config_store.cpp:87-101 | such an edit is never read by any poll in any later run in which nobody edits the file again |
| `TlsSiteContexts.Cache.TakeFingerprint` | source/src/listener/tls_site_contexts.cpp:18-30 | paths and modification times of the sites that have their own certificate, in order, each file as its own look finds it |
| `TlsSiteContexts.Cache.BuildContexts` | source/src/listener/tls_site_contexts.cpp:32-46 | the loadable pairs by domain, the last site of a domain winning, each file as its own look finds it; a pair that fails to load is left out |
| `TlsSiteContexts.Cache.Current` | source/src/listener/tls_site_contexts.cpp:48-86 | a call with no other caller in between, its files changing all the time: the fingerprint it took is stored, a map built anew is that of the files as read, a map kept is the stored one, and is that of the files as looked at if it belonged to its fingerprint |
| `TlsSiteContexts.TakenLists` | source/src/listener/tls_site_contexts.cpp:12-30 | a fingerprint has one entry for each site that names both files and none else, in their order, with what its own two looks found |
| `TlsSiteContexts.TakenHolds` | source/src/listener/tls_site_contexts.cpp:12-46 | a domain is in the map read by a series of looks if and only if some site of it names both files and its pair loads, and its context is that of the last such site |
| `TlsSiteContexts.BuildHolds` | source/src/listener/tls_site_contexts.cpp:32-46 | the same for files that stay as they are |
| `TlsSiteContexts.BuildIsFromFingerprint` | source/src/listener/tls_site_contexts.cpp:18-46 | the map of files that stay as they are depends on nothing but the fingerprint |
| `TlsSiteContexts.EqualFingerprintsEqualBuilds` | source/src/listener/tls_site_contexts.cpp:72-77 | equal fingerprints give equal maps, whatever the two snapshots and moments |
| `TlsSiteContexts.StampInjective` | source/src/listener/tls_site_contexts.cpp:18-30 | a fingerprint determines which sites were looked at and what was found |
| `TlsSiteContexts.Squeeze` | source/src/listener/tls_site_contexts.cpp:71-77 | where the times of the listed files only rise, a matching fingerprint was taken of the very files that the stored map was read from |
| `TlsSiteContexts.RunKeepsInv` | source/src/listener/tls_site_contexts.cpp:48-86 | in every interleaving of callers, single looks at files and changes of files to any time: the stored map is that of the files as some refresh read them one by one, each after it was printed into the stored fingerprint; and what each caller holds and each answer given rests on |
| `TlsSiteContexts.SingleFlight` | source/src/listener/tls_site_contexts.cpp:55-69 | at most one caller is ever between raising and clearing the refresh flag, and the flag is up exactly then |
| `TlsSiteContexts.RefresherFinishes` | source/src/listener/tls_site_contexts.cpp:60-85 | from every invariant state the refresher's own steps lower the flag and answer its caller, within two looks at each file and three steps |
| `TlsSiteContexts.KeepsExactly` | source/src/listener/tls_site_contexts.cpp:71-77 | a refresher keeps the stored map if and only if its looks saw the sites and times of the stored fingerprint |
| `TlsSiteContexts.AnswerRestsOnLooks` | source/src/listener/tls_site_contexts.cpp:71-85 | in every run an answer is its caller's map with each listed file as its look found it at a moment of that run before the call ended, for a refreshing call a moment within the call; unconditionally if it rebuilt, where the times of its own listed files had only risen if it kept a map |
| `TlsSiteContexts.AnswersAtRest` | source/src/listener/tls_site_contexts.cpp:71-85 | a refreshing caller whose files rest from its beginning to its end gets exactly its own map of them, again with rising times of those files assumed only if it kept a map |
| `TlsSiteContexts.AnswerIsWhatWasRead` | source/src/listener/tls_site_contexts.cpp:50-85 | with no condition on file times, every answer but a stale one is its caller's own map of the files as they were read, by that call or an earlier one |
| `TlsSiteContexts.AnswerIsCurrentExactly` | source/src/listener/tls_site_contexts.hpp:19-24 | such an answer is the map of the files as they are when it is given if no listed file has another time then than when the map was read, and only then if the loader can tell the times apart and no domain is listed twice; fast, confirmed and rebuilt answers alike, file times going up and down |
| `TlsSiteContexts.KeptMapIsOwnExactly` | source/src/listener/tls_site_contexts.cpp:71-77 | a refresh that keeps the stored map gets the map of what its own looks found if that map belonged to its fingerprint, and only then if the loader can tell |
| `TlsSiteContexts.OthersGetTheStoredMap` | source/src/listener/tls_site_contexts.cpp:50-58 | a call answered in the first section gets the map stored at that moment, or the empty one; it counts as checked exactly when its snapshot was the last one checked, and otherwise somebody is refreshing |
| `TlsSiteContexts.MapBelongsExactly` | source/src/listener/tls_site_contexts.cpp:71-85 | in every run the stored map is that of the stored fingerprint if no listed file had another time when read than when printed, and only then if the loader can tell |
| `TlsSiteContexts.UntouchedMapBelongs` | source/src/listener/tls_site_contexts.cpp:71-85 | in particular if nobody touched a listed file between its print and its read |
| `TlsSiteContexts.MapCanOutrunFingerprint` | source/src/listener/tls_site_contexts.cpp:71-85 | a run after which it is not: a certificate renewed between print and read |
| `TlsSiteContexts.MatchMeansBelongs` | source/src/listener/tls_site_contexts.cpp:72-77 | where the times of the listed files only rise, whenever a later fingerprint matches the stored one, the stored map is the map of it, even if it had outrun its own |
| `TlsSiteContexts.RestoredFileIsMissed` | source/src/listener/tls_site_contexts.cpp:72-77 | where they do not, a run in which a refreshing call gets the map of a certificate that was gone before the call began |
| `TlsSiteContexts.RenewalIsMissed` | source/src/listener/tls_site_contexts.cpp:50-54 | a run in which a renewed certificate is not served to a snapshot that was checked before |
| `ScoreTracker.Tracker.constructor` | source/src/history/score_tracker.hpp:28-29 | an empty tracker, its cap at least one |
| `ScoreTracker.Tracker.Add` | source/src/history/score_tracker.cpp:8-34 | inserts, evicts and adds as `AddPoints` says, and answers the new total |
| `ScoreTracker.Tracker.EvictOldest` | source/src/history/score_tracker.cpp:17-24 | the eviction loop pops down to the cap and drops only entries whose number matches |
| `ScoreTracker.FreshOutcome` | source/src/history/score_tracker.cpp:11-25 | the loop unrolled: a first offence pops at most one item and is itself never evicted |
| `ScoreTracker.FreshScore` | source/src/history/score_tracker.cpp:11-25 | a first offence of one IP costs another its score if and only if that one holds the oldest place of a full queue |
| `ScoreTracker.HistoryMeaning` | source/src/history/score_tracker.cpp:8-39 | an IP live in the unbounded reference history was inserted where the reference says, not inserted again and not reset since |
| `ScoreTracker.LiveExactly` | source/src/history/score_tracker.cpp:8-39 | it is live if and only if some insertion of it was not followed by a reset, and the reference holds the latest insertion |
| `ScoreTracker.StepKeepsWindow` | source/src/history/score_tracker.cpp:8-39 | one call keeps tracker and history in step |
| `ScoreTracker.RunIsWindow` | source/src/history/score_tracker.cpp:8-39 | after any calls the queue is exactly the last min(n, cap) first insertions, an IP is tracked if and only if its latest one is among them and was not reset, and its score is the saturating sum since then |
| `ScoreTracker.TrackedIpsBounded` | source/src/history/score_tracker.cpp:17-24 | the map never outgrows the cap |
| `ScoreTracker.AddingSaturates` | source/src/history/score_tracker.cpp:26-34 | adding points is plain addition between -2147483648 and 2147483647 and stops at these bounds |
| `ScoreTracker.SumsArePlain` | source/src/history/score_tracker.cpp:26-34 | of points that are not negative a score is the plain sum, as far as that fits an int |
| `ChallengeStore.Store.Begin` | source/src/auth/webauthn/challenge_store.cpp:5-21 | the whole start, sweep loop included |
| `ChallengeStore.StartKeepsValid` | source/src/auth/webauthn/challenge_store.cpp:5-21 | every live entry keeps a stamp of its own deadline, and only the started key can gain an entry |
| `ChallengeStore.SizeBound` | source/src/auth/webauthn/challenge_store.cpp:13-20 | live entries never outnumber the stamps, which never exceed the cap |
| `ChallengeStore.RunInvariant` | source/src/auth/webauthn/challenge_store.cpp:5-36 | after any calls each live entry is the outstanding start of its key |
| `ChallengeStore.HandsOutLatestStart` | source/src/auth/webauthn/challenge_store.cpp:23-36 | a consume hands out only the latest start of its key, before its deadline and before any other consume |
| `ChallengeStore.SingleUse` | source/src/auth/webauthn/challenge_store.cpp:23-36 | two consumes of a key are served by two different starts |
| `ChallengeStore.SweepSparesExactly` | source/src/auth/webauthn/challenge_store.cpp:13-20 | the sweep drops an unexpired entry if and only if its first stamp no longer fits under the cap |
| `ChallengeStore.SurvivesExactly` | source/src/auth/webauthn/challenge_store.cpp:5-21 | an unexpired entry survives later starts if and only if its depth plus their number stays within the cap |
| `ChallengeStore.FreshStartSurvives` | source/src/auth/webauthn/challenge_store.cpp:5-21 | a start with a new deadline is handed out if and only if fewer than kMaxEntries starts came in between |
| `ChallengeStore.RestartInOneTickDiesEarly` | source/src/auth/webauthn/challenge_store.cpp:13-20 | the exception: restarting a key with the same deadline costs it one start |
| `ChallengeStore.NothingExpiredRemains` | source/src/auth/webauthn/challenge_store.cpp:13-20 | with one time to live and a clock that does not step back no expired entry remains after a start |
| `CsvRows.CsvEscape` | source/src/history/request_log.cpp:44-63 | the escaping loop prints the neutralised text, quoted only if it must be |
| `CsvRows.ToCsvRow` | source/src/history/request_log.cpp:69-100 | the fourteen columns in order |
| `CsvRows.PrintedReadsAs` | source/src/history/request_log.cpp:44-63 | an RFC 4180 reader (section 2) gets arbitrary text back as its neutralised self, quotes, commas and line ends included |
| `CsvRows.RowReads` | source/src/history/request_log.cpp:69-100 | one row reads as one record of its event's fields |
| `CsvRows.FileReadsBack` | source/src/history/request_log.cpp:69-100 | any list of rows reads back as exactly the fields of the events |
| `CsvRows.FileSaysWhatHappened` | source/src/history/request_log.cpp:65-100 | record n of the file has the fields of event n in the columns of the header: numbers in decimal, the timestamp, text with an apostrophe exactly before one of the six formula characters, and whether it was blocked |
| `CsvRows.QuotedExactly` | source/src/history/request_log.cpp:44-63 | a field is quoted if and only if it has a comma, a quote or a line end in it |
| `CsvRows.NoFormulaSurvives` | source/src/history/request_log.cpp:45-47 | every record has fourteen fields and no visitor-controlled one starts like a formula |
| `CsvRows.RecoveredExactly` | source/src/history/request_log.cpp:45-47 | a field comes back unchanged if and only if it did not look like a formula |
| `RequestLog.Log.Add` | source/src/history/request_log.cpp:127-144 | numbers the event, batches it and trims the ring |
| `RequestLog.Log.EventsAfter` | source/src/history/request_log.cpp:152-164 | the first `limit` events newer than a number; a limit of 0 acts as 1 |
| `RequestLog.Log.WriteQueued` | source/src/history/request_log.cpp:206-213 | appends the rows of all queued batches in order |
| `RequestLog.RunKeepsInv` | source/src/history/request_log.cpp:111-215 | every interleaving of recorders and writer keeps the conservation invariant |
| `RequestLog.NothingLost` | source/src/history/request_log.cpp:127-144 | file, writer's hand, queue and open batch are together exactly the recorded events in order; the open batch stays below 100 and the ring is the last min(n, capacity) events |
| `RequestLog.BatchesAreFull` | source/src/history/request_log.cpp:127-139 | before the destructor every batch handed to the writer has exactly a hundred events |
| `RequestLog.ClosedFileIsComplete` | source/src/history/request_log.cpp:111-125 | after the destructor the file holds every event, and its rows read back with what happened in each column |
| `RequestLog.ShutdownDrains` | source/src/history/request_log.cpp:198-214 | after shutdown the writer leaves its loop within a bounded number of its own steps with everything written |
| `SseStream.RecordedLogsAreOk` | source/src/history/request_log.cpp:127-169 | every run of the request log is one a session can poll |
| `SseStream.PollFinds` | source/src/history/request_log.cpp:152-164 | a poll finds a consecutive stretch of the recorded events, from the first undelivered one the ring still has |
| `SseStream.EventsSinceExactly` | source/src/history/request_log.cpp:152-164 | a query of any size finds the consecutive events from the first newer one that the ring still has, as many as asked for but at least one |
| `SseStream.PollSkipsExactly` | source/src/history/sse_stream.hpp:53-63 | a poll skips events if and only if more were recorded since the last frame than the ring holds |
| `SseStream.DeliveredInOrder` | source/src/history/sse_stream.hpp:45-64 | delivered numbers strictly increase and are of real events from after the connect |
| `SseStream.KeepsUpDeliversAll` | source/src/history/sse_stream.hpp:45-64 | a session that keeps up delivers exactly the consecutive events since its connect, however each poll is capped |
| `SseStream.GaplessExactly` | source/src/history/sse_stream.hpp:45-64 | over whole sessions: what is sent leaves no event out if and only if no poll came later than the ring could bridge |
| `RequestRateTracker.Tracker.Hit` | source/src/history/request_rate_tracker.cpp:5-20 | trims its own IP, sweeps when a window has passed, and answers how many times are kept |
| `RequestRateTracker.Tracker.DropBefore` | source/src/history/request_rate_tracker.cpp:16-18 | the trim loop drops the old times at the front |
| `RequestRateTracker.Tracker.SweepAll` | source/src/history/request_rate_tracker.cpp:27-35 | erases exactly the IPs with nothing inside the window |
| `RequestRateTracker.RunKeepsTails` | source/src/history/request_rate_tracker.cpp:5-35 | what is kept of an IP is a tail of all its times and what was dropped is older than the window |
| `RequestRateTracker.AnswerIsExact` | source/src/history/request_rate_tracker.cpp:5-20 | the answer is exactly the number of requests of that IP in the whole log inside the window |
| `RequestRateTracker.NothingStaysForLong` | source/src/history/request_rate_tracker.cpp:10-13 | each IP kept after a call made a request no longer ago than two windows |
| `IpBlockTracker.Tracker.IsBlocked` | source/src/history/ip_block_tracker.cpp:26-38 | true if and only if some stored block that has not expired covers the address |
| `IpBlockTracker.BlockedExactly` | source/src/history/ip_block_tracker.cpp:26-38 | an address is blocked if and only if the block filed under it has not expired or an unexpired range covers it |
| `IpBlockTracker.Tracker.ListActive` | source/src/history/ip_block_tracker.cpp:40-58 | each unexpired block once, newest first and then by text |
| `IpBlockTracker.Tracker.RemoveBlock` | source/src/history/ip_block_tracker.cpp:60-68 | removes by address, or by text for a range, and says whether anything went |
| `IpBlockTracker.PrecedesIsOrder` | source/src/history/ip_block_tracker.cpp:54-56 | the comparator is a strict weak order, as the standard sort demands |
| `IpBlockTracker.Sort` | source/src/history/ip_block_tracker.cpp:54-57 | an ordered permutation |
| `IpBlockTracker.ListedNewestFirst` | source/src/history/ip_block_tracker.cpp:54-57 | an ordered list goes from the newest block to the oldest, and alphabetically among blocks of one moment |
| `IpBlockTracker.RunAgrees` | source/src/history/ip_block_tracker.cpp:9-78 | the tracker holds nothing but what the plain map has and lacks only what has expired |
| `IpBlockTracker.PruningIsInvisible` | source/src/history/ip_block_tracker.cpp:9-38 | with a clock that does not step back, an address is blocked if and only if an unexpired entry of the never-pruned map covers it |
| `IpBlockTracker.ListShowsThePlainMap` | source/src/history/ip_block_tracker.cpp:40-58 | the blocks listed are exactly the unexpired entries of that map |
| `IpBlockTracker.SweptIsMissing` | source/src/history/ip_block_tracker.cpp:9-24 | whatever the clock does, the tracker lacks exactly those entries of the plain map that a prune has come for since they were added, at their expiry or later |
| `IpBlockTracker.RemoveAnswersExactly` | source/src/history/ip_block_tracker.cpp:60-68 | over every run a removal answers true if and only if the plain map has the entry and no prune came for it; with a clock that does not step back an unexpired entry was not swept, so the answer is the plain map's |
| `IpBlockTracker.RemoveSeesPruning` | source/src/history/ip_block_tracker.cpp:60-68 | a family of runs in which pruning does change the answer for an expired entry |
| `Words.Absorb` | source/src/auth/base64url.cpp:78 | shifting new bits into a 32-bit word that wraps, unsigned or signed, loses none of the bits still to come out |
| `Words.Emit` | source/src/auth/base64url.cpp:82 | shift and mask give out the bits above the low ones |
| `Words.ShiftIn` | source/src/auth/base64url.cpp:78 | one shift-in step keeps the bits of output and accumulator equal to those of the input |
| `Words.ShiftInSigned` | source/src/auth/totp.cpp:28 | the same on a signed accumulator |
| `Words.ShiftOut` | source/src/auth/base64url.cpp:80-83 | one shift-out step keeps them too |
| `Base64Url.BuildDecodeTable` | source/src/auth/base64url.cpp:13-20 | the table is the inverse of the alphabet, -1 elsewhere |
| `Base64Url.Encode` | source/src/auth/base64url.cpp:24-53 | the characters carry the bits of the bytes and zeros to fill the last one (section 5 of RFC 4648) |
| `Base64Url.Decode` | source/src/auth/base64url.cpp:55-86 | accepts exactly unpadded alphabet text whose length is not 1 mod 4, with the source's error for each refusal, and returns the whole bytes among the bits |
| `Base64Url.CodesAreUnique` | source/src/auth/base64url.cpp:24-86 | a byte string has one encoding and a text at most one decoding |
| `Base64Url.AlphabetIsTheTable` | source/src/auth/base64url.cpp:9-20 | a character has a value if and only if it stands at that place of the table in section 5 of RFC 4648 |
| `Base64Url.DecodeOfEncode` | source/src/auth/base64url.cpp:24-86 | every encoding is accepted and decodes to the bytes it encodes |
| `Base64Url.EncodeOfDecode` | source/src/auth/base64url.cpp:55-86 | encoding what was decoded gives the text back if and only if its spare bits are zero |
| `Base64Url.RoundTrip` | source/src/auth/base64url.cpp:24-86 | decode after encode is the identity on every byte string |
| `Base32.Encode` | source/src/auth/totp.cpp:23-39 | the characters carry the bits of the bytes and zeros to fill the last one (section 6 of RFC 4648), on a signed accumulator |
| `Base32.Decode` | source/src/auth/totp.cpp:46-67 | reads exactly the texts that are alphabet characters once separators are dropped and letters raised, and returns the whole bytes |
| `Base32.DecodeOfEncode` | source/src/auth/totp.cpp:23-67 | every encoding decodes to the bytes it encodes |
| `Base32.RoundTrip` | source/src/auth/totp.cpp:23-67 | decode after encode is the identity on byte strings of every length |
| `Base32.SeparatorsDoNotMatter` | source/src/auth/totp.cpp:51-53 | a space, hyphen or '=' inserted anywhere changes nothing |
| `Base32.CaseDoesNotMatter` | source/src/auth/totp.cpp:54 | lowercasing changes nothing |
| `Base32.OthersAreRefused` | source/src/auth/totp.cpp:46-58 | a text with any character besides separators and the alphabet in either case has no decoding |
| `Base32.AlphabetIsTheTable` | source/src/auth/totp.cpp:18-39 | a character has a value if and only if it stands at that place of the table in section 6 of RFC 4648 |
| `Base32.EncodeOfDecode` | source/src/auth/totp.cpp:46-67 | re-encoding gives back what was read if and only if fewer than five bits were to spare and those are zero |
| `Hotp.CounterBytes` | source/src/auth/totp.cpp:70-74 | the byte-filling loop |
| `Hotp.CounterBits` | source/src/auth/totp.cpp:70-74 | the eight bytes are the 64 bits of the counter, most significant first |
| `Hotp.Truncate` | source/src/auth/totp.cpp:83-88 | the shifts and masks compute the 31-bit number of section 5.3 of RFC 4226, without leaving the digest |
| `Hotp.TruncatedBits` | source/src/auth/totp.cpp:83-88 | the digest's last four bits say which four bytes, and the number is made of these bytes' bits but the first |
| `Hotp.RfcExample` | source/src/auth/totp.cpp:83-95 | the example of section 5.4 of RFC 4226 |
| `Hotp.Generate` | source/src/auth/totp.cpp:69-95 | the truncated digest modulo a million |
| `Hotp.PrintedSpells` | source/src/auth/totp.cpp:97-103 | every code has six digits and spells its number |
| `Hotp.EveryShapeIsPrinted` | source/src/auth/totp.cpp:97-103 | every six digits are the print of exactly one number |
| `Totp.VerifyTotp` | source/src/auth/totp.cpp:145-173 | the earliest of the current step and its two neighbours that shows the code, for every secret and code, usable or not |
| `Totp.AcceptedExactly` | source/src/auth/totp.cpp:145-173 | from the epoch on a code is accepted if and only if it is the six-digit code, for a key the secret stands for, of the thirty-second step of that moment or of a neighbour, and counts for the earliest |
| `Totp.StepsIncrease` | source/src/auth/user_store.cpp:223-231 | two codes of a user that are accepted have steps that strictly increase |
| `Totp.AcceptanceBound` | source/src/auth/user_store.cpp:223-231 | an interval of time accepts at most floor(t1/30) - floor(t0/30) + 3 codes of a user (section 5.2 of RFC 6238) |
| `Totp.ThreeAtOnce` | source/src/auth/totp.cpp:163-171 | the bound is met: all three neighbouring codes can be used in one second if they differ |
| `NetUtils.MatchPrefix` | source/src/pipeline/net_utils.cpp:47-64 | the byte loop with its mask never reads past the address |
| `NetUtils.MatchesFirstBits` | source/src/pipeline/net_utils.cpp:47-64 | matching compares exactly the first p bits |
| `NetUtils.MatchesAsNumbers` | source/src/pipeline/net_utils.cpp:47-64 | equivalently the two addresses as big-endian numbers agree once the low 8N - p bits are shifted out |
| `NetUtils.InCidrExactly` | source/src/pipeline/net_utils.cpp:68-78 | an address is in a range if and only if both are of one family and agree in each of the leading bits |
| `NetUtils.ParsesExactly` | source/src/pipeline/net_utils.cpp:14-43 | a text parses as a range if and only if it is an address, the first slash, and decimal digits for at most as many bits as the address has |
| `NetUtils.PrefixLaws` | source/src/pipeline/net_utils.cpp:68-78 | matching is an equivalence for each length, and a longer match implies every shorter one |
| `AwardScore.AddBalances` | source/src/history/score_tracker.cpp:8-34 | adding points changes the sum of live scores by the points that fit, less what eviction drops |
| `AwardScore.AwardExactly` | source/src/listener/http_session.hpp:120-148 | one award in full: nothing unless bans are on and the check has a positive score; else the points are added up to the largest int, and reaching the threshold files a ban with that score for the configured hours, ten years at most, and ends the score |
| `AwardScore.PointsAreConserved` | source/src/listener/http_session.hpp:120-148 | for every configuration and run: points awarded = points in bans + live scores + points dropped by eviction + points cut off by saturation |
| `AwardScore.NothingSaturates` | source/src/listener/http_session.hpp:130-137 | nothing is cut off if no award can pass INT_MAX from below the threshold |
| `AwardScore.LiveScoresAreBelowThreshold` | source/src/listener/http_session.hpp:130-144 | between awards every tracked score is positive and below the threshold |
| `AwardScore.CallsComeFromOffences` | source/src/listener/http_session.hpp:126-130 | every addition of points comes from an offence of that address and is worth what its check is configured to |
| `AwardScore.BansAreEarned` | source/src/listener/http_session.hpp:131-144 | a ban carries exactly the points its address earned since it last came into the tracker anew, which is after its last ban and after any eviction, and they reach the threshold |
| `HttpSession.OneAwardPerRefusal` | source/src/listener/http_session.hpp:271-355 | scores and bans of any run of requests are those of its refusals, one award each |
| `HttpSession.RefusedExactly` | source/src/listener/http_session.hpp:271-377 | a visitor past the ban gate and not on the whitelist is refused if and only if it is over the limit, or the method, header or, unless robots.txt was asked for, body check refuses, and by the first of these |
| `HttpSession.GatesExactly` | source/src/listener/http_session.hpp:229-340 | when each of the other gates is where a request ends |
| `HttpSession.AnswersExactly` | source/src/listener/http_session.hpp:229-397 | verdict, status and connection at each gate; the connection stays open if and only if the request was forwarded and the client keeps it alive |
| `HttpSession.LeavesExactly` | source/src/listener/http_session.hpp:271-377 | scores and bans change by exactly one award for a refusal and not otherwise; the rate window gains a time exactly for navigation past the ban gate with the speed check on |
| `HttpSession.OffencesAreRequests` | source/src/listener/http_session.hpp:271-355 | every offence is a request that was made by a visitor not on the whitelist |
| `HttpSession.BansHold` | source/src/listener/http_session.hpp:259-269 | from a ban until it ends, no request of that address gets past the ban gate unless it is on the whitelist |
| `HttpSession.SpeedCheckCounts` | source/src/listener/http_session.hpp:271-287 | a counted visitor is too fast if and only if its requests past the ban gate in the last window exceed the limit |
| `Accounts.ConsumeCode` | source/src/auth/backup_codes.cpp:62-87 | checks every unused code and uses up the first match |
| `Accounts.SpendTakesOne` | source/src/auth/backup_codes.cpp:62-87 | a candidate of the right shape is accepted exactly as often as there are unused codes it matches, and uses up one each time |
| `Accounts.LookupPut` | source/src/auth/user_store.cpp:168-191 | an edit changes the one user and nobody else |
| `Accounts.LookupErase` | source/src/auth/user_store.cpp:146-159 | a removal removes the one user and nobody else |
| `Accounts.UserStore.CreateIfEmpty` | source/src/auth/user_store.cpp:136-144 | adds the user only to an empty store |
| `Accounts.UserStore.FindByCredential` | source/src/auth/user_store.cpp:301-312 | the first user with a passkey of that id |
| `Tokens.SessionStore.SweepExpired` | source/src/auth/session_store.cpp:29-41 | the sweep loop keeps exactly the sessions that have not expired |
| `Tokens.PendingMfaStore.SweepExpired` | source/src/auth/pending_mfa_store.cpp:28-37 | the sweep loop keeps exactly the pending logins that have not expired |
| `AuthHandlers.Server.Call` | source/src/admin/admin_server.cpp:2184-2278 | one API call, gate and handler, is one step of the state machine that the next rows are about |
| `LoginLaws.AcceptedExactly` | source/src/admin/admin_server.cpp:331-970 | for every call of every kind: accepted if and only if its grounds are there, written out on the stores: the session, its user, its expiry and kind, passwords, pending logins, challenges, codes, the policy |
| `LoginLaws.AcceptedIsDone` | source/src/admin/admin_server.cpp:331-970 | an accepted call does what it is for, written out on the stores, and what it hands out is good for twelve hours, five, ten or two minutes |
| `LoginLaws.RestIsUntouched` | source/src/admin/admin_server.cpp:331-970 | a refused call changes nothing but the challenge that a verification uses up; secrets waiting to be confirmed change only by setting up and confirming |
| `Login.RepliesTellAll` | source/src/admin/admin_server.cpp:294-310 | a reply tells all that a call did to sessions and pending logins |
| `LoginRuns.FullGrantsAreJustified` | source/src/admin/admin_server.cpp:363-471 | a session that can do everything is granted only for a factor shown in that call, a passkey under the challenge outstanding for its ceremony, or by password while the policy is off and the user has no factor |
| `LoginRuns.FullSessionsHaveAReason` | source/src/admin/admin_server.cpp:294-400 | in every run each such session was so granted, or its user enrolled a factor with it |
| `LoginRuns.SecondFactorFollowsPassword` | source/src/admin/admin_server.cpp:416-471 | behind every second factor accepted is the right password of the same user, at most five minutes earlier |
| `LoginRuns.PendingLoginsAreSingleUse` | source/src/admin/admin_server.cpp:445-449 | each pending login yields at most one session |
| `LoginRuns.PasskeyLoginsAnswerAChallenge` | source/src/admin/admin_server.cpp:786-918 | behind every login by passkey is the last challenge issued for its ceremony, at most two minutes earlier and not consumed in between, answered by a passkey of that user |
| `LoginRuns.ChallengesServeOnce` | source/src/admin/admin_server.cpp:786-918 | of two calls that consume under one key the later is served a challenge issued after the earlier call |
| `LoginPolicy.StepFactorsExactly` | source/src/admin/admin_server.cpp:496-758 | under the policy a user has a factor after a call if and only if the call enrolled one or the user had one and the call did not carry out the deletion of the account; refused calls change nothing |
| `LoginPolicy.ChangesAreWarranted` | source/src/admin/admin_server.cpp:496-758 | a call changes a user's TOTP secret or codes only by an enrolment whose code the pending, unexpired secret shows, by TOTP being disabled or codes renewed from the user's own session with the right password, or by using up one code at a login; passkeys only from the user's own session; the password hash never; accounts come and go only by setup, creation and deletion |
| `LoginPolicy.FactorsExactly` | source/src/admin/admin_server.cpp:496-758 | over every run with the policy on at each call: who has a second factor at the end is exactly who enrolled, or had one at the start, and was not deleted since |
| `LoginPolicy.NobodyLosesTheLastFactor` | source/src/admin/admin_server.cpp:555-758 | while the policy is on, an enrolled user keeps a factor through every call but a deletion of the account that is carried out |
| `LoginPolicy.PolicyChanges` | source/src/admin/admin_server.cpp:2190-2206 | only a call by a user with a full session, answered as done, changes the policy |
| `LoginPolicy.RequiredMeansRequired` | source/src/admin/admin_server.cpp:2190-2206 | with the policy on at each call since the first account, every call beyond enrolment is made by a user who enrolled in the run, and that user has a second factor then if and only if some enrolment was not followed by a deletion of the account that was carried out |
| `LoginPolicy.SessionsOutliveTheirUser` | source/src/admin/admin_server.cpp:960-970 | the exception is real: a deleted user's session acts for whoever gets the name next, factor or not |
| `LoginPolicy.EachCodeIsSpent` | source/src/admin/admin_server.cpp:451-471 | over every run and for every text: logins of a user with that text plus unused codes it still matches never exceed the codes it matches among those held at the start and handed out since |
| `LoginPolicy.NoCodeIsGoodTwice` | source/src/auth/backup_codes.cpp:62-87 | a text that matches a single such code is accepted at most once in the whole run |
| `LoginPolicy.BackupCodesAreSpent` | source/src/admin/admin_server.cpp:451-471 | in all, backup-code logins of a user plus unused codes never exceed the codes handed out |
| `LoginPolicy.TotpLoginsAreBounded` | source/src/admin/admin_server.cpp:430-448 | however calls are interleaved, an interval of time lets in at most floor(t1/30) - floor(t0/30) + 3 TOTP logins of a user |
| `LoginPolicy.RealCheckIsNear` | source/src/auth/totp.cpp:145-173 | the check of `Totp.VerifyTotp` meets the condition of that bound, whatever the codes are |
| `RobotsTxt.Build` | source/src/pipeline/robots_txt.cpp:46-96 | the line-based construction, last newline and all |
| `RobotsTxt.Split` | source/src/pipeline/robots_txt.cpp:34-42 | the getline loop |
| `RobotsTxt.JoinOfSplit` | source/src/pipeline/robots_txt.cpp:34-42 | joining the lines gives back the text with its last line closed |
| `RobotsTxt.WildcardShape` | source/src/pipeline/robots_txt.cpp:24-32 | a line opens a wildcard group if and only if it is the field in any case, a colon and a star, with space anywhere around them |
| `RobotsTxt.MergingInserts` | source/src/pipeline/robots_txt.cpp:64-76 | merging inserts the block right behind the first wildcard line and changes no other byte |
| `RobotsTxt.BodyExactly` | source/src/pipeline/robots_txt.cpp:46-96 | the served text byte by byte: the text itself without routes, else one line for each route behind a new header or right behind the first wildcard line |
| `RobotsTxt.FieldExactly` | source/src/pipeline/robots_txt.cpp:24-32 | a field name counts if and only if it is user-agent with each letter in either case |
| `RobotsTxt.DeletingTheBlockRestores` | source/src/pipeline/robots_txt.cpp:64-95 | taking the block's lines out of the output gives back the text byte for byte, trailing newline or not |
| `RobotsTxt.LinesAreMergedExactly` | source/src/pipeline/robots_txt.cpp:64-95 | the output's lines are the text's with the block inserted if and only if no route contains a line break |
| `RobotsTxt.FirstGroupListsEveryRoute` | source/src/pipeline/robots_txt.cpp:46-96 | whatever the text, the first wildcard group of the output opens with every honeypot route, in order |

## Left out

- Sockets, coroutines, TLS handshakes, upstream forwarding, the accept loop and URL imports: input and output.
- The writer's failure paths (an unwritable configuration file, an unopenable CSV file): the code logs and drops, so the conservation results assume success.
- The CSV header line and timestamp formatting: a timestamp is an already formatted text without CSV's special characters.
- ConfigStore.RunKeepsInv: for undisturbed runs; in the others the replay property is false, as `NothingIsDroppedExactly` says.
- A configuration file that is deleted: it exists at every moment, parsable or not.
- Threads that wait for the update mutex: only the one that holds it is part of the state.
- TlsSiteContexts.AnswersAtRest: for calls that refresh; the answers of the first section are the subject of `OthersGetTheStoredMap` and `AnswerIsCurrentExactly`.
- TlsSiteContexts.Cache.BuildContexts: each file of a pair is read at one moment, and a file that is rewritten without a change of its time counts as unchanged.
- RequestRateTracker.AnswerIsExact: for one fixed window and a clock that does not step back; changing the window is not modelled.
- IpBlockTracker.PruningIsInvisible: for a clock that does not step back; the answer of a removal does depend on pruning, exactly as `RemoveAnswersExactly` says.
- IpBlockTracker.Sort: an insertion sort in the place of the standard library's; which of two blocks with equal time and text comes first is left open there as here.
- HttpSession.Serve: the checks of the pipeline (blacklists, method list, body patterns) are inputs; page bodies, byte counts, geolocation and the globe feed are not modelled. One reading of the clock per request stands for the several the code takes.
- AwardScore.PointsAreConserved: for a configuration fixed over the run.
- Request bodies that do not parse, where the handler changes nothing before it finds out; where it does (a challenge already consumed), the missing credential is modelled.
- AuthHandlers.Server.Call: the session gate and the handler are one atomic step. In the source the request body is read between the two, so a call can run for a session that was closed or expired meanwhile, and two handlers can interleave between their lock acquisitions; neither is modelled.
- LoginRuns.PendingLoginsAreSingleUse: assumes that no random token is drawn twice.
- User names in the persisted file are taken to be distinct, as `create` keeps them; loading and saving the YAML file is not modelled.
- Login history, cookies' attributes, WebAuthn user handles and labels.
- Provisioning URIs, JSON views, list editing in the admin API, static files: simple code that would only add easy members.
