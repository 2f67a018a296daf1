# Sync protocol, fan-out and connection registry: a Dafny model

The service keeps block rows, subscriptions and a bounded changelog in Redis. Queue messages change
that state; websocket clients poll it. This project models

* the Redis state and the message handlers, as a class working in place and as programs of single
  Redis round trips (`SyncStore`, `WriterTasks`, `HandlerRuns`, `Handlers`);
* the cursor-based reader (v2) as a method (`SyncReader`, `GetUpdatesV2`), as single steps interleaved
  with one handler in flight and any number of clients (`SyncWorld`), and the link between the two
  (`PollSteps`, `PollRuns`);
* what clients are promised over every run (`Coverage`, `Convergence`, `Draining`) and concrete runs and
  stores for which a promise fails (`RaceExample`, `StallExample`,
  `RevocationExample`);
* the timestamp reader (v1) and its agreement with v2 (`TimestampDiff`, `V2RefinesV1`);
* the fan-out of single and batched updates and when they agree (`FanOut`, `FanOutForms`), the registry
  of connections under every interleaving of the event loop (`Connections`), and the two codecs
  (`ChangelogCodec`, `FieldCodec`).

The central claim is `Convergence.LastPageConverges`. It rests on one invariant of every run
(`SyncWorld.AlwaysInv`): when the version of a client is current, whatever its replica gets wrong about
a block is covered by a logged event above its cursor, by an event a handler is about to log, or by the
cursor being stale. The invariant is kept by every single Redis command of a handler, of a poll and of
the reload after a resync answer.

## Assumptions

* `SYNC_V2_ENABLED` is on from an empty store. `block_portion` is positive. `CHANGELOG_MAX_LEN` is any
  integer; zero or less means that nothing is trimmed. Block ids are not empty, except in `StallExample`,
  which shows what an empty one does.
* Redis commands succeed. The appenders swallow exceptions (app/rabbitmq_consumer.py:89-90, 109-110),
  so a lost append would not be noticed.
* One handler runs at a time; its Redis round trips interleave freely with those of polls and reloads.
  The consumer sets no prefetch limit (app/rabbitmq_consumer.py:922), so this is a demand on the
  deployment and not something the code enforces.
* A pipeline with a transaction is one step. A pipeline without one is one step per command.
* After an answer with `full_resync_required` the client reads its subscription set at some time after
  the answer, then the rows one at a time, then adopts the cursor and the version of the answer. It
  applies the entries of any other answer in order.

## Findings

* A log that is trimmed between the minimum check and the page read of the same poll lets that poll step
  over the trimmed events and report that nothing is left (`RaceExample.LatePageLosesAnUpdate`). A page
  steps over a number exactly when its read happens with a stale cursor
  (`Convergence.PageSkipsExactlyWhenStale`). Clients of the model carry a flag `raced` that records
  such a read, and the convergence results are about clients without it. A resync clears it.
* A client at cursor zero and version zero is not always told to resync. A poll between the writes of a
  grant and its version bump passes the version and the count check, and unless events have been trimmed
  by then it passes the cursor check too. `PollRuns.NewcomerResyncs` gives the exact condition, and
  `RaceExample.NewcomerLetThrough` shows such a poll that ends with a row the server does not have. By
  `Convergence.PassesChecksOnce` every later poll that reads the version between handlers resyncs.
* A poll whose page is as long as its limit and holds only empty block ids leaves the cursor where it is
  and reports that nothing is left. So does every later poll with that limit, whatever is logged or
  trimmed, until the version moves, the user loses the last subscription or the log is trimmed past the
  cursor; each of these ends the stall with a resync (`Draining.UnreadablePageStalls`,
  `Draining.FullPageKeepsStalling`). Three messages, one of them with an empty block id, lead there
  (`StallExample.PollStalls`, `StallExample.PollKeepsStalling`). A page shorter than its limit moves on
  once a readable event falls into it (`StallExample.LargerPageMovesOn`).
* A client is shown a row written after its access was revoked when the revocation and the write fall
  between the membership and the row read of one poll (`RevocationExample.RevokedRowIsShown`). Nothing is
  shown about blocks the poll did not find subscribed (`PollRuns.ShowsOnlySubscribed`).
* A lock can outlive its user's connections: a message to a user without connections leaves one, and so
  does a second disconnection after the clean-up, with nothing waiting to remove it
  (`Connections.SendLeavesLock`, `Connections.SecondDisconnectLeavesLock`).
  `Connections.LockOutlivesUser` says exactly when.
* A batch and its entries handled one at a time can address different users. Given a context that does not
  name the parent, the single handler falls back to Redis and the batch does not, although both are
  documented to (app/rabbitmq_consumer.py:120-121, 206-207; `FanOutForms.OverlookedDiffers`). Without a
  context, the batch applies the mode of a parent to a child listed before it, and the single handler
  does not (`FanOutForms.LateParentDiffers`). `FanOutForms.BatchAgreesExactly` gives the exact condition for every
  context, cache and batch.
* FRONTEND_TASKS.md:21-22 describes v1 with a safety margin of one; the code compares without a margin
  (app/websockets.py:282). The model follows the code.
* An empty block in a batch makes HSET refuse its arguments, and the whole batch is dropped
  (`HandlerRuns.WriteResult`).

## Model

| member | source | states |
|---|---|---|
| SyncStore.ZAddAllAppends | app/rabbitmq_consumer.py:69-78 | Adding entries with fresh numbers appends them, in order, to a log that ends below them. |
| SyncStore.ZAddAllAt | app/rabbitmq_consumer.py:74-79 | Entry `i` of a batch is logged with the `i`-th of its numbers, its operation and its block. |
| SyncStore.ChunkAt | app/rabbitmq_consumer.py:409-410 | Chunk `i` is the slice that starts at `i * block_portion`, and there is one as long as the list goes on. |
| SyncStore.ChunksFlatten | app/rabbitmq_consumer.py:408-409 | Chunking a list loses nothing, keeps the order and makes no empty chunk. |
| WriterTasks.InitialInv | app/rabbitmq_consumer.py:56-110 | The empty store satisfies the invariant of the handlers. |
| WriterTasks.StartInv | app/rabbitmq_consumer.py:397-409 | Accepting any well-formed message keeps the invariant. |
| WriterTasks.StepInv | app/rabbitmq_consumer.py:56-135 | Every Redis round trip of every handler keeps it: log shape, last operation against row, two-way index, no subscription under version zero. |
| WriterTasks.LoggingInv | app/rabbitmq_consumer.py:69-88 | Committing a batch of entries and trimming, batches above the retention bound included, keeps the log the newest contiguous run of numbers. |
| WriterTasks.SetAccessEffect | app/rabbitmq_consumer.py:412-422 | Granting or revoking a list with repetitions changes exactly the pairs asked for, in both indexes alike. |
| WriterTasks.RemoveChunkEffect | app/rabbitmq_consumer.py:487-526 | Removing a chunk drops exactly its blocks from both indexes and from the rows, for every reader. |
| WriterTasks.LastOpTrim | app/rabbitmq_consumer.py:80-87 | Trimming can forget a block's last operation but never changes it. |
| HandlerRuns.WriteResult | app/rabbitmq_consumer.py:217-232 | A batch of writes is all or nothing: an empty row refuses it, otherwise each entry is merged into its row and logged once, in order, and nothing else changes. |
| HandlerRuns.HandlersKeepInv | app/rabbitmq_consumer.py:113-135 | Any message handled to its end leaves a store that satisfies the invariant. |
| HandlerRuns.RunAccess | app/rabbitmq_consumer.py:408-424 | A grant or revocation in chunks equals the one without chunks followed by a single version bump, for every chunk size. |
| HandlerRuns.UpdateAccessResult | app/rabbitmq_consumer.py:389-424 | A denial removes, anything else adds, over both block lists: afterwards the user is in exactly the sets asked for, nobody else's membership has changed, and only this user's version has gone up, by one. |
| HandlerRuns.SubscribeResult | app/rabbitmq_consumer.py:438-465 | The same for a subscription: the user reads every listed block, nothing else about membership changes, one version goes up. |
| HandlerRuns.SingleResult | app/rabbitmq_consumer.py:132-138 | An empty row changes nothing; otherwise the fields are merged into the row, one upsert is logged, and nothing else changes. |
| HandlerRuns.RunDelete | app/rabbitmq_consumer.py:487-528 | Deletion in chunks meets the promise of deletion in one piece, for every chunk size. |
| HandlerRuns.DeleteResult | app/rabbitmq_consumer.py:471-530 | Afterwards the blocks have no row and no reader, one deletion per listed block is logged in order, and exactly the users who read one of them have a higher version. |
| HandlerRuns.ChunkVersions | app/rabbitmq_consumer.py:494-528 | One pass of the deletion loop raises the version of exactly the readers of its chunk. |
| HandlerRuns.DeleteVersions | app/rabbitmq_consumer.py:487-528 | A deletion raises a user's version exactly once for every chunk that takes a block from the user. |
| SyncStore.TrimTwice | app/rabbitmq_consumer.py:80-87 | Trimming after every append leaves what a single trim at the end leaves. |
| Handlers.RankTrim | app/rabbitmq_consumer.py:81-87 | The rank arithmetic with inclusive negative ranks keeps exactly the newest `CHANGELOG_MAX_LEN` entries. |
| Handlers.CollectHolders | app/rabbitmq_consumer.py:497-503 | The accumulation loop builds, for every reader of the chunk, exactly the blocks of the chunk they read. |
| Handlers.QueueAccess | app/rabbitmq_consumer.py:411-421 | The queued SADD or SREM commands of a chunk change both indexes as specified. |
| Handlers.QueueIncrs | app/rabbitmq_consumer.py:104-108 | The queued INCR commands raise the version of every user of the set by one. |
| Handlers.Server.constructor | app/config.py:43-48 | The server starts from an empty store. |
| Handlers.Server.AppendChangelogEvents | app/rabbitmq_consumer.py:56-90 | The counter, the log and nothing else change as the specified append. |
| Handlers.Server.BumpSubscriptionVersions | app/rabbitmq_consumer.py:93-110 | The versions of the given users and nothing else go up. |
| Handlers.Server.UpdateBlock | app/rabbitmq_consumer.py:113-138 | The state afterwards is the undisturbed run of the handler's round trips; an empty row changes nothing. |
| Handlers.Server.UpdateBlocks | app/rabbitmq_consumer.py:198-232 | Likewise for a batch: one pipeline for the rows, one append for all events. |
| Handlers.Server.UpdateAccess | app/rabbitmq_consumer.py:389-424 | Likewise for a change of access over both block lists. |
| Handlers.Server.Subscribe | app/rabbitmq_consumer.py:438-465 | Likewise for a subscription. |
| Handlers.Server.SetAccessInChunks | app/rabbitmq_consumer.py:408-422 | The chunk loop changes the indexes as one pass over the whole list would. |
| Handlers.Server.Unsubscribe | app/rabbitmq_consumer.py:471-530 | Likewise for a deletion, chunk by chunk. |
| Handlers.Server.UnsubscribeChunk | app/rabbitmq_consumer.py:487-528 | One pass: collect the readers, drop index and rows, log the deletions, raise the readers' versions. |
| SyncReader.SafeLimit | app/websockets.py:392 | A limit in range is used as it is, one above the maximum becomes the maximum, and nothing below one is used. |
| SyncReader.AboveIsSuffix | app/websockets.py:465-474 | In a contiguous log the events above a cursor are a suffix whose start is known. |
| SyncReader.PageNumbers | app/websockets.py:465-474 | A page read with a cursor that is not stale holds exactly the next numbers; whatever it leaves out comes later. |
| SyncReader.WinnersOnce | app/websockets.py:487-499 | Keeping the last event per block keeps every block's last operation and mentions no block twice. |
| SyncReader.AppliedOutcome | app/websockets.py:525-558 | Applying an answer, upserts before deletions, gives each block what its last operation in the page says, and only subscribed blocks change. |
| GetUpdatesV2.LatestByBlock | app/websockets.py:487-499 | The loop leaves for each block its last readable event, and the highest readable number. |
| GetUpdatesV2.WinnersAreLast | app/websockets.py:487-499 | The last-event dictionary, sorted, is the list of winning events of the page. |
| GetUpdatesV2.RelevantEvents | app/websockets.py:512-530 | The filtered and sorted events are the winners whose blocks were found subscribed. |
| GetUpdatesV2.InsertBySeq | app/websockets.py:530-530 | Sorting by number keeps the events and their order is the only rising one. |
| GetUpdatesV2.BuildUpdates | app/websockets.py:532-558 | Current rows for the upserts, a deletion for an upsert without a row, then the deletions. |
| GetUpdatesV2.HandleGetUpdatesV2 | app/websockets.py:375-571 | Whatever states its commands see, the handler returns the specified answer, resync reasons, next cursor and `has_more` included. |
| GetUpdatesV2.AnswerTells | app/websockets.py:512-558 | A non-resync answer speaks of exactly the subscribed blocks of its page: the row found, if the block's last operation is an upsert and there is one, else a deletion. |
| GetUpdatesV2.AnswerInOrder | app/websockets.py:525-556 | The upserted blocks come first and the deleted ones after them, each in the order in which the page mentions them last. |
| GetUpdatesV2.RisingUnique | app/websockets.py:525-530 | The numbers fix the order: two rising lists of the same events are the same list. |
| PollRuns.MessagesAreAnswers | app/websockets.py:375-571 | In every run, the message a client receives is what the handler answers for the limit that poll was opened with and the states its own commands have seen, which were sent after the opening and one after the other. |
| PollRuns.ShowsOnlySubscribed | app/websockets.py:512-558 | An answer speaks only of blocks found subscribed during the same poll, and shows no row but the one found after that. |
| RevocationExample.RevokedRowIsShown | app/websockets.py:512-541 | A concrete run in which a revocation and a new write fall between the membership and the row read, and the new row is delivered. |
| PollSteps.ReadTracks | app/websockets.py:400-474 | Each command of an interleaved poll keeps it on the way to the handler's answer for the states seen. |
| PollSteps.MemberTracks | app/websockets.py:512-523 | The same for each membership test. |
| PollSteps.RowTracks | app/websockets.py:534-541 | The same for each row read. |
| Coverage.StepAdvances | app/rabbitmq_consumer.py:56-135 | No round trip of a handler uncovers a block or changes a row without covering it, and no subscription set changes under a version that stays current. |
| Coverage.LoggingCovers | app/rabbitmq_consumer.py:69-88 | Committing delivers the events that were due, and what the trim drops leaves the cursor stale. |
| SyncWorld.AlwaysInv | app/websockets.py:375-571 | Every reachable world, under every interleaving of handlers, polls, resyncs and joins, satisfies the invariant. |
| SyncWorld.NextKeepsInv | app/websockets.py:375-571 | Each single action keeps it. |
| SyncWorld.WriterKeepsClient | app/rabbitmq_consumer.py:69-135 | A handler's round trip keeps what is promised to every client, also in the middle of its poll. |
| SyncWorld.PageReadFresh | app/websockets.py:465-474 | Moving the cursor over a page loses no event of a block the page does not mention. |
| SyncWorld.CountKeepsClient | app/websockets.py:525-571 | Memberships and rows read in later states than the page leave each block right or covered above the new cursor. |
| SyncWorld.AdoptKeepsClient | app/websockets.py:409-423 | A finished snapshot with the cursor and version of the resync answer starts the client in good standing. |
| SyncWorld.WorkKeepsHistory | app/rabbitmq_consumer.py:69-88 | The log is at all times what the retention bound leaves of everything logged. |
| Convergence.LastPageConverges | app/websockets.py:465-571 | The read that ends a poll with `has_more` false brings the replica to the server's rows for the client's subscriptions, but for blocks whose event a handler is about to log; with no handler at work it is equal. |
| Convergence.DifferencesArePending | app/websockets.py:400-474 | With a current version and a cursor that is not stale, every difference has a logged event above the cursor. |
| Convergence.ResyncHandsOver | app/websockets.py:409-463 | A snapshot taken after a resync answer misses nothing at or below its cursor, numbers reserved but not yet committed included. |
| PollRuns.NewcomerResyncs | app/websockets.py:400-463 | A client at cursor zero and version zero escapes the resync exactly when the version read is still zero, the count read later is not, and after that no more is committed than a positive `CHANGELOG_MAX_LEN`; that takes a grant whose bump is due or came in between, so a poll between handlers always resyncs. |
| Convergence.NewcomerPassesChecks | app/websockets.py:409-442 | The version and the count check alone: when such a client gets past both. |
| Convergence.PassesChecksOnce | app/websockets.py:400-423 | A newcomer who got past both checks is told to resync by every later poll that reads the version between handlers. |
| RaceExample.NewcomerLetThrough | app/rabbitmq_consumer.py:456-465 | A concrete run in which a newcomer polls between a grant and its version bump, gets no resync, and keeps a row the server does not have. |
| Convergence.WorkRunsHandler | app/rabbitmq_consumer.py:113-135 | The moves of an undisturbed handler in the world add up to what its method computes. |
| Convergence.VersionCertifies | app/rabbitmq_consumer.py:93-110 | Versions and the counter never go down, and a version that has not moved, with no bump due, certifies an unchanged subscription set. |
| Convergence.EqualVersionsEqualSubscriptions | app/rabbitmq_consumer.py:424-424 | Between handlers, equal versions of a user at two points mean equal subscription sets. |
| Convergence.LogIsNewestHistory | app/rabbitmq_consumer.py:69-88 | The log is the duplicate-free run of the newest numbers, of length the smaller of all appended and `CHANGELOG_MAX_LEN`, ending at the counter once committed. |
| Convergence.LastEventTellsRow | app/rabbitmq_consumer.py:132-135 | Between handlers a block's last retained event is an upsert exactly when its row exists. |
| Convergence.IndexesAgree | app/rabbitmq_consumer.py:411-422 | In every state a user is among a block's readers exactly when the block is among the user's subscriptions. |
| Convergence.StaleMeansTrimmed | app/websockets.py:444-463 | `cursor < min_seq - 1` holds exactly when an event above the cursor has been trimmed, for every cursor and state. |
| Convergence.StaleWhenOverrun | app/websockets.py:444-463 | A cursor is stale exactly when more events are committed above it than a positive `CHANGELOG_MAX_LEN`. |
| Convergence.PageSkipsExactlyWhenStale | app/websockets.py:444-474 | A page moves the cursor past an event it does not deliver exactly when it is read with a stale cursor. |
| RaceExample.LatePageLosesAnUpdate | app/websockets.py:444-485 | A concrete run in which a trim between check and page read leaves a client at the counter without a row, although its version is current and no handler is at work. |
| Draining.AnswerProgress | app/websockets.py:487-571 | A resync answer hands out the counter; any other keeps the cursor between the old one and the last commit and advances it exactly when the page has a readable event. |
| Draining.AnswerCarriesVersion | app/websockets.py:400-407 | Every answer carries the version that its first command read. |
| Draining.UnreadablePageStalls | app/websockets.py:487-510 | With events pending, a served poll stays where it is and says that nothing is left exactly when its whole page is unreadable. |
| Draining.FullPageKeepsStalling | app/websockets.py:400-510 | When such a page is as long as the limit, then whatever is logged or trimmed later the poll stalls exactly as long as the version is current, the user has a subscription and the cursor is not stale, and is told to resync after that. |
| StallExample.PollStalls | app/websockets.py:501-510 | Three messages, one with an empty block id, after which a client with limit one is told that nothing is left although the row of its only block is logged above its cursor. |
| StallExample.PollKeepsStalling | app/websockets.py:501-510 | From that store on, whatever is logged or trimmed, the same poll stalls until it is told to resync. |
| StallExample.LargerPageMovesOn | app/websockets.py:487-499 | With limit two the same client moves past both events. |
| Draining.QuietAnswer | app/websockets.py:465-571 | On a quiet store `has_more` is true exactly while the next cursor is below the counter. |
| Draining.AnswerThenReplay | app/websockets.py:487-558 | Answering a page and replaying the rest of the log equals replaying all of it event by event. |
| Draining.DrainReaches | app/websockets.py:392-499 | Polling with a list of limits moves the cursor by their sum, or to the counter when that comes first. |
| Draining.PageSizeIndependence | app/websockets.py:392-474 | Any limits that add up to the backlog leave the replica that replaying the log event by event leaves. |
| Draining.PagesRoundUp | app/websockets.py:560-562 | The page count is the number of pending events over the page size, rounded up. |
| Draining.PollAllEnds | app/websockets.py:560-567 | The `has_more` loop ends at the counter after exactly that many polls, with everything replayed. |
| Draining.QuietPollsConverge | app/websockets.py:465-571 | After any run, once the handlers are quiet, a client that is not told to resync holds exactly its rows when the loop ends. |
| Draining.ResyncReasons | app/websockets.py:409-463 | A poll asks for a resync exactly when the version moved, the user has no subscription, or an event above the cursor was trimmed, and names the first of these. |
| Draining.ReloadedIsStable | app/websockets.py:425-485 | A client that has just reloaded gets no updates; it is asked to resync again only when it has no subscriptions, and then it holds nothing. |
| Draining.PendingDecides | app/websockets.py:487-499 | The last pending operation on a block tells whether its row exists now. |
| TimestampDiff.SortClaims | app/websockets.py:222-235 | The loop splits the request into subscribed blocks with the client's times, the last entry winning, and unsubscribed ids. |
| TimestampDiff.ReadNewer | app/websockets.py:259-302 | The chunked read finds, in request order and for every chunk size, exactly the rows whose time is a number above the client's. |
| TimestampDiff.HandleGetUpdates | app/websockets.py:175-345 | Whatever states its reads see, the handler returns the specified difference. |
| TimestampDiff.SplitExact | app/websockets.py:222-235 | A block counts as valid exactly when it is claimed and subscribed, as removed exactly when it is claimed and not. |
| TimestampDiff.LastClaimCounts | app/websockets.py:226-233 | The last claim for a block counts, and as zero when it has no number. |
| TimestampDiff.TimeReads | app/websockets.py:276-282 | A row without `updated_at` has time zero; a text is a number exactly when it is decimal digits with at most a minus sign. |
| TimestampDiff.RemovalsAsClaimed | app/websockets.py:234-235 | Unsubscribed claims are kept in the order of the request, repetitions included. |
| TimestampDiff.DiffInOrder | app/websockets.py:259-306 | The rows come first, in the order in which their blocks were first claimed, then the removals. |
| TimestampDiff.DiffResyncs | app/websockets.py:208-246 | v1 asks for a resync exactly when the user has no subscription, or none of the claimed blocks is subscribed. |
| TimestampDiff.AnswerPartitions | app/websockets.py:259-332 | Every subscribed block is an update, new, or left out, and a claimed one is an update exactly when its row is there and its time is a number greater than the client's; the removals are the claimed unsubscribed blocks. |
| TimestampDiff.SubscribedOnce | app/websockets.py:223-306 | A subscribed block occurs at most once among the updates, however often it is claimed. |
| TimestampDiff.ReconcileAt | app/websockets.py:259-345 | What an answer makes of any block, from the states its reads saw. |
| TimestampDiff.ReconcilesExactly | app/websockets.py:222-332 | A v1 answer leaves the client right about a block exactly when it held nothing, the very row, or a row whose time is less than the server's; unsubscribed blocks go, blocks without a row stay as they are. |
| TimestampDiff.ReconcilesHonestly | app/websockets.py:222-332 | When server times are numbers, no client time is above them and equal times mean equal rows, the client agrees on every subscribed block that has a row and drops every unsubscribed one. |
| V2RefinesV1.HonestPast | app/websockets.py:375-571 | When every write raises a block's time, every row a v2 client holds, at any point of its polls, is one the server has had, and older ones carry earlier times. |
| V2RefinesV1.DrainedAgreesWithReconciled | app/websockets.py:222-332 | After such a run the drained v2 replica and the v1-reconciled replica agree on every subscribed block that has a row. |
| FanOut.FilterSubscribers | app/connection_manager.py:444-473 | Of the subscribers exactly the block's creator and the sandbox's owner stay. |
| FanOut.RecipientsExactly | app/rabbitmq_consumer.py:153-177 | A subscriber is told unless the block has a parent in private mode and is neither the subscriber's nor in a sandbox of theirs; without a parent every subscriber is told. |
| FanOut.ParentsFound | app/rabbitmq_consumer.py:159-165 | Where the sandbox of a parent is found: alone, in the context or else in the cache; in a batch, in the cache only without a context; in the cache, only with mode `open` or `private`. |
| FanOut.BatchTells | app/rabbitmq_consumer.py:291-324 | A batch tells a user about exactly those of its entries whose block the user reads and no private parent hides. |
| FanOut.GroupByUser | app/rabbitmq_consumer.py:291-324 | The dictionary holds, for every user told anything, their updates in batch order, and an entry for a user exactly when the user reads the block and no private parent hides it. |
| FanOut.Notifier.UpdateSandboxCache | app/connection_manager.py:349-378 | A reader of the cache finds the new information for a known mode and none for any other, and every other block unchanged. |
| FanOut.Notifier.UpdateBlock | app/rabbitmq_consumer.py:140-192 | The update is addressed once to every user who reads the block and from whom no private parent hides it, and nothing to anybody else. |
| FanOut.Notifier.UpdateEach | app/rabbitmq_consumer.py:140-192 | The single handler run on each entry addresses everyone the updates of the serial plan, in order. |
| FanOut.Notifier.UpdateBlocks | app/rabbitmq_consumer.py:234-335 | Each user is addressed at most one message, with exactly those entries whose block they read and no private parent hides, in batch order. |
| FanOut.Notifier.SendGroups | app/rabbitmq_consumer.py:326-335 | A lone update goes out as it is, two or more as one batch, and nobody else is sent anything. |
| FanOut.WrapKeepsUpdates | app/rabbitmq_consumer.py:326-335 | Grouping a user's updates into one message keeps the updates and their order. |
| FanOutForms.BatchAgainstSingles | app/rabbitmq_consumer.py:140-335 | Run side by side, the batch and the single handler leave the same sandbox cache, and every user with the same updates in the same order exactly when no subscriber can tell a difference. |
| FanOutForms.AgreeEntryByEntry | app/rabbitmq_consumer.py:140-335 | For any context, cache and modes, the two forms agree for all users exactly when they agree entry by entry. |
| FanOutForms.AgreesWithContext | app/rabbitmq_consumer.py:257-280 | With a context, they agree exactly when no entry has an unnamed parent whose cached sandbox, as the entries so far leave it, hides it from a subscriber. |
| FanOutForms.AgreesWithoutContext | app/rabbitmq_consumer.py:234-240 | Without one, they agree exactly when no parent that carries a mode comes after a child whose recipients its old and its new sandbox tell apart. |
| FanOutForms.LateParentDiffers | app/rabbitmq_consumer.py:234-280 | A batch of a child and then its newly private parent, with a reader who is told about the child one at a time and not in the batch. |
| FanOutForms.OverlookedDiffers | app/rabbitmq_consumer.py:257-280 | A context that names another parent only, and a reader who is told about the child in the batch and not one at a time. |
| FanOutForms.BatchIsSerial | app/rabbitmq_consumer.py:242-335 | The plans are equal when the context names every parent, or there is no context and no entry carries a mode. |
| FanOutForms.BatchAgreesExactly | app/rabbitmq_consumer.py:234-335 | The exact condition for both cases together, for every batch. |
| FanOutForms.PlanMentions | app/rabbitmq_consumer.py:140-335 | In either form, and for any modes, a user is addressed an entry exactly when the user may be told about it at its turn. |
| FanOutForms.BatchAddsUp | app/rabbitmq_consumer.py:291-324 | The dictionary of a batch holds as many updates, over all users, as its entries have recipients after filtering. |
| Connections.ConnectionManager.GetUserLock | app/connection_manager.py:64-73 | The user gets one lock, created once and shared with nobody, all other locks stay, and none is held on return. |
| Connections.ConnectionManager.Connect | app/connection_manager.py:75-97 | Up to the online counter nothing suspends; the socket is registered and the gauges follow. |
| Connections.ConnectionManager.Disconnect | app/connection_manager.py:99-138 | An unregistered socket changes no count; a registered one goes once, and clean-up is due exactly when the user has none left. |
| Connections.ConnectionManager.Cleanup | app/connection_manager.py:140-145 | The lock goes only if the user is still without connections. |
| Connections.ConnectionManager.CopyConnections | app/connection_manager.py:164-176 | The copy holds the connections as they are when the sends begin. |
| Connections.AlwaysConsistent | app/connection_manager.py:64-190 | At every suspension point of every interleaving no lock is held, no two users share one, no user has an empty list, every connected user has a lock, the gauges are the true counts, and per socket connects minus effective disconnects equals registrations. |
| Connections.SendsToAll | app/connection_manager.py:170-190 | A message queues one send for every socket of the user and nothing else. |
| Connections.TurnSockets | app/connection_manager.py:75-162 | A turn registers the socket that connects and takes out, once, the one that its endpoint or a failed send disconnects; all others stay. |
| Connections.TurnJobs | app/connection_manager.py:99-162 | A disconnection, whoever asked for it, is finished by a job that cleans up exactly when the user has no socket left; a resumed job is gone. |
| Connections.LeaveKeepsInv | app/connection_manager.py:99-162 | Disconnecting the same socket twice, from the endpoint and from a failed send, keeps all of that. |
| Connections.LockOutlivesUser | app/connection_manager.py:64-176 | A user without connections still has a lock exactly when something has taken it since the last clean-up. |
| Connections.SendLeavesLock | app/connection_manager.py:164-178 | A message sent to a user without connections leaves a lock that nothing is waiting to remove. |
| Connections.SecondDisconnectLeavesLock | app/connection_manager.py:99-118 | So does a second disconnection of a socket after the clean-up of the first. |
| Connections.ReconnectBeforeCleanup | app/connection_manager.py:140-145 | A concrete interleaving in which only the double check saves the lock of a user who has reconnected. |
| ChangelogCodec.RoundTrip | app/websockets.py:360-372 | Decoding undoes encoding for every number, both operations and every non-empty id, colons included; an empty id does not decode. |
| ChangelogCodec.EncodedText | app/rabbitmq_consumer.py:52-53 | The stored text is the decimal number, `upsert` or `delete`, and the id, with single colons between them. |
| ChangelogCodec.DecodesExactly | app/websockets.py:360-372 | A member decodes to an operation and an id exactly when it is a text without colon, that word and that non-empty id, joined by colons. |
| ChangelogCodec.EncodeInjective | app/rabbitmq_consumer.py:52-53 | Different events have different members, so no entry overwrites another. |
| FieldCodec.PrepareBlockData | app/utils.py:8-33 | Every field and no other is prepared: `null`, `true` and `false`, decimal integers, printed objects and arrays, and texts as they are. |
| FieldCodec.ParseBlockData | app/utils.py:36-67 | Every field and no other is parsed: the three words, a text that begins with a brace or a bracket by the JSON library if it can, and any other text as it is. |
| FieldCodec.ValueRoundTrip | app/utils.py:23-67 | A value comes back exactly when it is neither a number nor a reserved word nor a text in braces or brackets that the JSON library loads; an integer comes back as its decimal text, a float as its text. |
| FieldCodec.TimeSurvives | app/utils.py:23-33 | A block stored with an integer time is read back with that time by the comparison of v1. |
| FieldCodec.BlockRoundTrip | app/utils.py:8-67 | A whole block comes back exactly when each of its values does. |
| FieldCodec.ReadWriteRead | app/utils.py:8-67 | What has been read once can be written and read again without change. |

## Left out

- RabbitMQ connection, acknowledgement and dispatch, JWT checks, the websocket accept and receive loop, metrics, logging and message validation: plumbing around the modelled handlers.
- Overlapping handlers and appends that commit out of the order of their numbers: an assumption, see above.
- Failing Redis commands, and changelog members written by anything but the appender.
- The backend HTTP fallback for sandbox information: taken as switched off.
- Chat, reminder, subscription-event and access-request messages, and the message sent after a change of access: routing without state.
- Real-time delivery itself: the fan-out says which updates are addressed to whom; spawned sends may arrive in any order.
- The Redis online counter and all expiry, that of the sandbox cache included; `action_unsubscribe` also drops the sandbox keys of its blocks, which the fan-out state does not show.
- The semaphore that limits sends to the anonymous user: it delays sends and changes no state.
- Iteration order of sets and of new blocks in v1: new blocks form a map.
- Answers carry the stored hash of a row under its block id; parsing the fields and turning `updated_at` into an integer on the way out is the subject of `FieldCodec` only.
- JSON printing and parsing: `FieldCodec.Lawful` states what is relied on, and `FieldCodec.LawCanBeMet` shows that it can be met.
- Floating point: times and sorted-set scores are integers, and a float field value is the text `str` gives it; scores are exact only up to 2^53 in Redis.
- V2RefinesV1.DrainedAgreesWithReconciled: says nothing about subscribed blocks without a row, which v1 leaves as the client has them.
