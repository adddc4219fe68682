# A verified model of the Wapsell backend's in-process core

Wapsell is a multi-tenant WhatsApp sales backend. This project models the parts of it that hold
state, run loops or follow a protocol, and proves what they guarantee over every input, every run
and every interleaving. `dafny verify dfyconfig.toml` checks all of it (Dafny 4.11).

Where the source changes things step by step, the model does too: classes with fields for the
repositories, the recorder, the extractor, the synchronizer, the scheduler, the message handler, the
onboarding flow and the billing service, and methods with loops for the CSV scanners, the analytics
and the learning aggregations. Each such method is tied to a specification function, and the lemmas
below are about those functions and about runs of them.

| file | what it models |
|---|---|
| `Csv.dfy` | the two quote automata of the catalog upload, scanner-free definitions of a split and of the columns of a line, RFC 4180 printing |
| `Catalog.dfy` | header, required column and metadata of an uploaded catalog |
| `Resources.dfy`, `Sync.dfy`, `Scheduler.dfy`, `SyncFacts.dfy` | the resource store, keyed upserts in memory and in Postgres, one sync run, the polling loop, and what both leave field by field |
| `Crm.dfy`, `CrmWrites.dfy`, `CrmReapply.dfy` | recorder and extractor, what one application stores, applying a result twice |
| `CrmRuns.dfy`, `CrmGuarantees.dfy`, `CrmTimeline.dfy` | every interleaving of both: counters, timeline, names, background results |
| `CrmPostgres.dfy` | the recorder's statements over the Postgres table and its one connection, and runs of them |
| `BuyerMemory.dfy`, `BuyerThreads.dfy` | the ring buffer and the table that is trimmed after every insert, and the list of threads of each |
| `Inbound.dfy`, `InboundStory.dfy` | one inbound message with every external call free to fail, any number of them interleaved, and what each attempts |
| `Naming.dfy`, `Onboarding.dfy` | slugs, buyer ids, prefix search, slug search, onboarding runs |
| `Billing.dfy` | subscriptions reconciled with Mercado Pago |
| `Counting.dfy`, `Analytics.dfy`, `Learning.dfy` | counter dictionaries and rankings, the analytics report, schema discovery and filter ranking |
| `Queries.dfy`, `Text.dfy` | the OR query of the fact search, the token cipher's text encoding, Python text helpers |

Clocks, generated ids, network answers, LLM answers, the AEAD and lower-casing are parameters. Ids are
assumed new where the source draws a UUID; everything else may take any value or fail. Rows live in
insertion-ordered sequences, as Python dictionaries do; instants are integers in microseconds.

Five statements in the source's own comments or documentation do not hold of its code. The model
follows the code, and the exact condition is proved:

* The upload documents the first non-empty line as the header; the code takes the first logical line
  (`Catalog.HeaderRuleKeptExactly`, with a file at which the rule fails in `Catalog.BlankLineBeforeHeader`).
* Re-applying an extraction is documented as a no-op, and its stage row as a no-op upsert. All rows but
  the contact's time stamp are indeed left alone, but each application with a stage transition adds one
  row (`CrmReapply.ApplyTwice`).
* One active subscription per tenant is checked only when subscribing; a run keeps it throughout exactly
  if no reconcile activates a row beside an active one (`Billing.PolicyHoldsExactly`), and two signups
  paid one after the other break it (`Billing.DoubleSignupBreaksPolicy`).
* The daily series is said to end today; it ends yesterday, and the totals exceed its sum by exactly the
  turns of today (`AnalyticsFacts.SeriesEndsYesterday`, `AnalyticsFacts.DailySeriesAccountsForTotals`).
* The CRM recorder is documented as idempotent per phone and as counting its messages. The in-memory
  store does so in every interleaving (`CrmGuarantees.NoLostUpdates`). Over Postgres contacts have no
  source, so the ON CONFLICT clause never applies to them and the table refuses a message exactly if its
  phone already has a contact (`CrmPostgres.RefusesSecondTurnExactly`). The program opens one connection
  without autocommit and never rolls back, so the first refused statement (`CrmPostgres.RefusedExactly`)
  ends all storing until the process restarts (`CrmPostgres.FrozenAfterRefusal`). Without a restart a
  phone has a contact exactly if its first message came before that refusal
  (`CrmPostgres.FirstMessageDecides`), and the contact's count is right exactly if, in addition, the phone
  wrote once (`CrmPostgres.OnlyFirstHeardCounts`). One phone writing twice is enough to lose the first
  message of another (`CrmPostgres.ThreeMessages`).

## Model

| member | source | states |
|---|---|---|
| CsvScan.SplitLogicalLines | dashboard/admin/src/lib/csv.ts:72-97 | the loop with lookahead and index skipping yields the logical lines of a one-character-at-a-time automaton |
| CsvScan.ParseCsvLine | dashboard/admin/src/lib/csv.ts:102-126 | the column loop yields the columns of its automaton, which `CsvCells.CutIsExact` fixes for every line, balanced or not |
| CsvScan.TwoPassesEqualOne | dashboard/admin/src/lib/csv.ts:72-126 | for every text, parsing each logical line equals a single pass that emits rows directly |
| CsvSplit.SplitFound | dashboard/admin/src/lib/csv.ts:72-97 | every closed line has balanced quotes, terminators inside lines are quoted, and lines plus dropped terminators rebuild the text |
| CsvSplit.SplitIsExact | dashboard/admin/src/lib/csv.ts:72-97 | a text has exactly one such split, and the scanner finds it |
| CsvSplit.LogicalLinesOfSplit | dashboard/admin/src/lib/csv.ts:72-97 | the result is the closed lines and a non-empty rest; it is empty only for the empty text |
| CsvCells.CutIsExact | dashboard/admin/src/lib/csv.ts:102-126 | every line, balanced or not, has exactly one cut at its commas outside quotes, and its columns are the pieces without their quotes, but for one of each doubled quote inside an open quotation |
| CsvPrint.RoundTrip | dashboard/admin/src/lib/csv.ts:72-126 | printing any table by section 2 of RFC 4180, with any choice of quoting and of LF or CRLF, then splitting and parsing gives the table back |
| Catalog.ReadMetadata | dashboard/admin/src/lib/csv.ts:53-58 | metadata holds the last non-empty trimmed cell of every header but the content column |
| Catalog.ReadRows | dashboard/admin/src/lib/csv.ts:45-61 | the row loop, with its blank-line test, gives the facts of all rows after the header |
| Catalog.ParseCatalogCsv | dashboard/admin/src/lib/csv.ts:28-68 | the whole upload, with its three rejections |
| Catalog.BlankLineHasNoFact | dashboard/admin/src/lib/csv.ts:46-50 | skipping blank lines changes nothing: such a line has no content anyway |
| Catalog.CatalogRoundTrip | dashboard/admin/src/lib/csv.ts:28-126 | a catalog with distinct normalised headers and trimmed non-empty cells, printed in any RFC 4180 form, with or without a byte-order mark, is read back unchanged |
| Catalog.EmptyFileExactly | dashboard/admin/src/lib/csv.ts:28-33 | the empty-file error is raised exactly for a file that is empty after the byte-order mark |
| Catalog.BlankFirstLineIsRejected | dashboard/admin/src/lib/csv.ts:35-41 | a file whose first line is blank is rejected for lack of a content column, whatever follows |
| Catalog.BlankLineBeforeHeader | dashboard/admin/src/lib/csv.ts:7-41 | a file with an empty line, a proper header and a fact is rejected, though the documented rule reads the fact |
| Catalog.HeaderRuleKeptExactly | dashboard/admin/src/lib/csv.ts:8-36 | for every text, exactly when reading it agrees with taking the first line that is not blank as the header |
| CatalogFacts.ParsedSays | dashboard/admin/src/lib/csv.ts:35-67 | in an accepted file every header is its trimmed, lower-cased cell of the first line, and the facts are those of the other lines in order |
| CatalogFacts.FactSays | dashboard/admin/src/lib/csv.ts:47-61 | a row gives a fact exactly if its content cell is not empty; the metadata of a header is the last non-empty trimmed cell under it |
| CatalogFacts.RejectsExactly | dashboard/admin/src/lib/csv.ts:28-65 | which of the three rejections a text gets, and that any other is accepted |
| Resources.ResourceRepository.Add | sdk/wapsell/resources/repository.py:76-78 | the row replaces the one with its id in place, or is appended |
| Resources.ResourceRepository.PopDuplicates | sdk/wapsell/resources/repository.py:80-88 | popping while iterating removes exactly the other rows under the same key |
| Resources.ResourceRepository.Upsert | sdk/wapsell/resources/repository.py:80-90 | other rows under the key go, the row is stored, ids stay distinct |
| Resources.ResourceRepository.Get | sdk/wapsell/resources/repository.py:92-93 | the row with the id, and nothing exactly if no row has it |
| Resources.ResourceRepository.FindByExternalId | sdk/wapsell/resources/repository.py:95-108 | the first row with that tenant, kind and external id |
| Resources.FindRefIsFirst | sdk/wapsell/resources/repository.py:95-108 | the lookup is the head of all matching rows, and empty exactly if there are none |
| Resources.ResourceRepository.ListFor | sdk/wapsell/resources/repository.py:110-125 | at most limit of the tenant's active rows of the kind, newest first; a row left out is no newer than any listed one, and rows of one instant keep insertion order |
| Resources.ListIsNewestFirst | sdk/wapsell/resources/repository.py:110-125 | the listing has these properties for every store, kind and limit |
| Common.SortIsDescending | sdk/wapsell/resources/repository.py:110-125 | sorting by a key in reverse puts the largest keys first |
| Common.SortIsStable | sdk/wapsell/resources/repository.py:110-125 | and keeps the order of items with the same key |
| Common.FirstOfSortedIsTop | sdk/wapsell/resources/repository.py:110-125 | the first n of the sorted items are n largest ones, ties in their own order |
| Resources.ResourceRepository.Delete | sdk/wapsell/resources/repository.py:152-153 | exactly the row with the id goes |
| KeyedStore.ViewOfUpsert | sdk/wapsell/resources/repository.py:80-90 | a new keyed row changes the map from keys to contents at its key and nowhere else |
| KeyedStore.UpsertLeavesOneRow | sdk/wapsell/resources/repository.py:80-90 | whatever was stored before, exactly this row is left under the key |
| KeyedStore.UpsertLeavesOthers | sdk/wapsell/resources/repository.py:80-90 | rows under other keys or without a key neither move nor change |
| KeyedStore.ViewOfPgUpsert | sdk/wapsell/resources/repository.py:198-205 | ON CONFLICT changes that map in the same way and keeps the keys unique |
| SyncFacts.UpsertByFields | sdk/wapsell/resources/repository.py:80-90 | after an upsert tenant, source and external id name exactly the new row, and select under any other such triple what they did |
| SyncFacts.ConflictKeepsIdentity | sdk/wapsell/resources/repository.py:198-205 | a conflicting row keeps its id and creation time and takes the rest; no other row changes |
| SyncFacts.InsertAppends | sdk/wapsell/resources/repository.py:194-205 | without a conflicting key a row is appended as it is, or refused exactly if its id is known |
| Sources.DataSourceRepository.Update | sdk/wapsell/resources/repository.py:424-428 | a known source is replaced in place, an unknown one is an error |
| Sync.ExternalIdExactly | sdk/wapsell/resources/sync.py:113-122 | the id is the untrimmed text of the first usable id field, the digest only without one |
| Sync.ResourceSynchronizer.UpsertItems | sdk/wapsell/resources/sync.py:79-94 | the item loop upserts every item in order and counts them |
| Sync.ResourceSynchronizer.Sync | sdk/wapsell/resources/sync.py:63-110 | rows, source metadata and report of one run, for a fetch that works, fails or crashes |
| Sync.LastItemWins | sdk/wapsell/resources/sync.py:79-94 | from any store, every fetched key ends with its last item and every other key as it was |
| Sync.OneRowPerKey | sdk/wapsell/resources/sync.py:79-94 | exactly one row per fetched key, made from the last item with that key |
| Sync.OtherRowsKept | sdk/wapsell/resources/sync.py:79-94 | all rows whose key was not fetched stay, in order |
| Sync.ResyncIsIdempotent | sdk/wapsell/resources/sync.py:63-122 | syncing the same items again changes nothing the keys say |
| Sync.AdaptersAgree | sdk/wapsell/resources/repository.py:198-205 | over Postgres a sync is never refused and ends with the same map from keys to contents |
| SyncFacts.ExternalIdIs | sdk/wapsell/resources/sync.py:113-122 | the id is the text of the first of the five named fields with a text, number or flag that is not blank, or the digest |
| SyncFacts.SummaryIs | sdk/wapsell/resources/sync.py:125-134 | the summary is the stripped start of the first of the four named fields with text, or of the row's JSON |
| SyncFacts.SyncStores | sdk/wapsell/resources/sync.py:63-110 | a fetch is noted with its count; under each external id exactly one row is left, with the configured kind and the last such item; rows of other tenants and sources stay |
| SyncFacts.FailedSync | sdk/wapsell/resources/sync.py:70-110 | an adapter's error is noted and stores no row; a crash or a kind that is no text changes nothing |
| Scheduler.SyncScheduler.TickOnce | sdk/wapsell/resources/scheduler.py:95-137 | one tick syncs exactly the listed sources that are due by the listed copy, and counts the reports |
| Scheduler.TickEffect | sdk/wapsell/resources/scheduler.py:95-137 | a tick stamps exactly the active due sources whose sync completes |
| Scheduler.NothingLeftDue | sdk/wapsell/resources/scheduler.py:159-167 | no source a tick synced is still due at that tick's clock |
| Scheduler.TicksFollowEachOther | sdk/wapsell/resources/scheduler.py:139-154 | the states of a run are those the ticks leave one after another |
| Scheduler.RecordsLastFinish | sdk/wapsell/resources/sync.py:96-104 | the recorded time is the finish of the latest completed sync |
| Scheduler.SyncsAreSpaced | sdk/wapsell/resources/scheduler.py:159-167 | a sync starts at least the source's interval after its previous one finished |
| Scheduler.BoundedStaleness | sdk/wapsell/resources/scheduler.py:95-167 | after its first sync a source is never older than interval plus poll plus two tick lengths |
| SchedulerFacts.TickStamps | sdk/wapsell/resources/scheduler.py:95-167 | after a tick exactly the active sources whose own or default interval has passed, and whose run notes something, are stamped with what it notes |
| SchedulerFacts.TickCounts | sdk/wapsell/resources/scheduler.py:95-137 | the tick returns the number of those sources |
| SchedulerFacts.ScanOrder | sdk/wapsell/resources/repository.py:416-422 | the scan goes over exactly the active sources, newest registration first |
| CrmRecorder.CrmRecorder.AddContact | sdk/wapsell/crm/recorder.py:79-102 | the contact a phone's first message creates, with count one |
| CrmRecorder.CrmRecorder.BumpContact | sdk/wapsell/crm/recorder.py:104-125 | the contact a later message leaves; an unusable stored count stops it before any write |
| CrmRecorder.CrmRecorder.UpsertContactForInbound | sdk/wapsell/crm/recorder.py:70-125 | which contact results and what the store holds afterwards |
| CrmRecorder.CrmRecorder.RecordActivity | sdk/wapsell/crm/recorder.py:130-176 | one activity per direction and message id; a known one leaves the store alone |
| CrmRecorder.CrmRecorder.RecordInbound | sdk/wapsell/crm/recorder.py:181-209 | contact first, then the activity that points to it |
| CrmRecorder.CrmRecorder.RecordOutbound | sdk/wapsell/crm/recorder.py:211-239 | an activity if the contact exists, nothing otherwise |
| CrmExtractor.CrmExtractor.Merge | sdk/wapsell/crm/extractor.py:231-243 | the update loop skips protected keys and values already there, and reports whether it changed anything |
| CrmExtractor.CrmExtractor.MergeTags | sdk/wapsell/crm/extractor.py:245-255 | the tag loop appends each normalised, non-empty, new tag once |
| CrmExtractor.CrmExtractor.PatchContact | sdk/wapsell/crm/extractor.py:231-266 | the merged data and tags, written only if something changed |
| CrmExtractor.CrmExtractor.OpenTaskTitles | sdk/wapsell/crm/extractor.py:347-360 | the normalised titles of the contact's open tasks among the listed ones |
| CrmExtractor.CrmExtractor.WriteTasksFor | sdk/wapsell/crm/extractor.py:268-310 | the rows after the task loop |
| CrmExtractor.CrmExtractor.Apply | sdk/wapsell/crm/extractor.py:205-226 | the rows after patch, tasks and stage row; foreign and unknown contacts are left alone |
| CrmWrites.PatchStores | sdk/wapsell/crm/extractor.py:231-266 | unless the patch raises, every unprotected update's value is stored, every other field stays, and every tag that is not blank is in the stored list, which is the old or updated one followed by the new tags once each in the order they came |
| CrmWrites.RaisesExactly | sdk/wapsell/crm/extractor.py:245-255 | the patch raises exactly if there are tags to join a list that holds a list or an object |
| CrmWrites.ApplyStores | sdk/wapsell/crm/extractor.py:205-266 | the same of the contact's row after an application, with a new time stamp if the data changed |
| CrmWrites.NothingToApply | sdk/wapsell/crm/extractor.py:205-222 | an unknown or foreign contact, an empty result or a patch that raises leaves every row alone |
| CrmWrites.AddedTasksSay | sdk/wapsell/crm/extractor.py:268-310 | every added row is made of one task, the first of the batch with its key, and holds its cut title, due date and priority |
| CrmWrites.ApplyAdds | sdk/wapsell/crm/extractor.py:205-345 | an application adds such rows, then exactly if there is a transition the row that tells it, and changes no other row |
| CrmWrites.OpenTasksExactly | sdk/wapsell/crm/extractor.py:347-360 | which rows count as open tasks of a contact |
| CrmWrites.KeyKeepsWords | sdk/wapsell/crm/extractor.py:382-385 | the key of a title is its words in lower case with one blank for any white space between them |
| CrmReapply.PatchIsIdempotent | sdk/wapsell/crm/extractor.py:231-266 | the data patch of any extraction settles in one application, even if it sets the tags itself |
| CrmReapply.ProtectedFieldsSurvive | sdk/wapsell/crm/extractor.py:366-374 | phone, source, counter and time stamps survive every extraction |
| CrmReapply.TagsGainOnlyNewMembers | sdk/wapsell/crm/extractor.py:245-255 | unless the updates set tags, old tags stay and only normalised new members follow; a contact without tags counts as one with an empty list |
| CrmReapply.OldTagsStayExactly | sdk/wapsell/crm/extractor.py:245-255 | old tags stay exactly if there are none, they are a list, or the extraction tags nothing or writes nothing |
| CrmReapply.WrittenExactly | sdk/wapsell/crm/extractor.py:268-310 | for any number of tasks, one is added for exactly the batch's non-empty titles that the contact's open tasks bear not at all or only beyond the thousand listed |
| CrmReapply.UnseenExactly | sdk/wapsell/crm/extractor.py:347-360 | a title is overlooked exactly if every open task that bears it lies beyond the newest thousand |
| CrmReapply.NoSecondOpenTask | sdk/wapsell/crm/extractor.py:268-310 | with at most 1000 active tasks, no added task repeats an open title, nor another of its batch |
| CrmReapply.BatchBecomesKnown | sdk/wapsell/crm/extractor.py:347-360 | after a batch all its titles are among the open ones |
| CrmReapply.ApplyShape | sdk/wapsell/crm/extractor.py:205-226 | an application patches the contact in place and appends tasks and a stage row, nothing else |
| CrmReapply.ApplyTwice | sdk/wapsell/crm/extractor.py:205-345 | applying twice leaves every row as once but for the contact's time stamp; the store grows by exactly the stage row |
| CrmRuns.MessagesPointToContacts | sdk/wapsell/crm/recorder.py:130-239 | in every interleaving all message activities point to an existing contact of their tenant, and ids stay distinct |
| CrmRuns.ApplyEffect | sdk/wapsell/crm/extractor.py:205-226 | a background application in any reachable state changes one contact's data and appends rows that are neither contacts nor messages |
| CrmGuarantees.NoLostUpdates | sdk/wapsell/crm/recorder.py:70-125 | in every interleaving a phone that wrote has exactly one contact; it counts the messages, keeps the first and last time, and bounds the inbound activities |
| CrmGuarantees.OneActivityPerMessage | sdk/wapsell/crm/recorder.py:53-58 | in every interleaving there is at most one activity per tenant, direction and message id |
| CrmTimeline.TimelineIsComplete | sdk/wapsell/crm/recorder.py:130-239 | in every interleaving there is exactly one row for each message id a phone of the tenant wrote under, and for each reply after its phone wrote, and no other; it is that of the first such event, with contact, direction, text, id, time, extra data and preview |
| CrmNames.NameIsFirstGiven | sdk/wapsell/crm/recorder.py:79-125 | as long as no extraction sets it, a contact's name is the first profile name given, and its summary that name or the number |
| CrmNames.BumpSays | sdk/wapsell/crm/recorder.py:104-125 | a later message adds one to any usable stored count, a missing one being zero, sets the time, and leaves all other fields but the name; an unusable count stops it |
| CrmBackground.ResultReachesContact | services/api/main.py:2612-2672 | a task that resolved the contact of a phone which had written applies its result to that contact, however much later and whatever interleaves |
| CrmGuarantees.OutboundAddsNoContact | sdk/wapsell/crm/recorder.py:211-239 | recording a reply creates and changes no contact |
| CrmGuarantees.OutboundNeedsInbound | sdk/wapsell/crm/recorder.py:211-239 | a reply to a phone that never wrote leaves the store as it was |
| CrmGuarantees.DispatchesEveryKth | services/api/main.py:2561-2598 | with stride k, n handled messages dispatch exactly n / k extractor runs, whatever else interleaves |
| CrmGuarantees.DispatchesExactly | services/api/main.py:2561-2598 | over any rows, for which stored counts a check dispatches |
| CrmPostgres.FindsNewest | sdk/wapsell/resources/repository.py:207-211 | the table lookup finds a newest row with the reference, and nothing exactly if there is none |
| CrmPostgres.RefusesSecondTurnExactly | sdk/wapsell/resources/repository.py:198-205 | whatever else the table holds, it refuses a message's contact exactly if the phone already has one |
| CrmPostgres.LaterTurnIsLost | sdk/wapsell/crm/recorder.py:181-209 | such a message changes nothing, not even the timeline |
| CrmPostgres.FirstTurnStores | sdk/wapsell/crm/recorder.py:181-209 | a phone's first message over an open connection gains its contact, and exactly if the message id is new the activity that tells it |
| CrmPostgres.ReplyStores | sdk/wapsell/crm/recorder.py:211-239 | a reply to a phone with a contact gains its activity, exactly if the message was not replied to yet |
| CrmPostgres.ReplyToNobody | sdk/wapsell/crm/recorder.py:223-228 | a reply to a phone without a contact stores nothing and is not refused |
| CrmPostgres.RefusedExactly | sdk/wapsell/resources/repository.py:194-238 | in every reachable table an open connection refuses exactly: a message of a phone with a contact, a reused id, a write of a known id without its key, and what another adapter's table refuses |
| CrmPostgres.SecondTurnIsRefused | sdk/wapsell/crm/recorder.py:104-125 | with new ids a message is refused exactly if one of its phone was stored before; a reply never is, and a patched contact always |
| CrmPostgres.AbortedExactly | services/api/main.py:180 | the connection is aborted exactly if a statement was refused since the process started |
| CrmPostgres.FrozenAfterRefusal | services/api/main.py:180-186 | from the first refusal to the next restart nothing is stored, whichever events follow |
| CrmPostgres.FirstMessageDecides | sdk/wapsell/crm/recorder.py:70-102 | without a restart a phone is recorded exactly if its first message came while the connection was open |
| CrmPostgres.OnlyFirstHeardCounts | sdk/wapsell/crm/recorder.py:70-125 | after every run, with restarts or without, a phone has one contact exactly if a message of it found the connection open, with the count and times of the first that did; the count is right exactly if the phone wrote once and that message did |
| CrmPostgres.OthersAreLost | services/api/main.py:180-186 | after any run in which one phone is recorded and another is not: if the first writes again, the other's first message leaves no contact |
| CrmPostgres.ThreeMessages | services/api/main.py:180-186 | from the empty table: A writes, A writes again, B writes once, and B has no contact |
| BuyerMemory.InMemoryBuyerMemory.Remember | sdk/wapsell/memory/buyer.py:80-84 | append, then cut from the front to the capacity |
| BuyerMemory.InMemoryBuyerMemory.Recall | sdk/wapsell/memory/buyer.py:86-92 | the last turns up to the limit, none for a limit below one |
| BuyerMemory.RingIsWindow | sdk/wapsell/memory/buyer.py:80-84 | the bucket is the last max_items turns of the buyer's whole history |
| BuyerMemory.TopSize | sdk/wapsell/memory/buyer.py:155-159 | among n rows of a buyer exactly k have rank below k |
| BuyerMemory.TrimKeepsTop | sdk/wapsell/memory/buyer.py:208-221 | insert and trim on the newest rows gives the newest rows of everything so far |
| BuyerMemory.TableIsTopOfEverything | sdk/wapsell/memory/buyer.py:205-221 | for every order of time stamps the trimmed table holds each buyer's newest rows of all time |
| BuyerMemory.RecallsAgree | sdk/wapsell/memory/buyer.py:223-235 | on a chronological history both memories recall the same last min(limit, max_items, n) turns |
| BuyerMemory.LateTurnSplitsThem | sdk/wapsell/memory/buyer.py:141-159 | a turn older than an earlier one makes the two memories differ |
| BuyerMemory.AgreeExactlyWhenChronological | sdk/wapsell/memory/buyer.py:80-92 | the two agree throughout a run exactly if the buyer's time stamps never decrease |
| BuyerThreads.GatherThreads | sdk/wapsell/memory/buyer.py:101-118 | the loop over the buckets gathers one summary per buyer with turns and the prefix |
| BuyerThreads.CountsAgree | sdk/wapsell/memory/buyer.py:80-84 | for every order of time stamps both memories hold min(max_items, n) of a buyer's n turns |
| BuyerThreads.ThreadsAgreeExactly | sdk/wapsell/memory/buyer.py:101-178 | under a prefix without wild cards both list a buyer with the same count and last turn exactly if the buyer is left out, has no turns, or none of the turns is later than the one remembered last |
| BuyerThreads.RingListing | sdk/wapsell/memory/buyer.py:101-118 | the ring's summary counts min(max_items, n) turns and shows the one remembered last |
| BotPauses.BotPauseRepository.IsPaused | sdk/wapsell/inbox/repository.py:54-58 | paused exactly while the stored end lies ahead |
| BotPauses.BotPauseRepository.Pause | sdk/wapsell/inbox/repository.py:60-63 | the last write wins |
| BotPauses.BotPauseRepository.Resume | sdk/wapsell/inbox/repository.py:65-66 | the entry goes |
| InboundHandler.MessageHandler.Compose | services/api/main.py:2454-2505 | respond, notify and pause follow the call-by-call protocol |
| InboundHandler.MessageHandler.Deliver | services/api/main.py:2507-2555 | send, persist, record and dispatch follow it |
| InboundHandler.MessageHandler.ProcessInboundMessage | services/api/main.py:2402-2555 | the handler makes exactly the attempts of the protocol and leaves its pauses |
| PauseProtocol.HandlersStayInOrder | services/api/main.py:2402-2555 | in every interleaving each handler makes its attempts in the fixed order |
| PauseProtocol.OneSendThenOnePersist | services/api/main.py:2402-2555 | under every failure pattern an unsilenced message makes one send attempt and directly after it one attempt to persist the same reply; a silenced one makes neither |
| PauseProtocol.EscalationSilencesBot | services/api/main.py:2483-2496 | after a successful pause write no message checked before its end gets a bot send, unless a resume or newer pause came between |
| PauseProtocol.PauseWritersAutoPause | services/api/main.py:2487-2489 | only a tenant with a positive auto-pause window writes a pause |
| PauseProtocol.ReplyIsAnswerOrFallback | services/api/main.py:2454-2505 | an unsilenced message sends exactly once, and the text is the agent's answer, or the fallback exactly if the agent failed |
| PauseProtocol.PauseAfterMessage | services/api/main.py:2483-2496 | a message writes a pause exactly on an unsilenced escalation with a positive window and a working registry |
| HandlerStory.EveryStoryIsTold | services/api/main.py:2402-2555 | in every interleaving a finished unsilenced handler attempted exactly this, in order: an escalation notified once whatever the window, a pause exactly if the window is positive, one send, and the same text stored twice with metadata that says key by key what the calls brought back |
| HandlerStory.MessageTellsItsStory | services/api/main.py:2402-2555 | the same of one uninterrupted message; it is silenced exactly by a pause that ends after the check's clock |
| HandlerStory.SilencedExactly | services/api/main.py:2443-2452 | the pause check silences exactly if it works and a pause of the conversation is still running |
| Naming.SlugifyYieldsSlug | sdk/wapsell/onboarding/flow.py:52-62 | every name gives a non-empty slug over the alphabet with no edge or double hyphen |
| Naming.SlugifyKeepsSlugs | sdk/wapsell/onboarding/flow.py:52-62 | a slug is its own slug |
| Naming.SlugifyIsIdempotent | sdk/wapsell/onboarding/flow.py:52-62 | slugify applied twice is slugify |
| SlugWords.SlugifyExactly | sdk/wapsell/onboarding/flow.py:52-62 | the slug of every name is what blanks and hyphens separate once all but letters, digits, blanks and hyphens are dropped, joined by single hyphens; "tenant" if that is nothing |
| Naming.CandidatesDiffer | sdk/wapsell/onboarding/flow.py:128-134 | the candidates of the slug search are pairwise distinct |
| Naming.CandidateIsSlug | sdk/wapsell/onboarding/flow.py:128-134 | a suffixed slug is a slug |
| Naming.FromNumberRoundTrip | services/api/main.py:1230-1235 | the number comes back out of every buyer id whose slug has no colon |
| Naming.PrefixClashExactly | sdk/wapsell/client.py:50-52 | exactly which pairs of slugs let one tenant's prefix match a buyer of the other |
| Naming.PrefixFindsOwnBuyers | sdk/wapsell/client.py:50-52 | for slugs the prefix matches a buyer id exactly if the tenants are the same |
| Naming.LikeIsPrefixExactly | sdk/wapsell/memory/buyer.py:249-257 | LIKE prefix% means startswith for all texts exactly if the prefix has no wild card |
| Naming.TenantPrefixIsLiteral | sdk/wapsell/memory/buyer.py:101-121 | so both memories find the same threads by a tenant's prefix |
| Onboarding.TenantRepository.Add | sdk/wapsell/tenant/repository.py:42-44 | stored under its id |
| Onboarding.TenantRepository.FirstWith | sdk/wapsell/tenant/repository.py:49-56 | the scan behind both lookups returns the first tenant that satisfies the test, none exactly if no tenant does |
| Onboarding.TenantRepository.BySlug | sdk/wapsell/tenant/repository.py:49-50 | the tenant has the slug and no earlier one does; none exactly if no tenant has it |
| Onboarding.TenantRepository.ByPhoneNumberId | sdk/wapsell/tenant/repository.py:52-56 | the tenant has the phone number id and no earlier one does; none exactly if no tenant has it |
| Onboarding.TenantRepository.Update | sdk/wapsell/tenant/repository.py:61-65 | replaced if known, an error otherwise |
| Onboarding.TenantManager.Create | sdk/wapsell/tenant/manager.py:33-38 | a taken slug is refused, otherwise the tenant is stored without a phone |
| Onboarding.OnboardingFlow.UniqueSlug | sdk/wapsell/onboarding/flow.py:128-134 | the loop terminates for every repository, by pigeonhole, with the first free candidate |
| Onboarding.FirstFreeIsLeast | sdk/wapsell/onboarding/flow.py:128-134 | that candidate is the least free one, found after at most as many tries as there are slugs, plus one |
| Onboarding.UniqueSlugIsMinimal | sdk/wapsell/onboarding/flow.py:128-134 | the base if free, otherwise base-k for the least free k from 2 on |
| Onboarding.OnboardingFlow.Provision | sdk/wapsell/onboarding/flow.py:97-105 | creating under the free slug cannot fail, and the phone is attached |
| Onboarding.OnboardingFlow.Run | sdk/wapsell/onboarding/flow.py:92-126 | result and tenants for every pattern of failing external steps |
| Onboarding.SlugsAndPhonesStayUnique | sdk/wapsell/onboarding/flow.py:92-134 | in every run slugs stay distinct and each phone number id has at most one tenant |
| Onboarding.ReplayChangesNothing | sdk/wapsell/onboarding/flow.py:92-95 | a replayed signup, however much later and under whatever name, changes nothing |
| Onboarding.OnboardedSlugIsSlug | sdk/wapsell/onboarding/flow.py:97-105 | every onboarded slug is one that keeps tenants' buyers apart |
| OnboardingFacts.TenantsCarrySignups | sdk/wapsell/onboarding/flow.py:92-126 | in every run there is a tenant for every accepted creation or signup and no other, with its name, slug and phone, active exactly if the runtime came up since |
| OnboardingFacts.RunSays | sdk/wapsell/onboarding/flow.py:92-126 | a known phone is answered with its tenant and changes nothing; otherwise a new last tenant, its status, and when it is reported |
| Billing.SubscriptionRepository.Add | sdk/wapsell/billing/repository.py:28-30 | the row replaces the one with its id in place, or is appended |
| Billing.SubscriptionRepository.Get | sdk/wapsell/billing/repository.py:32-33 | the row has the id and no earlier one does; none exactly if no row has it |
| Billing.SubscriptionRepository.GetByPreapprovalId | sdk/wapsell/billing/repository.py:35-39 | the row has the preapproval id and no earlier one does; none exactly if no row has it |
| Billing.SubscriptionRepository.ActiveForTenant | sdk/wapsell/billing/repository.py:48-55 | whether the tenant has an authorized row |
| Billing.SubscriptionRepository.Update | sdk/wapsell/billing/repository.py:57-61 | a known row is replaced in place, an unknown one is an error and changes nothing |
| Billing.BillingService.Subscribe | sdk/wapsell/billing/service.py:60-107 | the pending row stays even if the provider fails; a conflict or bad plan writes nothing |
| Billing.BillingService.Cancel | sdk/wapsell/billing/service.py:109-130 | the tenant's own row becomes cancelled whatever the provider answers |
| Billing.BillingService.ReconcileFromWebhook | sdk/wapsell/billing/service.py:135-177 | which row is patched with which fields, for every answer |
| Billing.SubscribeIsTwoSteps | sdk/wapsell/billing/service.py:78-107 | the pending row and the later link are together what an uninterrupted subscribe writes |
| Billing.EarlyWebhookIsLost | sdk/wapsell/billing/service.py:135-149 | a webhook before the link changes nothing then or later: the linked row agrees with the provider exactly if the provider still says what the row said |
| Billing.Converges | sdk/wapsell/billing/service.py:135-177 | one reconcile after the provider's last change makes the local status equal it, whatever webhooks were lost, doubled or reordered, and it stays so unless a cancellation is refused |
| Billing.OnlyKnownStatusesWrite | sdk/wapsell/billing/service.py:151-160 | unknown statuses and failed fetches change nothing, and no other row is ever touched |
| Billing.StartedOnce | sdk/wapsell/billing/service.py:162-163 | started_at is the time of the first reconcile that saw AUTHORIZED and is never written again |
| Billing.TwoActiveRows | sdk/wapsell/billing/service.py:135-177 | any two linked rows of one tenant, reconciled after the provider authorized both, are both active |
| Billing.DoubleSignupBreaksPolicy | sdk/wapsell/billing/service.py:60-107 | from the empty store, two signups before paying end with two active rows |
| Billing.PolicyHoldsExactly | sdk/wapsell/billing/service.py:66-76 | a run keeps one active row per tenant throughout exactly if no reconcile authorizes a row beside an active one |
| Billing.OneActiveKeptExactly | sdk/wapsell/billing/service.py:66-76 | one reconcile keeps one active row per tenant exactly if it does not authorize a row beside an active one |
| BillingFacts.AnswerIsWritten | sdk/wapsell/billing/service.py:151-177 | one answer: with one of the four status texts exactly the linked row takes that status, its start and period end; with any other text no row changes |
| BillingFacts.ConvergesToText | sdk/wapsell/billing/service.py:135-177 | convergence in the provider's own words: pending, authorized, paused, cancelled |
| BillingFacts.RowsCarrySignups | sdk/wapsell/billing/service.py:60-177 | in every run there is a row for every accepted signup and no other, with its tenant, plan, payer and link, and its status is that of the last write |
| Analytics.CountTurn | services/api/main.py:1326-1341 | one turn's effect on all running counters |
| Analytics.ScanThread | services/api/main.py:1318-1343 | the stateful inner loop equals counts over the in-window turns and one duration per agent turn directly after a buyer turn |
| Analytics.ScanThreads | services/api/main.py:1316-1343 | the outer loop gathers exactly that over all threads |
| Analytics.BuildDaily | services/api/main.py:1348-1359 | the dense series, one bucket per day |
| Analytics.Assemble | services/api/main.py:1345-1383 | totals, rate, series and keyword listing from the counters |
| Analytics.GetAnalytics | services/api/main.py:1302-1383 | the report equals its closed form over the in-window turns |
| AnalyticsFacts.ReplyTimesAreFew | services/api/main.py:1341-1343 | at most one duration per agent turn and per buyer turn |
| AnalyticsFacts.ReplyTimesNonNegative | services/api/main.py:1341-1343 | for chronological turns no duration is negative |
| AnalyticsFacts.MedianSplitsInHalf | services/api/main.py:1386-1395 | at least half of the values lie on each side of the median |
| AnalyticsFacts.MedianIgnoresThreadOrder | services/api/main.py:1316-1343 | the median does not depend on the order of the threads |
| AnalyticsFacts.DailySeriesAccountsForTotals | services/api/main.py:1302-1359 | each total is the sum of its daily series plus the turns of today |
| AnalyticsFacts.SeriesEndsYesterday | services/api/main.py:1348-1359 | the series covers the days before today |
| AnalyticsFacts.TotalsAddUp | services/api/main.py:1345-1346 | the message total is the number of turns in the window and the sum of both sides, and the handoffs are among the agent's turns |
| AnalyticsFacts.HandoffRateIsShare | services/api/main.py:1345-1346 | the rate lies between 0 and 1, times the agent's turns gives the handoffs, and is 0 without any |
| AnalyticsFacts.TopKeywordsAreTheTop | services/api/main.py:1361-1365 | a keyword is listed with its number of occurrences, or five others with at least as many are; ties keep order of first occurrence |
| AnalyticsFacts.KeywordsWithinHandoffs | services/api/main.py:1333-1365 | the listed keyword counts sum to at most the handoffs, those to at most the agent's turns |
| AnalyticsCounts.TotalsAreCounts | services/api/main.py:1316-1346 | each total is the number of turns in the window with that role or flag, and the buyers are those with such a turn |
| AnalyticsCounts.BucketsAreCounts | services/api/main.py:1348-1359 | each bucket holds the numbers of turns between the midnights of its day |
| AnalyticsCounts.KeywordsAreCounts | services/api/main.py:1333-1365 | a listed keyword has the number of turns handed over on it; another stands behind five with at least as many |
| AnalyticsCounts.ReplyTimesAreAnswers | services/api/main.py:1341-1343 | every duration is measured as often as an agent's turn directly follows a buyer's by it |
| AnalyticsCounts.MedianIsMiddle | services/api/main.py:1386-1395 | the median is the middle value in order, or the mean of the two in the middle |
| Learning.TopFilterKeys | sdk/wapsell/resources/learning.py:112-137 | the loop equals the ranking of all rolled-up keys in the window |
| Learning.FilterCountsAddUp | sdk/wapsell/resources/learning.py:124-135 | before truncation the counts sum to the number of filter keys in the window |
| Learning.TopFiltersAreTheTop | sdk/wapsell/resources/learning.py:136-137 | the list is a prefix of the unique listing by count, then key |
| Learning.TopFiltersIgnoreOrder | sdk/wapsell/resources/learning.py:112-137 | entry order does not matter |
| Learning.ListedOrBeaten | sdk/wapsell/resources/learning.py:136-137 | a used key is listed with its number of uses, or everything listed comes before it and the list is full |
| Learning.DiscoverSchema | sdk/wapsell/resources/learning.py:72-109 | the aggregation loops equal the closed form |
| Learning.SchemaIgnoresOrder | sdk/wapsell/resources/learning.py:72-109 | fields, their order, presence and type do not depend on the order of the sample |
| LearningCounts.FiltersAreCounts | sdk/wapsell/resources/learning.py:112-137 | every field is listed with the number of filters on it or on its bounds since the cutoff, unless a full list comes before it |
| LearningCounts.FieldsAreCounts | sdk/wapsell/resources/learning.py:72-109 | a listed field's presence is its number of cells per row, it is numeric exactly if seven in ten are, and its examples are its first four values, shortened |
| LearningCounts.FieldsAreListed | sdk/wapsell/resources/learning.py:72-109 | every field that some row bears is listed |
| LearningCounts.FieldsAreOrdered | sdk/wapsell/resources/learning.py:108 | by falling presence, then by name |
| Counting.TallyMember | sdk/wapsell/resources/learning.py:124-135 | a counter dictionary holds exactly the keys that occur, each with its number of occurrences |
| Ranking.OrderedIsUnique | sdk/wapsell/resources/learning.py:136-137 | there is only one listing by weight, then name, of given items |
| TsQuery.TokensOfSpaced | sdk/wapsell/ingestion/hindsight.py:93-109 | the tokens of a text given as words with gaps between them are those words |
| TsQuery.EveryTextIsSpaced | sdk/wapsell/ingestion/hindsight.py:93-109 | every text is such words and gaps, so its tokens are its maximal runs of word characters |
| TsQuery.DedupKeepsFirsts | sdk/wapsell/ingestion/hindsight.py:93-109 | each word once, in order of first occurrence |
| TsQuery.QuerySplitsIntoTerms | sdk/wapsell/ingestion/hindsight.py:93-109 | splitting the query gives exactly the first occurrences of the lower-cased tokens of three or more characters |
| TsQuery.QueryIsIdempotent | sdk/wapsell/ingestion/hindsight.py:93-109 | making a query out of a query gives the same query |
| TsQuery.TermsExactly | sdk/wapsell/ingestion/hindsight.py:93-109 | the query's words are exactly the tokens of three or more characters in lower case, each once |
| TokenCipher.Base64RoundTrip | sdk/wapsell/security/crypto.py:92-97 | decoding undoes base64url encoding (section 5 of RFC 4648) for every byte string |
| TokenCipher.PadRestores | sdk/wapsell/security/crypto.py:63-67 | stripping the padding of any encoded text loses nothing: padding to a multiple of four restores it |
| TokenCipher.DecryptUndoesEncrypt | sdk/wapsell/security/crypto.py:86-108 | decrypting what was encrypted under the same key and data gives the plaintext, for every AEAD that undoes itself under keys and nonces of the right length |
| TokenCipher.TokenHoldsNonceAndSeal | sdk/wapsell/security/crypto.py:86-92 | a token has no padding and decodes to the nonce followed by the seal |
| TokenCipher.DecryptFailsExactly | sdk/wapsell/security/crypto.py:94-108 | which tokens are refused, and with which error |
| TokenCipher.ForeignIsSkipped | sdk/wapsell/security/crypto.py:94-97 | characters of neither alphabet do not matter to decoding |
| Base64Numbers.EncodingIsANumber | sdk/wapsell/security/crypto.py:92 | the symbols' values in base 64 are the bytes in base 256 with the zero bits of the last group |
| Base64Numbers.SymbolsInOrder | sdk/wapsell/security/crypto.py:92 | the symbols are capital letters, small letters, digits, hyphen and underscore in this order |

## Left out

- HTTP routes, sessions, CORS, rate limits, health probes, the Next.js pages, plan catalog, lead score, SOUL rendering and the event bus: wiring, or facts of a single branch.
- The LLM, Meta, Mercado Pago and the adapters' `fetch` are parameters that return any value or fail; the AEAD is any pair of functions with its own round trip.
- Parsing the extractor's reply text (`_parse_reply`, `_extract_json_object`) and the prompt; the model starts at the parsed result.
- Python equality across JSON types (`True == 1 == 1.0`), JSON floats, and a `turn_count` stored as numeric text or float, which `int(...)` would accept.
- Lower-casing is a parameter; in `TsQuery` it works character by character, settles at once and keeps word characters, which Python's `lower` does not do for a few characters.
- JavaScript's UTF-16 code units, and a CSV header named `__proto__`, whose assignment an object literal treats specially.
- Floating-point rounding of presences, medians and intervals, which are reals here; intervals that are NaN or infinite.
- `ResourceRepository.search`, full-text ranking, and the preview text of `list_threads`, its order and its cut to the limit; the analytics take the threads as given.
- Rows a person edits or deletes in the dashboard, and rows of other kinds, in the CRM runs; a run starts from an empty store.
- The scheduler's `start` and `stop` and the sleep of its loop: a run is a sequence of ticks with a bounded gap, and the sources' configuration does not change during it.
- Two onboardings overlapping inside `supervisor.bring_up` see each other only between steps; a runtime spawner that edits tenants is not modelled.
- Postgres adapters other than the resource statements of the recorder and the synchronizer and the trimmed interaction table. The other tables share the recorder's connection, so after a refused statement they are frozen as well (`CrmPostgres.FrozenAfterRefusal`); their models, `Sync.AdaptersAgree` and `BuyerMemory.TableIsTopOfEverything` among them, are of an open connection.
- CrmPostgres.RefusedExactly: texts with U+0000 or lone surrogates, for which the table would refuse a first message as well.
- Sync.AdaptersAgree: texts with U+0000 or lone surrogates, which the table's TEXT and JSONB columns reject and the in-memory store keeps.
- The report's echo of the requested window (`window_days`, `window_start`, `window_end`).
- Billing.Converges: reconciles and cancellations are atomic steps, so one that overlaps another across its network call is covered only by `Billing.LastWriteDecides`; in memory the overlapping calls would also share one object. The link of a subscription is a step of its own and writes only its two fields, as in memory; over Postgres it writes the whole row as it was before the provider was called.
- CrmGuarantees.DispatchesEveryKth: covers a phone whose messages are handled one at a time and not while paused, as the cadence is otherwise different in the code too.
- Key loading from the environment and the hexadecimal form of generated keys.
