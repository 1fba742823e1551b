# bfeed: a verified model of its store, polls and scrapes

bfeed is a feed reader. Several goroutines share one database: polls holding stale
copies of feeds, scrapes holding stale copies of entries, and a user who edits URLs,
toggles full-content extraction and deletes. Each store operation is one atomic step,
because the pool has one connection; the code keeps the whole consistent with a few
guards (a compare-and-swap on `feed_url`, another on the `pending` state, the tombstone
check and the flag read inside the upsert transaction). This project models those
steps and proves what holds in every interleaving of them, and what the code around
them (paging, the per-host limiter, the worker pool, the backfill, the schedules and
the text codecs) promises.

How the files fit together:

- `Rows`, `Sql`: the rows, and each statement or transaction as a function on databases.
- `Store`: the store as a class that changes its tables in place, each method proved to
  be its statement. `MemStore`: the in-memory store as a class. `Mirror`: when it and the
  SQL show the same, and what each operation does to that. `Lockstep`: whole runs of both.
- `Invariants`: each statement keeps what every reachable database satisfies.
- `System`, `Safety`, `Effects`, `Validators`, `Extraction`: all actors with their stale copies; a
  run is any sequence of events, and an event its actor cannot perform changes nothing.
- `Poll`, `Scrape`, `Edit`: the pipelines as imperative methods, for every answer of network,
  parser, sanitiser and store, panics included. `Actors`: what a poll does alone is what it
  does inside a run. `Attempts`: runs made of whole polls. `Ingest`: the pre-filter of a poll.
- `Schedule`, `Pagination`, `HostLimiter`, `WorkerPool`, `Backfill`: one component each.
- `Decimal`, `JoinFields`, `Cursor`, `Search`: the text codecs.

Verify everything with `dafny verify dfyconfig.toml`.

## Where the code does not do what its documentation says

The model follows the code. Each point names the lemma with the input or run that shows
it, and the lemma with the condition under which the documented behaviour holds.

- `resolveAndIngest` keeps the validators of the old URL in memory when it moves a feed
  (`internal/core/feed.go:204`), unlike the redirect adoption, so a conditional request can
  carry them to a server that never issued them. Shown by `Attempts.AttemptsCanLeak`, in
  general by `Validators.ResolveLeaks`. It is safe exactly when the poll holds no validators or
  the new URL is its own, normalised: `Validators.ResolveFaithfulIff`. A poll of a healthy
  feed never gets there with any (`Polling.Service.PollFeed`), and runs of such polls are
  faithful: `Attempts.CleanAttemptsFaithful`.
- The pre-filter of ingest is called transparent (`internal/core/feed.go:432-437`). Shown
  otherwise by `Ingest.RepeatedGuidShows`; it is so exactly when no guid of the batch comes
  with two hashes: `Ingest.FilterTransparentIff`.
- The shift of `PollReschedule` can leave 64 bits and come back positive for intervals
  past 2^48 ns (over three days): `Schedule.ShiftCanCollapse`, exactly `ShiftedIsIdealIff`.
- The doubling of `ExtractBackoff` can do so for caps past 2^62 ns:
  `Schedule.DoublingCanCollapse`, exactly `DoublingIsIdealIff`.
- The interval of a busier feed is never longer, unless weekly count times factor is so small
  that the quotient leaves 64 bits, where Go leaves the conversion open:
  `Schedule.AdaptiveCanInvert`, exactly `AdaptiveMonotoneIff`.
- `UpdateExtractState` has no guard, so the failure of an overlapping scrape can move an entry
  out of done: `ExtractionRuns.OverlapUndoesExtraction`. A step does so exactly when it is such
  a failure (`StepKeepsArticle`), and over runs the article is held throughout exactly
  when there is none (`ArticleSurvives`).
- The in-memory store is called a mirror of the SQL. Up to ids and whole seconds it is one over
  every run of the operations modelled here, exactly unless an operation of the run takes the
  two apart: `Lockstep.RunMirrorsIff`. What does so is
  - a subscription with a title override, which the INSERT has no column for
    (`UserTitleTakesApart`; exactly `Mirroring.CreateFeedMirrorsIff`);
  - a user or category that does not exist, which only the foreign keys refuse
    (`MissingCategoryTakesApart`; exactly `CreateFeedMirrorsIff`, `SetCategoryMirrorsIff`,
    `CreateCategoryMirrorsIff`);
  - a category whose title differs from another of the user in case alone: migration 0011 makes
    the index compare without case, memory compares exactly (`CaseVariantTakesApart`,
    `RenameTakesApart`; exactly `CreateCategoryMirrorsIff`, `UpdateCategoryMirrorsIff`);
  - a batch that ingest never makes: memory does not look at the user when it refreshes a row
    (`ForeignHitHappens`), copies the reader columns and attempts of an item it inserts, and
    inserts items of users who do not exist (exactly `UpsertMirrorsIff`, and item by item
    `DistinctApartIff`);
  - after such batches, marking a category read in which another user's feed has an entry of
    this one (exactly `MarkReadMirrorsIff`).

  Answers differ where only the SQL refuses, and for the two extraction updates of a missing row
  (`Lockstep.RunAnswersIff`). With batches as ingest makes them the last two never happen:
  `Lockstep.IngestStaysInStep`. A deleted entry's schedule stays in memory for good, where nothing
  shows it: `Lockstep.DeletedScheduleStays`. In lists it combines a category filter with the one
  for uncategorised feeds, where the SQL ignores the latter: `Pagination.MemAgreesIff`, both
  directions, the latter by a database that shows it.

## Model

| member | source | states |
|---|---|---|
| `Stores.Store.GetEntryByGUID` | internal/store/sqlite/entries.go:47 | a scan of the table finds the one row of (feed, guid), or none |
| `Stores.Store.ChunkHashes` | internal/store/sqlite/entries.go:411-414 | one chunk's IN query returns exactly the stored hash of each of its guids the feed has a row for |
| `Stores.Store.EntryDedup` | internal/store/sqlite/entries.go:393-422 | the lookup in chunks of 500 equals one lookup of all guids, for any number of guids: hashes of the rows that exist, and the tombstoned ones |
| `Stores.LookupJoins` | internal/store/sqlite/entries.go:397-420 | looking up two lists apart and merging the answers is looking up their concatenation |
| `Stores.Store.IsUrlTaken` | internal/store/sqlite/sqlc/feeds.sql.go:348-350 | the UNIQUE(user, feed_url) test sees every other row of the user |
| `Stores.Store.CreateFeed` | internal/store/sqlite/feeds.go:43-64 | inserts the row under a fresh id without a title override; a URL the user already has, or a user or category that does not exist, is a conflict that changes nothing |
| `Stores.Store.SetFeedURL` | internal/store/sqlite/sqlc/feeds.sql.go:348-350 | changes the URL, clears both validators and makes the feed due; not found or conflict change nothing |
| `Stores.Store.IsTitleTaken` | internal/store/sqlite/migrations/0011_categories_nocase.sql:25-26 | the unique index on user and title, compared without the case of the letters A to Z, sees every other category of the user |
| `Stores.Store.DeleteCategory` | internal/store/sqlite/migrations/0010_feeds_autoincrement.sql:34 | the category goes and exactly its feeds become uncategorised, in whatever order the foreign key visits them |
| `Stores.Store.DeleteFeed` | internal/store/sqlite/feeds.go:130-142 | removes the feed, its entries (each through the index's delete trigger) and its tombstones, in whatever order the cascade visits them |
| `Stores.FtsDeleteOneMore` | internal/store/sqlite/migrations/0013_fts_plaintext.sql:31-34 | firing the delete trigger row by row adds up to removing all the rows at once, and is corrupt exactly if one of the deletes named values the index did not hold |
| `Stores.Store.SetFeedFullContent` | internal/store/sqlite/feeds.go:180-210 | one transaction: the flag, and the whole backlog queued or cancelled with it |
| `Stores.Store.MarkFeedEntriesPending` | internal/store/sqlite/sqlc/entries.sql.go:274-277 | of the feed's rows exactly those in none or failed become pending with 0 attempts and no reason |
| `Stores.Store.CancelFeedExtractions` | internal/store/sqlite/sqlc/entries.sql.go:13-16 | of the feed's rows exactly those in pending or failed become none with no next time |
| `Stores.Store.UpsertEntries` | internal/store/sqlite/entries.go:15-131 | the transaction equals the item-by-item specification: tombstoned skipped, existing refreshed by hash, new inserted in the state the flag read inside it says; a gone feed changes nothing, a user who does not exist rolls all back; and the inserted list is exact |
| `Stores.Store.UpsertItems` | internal/store/sqlite/entries.go:40-126 | its loop ends at the first failed foreign key, exactly when the batch is not accepted, and else performs every item |
| `Stores.StaysRefused` | internal/store/sqlite/entries.go:78-80 | an item whose row is refused is refused whatever comes after it |
| `Stores.Store.InsertEntry` | internal/store/sqlite/sqlc/entries.sql.go:147-153 | the new row, its projection, and an index document of its title and the text of its content and summary, with (feed, guid) still unique |
| `Stores.Store.UpdateEntry` | internal/store/sqlite/entries.go:86-124 | a changed hash refreshes the feed-owned fields, and the content too unless the entry is extracted |
| `Sql.FoldIff` | internal/store/sqlite/migrations/0011_categories_nocase.sql:25-26 | two titles are the same to the index exactly when they are equal but for the case of letters A to Z |
| `Invariants.FtsUpdateExact` | internal/store/sqlite/db.go:133-139 | on an exact index the update trigger's delete names what the index holds, and the index stays exact |
| `Invariants.FtsInsertExact` | internal/store/sqlite/migrations/0013_fts_plaintext.sql:24-27 | inserting a row keeps the index exact |
| `Invariants.FtsDeleteAllExact` | internal/store/sqlite/migrations/0013_fts_plaintext.sql:31-34 | cascading deletes keep the index exact |
| `Invariants.ExactIsSearchable` | internal/store/sqlite/migrations/0013_fts_plaintext.sql:24-27 | an exact index over projected rows is whole and holds title and the text of content and summary of exactly the rows |
| `Invariants.RelabelledKeeps` | internal/store/sqlite/sqlc/entries.sql.go:274-277 | changes to flags, extraction and reader columns keep keys, projection and index |
| `Invariants.CreateFeedKeepsSound` | internal/store/sqlite/feeds.go:43-67 | a new feed keeps every invariant, a URL once per user included |
| `Invariants.UpdateFeedKeepsSound` | internal/store/sqlite/sqlc/feeds.sql.go:412-418 | the guarded write-back keeps every invariant, whatever it writes |
| `Invariants.SetFeedURLKeepsSound` | internal/store/sqlite/sqlc/feeds.sql.go:348-350 | a URL change keeps every invariant, a URL once per user included |
| `Invariants.SetUserTitleKeepsSound` | internal/store/sqlite/feeds.go:224-237 | a title override keeps every invariant |
| `Invariants.SetCategoryKeepsSound` | internal/store/sqlite/sqlc/feeds.sql.go:312-314 | a category keeps every invariant, that a feed names only one that exists included |
| `Invariants.SetFullContentKeepsSound` | internal/store/sqlite/feeds.go:180-210 | the toggle keeps every invariant, the one that no entry of a full-content feed is unqueued included |
| `Invariants.DeleteFeedKeepsSound` | internal/store/sqlite/sqlc/feeds.sql.go:90-92 | the cascade keeps every invariant |
| `Invariants.CreateCategoryKeepsSound` | internal/store/sqlite/migrations/0011_categories_nocase.sql:25-26 | a new category keeps every invariant, a title once per user, whatever its case, included |
| `Invariants.UpdateCategoryKeepsSound` | internal/store/sqlite/categories.go:42-51 | so does a category's new title |
| `Invariants.DeleteCategoryKeepsSound` | internal/store/sqlite/categories.go:53-62 | so does the deletion of a category, foreign keys included |
| `Invariants.InsertRowKeepsSound` | internal/store/sqlite/entries.go:49-81 | inserting a row that is neither tombstoned nor present, of a user who exists, keeps every invariant |
| `Invariants.RefreshRowKeepsSound` | internal/store/sqlite/entries.go:84-124 | refreshing a row keeps every invariant, the text projection and the index included |
| `Invariants.UpsertAllKeepsSound` | internal/store/sqlite/entries.go:40-126 | any batch whose inserted items have users, however stale, keeps every invariant |
| `Invariants.UpsertKeepsSound` | internal/store/sqlite/entries.go:15-131 | so does the transaction with its bail-out for a gone feed |
| `Invariants.DeleteEntryKeepsSound` | internal/store/sqlite/entries.go:331-357 | deleting keeps every invariant although (feed, guid) were read in an earlier step |
| `Invariants.SetEntryContentKeepsSound` | internal/store/sqlite/sqlc/entries.sql.go:293-296 | saving an article keeps every invariant |
| `Invariants.UpdateExtractStateKeepsSound` | internal/store/sqlite/sqlc/entries.sql.go:411-413 | any extraction columns below the cap keep every invariant |
| `Invariants.SetReaderKeepsSound` | internal/store/sqlite/entries.go:270-302 | reader changes keep every invariant |
| `Safety.UpsertAllKeepsIdentity` | internal/store/sqlite/entries.go:40-126 | ids are never handed out again and a surviving row keeps its feed and guid |
| `Safety.StepKeepsIdentity` | internal/store/sqlite/entries.go:331-357 | the same for every step of every actor |
| `Safety.StepKeepsCopies` | internal/store/sqlite/entries.go:332-335 | what a deletion or a scrape read in an earlier step is still true of the row, if the row still exists |
| `Safety.StepKeepsSound` | internal/store/sqlite/entries.go:15-131 | every step of every actor, with whatever stale copy it holds, keeps the invariants |
| `Safety.RunKeepsSound` | internal/store/sqlite/entries.go:28-46 | so does every interleaving |
| `Safety.EveryRunIsSound` | internal/store/sqlite/entries.go:28-46 | in every run from an empty database: foreign keys hold, (feed, guid) unique, a category's title unique for its user whatever its case, no live entry tombstoned, no unqueued entry under full content, attempts at most the cap and pending exactly with a next time, and the index whole and holding, for exactly the entries, title and the text of content and summary |
| `Safety.DeleteFeedRemovesAll` | internal/store/sqlite/feeds.go:124-142 | deleting a feed leaves no feed, entry or tombstone with its id |
| `Safety.DeletedFeedStaysGone` | internal/store/sqlite/entries.go:23-33 | and none ever appears again in any continuation, with polls of it still in flight |
| `Safety.StepKeepsTombstone` | internal/store/sqlite/entries.go:41-46 | a tombstone goes only with its feed |
| `Safety.DeletedEntryStaysDeleted` | internal/store/sqlite/entries.go:41-46 | a deleted (feed, guid) is live in no continuation, whatever later polls bring |
| `Effects.SubscribeStores` | internal/core/feed.go:103-131 | an accepted subscription is a row that no poll has touched, titled and due as asked |
| `Effects.EditURLTakes` | internal/store/sqlite/sqlc/feeds.sql.go:348-350 | an accepted URL edit clears the validators, makes the feed due and changes nothing else |
| `Effects.MarkSets` | internal/store/sqlite/entries.go:304-329 | marking changes the reader columns of the user's rows among those named, and nothing else |
| `Effects.StatusSets` | internal/store/sqlite/entries.go:270-290 | a row marked read says when, one marked unread that it was not; stars stay |
| `Effects.MarkReadSets` | internal/store/sqlite/entries.go:304-329 | marks read exactly the user's unread entries of the feed, of the user's own feeds in the category or without one, or of all feeds |
| `Effects.StarSets` | internal/store/sqlite/entries.go:287-296 | starring sets the star of the user's rows among those named, and nothing else |
| `Effects.CategoriesTake` | internal/store/sqlite/categories.go:14-62 | a category is made, renamed and dropped for its own user; dropping it leaves its feeds without one |
| `Effects.UnsubscribeIsFinal` | internal/store/sqlite/feeds.go:130-142 | from the owner's deletion of a feed on, nothing of it is there or comes back |
| `Effects.DuplicateIsFinal` | internal/core/feed.go:170-197 | and so when a poll removes its row as a duplicate |
| `Effects.DeletionIsFinal` | internal/store/sqlite/entries.go:331-357 | from the deletion of an entry on, no entry of its feed and guid is there or comes back |
| `Effects.ReadCopies` | internal/store/sqlite/feeds.go:69-75 | a poll begins with the row's URL and both validators |
| `Effects.IngestStores` | internal/store/sqlite/entries.go:40-126 | every item that a poll hands over is in the store afterwards, as its last version, unless it was deleted before |
| `Validators.RecordedFaithful` | internal/core/feed.go:534-539 | copying the validators a response brought keeps the poll faithful to its URL |
| `Validators.WriteBackFaithful` | internal/store/sqlite/sqlc/feeds.sql.go:412-418 | the compare-and-swap on feed_url lets only validators of the row's own URL in |
| `Validators.ReadFaithful` | internal/store/sqlite/feeds.go:69-75 | a copy of a faithful row is a faithful poll |
| `Validators.SetFeedURLFaithful` | internal/store/sqlite/sqlc/feeds.sql.go:348-350 | a new URL leaves no validator of the old one |
| `Validators.AdoptFaithful` | internal/core/feed.go:398-417 | adopting a permanent redirect keeps row and poll faithful, because it clears the validators in memory |
| `Validators.ResolveFaithful` | internal/core/feed.go:170-205 | so does a resolve that carries no validators to another URL |
| `Validators.RunFaithful` | internal/core/feed.go:398-417 | in every run whose resolves carry nothing to another URL, every stored ETag and Last-Modified was served for the row's current URL |
| `Validators.ResolveFaithfulIff` | internal/core/feed.go:204-206 | what a resolve writes back is faithful, for every past of a faithful poll and every answer of the new URL, exactly when the poll holds no validators or the new URL is its own, normalised |
| `Validators.ResolveLeaks` | internal/core/feed.go:204-206 | from any state where a poll carries an ETag or a Last-Modified to an untaken URL that never served it and sends none, the run ends unfaithful |
| `Validators.BackgroundKeepsUserColumns` | internal/store/sqlite/sqlc/feeds.sql.go:412-418 | polls and scrapes never change a user-owned column |
| `Validators.StaleWriteBackIsLost` | internal/store/sqlite/feeds.go:120 | a poll still holding another URL changes nothing |
| `ExtractionRuns.StepKeepsArticle` | internal/store/sqlite/entries.go:86-107 | no step changes the content of an extracted entry but deleting it, and a step moves it out of done exactly when it is a failed scrape that read it before |
| `ExtractionRuns.ArticleSurvives` | internal/store/sqlite/sqlc/entries.sql.go:411-413 | over every run, the entry holds article and state at every moment that it lives exactly when no failed scrape of it comes late while it lives |
| `ExtractionRuns.OverlapUndoesExtraction` | internal/store/sqlite/sqlc/entries.sql.go:411-413 | and that happens: from any pending entry, two overlapping scrapes take it to done and out of done |
| `ExtractionRuns.ToggleCounts` | internal/store/sqlite/sqlc/entries.sql.go:274-277 | re-queueing resets the count of failures with the column |
| `ExtractionRuns.RunCounts` | internal/core/scrape.go:187-223 | in every run in which nothing re-queues an entry and no other scrape writes its attempts between a scrape's read and its write, the attempt column is the number of counted failures since it was queued |
| `ExtractionRuns.PendingEndsAtCap` | internal/core/scrape.go:188-197 | so in such a run it never exceeds MaxAttempts, and the entry is out of pending at MaxAttempts |
| `ExtractionRuns.FailureCharges` | internal/core/scrape.go:187-223 | one failure charges one and is terminal exactly at the cap; 429 and 5xx charge nothing |
| `Ingest.KeptIff` | internal/core/feed.go:446-453 | the pre-filter keeps exactly the items that are not tombstoned and whose hash is not the one stored |
| `Ingest.UnchangedRowStays` | internal/store/sqlite/entries.go:86 | a row whose guid the batch repeats only with the stored hash is left as it is |
| `Ingest.DroppedIsNoOp` | internal/core/feed.go:448-453 | an item that the lookup calls tombstoned or unchanged adds nothing to an upsert |
| `Ingest.FilterTransparentFor` | internal/core/feed.go:438-470 | filtering a batch with one hash per guid changes neither the store, nor the ids, nor the inserted list |
| `Ingest.LastItemWins` | internal/store/sqlite/entries.go:86-124 | an existing row ends with the hash of the last item of its guid |
| `Ingest.RepeatedGuidShows` | internal/core/feed.go:438-470 | when a guid comes with two hashes, some store tells the filtered batch from the whole one |
| `Ingest.FilterTransparentIff` | internal/core/feed.go:432-437 | the pre-filter is transparent on all stores, for rows, ids, inserted list and commit, exactly when no guid of the batch comes with two hashes |
| `Actors.LocalIsStep` | internal/core/feed.go:317-388 | an event a poll may perform does in the shared system what it does to the poll alone |
| `Actors.OthersDoNotTouch` | internal/core/feed.go:317-388 | nobody else changes a poll's in-memory feed |
| `Actors.PollInterleaves` | internal/core/feed.go:317-388 | a poll whose events form a path is, inside any run of everyone, where its path says, and resolves as cleanly |
| `Attempts.CarefulTakes` | internal/core/feed.go:317-388 | the trace that PollFeed and ResolveAndIngest promise, for a poll that began healthy or without validators, is such an attempt in any run that contains it |
| `Attempts.AttemptResolvesClean` | internal/core/feed.go:317-388 | an attempt whose own path resolves cleanly does so inside any run of everyone, from its read on |
| `Attempts.CleanAttemptsFaithful` | internal/core/feed.go:317-388 | every run from the empty database whose polls are attempts that carry no validators to another URL, with edits, deletions and scrapes between their steps, stores only validators that the row's current URL served |
| `Attempts.AttemptsCanLeak` | internal/core/feed.go:363-386 | a run of three attempts, each with one write at its end: an ETag stored, a failed fetch, then a page of HTML whose linked feed has no validators, and the row keeps the old ETag under the new URL |
| `Polling.Service.RecordErrorEmit` | internal/core/feed.go:572-600 | the write at PollReschedule's time, then the result and the error, or neither when suppressed |
| `Polling.Service.WriteError` | internal/core/feed.go:573-591 | one error more on the feed, one write-back of what it showed before with that message and the time, never at once and no later than a quarter past the cap, and no sooner than the ideal backoff for intervals up to 2^48 ns |
| `Polling.Service.NextCheck` | internal/core/feed.go:492-513 | MinInterval and its jitter for a young feed or a failed count, else the adaptive interval; always within its bounds |
| `Polling.TitleNeverBlank` | internal/core/feed.go:711-721 | the stored title is blank only where title and URL both are |
| `Polling.Service.WriteOk` | internal/core/feed.go:531-549 | one write-back of a row with that title, the texts and validators in memory, the time, no errors and a next check within the adaptive interval's bounds |
| `Polling.Service.Ingest` | internal/core/feed.go:423-471 | the store gets exactly the filtered, sanitised items, or the failure or panic is reported |
| `Polling.Service.Prepare` | internal/core/feed.go:446-468 | the loop keeps and sanitises what the filter specification keeps, and a sanitiser panic on a kept item stops it |
| `Polling.Service.RecordSuccess` | internal/core/feed.go:515-561 | its verdict, events and next check for each answer of store and sanitiser; the row written back by a success has the parsed feed's title, site, description and lifetime where they are not blank, else the old ones, and no error; by a failure what was there; both the time and the validators in memory |
| `Polling.MemFeed.constructor` | internal/store/sqlite/feeds.go:12-34 | every column of the row, times in nanoseconds |
| `Polling.EventIsTheWrite` | internal/store/sqlite/feeds.go:103-121 | the event in the shared system stores the whole row that the service wrote, where the feed is still at the poll's URL |
| `Polling.Service.AdoptPermanentRedirect` | internal/core/feed.go:398-417 | the URL changes exactly on an all-permanent chain the store accepts, with the validators cleared |
| `Polling.StatusDecides` | internal/core/metrics.go:92-103 | an answer that is neither a 304 nor a 200 is an HTTP error: rate-limited for 429, 5xx from 500, 4xx from 400, else internal |
| `Polling.Service.ResolveFeed` | internal/core/feed.go:229-263 | finds the URL's own feed, else the first one its page links to, else the reason there is none; its URL is, normalised, the end of an all-permanent redirect, else the one asked for |
| `Polling.Service.MoveTo` | internal/core/feed.go:170-205 | stores the resolved URL, or removes the row as a duplicate, or records an error |
| `Polling.Service.Settle` | internal/core/feed.go:170-206 | then ingests and records |
| `Polling.Service.Resolve` | internal/core/feed.go:153-207 | resolveAndIngest with its recover: one result, one ending, one charge, for every world |
| `Polling.Service.RecordPanic` | internal/core/feed.go:607-611 | a panic is one recorded error with a reschedule |
| `Polling.Service.ResolveAndIngest` | internal/core/feed.go:141-147 | for every world, panics included, its calls add exactly one result, that of the verdict, one duration, and one error exactly beside a bad result; after a good one the row is at the URL where the feed was found, and written back as the parsed feed says |
| `Polling.Service.PollUnparsed` | internal/core/feed.go:363-386 | only a feed with earlier errors is looked for behind its page; a healthy one records a parse error |
| `Polling.Service.PollAnswer` | internal/core/feed.go:344-388 | what each answer of the server leads to, by its number; only a 429 or 5xx passes its Retry-After on |
| `Polling.Service.PollFeed` | internal/core/feed.go:317-388 | for every world, panics included: the row written back shows what the feed parsed by this poll brings, after a 304 or a failure what was there, and the feed is left at the URL that redirects and discovery say; its metric calls add exactly one result, that of the verdict, one duration, and one error exactly beside a bad result, or nothing when the shutdown cancelled; one ending (row dropped, store error returned, or a next check strictly after the poll's clock and within the bounds of the adaptive interval or the backoff); the errors charged, the row dropped exactly when they stay; and a path of events that resolves cleanly if the feed was healthy or had no validators |
| `Scraping.Service.Backoff` | internal/core/scrape.go:227-239 | at least base doubled per attempt up to the cap, at most a quarter beyond the cap |
| `Scraping.Service.FailEmit` | internal/core/scrape.go:187-206 | one write, whose columns charge one attempt, failed at the cap, else due no earlier than the backoff; and the counters unless suppressed |
| `Scraping.TransientWaitHonours` | internal/core/scrape.go:216 | a host that asks for time gets it up to the cap, and the wait is never below the base |
| `Scraping.EventIsTheWrite` | internal/core/scrape.go:187-223 | the event in the shared system writes exactly the columns that the service wrote |
| `Scraping.Service.ScrapeEntry` | internal/core/scrape.go:92-172 | for every world, panics included: which result and reason, that its metric calls add them exactly once with one duration, or nothing when cancelled, and exactly which single write: for an answer that is no 200, by its number, a 429 or 5xx is tried again without a charge and anything else charged |
| `Schedule.ShiftedIsIdeal` | internal/core/reschedule.go:17-25 | for intervals up to 2^48 ns the shifted, wrapped and clamped delay is min(Interval*2^min(n,16), MaxBackoff) |
| `Schedule.ShiftedIsIdealIff` | internal/core/reschedule.go:22-25 | for every interval: exact unless the bits that survive the shift are positive and below the cap |
| `Schedule.ShiftCanCollapse` | internal/core/reschedule.go:20-25 | 2^48+1 ns and sixteen failures give 65536 ns instead of the cap |
| `Schedule.RetryDelayBounds` | internal/core/reschedule.go:15-34 | whatever Retry-After and jitter are, never at once and never later than a quarter beyond the cap, and for intervals up to 2^48 ns never before the ideal backoff |
| `Schedule.RetryDelayIs` | internal/core/reschedule.go:15-34 | exactly the ideal backoff and its jitter, for intervals up to 2^48 ns, unless a Retry-After asks for more, which it then gets up to the cap |
| `Schedule.FailuresSpread` | internal/core/reschedule.go:15-34 | k failures in a row keep the scheduled polls apart by the sum of the ideal backoffs, in the stored whole seconds |
| `Schedule.ExtractBackoff` | internal/core/scrape.go:227-239 | the loop is the specification of repeated int64 doubling, then clamped and jittered |
| `Schedule.DoublingIsIdeal` | internal/core/scrape.go:225-234 | for caps up to 2^62 ns it is min(base*2^(attempt-1), cap) for every attempt |
| `Schedule.DoublingIsIdealIff` | internal/core/scrape.go:225-234 | for every base and cap: exact unless the product leaves 64 bits, no turn reached the cap, and what survives is positive |
| `Schedule.DoublingCanCollapse` | internal/core/scrape.go:229-231 | past 2^62 it can return 4 ns |
| `Schedule.AdaptiveBounds` | internal/core/schedule.go:31-46 | between MinInterval and max(1.25*MaxInterval, 30 days), and at least min(TTL, 30 days), however floats round |
| `Schedule.AdaptiveMonotone` | internal/core/schedule.go:31-46 | without jitter a busier feed is never polled less often, under every monotone rounding of the float64 steps, wherever its quotient fits |
| `Schedule.AdaptiveMonotoneIff` | internal/core/schedule.go:36 | in every arithmetic that rounds monotonically and doubles exactly, and whatever a conversion makes of what does not fit: exactly where the rounded quotient of the quieter feed fits an int64 |
| `Schedule.AdaptiveIsQuotient` | internal/core/schedule.go:25-40 | in exact arithmetic, between its bounds, the week over count times factor, cut to a nanosecond |
| `Schedule.AdaptiveIsFloored` | internal/core/schedule.go:38-45 | jitter comes on top of it, and then a declared lifetime of up to 30 days is its floor |
| `Schedule.AdaptiveCanInvert` | internal/core/schedule.go:36 | elsewhere a feed may get MinInterval while one twice as busy gets MaxInterval |
| `Pagination.MemAgreesIff` | internal/core/coretest/memstore.go:318-329 | the in-memory list filters the same rows as the SQL on every database exactly when a filter does not ask for a category and for uncategorised at once |
| `Pagination.Sorted` | internal/store/sqlite/entries.go:241-242 | the order by key, then id, descending: each row once |
| `Pagination.SortedUnique` | internal/store/sqlite/entries.go:241-242 | that order determines the list |
| `Pagination.SortNewestFirst` | internal/core/coretest/memstore.go:335-341 | sorting puts the same rows in that order |
| `Pagination.ListEntries` | internal/store/sqlite/entries.go:184-268 | returns exactly the page, by user, feed, status, star and category and by key and id; what it leaves out was not asked for or stands past a cursor: the newest rows past the cursor up to the clamped limit, their previews, and a cursor at the last one exactly when more follow |
| `Pagination.PageIsAskedFor` | internal/store/sqlite/entries.go:184-268 | a page holds what was asked for, in order and within the limit, and leaves out nothing else above its cursor |
| `Pagination.PageCuts` | internal/store/sqlite/entries.go:223-267 | a page holds every row between its cursors and no other |
| `Pagination.WalkCovers` | internal/store/sqlite/entries.go:223-267 | pages cut at different times join to one descending list that misses no row matching throughout |
| `Pagination.WalkReturnsOnce` | internal/store/sqlite/entries.go:184-268 | followed to the end over a changing store, every row that matches throughout and keeps its key is returned exactly once |
| `Pagination.ChangingStore` | internal/store/sqlite/entries.go:184-268 | the same said of databases and entries |
| `Pagination.WalkTerminates` | internal/store/sqlite/entries.go:260-266 | pages that return a cursor are full and distinct, so there are at most as many as the rows that ever matched fill |
| `Pagination.FixedStoreListsAll` | internal/store/sqlite/entries.go:184-268 | on a fixed store the joined pages are the whole sorted, filtered list |
| `HostLimiter.HoldersWithinCap` | internal/fetch/fetch.go:106-135 | in every run of the ideal limiter at most HostConcurrency fetches of a host hold a token |
| `HostLimiter.Recount` | internal/fetch/fetch.go:113-118 | one fetch's step moves the counts of its own host only, by what it adds and takes |
| `HostLimiter.Client.Enter` | internal/fetch/fetch.go:107-114 | find or create the entry and count the reference, keeping every live reference on the one mapped hostSem |
| `HostLimiter.Client.Take` | internal/fetch/fetch.go:117 | a token is taken only below the capacity |
| `HostLimiter.Client.Drain` | internal/fetch/fetch.go:118 | a holder's own token is in the channel, so the receive never blocks |
| `HostLimiter.Client.Unref` | internal/fetch/fetch.go:128-135 | the entry evicted, if any, is the one this fetch captured |
| `HostLimiter.Client.Evict` | internal/fetch/fetch.go:131-133 | evicts exactly at zero references |
| `HostLimiter.Client.Perform` | internal/fetch/fetch.go:106-135 | each atomic step of the code's evicted and recreated map is the ideal limiter's step |
| `HostLimiter.Client.RunAll` | internal/fetch/fetch.go:106-135 | every interleaving: holders within the cap, and an empty map when nothing is in flight |
| `HostLimiter.Client.IdleIsEmpty` | internal/fetch/fetch.go:102-105 | nothing in flight, no entry |
| `HostLimiter.Client.Acquire` | internal/fetch/fetch.go:106-124 | waits through the others' steps exactly as long as the host is full or another fetch queued before it; then a token below the capacity, or, once the context is done, nothing is left behind |
| `HostLimiter.OthersKeepTicket` | internal/fetch/fetch.go:106-135 | other fetches leave a waiting fetch's reference alone |
| `HostLimiter.Client.Await` | internal/fetch/fetch.go:116-124 | the select: at every moment it waited the host was full or another fetch was ahead, and a token is granted only below the capacity |
| `HostLimiter.Client.Fetch` | internal/fetch/fetch.go:137-205 | whatever wait, request, status and body do, token and reference are given back and only the others' steps remain |
| `HostLimiter.Client.FetchStream` | internal/fetch/fetch.go:213-242 | an error leaves nothing behind; a success holds the token |
| `HostLimiter.Body.Close` | internal/fetch/fetch.go:254-261 | the first Close gives the token back, any further one changes nothing |
| `WorkerPool.StepKeepsSound` | internal/core/poller.go:57-119 | each step of dispatcher and workers keeps the pool's invariant |
| `WorkerPool.MoveKeeps` | internal/core/poller.go:87-94 | a return and a panic both run the deferred decrement, and a panic is recovered before the worker goes on |
| `WorkerPool.EveryRun` | internal/core/poller.go:57-119 | in every run, polls that return and polls that panic alike: no send on the closed channel, no panic past pollOne, the gauge is the number of workers between its two calls, each hand-over is held, being polled or polled; and once Run returned all have stopped, the gauge is 0 and each hand-over was polled exactly once |
| `WorkerPool.DispatchInOrder` | internal/core/poller.go:112-118 | at every moment of a dispatch what the workers received so far, followed by what is left, is the list of due feeds in its order |
| `WorkerPool.DispatchEnds` | internal/core/poller.go:96-119 | a dispatch hands over each listed feed exactly as often as it is listed, unless the cancellation cuts it short |
| `WorkerPool.FailuresAreLogged` | internal/core/poller.go:85-111 | each failed or panicked poll is logged once, each failed list counted once but for the cancelled one |
| `WorkerPool.ShutdownProgresses` | internal/core/poller.go:75-78 | after close every possible step brings the return nearer and some step is always possible |
| `WorkerPool.SameFeedTwice` | internal/core/poller.go:79-118 | two workers can be polling one feed at once, which is where stale copies come from |
| `Backfill.SelectBatch` | internal/store/sqlite/db.go:84-103 | the 500 lowest ids past the cursor, or all that are left, ascending |
| `Backfill.Database.UpdateBatch` | internal/store/sqlite/db.go:108-122 | one transaction sets the two text columns of exactly the rows of the batch, and no other column |
| `Backfill.Database.ProjectRows` | internal/store/sqlite/db.go:82-124 | the keyset loop ends, and updates each row at most once, in order, and all of them unless it crashed |
| `Backfill.Database.BackfillSearchText` | internal/store/sqlite/db.go:63-144 | a boot that gets to the end makes exactly the backfilled database, each row updated once; a crash after any commit leaves the flag unset; either way no column but the two texts changes, and no other table |
| `Backfill.RestartIsTransparent` | internal/store/sqlite/db.go:56-60 | starting again from what a crash left ends where an undisturbed run ends |
| `Backfill.BootIsTextual` | internal/store/sqlite/db.go:56-60 | every boot of a history, crashed or not, leaves all but the texts, the index, its trigger and the flag alone |
| `Backfill.Database.Boots` | internal/store/sqlite/db.go:56-60 | any number of crashed boots before one that ends make the same database as that one alone |
| `Backfill.BackfilledIsSound` | internal/store/sqlite/db.go:63-144 | what the backfill makes of a migrated database satisfies every invariant |
| `Backfill.FlagMeansDone` | internal/store/sqlite/db.go:126-143 | in every history of crashing boots and runs of the reader that starts at a migrated database: a set flag means a sound database, every row projected, index exact and trigger there; and a trigger that exists never deletes what the index does not hold |
| `MemStores.PrefixIsFeed` | internal/core/coretest/memstore.go:175-180 | deleting tombstone keys by prefix reaches exactly the feed's own |
| `MemStores.TkeyInjective` | internal/core/coretest/memstore.go:44 | tombstone keys are equal only for equal (feed, guid) |
| `MemStores.MemStore.EntryDedup` | internal/core/coretest/memstore.go:185-205 | its loop over all entries finds exactly the stored hash of each guid the feed has a row for |
| `MemStores.MemStore.UpsertEntries` | internal/core/coretest/memstore.go:207-268 | its loop is the item-by-item specification, and the inserted list is exact |
| `MemStores.MemStore.DeleteFeed` | internal/core/coretest/memstore.go:160-183 | its loop removes exactly the feed's entries with their schedules, and the prefix its tombstones |
| `MemStores.MemStore.SetFeedFullContent` | internal/core/coretest/memstore.go:541-567 | its loop queues or cancels exactly the backlog, the schedule kept in a map of its own included |
| `MemStores.MemStore.DeleteCategory` | internal/core/coretest/memstore.go:520-535 | its loop uncategorises exactly the category's feeds |
| `MemStores.MemStore.SetStatus` | internal/core/coretest/memstore.go:383-398 | its loop over the ids sets status and read time of exactly the user's entries among them |
| `MemStores.MemStore.MarkReadByFilter` | internal/core/coretest/memstore.go:400-434 | its loop marks exactly the user's unread entries that the selection picks |
| `Mirroring.CutsToSeconds` | internal/store/sqlite/store.go:23-46 | what the SQL stores of a time is its whole second, none for none; of a lifetime that is not positive nothing |
| `Mirroring.CreateFeedMirrorsIff` | internal/core/coretest/memstore.go:46-60 | a subscription keeps both stores in step exactly unless memory accepts a title override or a user or category that does not exist, and gets two answers exactly in the latter cases |
| `Mirroring.UpdateFeedMirrors` | internal/core/coretest/memstore.go:134-158 | so does the write-back, compare-and-swap, whole seconds and a TTL that is not positive included |
| `Mirroring.SetFeedURLMirrors` | internal/core/coretest/memstore.go:582-601 | so does a URL change, conflict included |
| `Mirroring.SetUserTitleMirrors` | internal/core/coretest/memstore.go:569-580 | so does a title override |
| `Mirroring.SetCategoryMirrorsIff` | internal/core/coretest/memstore.go:603-616 | a feed's category keeps them in step, and gets one answer, exactly unless memory accepts one that does not exist |
| `Mirroring.DeleteFeedMirrors` | internal/core/coretest/memstore.go:160-183 | so does the deletion of a feed, the SQL cascade included |
| `Mirroring.CreateCategoryMirrorsIff` | internal/core/coretest/memstore.go:459-473 | a new category keeps them in step, and gets one answer, exactly unless memory, which compares titles exactly, accepts one that differs from another of the user in case alone, or that is of a user who does not exist |
| `Mirroring.UpdateCategoryMirrorsIff` | internal/core/coretest/memstore.go:502-518 | a category's new title keeps them in step, and gets one answer, exactly unless memory accepts one that differs from another's in case alone |
| `Mirroring.DeleteCategoryMirrors` | internal/core/coretest/memstore.go:520-535 | the deletion of a category keeps them in step, its feeds uncategorised |
| `Mirroring.ToggleMirrors` | internal/core/coretest/memstore.go:541-567 | so does the full-content toggle with its backlog |
| `Mirroring.DedupMirrors` | internal/core/coretest/memstore.go:185-205 | the lookup of a poll answers the same in both |
| `Mirroring.RefreshMirrorsIff` | internal/core/coretest/memstore.go:241-252 | refreshing a row keeps them in step exactly unless the hash is new and the item another user's |
| `Mirroring.InsertMirrorsIff` | internal/core/coretest/memstore.go:255-266 | inserting a row keeps them in step exactly when the item is unread, unstarred and without counted attempts |
| `Mirroring.UpsertOneMirrorsIff` | internal/core/coretest/memstore.go:224-268 | an item of an upsert keeps them in step exactly unless it brings a new hash to the row of another user, or inserts a row that is not fresh or of a user who does not exist |
| `Mirroring.CarefulAllMirrors` | internal/core/coretest/memstore.go:207-268 | an upsert that left the rows of other users alone and inserted every item fresh would keep them in step on any batch |
| `Mirroring.UpsertMirrorsIff` | internal/core/coretest/memstore.go:207-268 | on any batch whatever, the upsert keeps them in step exactly unless it inserts an item of a user who does not exist, an error only in the SQL, or some row ends otherwise than such a careful upsert leaves it |
| `Mirroring.DistinctApartIff` | internal/core/coretest/memstore.go:224-268 | where no guid comes twice, that is exactly when some item brings a new hash to the row of another user, or inserts a row that is not fresh or of a user who does not exist |
| `Mirroring.IngestedIsCareful` | internal/core/coretest/memstore.go:207-268 | on fresh items of the user whose the feed's rows are, the upsert is that careful one |
| `Mirroring.InsertedMirror` | internal/core/coretest/memstore.go:207-268 | both insert the same items of any batch, in the same order |
| `Mirroring.DeleteEntryMirrors` | internal/core/coretest/memstore.go:447-457 | the deletion of an entry keeps both in step |
| `Mirroring.SetContentMirrors` | internal/core/coretest/memstore.go:688-705 | so does saving an article; a missing row is an error only here |
| `Mirroring.SetExtractMirrors` | internal/core/coretest/memstore.go:707-723 | so does writing the extraction columns; a missing row is an error only here |
| `Mirroring.SetStatusMirrors` | internal/core/coretest/memstore.go:383-398 | so does marking entries read or unread |
| `Mirroring.SetStarredMirrors` | internal/core/coretest/memstore.go:436-445 | so does starring |
| `Mirroring.MarkReadMirrorsIff` | internal/core/coretest/memstore.go:400-434 | marking a selection read keeps them in step exactly unless memory selects an unread entry by the category of another user's feed, which the SQL's subquery leaves out |
| `Lockstep.StepMirrorsIff` | internal/core/coretest/memstore.go:14-44 | any of the operations keeps both in step, up to ids and whole seconds, exactly unless it is one that takes them apart (a dropped title override, a missing parent, a title that differs in case alone, a careless batch, a selection by another user's feed), and its answers differ exactly where only the SQL refuses it or an extraction update misses its row |
| `Lockstep.RunMirrorsIff` | internal/core/coretest/memstore.go:14-44 | from two empty stores, after every operation of a run they show the same feeds, categories, entries, schedules and tombstones if and only if no operation of the run takes them apart |
| `Lockstep.RunAnswersIff` | internal/core/coretest/memstore.go:14-44 | and while they are in step whatever comes next gets one answer exactly unless it is one of those |
| `Lockstep.Drive` | internal/core/coretest/memstore.go:14-44 | the class itself, from new and given those operations, is one side of that run |
| `Lockstep.UserTitleTakesApart` | internal/core/coretest/memstore.go:55-57 | one subscription with a title override is enough |
| `Lockstep.MissingCategoryTakesApart` | internal/store/sqlite/migrations/0010_feeds_autoincrement.sql:34 | so is one under a category that does not exist, which only memory accepts |
| `Lockstep.CaseVariantTakesApart` | internal/store/sqlite/categories_test.go:65-74 | so are two titles that differ in case alone: the second is a conflict in the SQL and a category in memory |
| `Lockstep.RenameTakesApart` | internal/store/sqlite/categories_test.go:77-92 | and so is a rename to such a title |
| `Lockstep.NewsTwice` | internal/store/sqlite/categories_test.go:65-74 | News and news are such titles |
| `Lockstep.ForeignHitHappens` | internal/core/coretest/memstore.go:241-252 | two empty stores, one subscription and one ingested item later, a batch with an item of another user takes them apart |
| `Lockstep.IngestStaysInStep` | internal/core/feed.go:423-470 | in runs whose batches are fresh items of the feed's user, as ingest makes them, no batch and no selection takes them apart or gets two answers |
| `Lockstep.DeletedScheduleStays` | internal/core/coretest/memstore.go:447-457 | the schedule of a deleted entry stays in memory in every continuation |
| `Editing.ApplyRest` | internal/core/feed.go:663-676 | the three later writes change title, category and flag, and queue or cancel the backlog only when the flag changes |
| `Editing.EditFeed` | internal/core/feed.go:635-678 | undisturbed: refused for exactly these reasons with nothing written, a category that is not the user's included, else exactly the four fields and what they imply: a URL that is blank or, normalised, the stored one leaves URL and poll columns alone |
| `Editing.EditSurvivesOthers` | internal/core/feed.go:635-678 | with anything that leaves the feed's title, category and flag alone between its read and its four store calls (polls, scrapes, other users, other feeds, deletions), a row that is there at the end has the title, category and flag asked for |
| `Decimal.ParseFormat` | internal/core/cursor.go:23 | every int64 survives FormatInt and ParseInt |
| `Decimal.NumeralThenColon` | internal/parse/parse.go:173-174 | a numeral before a colon is read off in one way |
| `Joining.JoinFields` | internal/parse/parse.go:170-178 | the builder loop writes the length-prefixed join |
| `Joining.JoinedInjective` | internal/parse/parse.go:165-178 | lists of any length of any bytes join to the same bytes only if they are the same list |
| `Joining.EntryKeyInjective` | internal/parse/parse.go:159-163 | entry hashes have equal inputs only for equal title, content and summary |
| `Joining.GuidKeyIff` | internal/parse/parse.go:54-69 | items without a GUID share a key exactly when link and title are equal and, for items with neither, the index |
| `Cursors.SextetsRoundTrip` | internal/core/cursor.go:22-32 | bytes survive the grouping into sextets |
| `Cursors.SpellRoundTrip` | internal/core/cursor.go:22-32 | sextets survive the alphabet |
| `Cursors.DecodeCursor` | internal/core/cursor.go:28-43 | total, and whatever it accepts is two int64 |
| `Cursors.CursorRoundTrip` | internal/core/cursor.go:22-43 | every cursor of two int64, negatives included, is read back as it was written |
| `Cursors.CursorIsUrlSafe` | internal/core/cursor.go:24 | only letters of the URL alphabet, no padding |
| `Cursors.CursorsDiffer` | internal/core/cursor.go:20-25 | different cursors have different texts |
| `Search.FieldsOfWord` | internal/store/sqlite/search.go:19 | a word without spaces is its own only token |
| `Search.FieldsSplitAtSpace` | internal/store/sqlite/search.go:19 | a space separates; with the former this determines the tokens |
| `Search.IndexableIff` | internal/store/sqlite/search.go:20-22 | the tokens kept are those that hold a letter or digit |
| `Search.BuildMatch` | internal/store/sqlite/search.go:17-30 | a lexer for quoted strings reads the output back as exactly the indexable tokens, in order, with only spaces and one final star outside quotes; empty when there is none |
| `Search.BodyReadsBack` | internal/store/sqlite/search.go:23 | doubling the quotes inside a phrase is undone by the lexer |
| `Search.LexReadsBack` | internal/store/sqlite/search.go:23-29 | the joined phrases read back in order |

## Left out

- HTTP, TLS, dialling, feed and HTML parsing, readability and sanitising: their results are
  parameters (`World`), `PlainText` is a function `plain`, the address guard is not modelled.
- URL normalisation, `TrimSpace` and `httpURL`: functions `canon`, `trim`, `isHttp`; of
  normalisation only idempotence is used. Host keys of the limiter are given strings.
- Store errors (disk, lock, cancelled context) in the shared system: an operation that fails
  that way is an event that does not happen; in the pipelines they are answers of the `World`.
- Goroutines, mutexes and channels themselves: each critical section and channel operation is
  one atomic step; the limiter's steps are methods on its class, the pool's are a state machine
  on values, because its dispatcher and workers have no object of their own.
- Whether Go's select ever takes a ready branch, and hence how long a cancelled dispatcher may
  go on ticking.
- SetStatus, SetStarred and MarkReadByFilter in the shared system: one event `Mark` with an
  arbitrary change of the reader columns of arbitrary rows of one user.
- Reuse of entry and category ids by SQLite after the highest row is deleted: ids are fresh.
- The users table: a set of ids that nothing changes.
- Counts, settings, OPML, the due and pending queries, lists of categories, the search query
  itself and its ranking.
- The deletion time of tombstones and the text of log and error messages; the order in which
  map iterations and cascades visit rows is arbitrary.
- Floating point: float64 is a rounding function on reals, monotone and keeping zero, and a
  conversion that cuts what fits 64 bits; which value it rounds to, and what Go makes of a
  quotient that does not fit, is left open. Infinities are not values of it. Weekly counts are
  unbounded integers.
- Unicode: a Go string is a sequence of characters where the code works on runes (search, list
  previews) and of bytes where it works on bytes (join, cursor). What counts as space, letter or
  digit is a parameter. SHA-256 itself is not part of this model.
- Aliasing of the entries that the in-memory UpsertEntries returns with the ones it stores.
- The in-memory store's list sorting is compared with the SQL through one model of paging; its
  search and settings, the number of entries that MarkReadByFilter reports, and the staging
  of entries by tests are not modelled.
- Category titles with a NUL character, which SQLite's NOCASE compares only up to there.
- The changes that migrations make to existing rows, but for the backfill: folding categories
  whose titles differ in case, and rebuilding the feeds table.
- Schedule.DoublingIsIdeal: only for caps up to 2^62 ns; DoublingIsIdealIff covers every cap.
- Schedule.ShiftedIsIdeal: only for intervals up to 2^48 ns; ShiftedIsIdealIff covers every one.
- Schedule.FailuresSpread: in whole stored seconds, since next_check_at drops the nanoseconds,
  and for intervals up to 2^48 ns.
- Schedule.AdaptiveMonotone: where the quotient of the smaller count fits a 64-bit duration;
  AdaptiveMonotoneIff says that this is needed.
- Schedule.AdaptiveMonotoneIff: where no step leaves the range of normal float64 numbers, so that
  doubling is exact and what is positive stays positive.
- Polling.Service.PollFeed: for a clock that does not go backwards, jitter between nothing and a
  quarter, and caps up to 2^62 ns; metrics calls do not panic.
- Scraping.Service.ScrapeEntry: for a base and cap as in DoublingIsIdeal and the same clock.
- Validators.RunFaithful: for runs whose resolves carry no validators to another URL, see above.
- Attempts.CleanAttemptsFaithful: its attempts' writes all reach the store (an operation that
  fails is no event), and each attempt has a poll id of its own.
- ExtractionRuns.RunCounts: for runs in which nothing assigns the attempt column between a
  scrape's read and its write; EveryRunIsSound bounds the attempts in all runs.
- Editing.EditFeed: for a caller that nothing disturbs, although its up to four store calls are
  separate transactions. EditSurvivesOthers lets everyone else run between them; two edits of
  the same feed at once, or the deletion of the category asked for, may mix.
- HostLimiter.Client.Acquire: that a queued fetch is served in the end; which fetch of a queue
  is served first is a parameter.
- Backfill.Database.BackfillSearchText: for row ids from 1 on, which SQLite hands out.
- Pagination.WalkReturnsOnce: an entry whose key changes between pages may be listed at both
  places; the theorem is about rows that keep their key.
