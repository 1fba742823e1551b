/** The extraction life of one entry under overlapping scrapes, stale polls and
    toggles: scraped content is kept, and failures are counted exactly. */
module ExtractionRuns {
  import opened Rows
  import opened Sql
  import opened System
  import opened Safety

  // ---- scraped content is kept ---------------------------------------------

  ghost predicate HoldsArticle(db: Db, i: Id, content: string) {
    i in db.entries && db.entries[i].extraction.state.ExtractDone? && db.entries[i].content == content
  }

  /** The event is a failed scrape of `i` by an actor that read the row while it
      was still pending. */
  predicate IsLateFailure(s: System, ev: Event, i: Id) {
    (ev.ScrapeFail? || ev.ScrapeRetry?) && ev.s in s.scrapes && s.scrapes[ev.s].entryId == i
  }

  /** An upsert leaves the extraction columns of existing rows alone, and the
      article of extracted ones; new rows start with no attempts. */
  ghost predicate RowsKept(a: Db, b: Db) {
    && a.nextEntry <= b.nextEntry
    && (forall i | i in b.entries :: i < b.nextEntry)
    && (forall i | i in a.entries ::
          && i in b.entries && b.entries[i].extraction == a.entries[i].extraction
          && (a.entries[i].extraction.state.ExtractDone? ==> b.entries[i].content == a.entries[i].content))
    && (forall i | i in b.entries && i !in a.entries ::
          a.nextEntry <= i && b.entries[i].extraction.attempts == 0)
  }

  lemma RefreshKeepsRows(plain: string -> string, db: Db, id: Id, n: NewEntry)
    requires id in db.entries && forall i | i in db.entries :: i < db.nextEntry
    ensures RowsKept(db, RefreshRow(plain, db, id, n))
  {
  }

  lemma InsertKeepsRows(plain: string -> string, db: Db, feedId: Id, full: bool, n: NewEntry)
    requires forall i | i in db.entries :: i < db.nextEntry
    ensures RowsKept(db, InsertRow(plain, db, feedId, full, n))
  {
  }

  lemma UpsertOneKeepsRows(plain: string -> string, db: Db, feedId: Id, full: bool, n: NewEntry)
    requires forall i | i in db.entries :: i < db.nextEntry
    ensures RowsKept(db, UpsertOne(plain, db, feedId, full, n))
  {
    if (feedId, n.guid) !in db.tombstones {
      match FindByGuid(db.entries, feedId, n.guid)
      case Some(id) => RefreshKeepsRows(plain, db, id, n);
      case None => InsertKeepsRows(plain, db, feedId, full, n);
    }
  }

  lemma {:induction false} UpsertAllKeepsRows(plain: string -> string, db: Db, feedId: Id, full: bool, batch: seq<NewEntry>)
    requires forall i | i in db.entries :: i < db.nextEntry
    ensures RowsKept(db, UpsertAll(plain, db, feedId, full, batch))
  {
    if batch != [] {
      UpsertAllKeepsRows(plain, db, feedId, full, batch[..|batch| - 1]);
      UpsertOneKeepsRows(plain, UpsertAll(plain, db, feedId, full, batch[..|batch| - 1]), feedId, full, batch[|batch| - 1]);
    }
  }

  /** No step changes the article of an extracted entry except deleting the entry;
      exactly a failed overlapping scrape moves it out of 'done', and even then
      the article stays until a later step. */
  lemma StepKeepsArticle(cfg: Config, s: System, ev: Event, i: Id, content: string)
    requires SystemSound(cfg, s) && HoldsArticle(s.db, i, content)
    ensures var db := Step(cfg, s, ev).db;
            && (i in db.entries ==> db.entries[i].content == content)
            && (i in db.entries ==> (!db.entries[i].extraction.state.ExtractDone? <==> IsLateFailure(s, ev, i)))
            && (IsLateFailure(s, ev, i) ==> i in db.entries)
  {
    hide PollStep, ScrapeStep, UserStep;
    if IsPollEvent(ev) {
      PollStepKeepsArticle(cfg, s, ev, i, content);
    } else if IsScrapeEvent(ev) {
      ScrapeStepMovesArticle(cfg, s, ev, i, content);
    } else {
      UserStepKeepsArticle(cfg, s, ev, i, content);
    }
  }

  lemma UserStepKeepsArticle(cfg: Config, s: System, ev: Event, i: Id, content: string)
    requires HoldsArticle(s.db, i, content)
    ensures i in UserStep(cfg, s, ev).db.entries ==> HoldsArticle(UserStep(cfg, s, ev).db, i, content)
  {
  }

  lemma ScrapeStepMovesArticle(cfg: Config, s: System, ev: Event, i: Id, content: string)
    requires HoldsArticle(s.db, i, content)
    ensures var db := ScrapeStep(cfg, s, ev).db;
            && i in db.entries && db.entries[i].content == content
            && (!db.entries[i].extraction.state.ExtractDone? <==> IsLateFailure(s, ev, i))
  {
    if ev.ScrapeFail? && ev.s in s.scrapes {
      ScrapeFailMovesArticle(cfg, s, ev.s, ev.nextAt, ev.error, i);
    }
  }

  lemma ScrapeFailMovesArticle(cfg: Config, s: System, a: nat, nextAt: int, error: string, i: Id)
    requires i in s.db.entries && s.db.entries[i].extraction.state.ExtractDone? && a in s.scrapes
    ensures var db := ScrapeStep(cfg, s, ScrapeFail(a, nextAt, error)).db;
            && i in db.entries && db.entries[i].content == s.db.entries[i].content
            && (!db.entries[i].extraction.state.ExtractDone? <==> s.scrapes[a].entryId == i)
  {
  }

  lemma IngestKeepsArticle(plain: string -> string, db: Db, feedId: Id, batch: seq<NewEntry>, i: Id, content: string)
    requires HoldsArticle(db, i, content) && forall k | k in db.entries :: k < db.nextEntry
    ensures HoldsArticle(Upsert(plain, db, feedId, batch).0, i, content)
  {
    if feedId in db.feeds {
      UpsertAllKeepsRows(plain, db, feedId, db.feeds[feedId].fullContent, batch);
    }
  }

  lemma PollStepKeepsArticle(cfg: Config, s: System, ev: Event, i: Id, content: string)
    requires SystemSound(cfg, s) && HoldsArticle(s.db, i, content)
    ensures i in PollStep(cfg, s, ev).db.entries ==> HoldsArticle(PollStep(cfg, s, ev).db, i, content)
  {
    if ev.PollIngest? {
      if ev.p in s.polls {
        IngestKeepsArticle(cfg.plain, s.db, s.polls[ev.p].feedId, ev.batch, i, content);
      }
    } else {
      OtherPollStepKeepsEntries(cfg, s, ev);
    }
  }

  lemma OtherPollStepKeepsEntries(cfg: Config, s: System, ev: Event)
    requires !ev.PollIngest?
    ensures forall i | i in PollStep(cfg, s, ev).db.entries :: i in s.db.entries && PollStep(cfg, s, ev).db.entries[i] == s.db.entries[i]
  {
  }

  /** Before event `k` the entry lives, and the event is a late failure of it. */
  ghost predicate LateAt(cfg: Config, s: System, evs: seq<Event>, i: Id, k: nat)
    requires k < |evs|
  {
    i in Run(cfg, s, evs[..k]).db.entries && IsLateFailure(Run(cfg, s, evs[..k]), evs[k], i)
  }

  /** After `k` events the entry, if it lives, holds its article. */
  ghost predicate HeldAt(cfg: Config, s: System, evs: seq<Event>, i: Id, content: string, k: nat)
    requires k <= |evs|
  {
    i in Run(cfg, s, evs[..k]).db.entries ==> HoldsArticle(Run(cfg, s, evs[..k]).db, i, content)
  }

  /** No failed scrape of it is late while the entry lives. */
  ghost predicate NoLateFailure(cfg: Config, s: System, evs: seq<Event>, i: Id) {
    forall k {:trigger LateAt(cfg, s, evs, i, k)} | 0 <= k < |evs| :: !LateAt(cfg, s, evs, i, k)
  }

  /** At every moment of the run at which the entry lives, it holds its article. */
  ghost predicate HeldThroughout(cfg: Config, s: System, evs: seq<Event>, i: Id, content: string) {
    forall k {:trigger HeldAt(cfg, s, evs, i, content, k)} | 0 <= k <= |evs| :: HeldAt(cfg, s, evs, i, content, k)
  }

  /** A moment of the run without its last event. */
  lemma FrontAt(cfg: Config, s: System, evs: seq<Event>, i: Id, content: string, k: nat)
    requires k < |evs|
    ensures var front := evs[..|evs| - 1];
            && (k < |front| ==> LateAt(cfg, s, front, i, k) == LateAt(cfg, s, evs, i, k))
            && HeldAt(cfg, s, front, i, content, k) == HeldAt(cfg, s, evs, i, content, k)
  {
    assert evs[..|evs| - 1][..k] == evs[..k];
  }

  lemma FrontOf(cfg: Config, s: System, evs: seq<Event>, i: Id, content: string)
    requires evs != []
    ensures var front := evs[..|evs| - 1];
            && (NoLateFailure(cfg, s, evs, i) <==> NoLateFailure(cfg, s, front, i) && !LateAt(cfg, s, evs, i, |front|))
            && (HeldThroughout(cfg, s, evs, i, content) <==>
                  HeldThroughout(cfg, s, front, i, content) && HeldAt(cfg, s, evs, i, content, |evs|))
  {
    hide LateAt, HeldAt;
    var front := evs[..|evs| - 1];
    forall k: nat | k < |evs|
      ensures k < |front| ==> LateAt(cfg, s, front, i, k) == LateAt(cfg, s, evs, i, k)
      ensures HeldAt(cfg, s, front, i, content, k) == HeldAt(cfg, s, evs, i, content, k)
    {
      FrontAt(cfg, s, evs, i, content, k);
    }
  }

  /** Exactly: an extracted entry holds its article at every moment that it lives,
      whatever polls, toggles and other scrapes do, if and only if no failed scrape
      of it comes late while it lives. */
  lemma {:induction false} ArticleSurvives(cfg: Config, s: System, evs: seq<Event>, i: Id, content: string)
    requires SystemSound(cfg, s) && GoodConfig(cfg) && HoldsArticle(s.db, i, content)
    ensures HeldThroughout(cfg, s, evs, i, content) <==> NoLateFailure(cfg, s, evs, i)
  {
    if evs == [] {
      assert evs[..0] == [];
      assert HeldAt(cfg, s, evs, i, content, 0);
    } else {
      var front := evs[..|evs| - 1];
      FrontOf(cfg, s, evs, i, content);
      ArticleSurvives(cfg, s, front, i, content);
      if HeldThroughout(cfg, s, front, i, content) {
        assert HeldAt(cfg, s, front, i, content, |front|);
        LastEventKeepsArticle(cfg, s, evs, i, content);
      }
    }
  }

  lemma LastEventKeepsArticle(cfg: Config, s: System, evs: seq<Event>, i: Id, content: string)
    requires SystemSound(cfg, s) && GoodConfig(cfg) && HoldsArticle(s.db, i, content) && evs != []
    requires HeldAt(cfg, s, evs[..|evs| - 1], i, content, |evs| - 1)
    ensures HeldAt(cfg, s, evs, i, content, |evs|) <==> !LateAt(cfg, s, evs, i, |evs| - 1)
  {
    var front, ev := evs[..|evs| - 1], evs[|evs| - 1];
    var mid := Run(cfg, s, front);
    assert front[..|front|] == front && evs[..|evs|] == evs;
    RunKeepsSound(cfg, s, front);
    RunKeepsNextEntry(cfg, s, front);
    StepKeepsIdentity(cfg, mid, ev);
    if i in mid.db.entries {
      StepKeepsArticle(cfg, mid, ev, i, content);
    }
  }

  lemma {:induction false} RunKeepsNextEntry(cfg: Config, s: System, evs: seq<Event>)
    ensures s.db.nextEntry <= Run(cfg, s, evs).db.nextEntry
  {
    if evs != [] {
      RunKeepsNextEntry(cfg, s, evs[..|evs| - 1]);
      StepKeepsIdentity(cfg, Run(cfg, s, evs[..|evs| - 1]), evs[|evs| - 1]);
    }
  }

  /** The premise is needed: from any state with a pending entry, two overlapping
      scrapes can take it from 'pending' to 'done' and out of 'done' again. */
  lemma OverlapUndoesExtraction(cfg: Config, s: System, i: Id, content: string, nextAt: int, error: string)
    requires i in s.db.entries && s.db.entries[i].extraction.state.ExtractPending?
    ensures var read := Step(cfg, Step(cfg, s, ScrapeRead(0, i)), ScrapeRead(1, i));
            var saved := Step(cfg, read, ScrapeSave(0, content));
            var failed := Step(cfg, saved, ScrapeFail(1, nextAt, error));
            && HoldsArticle(saved.db, i, content)
            && i in failed.db.entries && !failed.db.entries[i].extraction.state.ExtractDone?
  {
    hide PollStep, UserStep;
    BothRead(cfg, s, i);
    var read := Step(cfg, Step(cfg, s, ScrapeRead(0, i)), ScrapeRead(1, i));
    var saved := Step(cfg, read, ScrapeSave(0, content));
    assert HoldsArticle(saved.db, i, content) && saved.scrapes == read.scrapes;
    ScrapeFailMovesArticle(cfg, saved, 1, nextAt, error, i);
  }

  lemma BothRead(cfg: Config, s: System, i: Id)
    requires i in s.db.entries && s.db.entries[i].extraction.state.ExtractPending?
    ensures var read := Step(cfg, Step(cfg, s, ScrapeRead(0, i)), ScrapeRead(1, i));
            && read.db == s.db && 0 in read.scrapes && 1 in read.scrapes
            && read.scrapes[0].entryId == i && read.scrapes[1].entryId == i
  {
  }

  // ---- failures are counted ------------------------------------------------

  /** The attempt column equals the counted failures since the entry was queued,
      and a scrape whose copy is current knows that number. */
  ghost predicate AttemptsCounted(s: System) {
    && (forall i | i in s.tallies :: i < s.db.nextEntry)
    && (forall i | i in s.db.entries :: s.db.entries[i].extraction.attempts == TallyOf(s.tallies, i).failures)
    && (forall a | a in s.scrapes :: ScrapeCurrent(s, s.scrapes[a]))
  }

  ghost predicate ScrapeCurrent(s: System, a: Scrape) {
    && a.entryId < s.db.nextEntry
    && (a.entryId in s.db.entries ==>
          && a.seen <= TallyOf(s.tallies, a.entryId).writes
          && (a.seen == TallyOf(s.tallies, a.entryId).writes ==> a.attempts == TallyOf(s.tallies, a.entryId).failures))
  }

  /** No one assigned the row's attempt column between this scrape's read and its
      write: no other scrape of the entry overlapped it, nor a re-queueing. */
  ghost predicate Undisturbed(s: System, ev: Event) {
    (ev.ScrapeFail? || ev.ScrapeRetry?) && ev.s in s.scrapes && s.scrapes[ev.s].entryId in s.db.entries
    ==> s.scrapes[ev.s].seen == TallyOf(s.tallies, s.scrapes[ev.s].entryId).writes
  }

  ghost predicate RunUndisturbed(cfg: Config, s: System, evs: seq<Event>) {
    forall k | 0 <= k < |evs| :: Undisturbed(Run(cfg, s, evs[..k]), evs[k])
  }

  lemma ToggleTallied(cfg: Config, s: System, u: Id, feedId: Id, on: bool, now: int, i: Id)
    requires i in s.db.entries && s.db.entries[i].extraction.attempts == TallyOf(s.tallies, i).failures
    ensures var s' := UserStep(cfg, s, Toggle(u, feedId, on, now));
            && i in s'.db.entries && s'.db.entries[i].extraction.attempts == TallyOf(s'.tallies, i).failures
            && (TallyOf(s'.tallies, i) == TallyOf(s.tallies, i) || TallyOf(s'.tallies, i).writes == TallyOf(s.tallies, i).writes + 1)
  {
  }

  lemma ToggleCounts(cfg: Config, s: System, u: Id, feedId: Id, on: bool, now: int)
    requires SystemSound(cfg, s) && AttemptsCounted(s)
    ensures AttemptsCounted(UserStep(cfg, s, Toggle(u, feedId, on, now)))
  {
    var s' := UserStep(cfg, s, Toggle(u, feedId, on, now));
    forall i | i in s.db.entries
      ensures s'.db.entries[i].extraction.attempts == TallyOf(s'.tallies, i).failures
      ensures TallyOf(s'.tallies, i) == TallyOf(s.tallies, i) || TallyOf(s'.tallies, i).writes == TallyOf(s.tallies, i).writes + 1
    {
      ToggleTallied(cfg, s, u, feedId, on, now, i);
    }
    forall a | a in s'.scrapes ensures ScrapeCurrent(s', s'.scrapes[a]) {
      assert ScrapeCurrent(s, s.scrapes[a]);
    }
  }

  lemma OtherUserStepKeepsColumns(cfg: Config, s: System, ev: Event)
    requires !ev.Toggle?
    ensures var s' := UserStep(cfg, s, ev);
            && s'.tallies == s.tallies && s'.scrapes == s.scrapes && s'.db.nextEntry == s.db.nextEntry
            && forall i | i in s'.db.entries :: i in s.db.entries && s'.db.entries[i].extraction == s.db.entries[i].extraction
  {
    hide UrlTaken, TitleTaken, FtsDelete, FtsDeleteAll, EntriesOf;
  }

  /** Steps that only remove rows or leave every attempt column alone. */
  lemma OtherUserStepCounts(cfg: Config, s: System, ev: Event)
    requires SystemSound(cfg, s) && AttemptsCounted(s) && !ev.Toggle?
    ensures AttemptsCounted(UserStep(cfg, s, ev))
  {
    var s' := UserStep(cfg, s, ev);
    OtherUserStepKeepsColumns(cfg, s, ev);
    forall a | a in s'.scrapes ensures ScrapeCurrent(s', s'.scrapes[a]) {
      assert ScrapeCurrent(s, s.scrapes[a]);
    }
  }

  lemma PollStepCounts(cfg: Config, s: System, ev: Event)
    requires SystemSound(cfg, s) && AttemptsCounted(s)
    ensures AttemptsCounted(PollStep(cfg, s, ev))
  {
    if ev.PollIngest? && ev.p in s.polls && s.polls[ev.p].feedId in s.db.feeds {
      var feedId := s.polls[ev.p].feedId;
      var db := UpsertAll(cfg.plain, s.db, feedId, s.db.feeds[feedId].fullContent, ev.batch);
      UpsertAllKeepsRows(cfg.plain, s.db, feedId, s.db.feeds[feedId].fullContent, ev.batch);
      GrowingRowsCount(s, db);
    }
  }

  lemma GrowingRowsCount(s: System, db: Db)
    requires AttemptsCounted(s) && RowsKept(s.db, db)
    ensures AttemptsCounted(s.(db := db))
  {
    forall a | a in s.scrapes ensures ScrapeCurrent(s.(db := db), s.scrapes[a]) {
      assert ScrapeCurrent(s, s.scrapes[a]);
    }
  }

  lemma ScrapeStepCounts(cfg: Config, s: System, ev: Event)
    requires SystemSound(cfg, s) && AttemptsCounted(s) && Undisturbed(s, ev)
    ensures AttemptsCounted(ScrapeStep(cfg, s, ev))
  {
  }

  lemma StepCounts(cfg: Config, s: System, ev: Event)
    requires SystemSound(cfg, s) && AttemptsCounted(s) && Undisturbed(s, ev)
    ensures AttemptsCounted(Step(cfg, s, ev))
  {
    if IsPollEvent(ev) {
      PollStepCounts(cfg, s, ev);
    } else if IsScrapeEvent(ev) {
      ScrapeStepCounts(cfg, s, ev);
    } else if ev.Toggle? {
      ToggleCounts(cfg, s, ev.userId, ev.feedId, ev.on, ev.now);
    } else {
      OtherUserStepCounts(cfg, s, ev);
    }
  }

  lemma {:induction false} RunCounts(cfg: Config, s: System, evs: seq<Event>)
    requires SystemSound(cfg, s) && GoodConfig(cfg) && AttemptsCounted(s) && RunUndisturbed(cfg, s, evs)
    ensures AttemptsCounted(Run(cfg, s, evs))
  {
    if evs != [] {
      var front := evs[..|evs| - 1];
      forall k | 0 <= k < |front| ensures Undisturbed(Run(cfg, s, front[..k]), front[k]) {
        assert front[..k] == evs[..k];
      }
      RunCounts(cfg, s, front);
      RunKeepsSound(cfg, s, front);
      StepCounts(cfg, Run(cfg, s, front), evs[|evs| - 1]);
    }
  }

  /** Main theorem on attempts: in every run in which nothing re-queues an entry and no
      other scrape writes its attempts between a scrape's read and its write, an entry
      has been charged exactly its counted failures, never more than MaxAttempts,
      and is out of 'pending' once it has MaxAttempts of them. */
  lemma PendingEndsAtCap(cfg: Config, evs: seq<Event>, i: Id)
    requires GoodConfig(cfg) && RunUndisturbed(cfg, Initial(cfg), evs)
    requires i in Run(cfg, Initial(cfg), evs).db.entries
    ensures var s := Run(cfg, Initial(cfg), evs); var n := TallyOf(s.tallies, i).failures;
            && n <= cfg.max
            && s.db.entries[i].extraction.attempts == n
            && (n == cfg.max ==> !s.db.entries[i].extraction.state.ExtractPending?)
  {
    EveryRunIsSound(cfg, []);
    EveryRunIsSound(cfg, evs);
    RunCounts(cfg, Initial(cfg), evs);
  }

  /** One counted failure adds one and is terminal exactly at the cap; a deferred
      429 or 5xx adds nothing and leaves the entry pending. */
  lemma FailureCharges(cfg: Config, s: System, a: nat, nextAt: int, error: string)
    requires SystemSound(cfg, s) && AttemptsCounted(s)
    requires a in s.scrapes && s.scrapes[a].entryId in s.db.entries
    requires Undisturbed(s, ScrapeFail(a, nextAt, error)) && Undisturbed(s, ScrapeRetry(a, nextAt, error))
    ensures var i := s.scrapes[a].entryId;
            var before := s.db.entries[i].extraction;
            var failed := Step(cfg, s, ScrapeFail(a, nextAt, error)).db.entries[i].extraction;
            var retried := Step(cfg, s, ScrapeRetry(a, nextAt, error)).db.entries[i].extraction;
            && failed.attempts == before.attempts + 1
            && (failed.state.ExtractFailed? <==> failed.attempts == cfg.max)
            && (failed.state.ExtractPending? <==> failed.attempts < cfg.max)
            && retried.attempts == before.attempts && retried.state.ExtractPending?
  {
    hide PollStep, UserStep;
    assert ScrapeCurrent(s, s.scrapes[a]);
  }
}
