/** What holds in every run, whatever the interleaving of stale actors. */
module Safety {
  import opened Rows
  import opened Sql
  import opened Invariants
  import opened System

  // ---- the inductive invariant ---------------------------------------------

  /** A deletion's copy of (feed, guid) still describes the row, if it is there. */
  ghost predicate DeletionsCurrent(s: System) {
    forall d | d in s.deletions ::
      var x := s.deletions[d];
      && x.entryId < s.db.nextEntry
      && (x.entryId in s.db.entries ==> s.db.entries[x.entryId].feedId == x.feedId && s.db.entries[x.entryId].guid == x.guid)
  }

  /** A scrape's copy of the attempt count was below the cap when it was read. */
  ghost predicate ScrapesBelowCap(s: System, max: nat) {
    forall a | a in s.scrapes :: 0 <= s.scrapes[a].attempts < max
  }

  ghost predicate SystemSound(cfg: Config, s: System) {
    Sound(cfg.plain, cfg.max, s.db) && DeletionsCurrent(s) && ScrapesBelowCap(s, cfg.max)
  }

  /** Rows keep their identity: a surviving row still has its feed and guid. */
  ghost predicate IdentityKept(a: Db, b: Db) {
    && a.nextEntry <= b.nextEntry && a.nextFeed <= b.nextFeed
    && (forall i | i in b.entries && i < a.nextEntry ::
          i in a.entries && a.entries[i].feedId == b.entries[i].feedId && a.entries[i].guid == b.entries[i].guid)
    && (forall i | i in b.feeds && i < a.nextFeed :: i in a.feeds)
  }

  lemma UpsertOneKeepsIdentity(plain: string -> string, db: Db, feedId: Id, full: bool, n: NewEntry)
    ensures IdentityKept(db, UpsertOne(plain, db, feedId, full, n))
    ensures UpsertOne(plain, db, feedId, full, n).feeds == db.feeds
  {
    hide RefreshRow, InsertRow;
    if (feedId, n.guid) !in db.tombstones {
      match FindByGuid(db.entries, feedId, n.guid)
      case Some(id) => RefreshKeepsIdentity(plain, db, id, n);
      case None => InsertKeepsIdentity(plain, db, feedId, full, n);
    }
  }

  lemma RefreshKeepsIdentity(plain: string -> string, db: Db, id: Id, n: NewEntry)
    requires id in db.entries
    ensures IdentityKept(db, RefreshRow(plain, db, id, n)) && RefreshRow(plain, db, id, n).feeds == db.feeds
  {
  }

  lemma InsertKeepsIdentity(plain: string -> string, db: Db, feedId: Id, full: bool, n: NewEntry)
    ensures IdentityKept(db, InsertRow(plain, db, feedId, full, n)) && InsertRow(plain, db, feedId, full, n).feeds == db.feeds
  {
  }

  lemma {:induction false} UpsertAllKeepsIdentity(plain: string -> string, db: Db, feedId: Id, full: bool, batch: seq<NewEntry>)
    ensures IdentityKept(db, UpsertAll(plain, db, feedId, full, batch))
    ensures UpsertAll(plain, db, feedId, full, batch).feeds == db.feeds
  {
    hide UpsertOne;
    if batch != [] {
      UpsertAllKeepsIdentity(plain, db, feedId, full, batch[..|batch| - 1]);
      UpsertOneKeepsIdentity(plain, UpsertAll(plain, db, feedId, full, batch[..|batch| - 1]), feedId, full, batch[|batch| - 1]);
    }
  }

  lemma PollStepKeepsIdentity(cfg: Config, s: System, ev: Event)
    ensures IdentityKept(s.db, PollStep(cfg, s, ev).db)
  {
    if ev.PollIngest? && ev.p in s.polls && s.polls[ev.p].feedId in s.db.feeds {
      var feedId := s.polls[ev.p].feedId;
      UpsertAllKeepsIdentity(cfg.plain, s.db, feedId, s.db.feeds[feedId].fullContent, ev.batch);
    }
  }

  lemma ScrapeStepKeepsIdentity(cfg: Config, s: System, ev: Event)
    ensures IdentityKept(s.db, ScrapeStep(cfg, s, ev).db)
  {
  }

  predicate IsFeedEdit(ev: Event) {
    ev.Subscribe? || ev.EditURL? || ev.EditTitle? || ev.EditCategory? || ev.Toggle? || ev.Unsubscribe?
  }

  lemma FeedEditKeepsIdentity(cfg: Config, s: System, ev: Event)
    requires IsFeedEdit(ev)
    ensures IdentityKept(s.db, UserStep(cfg, s, ev).db)
  {
  }

  lemma OtherUserStepKeepsIdentity(cfg: Config, s: System, ev: Event)
    requires !IsFeedEdit(ev)
    ensures IdentityKept(s.db, UserStep(cfg, s, ev).db)
  {
  }

  lemma UserStepKeepsIdentity(cfg: Config, s: System, ev: Event)
    ensures IdentityKept(s.db, UserStep(cfg, s, ev).db)
  {
    hide UserStep;
    if IsFeedEdit(ev) {
      FeedEditKeepsIdentity(cfg, s, ev);
    } else {
      OtherUserStepKeepsIdentity(cfg, s, ev);
    }
  }

  lemma StepKeepsIdentity(cfg: Config, s: System, ev: Event)
    ensures IdentityKept(s.db, Step(cfg, s, ev).db)
  {
    hide PollStep, ScrapeStep, UserStep;
    PollStepKeepsIdentity(cfg, s, ev);
    ScrapeStepKeepsIdentity(cfg, s, ev);
    UserStepKeepsIdentity(cfg, s, ev);
  }

  lemma FeedEditKeepsDb(cfg: Config, s: System, ev: Event)
    requires Sound(cfg.plain, cfg.max, s.db) && GoodConfig(cfg) && IsFeedEdit(ev)
    ensures Sound(cfg.plain, cfg.max, UserStep(cfg, s, ev).db)
  {
    hide Sound;
    match ev
    case Subscribe(u, url, title, cat, full, now, next) =>
      CreateFeedKeepsSound(cfg.plain, cfg.max, s.db, NewFeed(u, url, title, cat, full, now, next));
    case EditURL(u, id, url, now) => SetFeedURLKeepsSound(cfg.plain, cfg.max, s.db, u, id, url, now);
    case EditTitle(u, id, title) => SetUserTitleKeepsSound(cfg.plain, cfg.max, s.db, u, id, title);
    case EditCategory(u, id, cat) => SetCategoryKeepsSound(cfg.plain, cfg.max, s.db, u, id, cat);
    case Toggle(u, id, on, now) => SetFullContentKeepsSound(cfg.plain, cfg.max, s.db, u, id, on, now);
    case Unsubscribe(u, id) => DeleteFeedKeepsSound(cfg.plain, cfg.max, s.db, u, id);
  }

  lemma OtherUserStepKeepsDb(cfg: Config, s: System, ev: Event)
    requires Sound(cfg.plain, cfg.max, s.db) && DeletionsCurrent(s) && !IsFeedEdit(ev)
    ensures Sound(cfg.plain, cfg.max, UserStep(cfg, s, ev).db)
  {
    hide Sound;
    match ev
    case AddCategory(u, title) => CreateCategoryKeepsSound(cfg.plain, cfg.max, s.db, u, title);
    case RenameCategory(u, c, title) => UpdateCategoryKeepsSound(cfg.plain, cfg.max, s.db, u, c, title);
    case DropCategory(u, c) => DeleteCategoryKeepsSound(cfg.plain, cfg.max, s.db, u, c);
    case Mark(ids, u, change) => SetReaderKeepsSound(cfg.plain, cfg.max, s.db, ids, u, change);
    case DeleteCommit(d) =>
      if d in s.deletions {
        var x := s.deletions[d];
        DeleteEntryKeepsSound(cfg.plain, cfg.max, s.db, x.userId, x.entryId, x.feedId, x.guid);
      }
    case _ =>
  }

  lemma UserStepKeepsDb(cfg: Config, s: System, ev: Event)
    requires SystemSound(cfg, s) && GoodConfig(cfg)
    ensures Sound(cfg.plain, cfg.max, UserStep(cfg, s, ev).db)
  {
    hide UserStep;
    if IsFeedEdit(ev) {
      FeedEditKeepsDb(cfg, s, ev);
    } else {
      OtherUserStepKeepsDb(cfg, s, ev);
    }
  }

  lemma WriteBackKeepsSound(cfg: Config, db: Db, p: Poll, written: PollState)
    requires Sound(cfg.plain, cfg.max, db)
    ensures Sound(cfg.plain, cfg.max, WriteBack(db, p, written))
  {
    UpdateFeedKeepsSound(cfg.plain, cfg.max, db, p.userId, p.feedId, p.url, written.(etag := p.etag, lastModified := p.lastModified));
  }

  lemma PollStepKeepsDb(cfg: Config, s: System, ev: Event)
    requires SystemSound(cfg, s) && GoodConfig(cfg)
    ensures Sound(cfg.plain, cfg.max, PollStep(cfg, s, ev).db)
  {
    hide Sound;
    match ev
    case PollAdopt(p, now) =>
      if p in s.polls && Adopts(s.polls[p]) {
        var f := s.polls[p];
        SetFeedURLKeepsSound(cfg.plain, cfg.max, s.db, f.userId, f.feedId, f.heard.value.finalUrl, now);
      }
    case PollResolve(p, now) =>
      if p in s.polls && s.polls[p].heard.Some? {
        var f := s.polls[p];
        SetFeedURLKeepsSound(cfg.plain, cfg.max, s.db, f.userId, f.feedId, ResolvedUrl(cfg.canon, f.heard.value), now);
      }
    case PollDrop(p) =>
      if p in s.polls { DeleteFeedKeepsSound(cfg.plain, cfg.max, s.db, s.polls[p].userId, s.polls[p].feedId); }
    case PollIngest(p, batch) =>
      if p in s.polls { UpsertKeepsSound(cfg.plain, cfg.max, s.db, s.polls[p].feedId, batch); }
    case PollSucceed(p, w) =>
      if p in s.polls && s.polls[p].heard.Some? { WriteBackKeepsSound(cfg, s.db, Recorded(s.polls[p], s.polls[p].heard.value), w); }
    case PollFail(p, w) =>
      if p in s.polls { WriteBackKeepsSound(cfg, s.db, s.polls[p], w); }
    case _ =>
  }

  lemma ScrapeStepKeepsDb(cfg: Config, s: System, ev: Event)
    requires SystemSound(cfg, s) && GoodConfig(cfg)
    ensures Sound(cfg.plain, cfg.max, ScrapeStep(cfg, s, ev).db)
  {
    hide Sound;
    match ev
    case ScrapeSave(a, content) =>
      if a in s.scrapes { SetEntryContentKeepsSound(cfg.plain, cfg.max, s.db, s.scrapes[a].entryId, content); }
    case ScrapeFail(a, nextAt, error) =>
      if a in s.scrapes {
        var sc := s.scrapes[a];
        UpdateExtractStateKeepsSound(cfg.plain, cfg.max, s.db, sc.entryId, FailedExtraction(cfg.max, sc.attempts, nextAt, error));
      }
    case ScrapeRetry(a, nextAt, error) =>
      if a in s.scrapes {
        var sc := s.scrapes[a];
        UpdateExtractStateKeepsSound(cfg.plain, cfg.max, s.db, sc.entryId, Extraction(ExtractPending, sc.attempts, Some(nextAt), error));
      }
    case _ =>
  }

  /** The copies that deletions and scrapes hold stay true of the rows that survive. */
  lemma StepKeepsCopies(cfg: Config, s: System, ev: Event)
    requires References(s.db) && ExtractionsSound(s.db, cfg.max) && DeletionsCurrent(s) && ScrapesBelowCap(s, cfg.max)
    requires IdentityKept(s.db, Step(cfg, s, ev).db)
    ensures DeletionsCurrent(Step(cfg, s, ev)) && ScrapesBelowCap(Step(cfg, s, ev), cfg.max)
  {
    hide PollStep, ScrapeStep, UserStep;
    PollStepKeepsActors(cfg, s, ev);
    ScrapeStepKeepsActors(cfg, s, ev);
    UserStepKeepsActors(cfg, s, ev);
  }

  lemma PollStepKeepsActors(cfg: Config, s: System, ev: Event)
    ensures PollStep(cfg, s, ev).deletions == s.deletions && PollStep(cfg, s, ev).scrapes == s.scrapes
  {
  }

  /** A scrape copies the row as it is. */
  lemma ScrapeStepKeepsActors(cfg: Config, s: System, ev: Event)
    ensures var s' := ScrapeStep(cfg, s, ev);
            && s'.deletions == s.deletions
            && forall a | a in s'.scrapes :: (a in s.scrapes && s'.scrapes[a] == s.scrapes[a]) || ReadPending(s.db, s'.scrapes[a])
  {
  }

  predicate ReadPending(db: Db, a: Scrape) {
    && a.entryId in db.entries && db.entries[a.entryId].extraction.state.ExtractPending?
    && a.attempts == db.entries[a.entryId].extraction.attempts
  }

  /** So does a deletion. */
  lemma UserStepKeepsActors(cfg: Config, s: System, ev: Event)
    ensures var s' := UserStep(cfg, s, ev);
            && s'.scrapes == s.scrapes
            && forall d | d in s'.deletions :: (d in s.deletions && s'.deletions[d] == s.deletions[d]) || ReadRow(s.db, s'.deletions[d])
  {
  }

  predicate ReadRow(db: Db, x: Deletion) {
    && x.entryId in db.entries
    && db.entries[x.entryId].feedId == x.feedId && db.entries[x.entryId].guid == x.guid
  }

  lemma StepKeepsSound(cfg: Config, s: System, ev: Event)
    requires SystemSound(cfg, s) && GoodConfig(cfg)
    ensures SystemSound(cfg, Step(cfg, s, ev))
  {
    hide PollStep, ScrapeStep, UserStep;
    StepKeepsIdentity(cfg, s, ev);
    StepKeepsCopies(cfg, s, ev);
    if IsPollEvent(ev) {
      PollStepKeepsDb(cfg, s, ev);
    } else if IsScrapeEvent(ev) {
      ScrapeStepKeepsDb(cfg, s, ev);
    } else {
      UserStepKeepsDb(cfg, s, ev);
    }
  }

  /** Main safety theorem: in every run of stale polls, scrapes, deletions and
      user edits, (feed, guid) is unique, no live entry is tombstoned, a feed with
      full content on has no unqueued entry, the extraction columns agree, and the
      text projection and its index are exact. */
  lemma {:induction false} RunKeepsSound(cfg: Config, s: System, evs: seq<Event>)
    requires SystemSound(cfg, s) && GoodConfig(cfg)
    ensures SystemSound(cfg, Run(cfg, s, evs))
  {
    if evs != [] {
      RunKeepsSound(cfg, s, evs[..|evs| - 1]);
      StepKeepsSound(cfg, Run(cfg, s, evs[..|evs| - 1]), evs[|evs| - 1]);
    }
  }

  lemma EveryRunIsSound(cfg: Config, evs: seq<Event>)
    requires GoodConfig(cfg)
    ensures SystemSound(cfg, Run(cfg, Initial(cfg), evs)) && Searchable(cfg.plain, Run(cfg, Initial(cfg), evs).db)
  {
    assert FtsRebuild(Initial(cfg).db.entries) == Initial(cfg).db.fts;
    RunKeepsSound(cfg, Initial(cfg), evs);
    ExactIsSearchable(cfg.plain, Run(cfg, Initial(cfg), evs).db);
  }

  // ---- deletion is final ---------------------------------------------------

  ghost predicate Gone(db: Db, feedId: Id) {
    && feedId < db.nextFeed && feedId !in db.feeds
    && (forall i | i in db.entries :: db.entries[i].feedId != feedId)
    && (forall t | t in db.tombstones :: t.0 != feedId)
  }

  lemma DeleteFeedRemovesAll(db: Db, u: Id, feedId: Id)
    requires References(db)
    ensures DeleteFeed(db, u, feedId).1.Ok? ==> Gone(DeleteFeed(db, u, feedId).0, feedId)
  {
  }

  /** After a feed is deleted, no feed, entry or tombstone with its id appears in
      any continuation, although polls of it may still be in flight. */
  lemma {:induction false} DeletedFeedStaysGone(cfg: Config, s: System, evs: seq<Event>, feedId: Id)
    requires SystemSound(cfg, s) && GoodConfig(cfg) && Gone(s.db, feedId)
    ensures Gone(Run(cfg, s, evs).db, feedId)
  {
    if evs != [] {
      var front := evs[..|evs| - 1];
      DeletedFeedStaysGone(cfg, s, front, feedId);
      RunKeepsSound(cfg, s, front);
      StepKeepsIdentity(cfg, Run(cfg, s, front), evs[|evs| - 1]);
      RunKeepsSound(cfg, s, evs);
    }
  }

  lemma {:induction false} UpsertAllKeepsTombstones(plain: string -> string, db: Db, feedId: Id, full: bool, batch: seq<NewEntry>)
    ensures UpsertAll(plain, db, feedId, full, batch).tombstones == db.tombstones
  {
    if batch != [] {
      UpsertAllKeepsTombstones(plain, db, feedId, full, batch[..|batch| - 1]);
    }
  }

  lemma StepKeepsTombstone(cfg: Config, s: System, ev: Event, t: (Id, string))
    requires t in s.db.tombstones
    ensures t in Step(cfg, s, ev).db.tombstones || t.0 !in Step(cfg, s, ev).db.feeds
  {
    if ev.PollIngest? && ev.p in s.polls && s.polls[ev.p].feedId in s.db.feeds {
      var feedId := s.polls[ev.p].feedId;
      UpsertAllKeepsTombstones(cfg.plain, s.db, feedId, s.db.feeds[feedId].fullContent, ev.batch);
    }
  }

  /** A deleted entry is never resurrected: no continuation holds a live entry
      with its (feed, guid), whatever later polls bring. */
  lemma {:induction false} DeletedEntryStaysDeleted(cfg: Config, s: System, evs: seq<Event>, t: (Id, string))
    requires SystemSound(cfg, s) && GoodConfig(cfg) && t in s.db.tombstones
    ensures var db := Run(cfg, s, evs).db;
            && (t in db.tombstones || Gone(db, t.0))
            && forall i | i in db.entries :: (db.entries[i].feedId, db.entries[i].guid) != t
  {
    RunKeepsSound(cfg, s, evs);
    if evs != [] {
      var front, ev := evs[..|evs| - 1], evs[|evs| - 1];
      DeletedEntryStaysDeleted(cfg, s, front, t);
      var mid := Run(cfg, s, front);
      RunKeepsSound(cfg, s, front);
      StepKeepsIdentity(cfg, mid, ev);
      if t in mid.db.tombstones {
        StepKeepsTombstone(cfg, mid, ev, t);
      } else {
        DeletedFeedStaysGone(cfg, mid, [ev], t.0);
        assert Run(cfg, mid, [ev]) == Step(cfg, Run(cfg, mid, []), ev) by { assert [ev][..0] == []; }
      }
    }
  }
}
