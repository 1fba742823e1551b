/** What every reachable database satisfies, and that each statement keeps it. */
module Invariants {
  import opened Rows
  import opened Sql

  /** Foreign keys, and ids that are never handed out again. */
  ghost predicate References(db: Db) {
    && (forall c | c in db.categories :: c < db.nextCategory && db.categories[c].userId in db.users)
    && (forall i | i in db.feeds :: i < db.nextFeed && HasParents(db, db.feeds[i].userId, db.feeds[i].categoryId))
    && (forall i | i in db.entries :: i < db.nextEntry && db.entries[i].feedId in db.feeds && db.entries[i].userId in db.users)
    && (forall t | t in db.tombstones :: t.0 in db.feeds)
  }

  ghost predicate UniqueGuids(db: Db) {
    forall i, j | i in db.entries && j in db.entries
      :: db.entries[i].feedId == db.entries[j].feedId && db.entries[i].guid == db.entries[j].guid ==> i == j
  }

  ghost predicate UniqueUrls(db: Db) {
    forall i, j | i in db.feeds && j in db.feeds
      :: db.feeds[i].userId == db.feeds[j].userId && db.feeds[i].feedUrl == db.feeds[j].feedUrl ==> i == j
  }

  ghost predicate UniqueTitles(db: Db) {
    forall c, d | c in db.categories && d in db.categories
      :: SameTitle(db.categories[c], db.categories[d].userId, db.categories[d].title) ==> c == d
  }

  ghost predicate NoneResurrected(db: Db) {
    forall i | i in db.entries :: (db.entries[i].feedId, db.entries[i].guid) !in db.tombstones
  }

  /** With full content on, no entry of the feed is left unqueued. */
  ghost predicate FullContentQueued(db: Db) {
    forall i | i in db.entries && db.entries[i].feedId in db.feeds && db.feeds[db.entries[i].feedId].fullContent
      :: !db.entries[i].extraction.state.ExtractNone?
  }

  predicate ExtractionSound(x: Extraction, max: nat) {
    && 0 <= x.attempts <= max
    && (x.state.ExtractPending? ==> x.attempts < max)
    && (x.state.ExtractPending? <==> x.nextAt.Some?)
  }

  ghost predicate ExtractionsSound(db: Db, max: nat) {
    forall i | i in db.entries :: ExtractionSound(db.entries[i].extraction, max)
  }

  predicate Projected(plain: string -> string, e: Entry) {
    e.contentText == plain(e.content) && e.summaryText == plain(e.meta.summary)
  }

  ghost predicate TextProjected(plain: string -> string, db: Db) {
    forall i | i in db.entries :: Projected(plain, db.entries[i])
  }

  /** The index holds exactly the projection of the rows, and no command broke it. */
  ghost predicate IndexExact(db: Db) {
    db.updateTrigger && db.fts == FtsRebuild(db.entries)
  }

  ghost predicate Sound(plain: string -> string, max: nat, db: Db) {
    && References(db) && UniqueGuids(db) && UniqueUrls(db) && UniqueTitles(db) && NoneResurrected(db)
    && FullContentQueued(db) && ExtractionsSound(db, max)
    && TextProjected(plain, db) && IndexExact(db)
  }

  // ---- the index under single-row changes ----------------------------------

  /** Updating an indexed row leaves the index exact: the trigger's 'delete'
      names the values the index holds. */
  lemma FtsUpdateExact(db: Db, id: Id, e: Entry)
    requires IndexExact(db) && id in db.entries
    ensures FtsUpdate(db, id, e) == FtsRebuild(db.entries[id := e])
  {
    assert FtsUpdate(db, id, e).docs == FtsRebuild(db.entries[id := e]).docs;
  }

  lemma FtsInsertExact(db: Db, id: Id, e: Entry)
    requires IndexExact(db) && id !in db.entries
    ensures FtsInsert(db.fts, id, IndexDoc(e)) == FtsRebuild(db.entries[id := e])
  {
    assert FtsInsert(db.fts, id, IndexDoc(e)).docs == FtsRebuild(db.entries[id := e]).docs;
  }

  lemma FtsDeleteAllExact(db: Db, ids: set<Id>)
    requires IndexExact(db) && ids <= db.entries.Keys
    ensures FtsDeleteAll(db.fts, db.entries, ids) == FtsRebuild(db.entries - ids)
  {
    assert FtsDeleteAll(db.fts, db.entries, ids).docs == FtsRebuild(db.entries - ids).docs;
  }

  lemma SameDocsSameIndex(a: map<Id, Entry>, b: map<Id, Entry>)
    requires a.Keys == b.Keys
    requires forall i | i in a :: IndexDoc(a[i]) == IndexDoc(b[i])
    ensures FtsRebuild(a) == FtsRebuild(b)
  {
    SameMap(FtsRebuild(a).docs, FtsRebuild(b).docs);
  }

  /** The index holds what a search should find: each entry's title, and the text of its
      content and of its summary. */
  ghost predicate Searchable(plain: string -> string, db: Db) {
    && !db.fts.corrupt && db.fts.docs.Keys == db.entries.Keys
    && forall i | i in db.entries ::
         && db.fts.docs[i].title == db.entries[i].meta.title
         && db.fts.docs[i].content == plain(db.entries[i].content)
         && db.fts.docs[i].summary == plain(db.entries[i].meta.summary)
  }

  lemma ExactIsSearchable(plain: string -> string, db: Db)
    requires TextProjected(plain, db) && IndexExact(db)
    ensures Searchable(plain, db)
  {
    assert forall i | i in db.entries :: Projected(plain, db.entries[i]);
  }

  // ---- feeds ---------------------------------------------------------------

  lemma CreateFeedKeepsSound(plain: string -> string, max: nat, db: Db, f: Feed)
    requires Sound(plain, max, db)
    ensures Sound(plain, max, CreateFeed(db, f).0)
  {
    hide UniqueUrls, UrlTaken;
    CreateFeedKeepsUrls(db, f);
  }

  lemma CreateFeedKeepsUrls(db: Db, f: Feed)
    requires UniqueUrls(db)
    ensures UniqueUrls(CreateFeed(db, f).0)
  {
  }

  lemma UpdateFeedKeepsSound(plain: string -> string, max: nat, db: Db, u: Id, id: Id, url: string, p: PollState)
    requires Sound(plain, max, db)
    ensures Sound(plain, max, UpdateFeed(db, u, id, url, p))
  {
  }

  lemma SetFeedURLKeepsSound(plain: string -> string, max: nat, db: Db, u: Id, id: Id, url: string, now: int)
    requires Sound(plain, max, db)
    ensures Sound(plain, max, SetFeedURL(db, u, id, url, now).0)
  {
  }

  lemma DeleteFeedKeepsSound(plain: string -> string, max: nat, db: Db, u: Id, id: Id)
    requires Sound(plain, max, db)
    ensures Sound(plain, max, DeleteFeed(db, u, id).0)
  {
    FtsDeleteAllExact(db, EntriesOf(db.entries, id));
  }

  lemma CreateCategoryKeepsSound(plain: string -> string, max: nat, db: Db, u: Id, title: string)
    requires Sound(plain, max, db)
    ensures Sound(plain, max, CreateCategory(db, u, title).0)
  {
  }

  lemma UpdateCategoryKeepsSound(plain: string -> string, max: nat, db: Db, u: Id, c: Id, title: string)
    requires Sound(plain, max, db)
    ensures Sound(plain, max, UpdateCategory(db, u, c, title).0)
  {
  }

  lemma DeleteCategoryKeepsSound(plain: string -> string, max: nat, db: Db, u: Id, c: Id)
    requires Sound(plain, max, db)
    ensures Sound(plain, max, DeleteCategory(db, u, c).0)
  {
  }

  /** Feeds keep owner and URL, and a category that exists; entries keep all but their
      extraction and reader columns. */
  ghost predicate Relabelled(a: Db, b: Db) {
    && b == a.(feeds := b.feeds, entries := b.entries)
    && b.feeds.Keys == a.feeds.Keys && b.entries.Keys == a.entries.Keys
    && (forall i | i in a.feeds :: b.feeds[i].userId == a.feeds[i].userId && b.feeds[i].feedUrl == a.feeds[i].feedUrl
                                   && HasParents(b, b.feeds[i].userId, b.feeds[i].categoryId))
    && (forall i | i in a.entries :: b.entries[i] == a.entries[i].(extraction := b.entries[i].extraction, reader := b.entries[i].reader))
  }

  lemma RelabelledKeeps(plain: string -> string, a: Db, b: Db)
    requires Relabelled(a, b)
    requires References(a) && UniqueGuids(a) && UniqueUrls(a) && UniqueTitles(a) && NoneResurrected(a)
    requires TextProjected(plain, a) && IndexExact(a)
    ensures References(b) && UniqueGuids(b) && UniqueUrls(b) && UniqueTitles(b) && NoneResurrected(b)
    ensures TextProjected(plain, b) && IndexExact(b)
  {
    SameDocsSameIndex(a.entries, b.entries);
  }

  lemma SetUserTitleKeepsSound(plain: string -> string, max: nat, db: Db, u: Id, id: Id, title: string)
    requires Sound(plain, max, db)
    ensures Sound(plain, max, SetUserTitle(db, u, id, title).0)
  {
    hide UniqueGuids, UniqueUrls, UniqueTitles, NoneResurrected, TextProjected, IndexExact;
    RelabelledKeeps(plain, db, SetUserTitle(db, u, id, title).0);
  }

  lemma SetCategoryKeepsSound(plain: string -> string, max: nat, db: Db, u: Id, id: Id, category: Option<Id>)
    requires Sound(plain, max, db)
    ensures Sound(plain, max, SetCategory(db, u, id, category).0)
  {
    hide UniqueGuids, UniqueUrls, UniqueTitles, NoneResurrected, TextProjected, IndexExact, Relabelled, HasParents;
    SetCategoryRelabels(db, u, id, category);
    RelabelledKeeps(plain, db, SetCategory(db, u, id, category).0);
  }

  lemma SetCategoryRelabels(db: Db, u: Id, id: Id, category: Option<Id>)
    requires References(db)
    ensures Relabelled(db, SetCategory(db, u, id, category).0)
  {
  }

  lemma ToggleKeepsQueued(max: nat, db: Db, u: Id, id: Id, on: bool, at: int)
    requires References(db) && FullContentQueued(db) && ExtractionsSound(db, max) && 0 < max
    ensures var db' := SetFullContent(db, u, id, on, at).0; FullContentQueued(db') && ExtractionsSound(db', max)
  {
  }

  lemma SetFullContentKeepsSound(plain: string -> string, max: nat, db: Db, u: Id, id: Id, on: bool, at: int)
    requires Sound(plain, max, db) && 0 < max
    ensures Sound(plain, max, SetFullContent(db, u, id, on, at).0)
  {
    hide UniqueGuids, UniqueUrls, UniqueTitles, NoneResurrected, TextProjected, IndexExact;
    var db' := SetFullContent(db, u, id, on, at).0;
    ToggleKeepsQueued(max, db, u, id, on, at);
    assert Relabelled(db, db');
    RelabelledKeeps(plain, db, db');
  }

  // ---- entries -------------------------------------------------------------

  lemma InsertRowKeepsSound(plain: string -> string, max: nat, db: Db, feedId: Id, n: NewEntry)
    requires Sound(plain, max, db) && 0 < max
    requires feedId in db.feeds && (feedId, n.guid) !in db.tombstones && n.userId in db.users
    requires FindByGuid(db.entries, feedId, n.guid).None?
    ensures Sound(plain, max, InsertRow(plain, db, feedId, db.feeds[feedId].fullContent, n))
  {
    var db' := InsertRow(plain, db, feedId, db.feeds[feedId].fullContent, n);
    FtsInsertExact(db, db.nextEntry, db'.entries[db.nextEntry]);
    forall i | i in db.entries
      ensures !(db.entries[i].feedId == feedId && db.entries[i].guid == n.guid)
    {
      assert !IsRowOf(db.entries, i, feedId, n.guid);
    }
  }

  lemma RefreshRowKeepsSound(plain: string -> string, max: nat, db: Db, id: Id, n: NewEntry)
    requires Sound(plain, max, db) && id in db.entries
    ensures Sound(plain, max, RefreshRow(plain, db, id, n))
  {
    FtsUpdateExact(db, id, Refreshed(plain, db.entries[id], n));
  }

  lemma AcceptedFront(plain: string -> string, db: Db, feedId: Id, full: bool, batch: seq<NewEntry>)
    requires batch != [] && Accepted(plain, db, feedId, full, batch)
    ensures var front, n := batch[..|batch| - 1], batch[|batch| - 1]; var mid := UpsertAll(plain, db, feedId, full, front);
            && Accepted(plain, db, feedId, full, front)
            && ((feedId, n.guid) !in mid.tombstones && FindByGuid(mid.entries, feedId, n.guid).None? ==> n.userId in db.users)
  {
    hide UpsertAll;
    var front, n := batch[..|batch| - 1], batch[|batch| - 1];
    var mid := UpsertAll(plain, db, feedId, full, front);
    var before, all := UpsertInserted(plain, db, feedId, full, front), UpsertInserted(plain, db, feedId, full, batch);
    assert forall x | x in before :: x in all;
    if (feedId, n.guid) !in mid.tombstones && FindByGuid(mid.entries, feedId, n.guid).None? {
      assert all[|before|] == (mid.nextEntry, n) && all[|before|] in all;
    }
  }

  /** An upsert keeps every invariant whatever batch the poll hands it, however
      stale, if its users exist: the tombstone check and the flag read are inside the
      transaction. */
  lemma {:induction false} UpsertAllKeepsSound(plain: string -> string, max: nat, db: Db, feedId: Id, full: bool, batch: seq<NewEntry>)
    requires Sound(plain, max, db) && 0 < max && Accepted(plain, db, feedId, full, batch)
    requires feedId in db.feeds && db.feeds[feedId].fullContent == full
    ensures var db' := UpsertAll(plain, db, feedId, full, batch);
            Sound(plain, max, db') && db'.feeds == db.feeds && db'.users == db.users
  {
    hide Sound, Accepted;
    if batch != [] {
      var front, n := batch[..|batch| - 1], batch[|batch| - 1];
      AcceptedFront(plain, db, feedId, full, batch);
      UpsertAllKeepsSound(plain, max, db, feedId, full, front);
      var mid := UpsertAll(plain, db, feedId, full, front);
      if (feedId, n.guid) !in mid.tombstones {
        match FindByGuid(mid.entries, feedId, n.guid)
        case Some(id) => RefreshRowKeepsSound(plain, max, mid, id, n);
        case None => InsertRowKeepsSound(plain, max, mid, feedId, n);
      }
    }
  }

  lemma UpsertKeepsSound(plain: string -> string, max: nat, db: Db, feedId: Id, batch: seq<NewEntry>)
    requires Sound(plain, max, db) && 0 < max
    ensures Sound(plain, max, Upsert(plain, db, feedId, batch).0)
  {
    if feedId in db.feeds && Accepted(plain, db, feedId, db.feeds[feedId].fullContent, batch) {
      UpsertAllKeepsSound(plain, max, db, feedId, db.feeds[feedId].fullContent, batch);
    }
  }

  /** Deleting is safe although (feed, guid) were read in an earlier step: a row
      never changes them, so they still describe the row if it still exists. */
  lemma DeleteEntryKeepsSound(plain: string -> string, max: nat, db: Db, u: Id, id: Id, feedId: Id, guid: string)
    requires Sound(plain, max, db)
    requires id in db.entries ==> db.entries[id].feedId == feedId && db.entries[id].guid == guid
    ensures Sound(plain, max, DeleteEntry(db, u, id, feedId, guid).0)
  {
    if DeleteEntry(db, u, id, feedId, guid).1.Ok? {
      FtsDeleteAllExact(db, {id});
    }
  }

  lemma SetEntryContentKeepsSound(plain: string -> string, max: nat, db: Db, id: Id, content: string)
    requires Sound(plain, max, db)
    ensures Sound(plain, max, SetEntryContent(plain, db, id, content))
  {
    var db' := SetEntryContent(plain, db, id, content);
    if id in db.entries && db.entries[id].extraction.state.ExtractPending? {
      FtsUpdateExact(db, id, db'.entries[id]);
    }
  }

  lemma UpdateExtractStateKeepsSound(plain: string -> string, max: nat, db: Db, id: Id, x: Extraction)
    requires Sound(plain, max, db)
    requires ExtractionSound(x, max) && !x.state.ExtractNone?
    ensures Sound(plain, max, UpdateExtractState(db, id, x))
  {
    hide UniqueGuids, UniqueUrls, UniqueTitles, NoneResurrected, TextProjected, IndexExact;
    RelabelledKeeps(plain, db, UpdateExtractState(db, id, x));
  }

  lemma SetReaderKeepsSound(plain: string -> string, max: nat, db: Db, ids: set<Id>, u: Id, f: Reader -> Reader)
    requires Sound(plain, max, db)
    ensures Sound(plain, max, SetReader(db, ids, u, f))
  {
    hide UniqueGuids, UniqueUrls, UniqueTitles, NoneResurrected, TextProjected, IndexExact;
    RelabelledKeeps(plain, db, SetReader(db, ids, u, f));
  }
}
