/** What single events of the shared system bring about, told by the columns that they
    set, and that deletions are final from the event on. */
module Effects {
  import opened Rows
  import opened Sql
  import opened Invariants
  import opened System
  import opened Safety
  import I = Ingest

  // ---- the user ------------------------------------------------------------

  /** A subscription that the store accepts: a row that no poll has touched, titled and
      due as asked. */
  lemma SubscribeStores(cfg: Config, s: System, u: Id, url: string, title: string, category: Option<Id>, full: bool, now: int, next: int)
    requires References(s.db)
    requires u in s.db.users && (category.Some? ==> category.value in s.db.categories)
    requires forall i | i in s.db.feeds :: !(s.db.feeds[i].userId == u && s.db.feeds[i].feedUrl == url)
    ensures var db := Step(cfg, s, Subscribe(u, url, title, category, full, now, next)).db; var id := s.db.nextFeed;
            && id in db.feeds && db.feeds - {id} == s.db.feeds && db.nextFeed == id + 1
            && var f := db.feeds[id];
               && f.userId == u && f.feedUrl == url && f.categoryId == category && f.fullContent == full && f.userTitle == ""
               && f.createdAt == now && f.poll.updatedAt == now && f.poll.nextCheckAt == next && f.poll.checkedAt == None
               && f.poll.title == title && f.poll.siteUrl == "" && f.poll.description == "" && f.poll.ttl == 0 && !f.poll.disabled
               && f.poll.etag == "" && f.poll.lastModified == "" && f.poll.errorCount == 0 && f.poll.lastError == ""
  {
    var db := Step(cfg, s, Subscribe(u, url, title, category, full, now, next)).db;
    assert db.feeds - {s.db.nextFeed} == s.db.feeds;
  }

  /** A URL edit that the store accepts takes the old URL's validators away and makes the
      feed due; nothing else changes. */
  lemma EditURLTakes(cfg: Config, s: System, u: Id, id: Id, url: string, now: int)
    requires id in s.db.feeds && s.db.feeds[id].userId == u
    requires forall i | i in s.db.feeds && i != id :: !(s.db.feeds[i].userId == u && s.db.feeds[i].feedUrl == url)
    ensures var db, f := Step(cfg, s, EditURL(u, id, url, now)).db, s.db.feeds[id];
            db == s.db.(feeds := s.db.feeds[id := f.(feedUrl := url, poll := f.poll.(etag := "", lastModified := "", nextCheckAt := now))])
  {
  }

  /** Marking changes the reader columns of the user's rows among those named, and those
      columns only. */
  lemma MarkSets(cfg: Config, s: System, ids: set<Id>, u: Id, change: Reader -> Reader)
    ensures var db := Step(cfg, s, Mark(ids, u, change)).db;
            && db == s.db.(entries := db.entries) && db.entries.Keys == s.db.entries.Keys
            && forall i | i in s.db.entries ::
                 && db.entries[i] == s.db.entries[i].(reader := db.entries[i].reader)
                 && db.entries[i].reader == if i in ids && s.db.entries[i].userId == u then change(s.db.entries[i].reader)
                                            else s.db.entries[i].reader
  {
  }

  /** A row marked read says when, one marked unread that it was not; stars stay. */
  lemma StatusSets(db: Db, u: Id, ids: set<Id>, status: Status, now: int, i: Id)
    requires i in db.entries
    ensures var e, e' := db.entries[i], Sql.SetStatus(db, u, ids, status, now).entries[i];
            && e' == e.(reader := e'.reader) && e'.reader.starred == e.reader.starred
            && if i in ids && e.userId == u then e'.reader.status == status && e'.reader.readAt == (match status case Read => Some(now) case Unread => None)
               else e' == e
  {
  }

  /** Marking a selection read: the user's unread entries of one feed, of the feeds of one
      category or without one, which must be the user's own, or of all feeds. */
  lemma MarkReadSets(db: Db, u: Id, sel: Selection, now: int, i: Id)
    requires i in db.entries
    ensures var e, e' := db.entries[i], Sql.MarkRead(db, u, sel, now).entries[i];
            var own := e.feedId in db.feeds && db.feeds[e.feedId].userId == u;
            var chosen := match sel
                          case OneFeed(f) => e.feedId == f
                          case InCategory(c) => own && db.feeds[e.feedId].categoryId == Some(c)
                          case NoCategory => own && db.feeds[e.feedId].categoryId == None
                          case AllFeeds => true;
            if e.userId == u && e.reader.status == Unread && chosen
            then e' == e.(reader := Reader(Read, e.reader.starred, Some(now))) else e' == e
  {
  }

  lemma StarSets(db: Db, u: Id, ids: set<Id>, starred: bool, i: Id)
    requires i in db.entries
    ensures var e, e' := db.entries[i], Sql.SetStarred(db, u, ids, starred).entries[i];
            e' == if i in ids && e.userId == u then e.(reader := e.reader.(starred := starred)) else e
  {
  }

  /** A category is made, renamed and dropped for its own user, where no other of the user
      has the title but for its case; dropping it leaves its feeds without one. */
  lemma CategoriesTake(cfg: Config, s: System, u: Id, c: Id, title: string)
    requires u in s.db.users
    requires forall d | d in s.db.categories && d != c :: !(s.db.categories[d].userId == u && Fold(s.db.categories[d].title) == Fold(title))
    ensures c == s.db.nextCategory ==>
              Step(cfg, s, AddCategory(u, title)).db
              == s.db.(categories := s.db.categories[c := Category(u, title)], nextCategory := c + 1)
    ensures c in s.db.categories && s.db.categories[c].userId == u ==>
              Step(cfg, s, RenameCategory(u, c, title)).db == s.db.(categories := s.db.categories[c := Category(u, title)])
    ensures c in s.db.categories && s.db.categories[c].userId == u ==>
              var db := Step(cfg, s, DropCategory(u, c)).db;
              && db == s.db.(categories := s.db.categories - {c}, feeds := db.feeds) && db.feeds.Keys == s.db.feeds.Keys
              && forall i | i in db.feeds ::
                   var f := s.db.feeds[i]; db.feeds[i] == f.(categoryId := if f.categoryId == Some(c) then None else f.categoryId)
  {
  }

  // ---- deletions -----------------------------------------------------------

  /** From the owner's deletion of a feed on, nothing of it is there or comes back. */
  lemma UnsubscribeIsFinal(cfg: Config, s: System, u: Id, id: Id, evs: seq<Event>)
    requires SystemSound(cfg, s) && GoodConfig(cfg) && id in s.db.feeds && s.db.feeds[id].userId == u
    ensures var db := Run(cfg, Step(cfg, s, Unsubscribe(u, id)), evs).db;
            && id !in db.feeds
            && (forall i | i in db.entries :: db.entries[i].feedId != id) && (forall t | t in db.tombstones :: t.0 != id)
  {
    hide SystemSound;
    var s' := Step(cfg, s, Unsubscribe(u, id));
    StepKeepsSound(cfg, s, Unsubscribe(u, id));
    SoundRefers(cfg, s);
    DeleteFeedRemovesAll(s.db, u, id);
    assert Gone(s'.db, id);
    DeletedFeedStaysGone(cfg, s', evs, id);
  }

  /** The same when a poll removes its row as a duplicate. */
  lemma DuplicateIsFinal(cfg: Config, s: System, p: nat, evs: seq<Event>)
    requires SystemSound(cfg, s) && GoodConfig(cfg) && p in s.polls
    requires s.polls[p].feedId in s.db.feeds && s.db.feeds[s.polls[p].feedId].userId == s.polls[p].userId
    ensures var db, id := Run(cfg, Step(cfg, s, PollDrop(p)), evs).db, s.polls[p].feedId;
            && id !in db.feeds
            && (forall i | i in db.entries :: db.entries[i].feedId != id) && (forall t | t in db.tombstones :: t.0 != id)
  {
    hide SystemSound;
    var x, s' := s.polls[p], Step(cfg, s, PollDrop(p));
    StepKeepsSound(cfg, s, PollDrop(p));
    SoundRefers(cfg, s);
    DeleteFeedRemovesAll(s.db, x.userId, x.feedId);
    assert Gone(s'.db, x.feedId);
    DeletedFeedStaysGone(cfg, s', evs, x.feedId);
  }

  lemma SoundRefers(cfg: Config, s: System)
    requires SystemSound(cfg, s)
    ensures References(s.db)
  {
  }

  /** From the deletion of an entry on, whatever was read before it, no entry of the same
      feed and guid is there or comes back. */
  lemma DeletionIsFinal(cfg: Config, s: System, d: nat, evs: seq<Event>)
    requires SystemSound(cfg, s) && GoodConfig(cfg) && d in s.deletions
    requires s.deletions[d].entryId in s.db.entries && s.db.entries[s.deletions[d].entryId].userId == s.deletions[d].userId
    ensures var e, db := s.db.entries[s.deletions[d].entryId], Run(cfg, Step(cfg, s, DeleteCommit(d)), evs).db;
            forall i | i in db.entries :: !(db.entries[i].feedId == e.feedId && db.entries[i].guid == e.guid)
  {
    var e, s' := s.db.entries[s.deletions[d].entryId], Step(cfg, s, DeleteCommit(d));
    StepKeepsSound(cfg, s, DeleteCommit(d));
    TombstoneLaid(cfg, s, d);
    DeletedEntryStaysDeleted(cfg, s', evs, (e.feedId, e.guid));
  }

  lemma TombstoneLaid(cfg: Config, s: System, d: nat)
    requires SystemSound(cfg, s) && d in s.deletions
    requires s.deletions[d].entryId in s.db.entries && s.db.entries[s.deletions[d].entryId].userId == s.deletions[d].userId
    ensures var e := s.db.entries[s.deletions[d].entryId]; (e.feedId, e.guid) in Step(cfg, s, DeleteCommit(d)).db.tombstones
  {
  }

  // ---- polls ---------------------------------------------------------------

  /** A poll begins with the row's URL and both validators, and has heard nothing. */
  lemma ReadCopies(cfg: Config, s: System, p: nat, u: Id, id: Id)
    requires id in s.db.feeds && s.db.feeds[id].userId == u
    ensures var s', f := Step(cfg, s, PollRead(p, u, id)), s.db.feeds[id];
            && s'.db == s.db && p in s'.polls
            && s'.polls[p] == Poll(u, id, f.feedUrl, f.poll.etag, f.poll.lastModified, None)
  {
  }

  /** The feed has a row of this guid, with this hash, for this user. */
  ghost predicate HasRow(db: Db, feedId: Id, guid: string, hash: string, u: Id) {
    exists i :: IsRowOf(db.entries, i, feedId, guid) && db.entries[i].meta.hash == hash && db.entries[i].userId == u
  }

  ghost predicate OfUser(db: Db, feedId: Id, u: Id) {
    forall i | i in db.entries && db.entries[i].feedId == feedId :: db.entries[i].userId == u
  }

  lemma UpsertOneHasRow(plain: string -> string, db: Db, feedId: Id, full: bool, n: NewEntry)
    requires I.Numbered(db) && OfUser(db, feedId, n.userId) && (feedId, n.guid) !in db.tombstones
    ensures HasRow(UpsertOne(plain, db, feedId, full, n), feedId, n.guid, n.meta.hash, n.userId)
  {
    var db', found := UpsertOne(plain, db, feedId, full, n), FindByGuid(db.entries, feedId, n.guid);
    var i := if found.Some? then found.value else db.nextEntry;
    assert IsRowOf(db'.entries, i, feedId, n.guid);
  }

  lemma UpsertOneKeepsRow(plain: string -> string, db: Db, feedId: Id, full: bool, n: NewEntry, guid: string, hash: string)
    requires I.Numbered(db) && HasRow(db, feedId, guid, hash, n.userId) && n.guid != guid
    ensures HasRow(UpsertOne(plain, db, feedId, full, n), feedId, guid, hash, n.userId)
  {
    var i :| IsRowOf(db.entries, i, feedId, guid) && db.entries[i].meta.hash == hash && db.entries[i].userId == n.userId;
    var db' := UpsertOne(plain, db, feedId, full, n);
    assert IsRowOf(db'.entries, i, feedId, guid) && db'.entries[i] == db.entries[i];
  }

  lemma UpsertOneOfUser(plain: string -> string, db: Db, feedId: Id, full: bool, n: NewEntry)
    requires OfUser(db, feedId, n.userId)
    ensures OfUser(UpsertOne(plain, db, feedId, full, n), feedId, n.userId)
  {
  }

  /** Every item of an upsert has a row afterwards, with the hash of the last item of its
      guid, unless it is tombstoned. */
  lemma {:induction false} UpsertAllHasRows(plain: string -> string, db: Db, feedId: Id, full: bool, batch: seq<NewEntry>, u: Id, guid: string)
    requires I.Numbered(db) && OfUser(db, feedId, u) && (forall n | n in batch :: n.userId == u)
    requires (feedId, guid) !in db.tombstones && exists n | n in batch :: n.guid == guid
    ensures var db' := UpsertAll(plain, db, feedId, full, batch); HasRow(db', feedId, guid, I.LastHash(batch, guid, ""), u)
  {
    hide HasRow, OfUser, UpsertOne, I.Numbered;
    var front, n := batch[..|batch| - 1], batch[|batch| - 1];
    var mid := UpsertAll(plain, db, feedId, full, front);
    assert n in batch && batch == front + [n];
    I.UpsertAllKeepsNumbered(plain, db, feedId, full, front);
    UpsertAllOfUser(plain, db, feedId, full, front, u);
    if n.guid == guid {
      UpsertOneHasRow(plain, mid, feedId, full, n);
    } else {
      UpsertAllHasRows(plain, db, feedId, full, front, u, guid);
      UpsertOneKeepsRow(plain, mid, feedId, full, n, guid, I.LastHash(front, guid, ""));
    }
  }

  lemma {:induction false} UpsertAllOfUser(plain: string -> string, db: Db, feedId: Id, full: bool, batch: seq<NewEntry>, u: Id)
    requires OfUser(db, feedId, u) && forall n | n in batch :: n.userId == u
    ensures OfUser(UpsertAll(plain, db, feedId, full, batch), feedId, u)
  {
    if batch != [] {
      assert batch[|batch| - 1] in batch;
      UpsertAllOfUser(plain, db, feedId, full, batch[..|batch| - 1], u);
      UpsertOneOfUser(plain, UpsertAll(plain, db, feedId, full, batch[..|batch| - 1]), feedId, full, batch[|batch| - 1]);
    }
  }

  /** A poll's ingest, of a feed that is still there: every item it hands over is in the
      store afterwards, as its last version, unless it was deleted before. */
  lemma IngestStores(cfg: Config, s: System, p: nat, batch: seq<NewEntry>, guid: string)
    requires SystemSound(cfg, s) && p in s.polls && s.polls[p].feedId in s.db.feeds && s.polls[p].userId in s.db.users
    requires OfUser(s.db, s.polls[p].feedId, s.polls[p].userId) && forall n | n in batch :: n.userId == s.polls[p].userId
    requires (s.polls[p].feedId, guid) !in s.db.tombstones && exists n | n in batch :: n.guid == guid
    ensures HasRow(Step(cfg, s, PollIngest(p, batch)).db, s.polls[p].feedId, guid, I.LastHash(batch, guid, ""), s.polls[p].userId)
  {
    var x := s.polls[p];
    var full := s.db.feeds[x.feedId].fullContent;
    assert I.Numbered(s.db);
    UpsertAllHasRows(cfg.plain, s.db, x.feedId, full, batch, x.userId, guid);
    InsertedOfUser(cfg.plain, s.db, x.feedId, full, batch, x.userId);
  }

  lemma {:induction false} InsertedOfUser(plain: string -> string, db: Db, feedId: Id, full: bool, batch: seq<NewEntry>, u: Id)
    requires forall n | n in batch :: n.userId == u
    ensures forall x | x in UpsertInserted(plain, db, feedId, full, batch) :: x.1.userId == u
  {
    if batch != [] {
      assert batch[|batch| - 1] in batch;
      InsertedOfUser(plain, db, feedId, full, batch[..|batch| - 1], u);
    }
  }
}
