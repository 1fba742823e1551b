/** Every SQL statement and transaction of the store as a function from the
    database before it to the database after it. The pool has one connection,
    so each of these is one atomic step. */
module Sql {
  import opened Rows

  // ---- full-text index -----------------------------------------------------

  function IndexDoc(e: Entry): Doc {
    Doc(e.meta.title, e.contentText, e.summaryText)
  }

  function FtsInsert(fts: Fts, id: Id, d: Doc): Fts {
    Fts(fts.docs[id := d], fts.corrupt || id in fts.docs)
  }

  /** The index's 'delete' command: its values must be the ones indexed. */
  function FtsDelete(fts: Fts, id: Id, d: Doc): Fts {
    Fts(fts.docs - {id}, fts.corrupt || id !in fts.docs || fts.docs[id] != d)
  }

  /** Trigger entries_au: re-index a row whose indexed columns were assigned. */
  function FtsUpdate(db: Db, id: Id, e: Entry): Fts
    requires id in db.entries
  {
    if db.updateTrigger
    then FtsInsert(FtsDelete(db.fts, id, IndexDoc(db.entries[id])), id, IndexDoc(e))
    else db.fts
  }

  /** 'rebuild': forget the index and read every row again. */
  function FtsRebuild(entries: map<Id, Entry>): Fts {
    Fts(map i | i in entries :: IndexDoc(entries[i]), false)
  }

  // ---- feeds ---------------------------------------------------------------

  predicate UrlTaken(db: Db, userId: Id, url: string, except: Id) {
    exists i | i in db.feeds && i != except :: db.feeds[i].userId == userId && db.feeds[i].feedUrl == url
  }

  predicate Owns(db: Db, userId: Id, feedId: Id) {
    feedId in db.feeds && db.feeds[feedId].userId == userId
  }

  /** The row CreateSubscription persists: no validators, not yet checked. */
  function NewFeed(userId: Id, url: string, title: string, category: Option<Id>, full: bool, now: int, nextCheck: int): Feed {
    Feed(userId, url, now, category, full, "",
         PollState("", title, "", "", "", false, None, nextCheck, 0, "", now, 0))
  }

  /** A feed's foreign keys name rows. */
  predicate HasParents(db: Db, userId: Id, category: Option<Id>) {
    userId in db.users && (category.Some? ==> category.value in db.categories)
  }

  /** The INSERT names no user_title; a missing parent row is a conflict too. */
  function CreateFeed(db: Db, f: Feed): (Db, Outcome) {
    if UrlTaken(db, f.userId, f.feedUrl, db.nextFeed) || !HasParents(db, f.userId, f.categoryId) then (db, Conflict)
    else (db.(feeds := db.feeds[db.nextFeed := f.(userTitle := "")], nextFeed := db.nextFeed + 1), Ok)
  }

  /** feed_url in the WHERE clause makes a stale write-back a no-op. */
  function UpdateFeed(db: Db, userId: Id, feedId: Id, url: string, p: PollState): Db {
    if Owns(db, userId, feedId) && db.feeds[feedId].feedUrl == url
    then db.(feeds := db.feeds[feedId := db.feeds[feedId].(poll := p)])
    else db
  }

  function SetFeedURL(db: Db, userId: Id, feedId: Id, url: string, now: int): (Db, Outcome) {
    if !Owns(db, userId, feedId) then (db, NotFound)
    else if UrlTaken(db, userId, url, feedId) then (db, Conflict)
    else
      var f := db.feeds[feedId];
      (db.(feeds := db.feeds[feedId :=
           f.(feedUrl := url, poll := f.poll.(etag := "", lastModified := "", nextCheckAt := now))]), Ok)
  }

  function SetUserTitle(db: Db, userId: Id, feedId: Id, title: string): (Db, Outcome) {
    if !Owns(db, userId, feedId) then (db, NotFound)
    else (db.(feeds := db.feeds[feedId := db.feeds[feedId].(userTitle := title)]), Ok)
  }

  function SetCategory(db: Db, userId: Id, feedId: Id, category: Option<Id>): (Db, Outcome) {
    if !Owns(db, userId, feedId) then (db, NotFound)
    else if !HasParents(db, userId, category) then (db, Conflict)
    else (db.(feeds := db.feeds[feedId := db.feeds[feedId].(categoryId := category)]), Ok)
  }

  /** Rows of a feed, which ON DELETE CASCADE removes with it. */
  function EntriesOf(entries: map<Id, Entry>, feedId: Id): set<Id> {
    set i | i in entries && entries[i].feedId == feedId
  }

  /** Trigger entries_ad fired once for each of `ids`, in any order. */
  function FtsDeleteAll(fts: Fts, entries: map<Id, Entry>, ids: set<Id>): Fts
    requires ids <= entries.Keys
  {
    Fts(fts.docs - ids,
        fts.corrupt || exists i | i in ids :: i !in fts.docs || fts.docs[i] != IndexDoc(entries[i]))
  }

  function DeleteFeed(db: Db, userId: Id, feedId: Id): (Db, Outcome) {
    if !Owns(db, userId, feedId) then (db, NotFound)
    else
      var gone := EntriesOf(db.entries, feedId);
      (db.(feeds := db.feeds - {feedId},
           entries := db.entries - gone,
           tombstones := (set t | t in db.tombstones && t.0 != feedId),
           fts := FtsDeleteAll(db.fts, db.entries, gone)), Ok)
  }

  // ---- categories ----------------------------------------------------------

  function Lower(c: char): char {
    if 'A' <= c <= 'Z' then (c as int + 32) as char else c
  }

  /** What COLLATE NOCASE compares: the letters A to Z without case. */
  function Fold(s: string): string {
    seq(|s|, k requires 0 <= k < |s| => Lower(s[k]))
  }

  /** The same letter but for its case. */
  predicate CaseOf(upper: char, lower: char) {
    'A' <= upper <= 'Z' && lower as int - 'a' as int == upper as int - 'A' as int
  }

  /** Two titles fold alike exactly when they are equal but for the case of letters. */
  lemma FoldIff(a: string, b: string)
    ensures Fold(a) == Fold(b)
            <==> |a| == |b| && forall k | 0 <= k < |a| :: a[k] == b[k] || CaseOf(a[k], b[k]) || CaseOf(b[k], a[k])
  {
    if |a| == |b| {
      assert forall k | 0 <= k < |a| :: Lower(a[k]) == Lower(b[k]) <==> a[k] == b[k] || CaseOf(a[k], b[k]) || CaseOf(b[k], a[k]);
      assert forall k | 0 <= k < |a| :: Fold(a)[k] == Lower(a[k]) && Fold(b)[k] == Lower(b[k]);
      assert Fold(a) == Fold(b) <==> forall k | 0 <= k < |a| :: Fold(a)[k] == Fold(b)[k];
    }
  }

  predicate SameTitle(c: Category, userId: Id, title: string) {
    c.userId == userId && Fold(c.title) == Fold(title)
  }

  predicate TitleTaken(db: Db, userId: Id, title: string, except: Id) {
    exists c | c in db.categories && c != except :: SameTitle(db.categories[c], userId, title)
  }

  predicate OwnsCategory(db: Db, userId: Id, c: Id) {
    c in db.categories && db.categories[c].userId == userId
  }

  function CreateCategory(db: Db, userId: Id, title: string): (Db, Outcome) {
    if TitleTaken(db, userId, title, db.nextCategory) || userId !in db.users then (db, Conflict)
    else (db.(categories := db.categories[db.nextCategory := Category(userId, title)], nextCategory := db.nextCategory + 1), Ok)
  }

  function UpdateCategory(db: Db, userId: Id, c: Id, title: string): (Db, Outcome) {
    if !OwnsCategory(db, userId, c) then (db, NotFound)
    else if TitleTaken(db, userId, title, c) then (db, Conflict)
    else (db.(categories := db.categories[c := Category(userId, title)]), Ok)
  }

  function Uncategorised(f: Feed, c: Id): Feed {
    if f.categoryId == Some(c) then f.(categoryId := None) else f
  }

  /** ON DELETE SET NULL: its feeds stay, without a category. */
  function DeleteCategory(db: Db, userId: Id, c: Id): (Db, Outcome) {
    if !OwnsCategory(db, userId, c) then (db, NotFound)
    else (db.(categories := db.categories - {c}, feeds := map i | i in db.feeds :: Uncategorised(db.feeds[i], c)), Ok)
  }

  // ---- full-content toggle -------------------------------------------------

  function MarkPending(e: Entry, feedId: Id, at: int): Entry {
    if e.feedId == feedId && e.extraction.state in {ExtractNone, ExtractFailed}
    then e.(extraction := Extraction(ExtractPending, 0, Some(at), ""))
    else e
  }

  function CancelExtraction(e: Entry, feedId: Id): Entry {
    if e.feedId == feedId && e.extraction.state in {ExtractPending, ExtractFailed}
    then e.(extraction := e.extraction.(state := ExtractNone, nextAt := None, error := ""))
    else e
  }

  function Toggled(e: Entry, feedId: Id, on: bool, at: int): Entry {
    if on then MarkPending(e, feedId, at) else CancelExtraction(e, feedId)
  }

  function SetFullContent(db: Db, userId: Id, feedId: Id, on: bool, at: int): (Db, Outcome) {
    if !Owns(db, userId, feedId) then (db, NotFound)
    else
      (db.(feeds := db.feeds[feedId := db.feeds[feedId].(fullContent := on)],
           entries := map i | i in db.entries :: Toggled(db.entries[i], feedId, on, at)), Ok)
  }

  // ---- entries -------------------------------------------------------------

  predicate IsRowOf(entries: map<Id, Entry>, i: Id, feedId: Id, guid: string) {
    i in entries && entries[i].feedId == feedId && entries[i].guid == guid
  }

  /** The row UNIQUE(feed_id, guid) makes the only candidate. */
  ghost function FindByGuid(entries: map<Id, Entry>, feedId: Id, guid: string): (r: Option<Id>)
    ensures r.None? ==> forall i :: !IsRowOf(entries, i, feedId, guid)
    ensures r.Some? ==> IsRowOf(entries, r.value, feedId, guid)
  {
    if exists i :: IsRowOf(entries, i, feedId, guid) then
      var i :| IsRowOf(entries, i, feedId, guid);
      Some(i)
    else None
  }

  /** The stored hash of each of `guids` that the feed has a row for. */
  ghost function HashesOf(entries: map<Id, Entry>, feedId: Id, guids: set<string>): map<string, string> {
    map g | g in guids && FindByGuid(entries, feedId, g).Some? :: entries[FindByGuid(entries, feedId, g).value].meta.hash
  }

  function TombstonedOf(tombstones: set<(Id, string)>, feedId: Id, guids: set<string>): set<string> {
    set g | g in guids && (feedId, g) in tombstones
  }

  function InsertRow(plain: string -> string, db: Db, feedId: Id, full: bool, n: NewEntry): Db {
    var e := Entry(n.userId, feedId, n.guid, n.createdAt, n.meta, n.content,
                   plain(n.content), plain(n.meta.summary),
                   Reader(Unread, false, None),
                   Extraction(if full then ExtractPending else ExtractNone, 0,
                              if full then Some(n.createdAt) else None, ""));
    db.(entries := db.entries[db.nextEntry := e],
        nextEntry := db.nextEntry + 1,
        fts := FtsInsert(db.fts, db.nextEntry, IndexDoc(e)))
  }

  /** A poll's refresh of an existing row: UpdateEntryMetadata for an extracted
      entry, whose scraped article it must keep, else UpdateEntryContent. */
  function Refreshed(plain: string -> string, e: Entry, n: NewEntry): Entry {
    if e.extraction.state.ExtractDone?
    then e.(meta := n.meta, summaryText := plain(n.meta.summary))
    else e.(meta := n.meta, summaryText := plain(n.meta.summary),
            content := n.content, contentText := plain(n.content))
  }

  function RefreshRow(plain: string -> string, db: Db, id: Id, n: NewEntry): Db
    requires id in db.entries
  {
    if db.entries[id].meta.hash != n.meta.hash && db.entries[id].userId == n.userId then
      var e := Refreshed(plain, db.entries[id], n);
      db.(entries := db.entries[id := e], fts := FtsUpdate(db, id, e))
    else db
  }

  /** One item of an upsert: tombstoned, existing, or new. */
  ghost function UpsertOne(plain: string -> string, db: Db, feedId: Id, full: bool, n: NewEntry): Db {
    if (feedId, n.guid) in db.tombstones then db
    else match FindByGuid(db.entries, feedId, n.guid)
      case Some(id) => RefreshRow(plain, db, id, n)
      case None => InsertRow(plain, db, feedId, full, n)
  }

  ghost function UpsertAll(plain: string -> string, db: Db, feedId: Id, full: bool, batch: seq<NewEntry>): Db {
    if batch == [] then db
    else
      UpsertOne(plain, UpsertAll(plain, db, feedId, full, batch[..|batch| - 1]), feedId, full, batch[|batch| - 1])
  }

  /** The rows that an upsert inserts, with the ids they get. */
  ghost function UpsertInserted(plain: string -> string, db: Db, feedId: Id, full: bool, batch: seq<NewEntry>): seq<(Id, NewEntry)> {
    if batch == [] then []
    else
      var front, n := batch[..|batch| - 1], batch[|batch| - 1];
      var mid := UpsertAll(plain, db, feedId, full, front);
      UpsertInserted(plain, db, feedId, full, front)
      + (if (feedId, n.guid) !in mid.tombstones && FindByGuid(mid.entries, feedId, n.guid).None?
         then [(mid.nextEntry, n)] else [])
  }

  /** Each inserted row's user exists; otherwise the foreign key rolls all back. */
  ghost predicate Accepted(plain: string -> string, db: Db, feedId: Id, full: bool, batch: seq<NewEntry>) {
    forall x | x in UpsertInserted(plain, db, feedId, full, batch) :: x.1.userId in db.users
  }

  /** The whole transaction, with the feed's flag read inside it. */
  ghost function Upsert(plain: string -> string, db: Db, feedId: Id, batch: seq<NewEntry>): (Db, Outcome) {
    if feedId !in db.feeds then (db, Ok)
    else if !Accepted(plain, db, feedId, db.feeds[feedId].fullContent, batch) then (db, Conflict)
    else (UpsertAll(plain, db, feedId, db.feeds[feedId].fullContent, batch), Ok)
  }

  /** DeleteEntry's transaction, with the (feed, guid) its earlier read returned.
      The tombstone's foreign key fails when the feed is gone; a missing row rolls back. */
  function DeleteEntry(db: Db, userId: Id, id: Id, feedId: Id, guid: string): (Db, Outcome) {
    if feedId !in db.feeds then (db, Conflict)
    else if id !in db.entries || db.entries[id].userId != userId then (db, NotFound)
    else
      (db.(tombstones := db.tombstones + {(feedId, guid)},
           entries := db.entries - {id},
           fts := FtsDelete(db.fts, id, IndexDoc(db.entries[id]))), Ok)
  }

  /** DeleteEntry by a caller whom nothing disturbs between its read and its transaction. */
  function DeleteEntryAtOnce(db: Db, userId: Id, id: Id): (Db, Outcome) {
    if id !in db.entries || db.entries[id].userId != userId then (db, NotFound)
    else DeleteEntry(db, userId, id, db.entries[id].feedId, db.entries[id].guid)
  }

  /** Guarded on 'pending', so a stale scrape cannot overwrite a settled row. */
  function SetEntryContent(plain: string -> string, db: Db, id: Id, content: string): Db {
    if id in db.entries && db.entries[id].extraction.state.ExtractPending? then
      var e := db.entries[id];
      var e' := e.(content := content, contentText := plain(content),
                   extraction := e.extraction.(state := ExtractDone, nextAt := None, error := ""));
      db.(entries := db.entries[id := e'], fts := FtsUpdate(db, id, e'))
    else db
  }

  /** Unguarded: whatever state the row is in, it takes the one given. */
  function UpdateExtractState(db: Db, id: Id, x: Extraction): Db {
    if id in db.entries then db.(entries := db.entries[id := db.entries[id].(extraction := x)]) else db
  }

  // ---- reader state --------------------------------------------------------

  function SetReader(db: Db, ids: set<Id>, userId: Id, f: Reader -> Reader): Db {
    db.(entries := map i | i in db.entries ::
          if i in ids && db.entries[i].userId == userId
          then db.entries[i].(reader := f(db.entries[i].reader))
          else db.entries[i])
  }

  function WithStatus(r: Reader, status: Status, now: int): Reader {
    r.(status := status, readAt := if status.Read? then Some(now) else None)
  }

  function SetStatus(db: Db, userId: Id, ids: set<Id>, status: Status, now: int): Db {
    SetReader(db, ids, userId, r => WithStatus(r, status, now))
  }

  function SetStarred(db: Db, userId: Id, ids: set<Id>, starred: bool): Db {
    SetReader(db, ids, userId, (r: Reader) => r.(starred := starred))
  }

  /** The feeds that MarkReadByFilter selects: one, a category's, those without one, or all. */
  datatype Selection = OneFeed(feed: Id) | InCategory(category: Id) | NoCategory | AllFeeds

  predicate Selects(db: Db, userId: Id, sel: Selection, feedId: Id) {
    match sel
    case OneFeed(f) => feedId == f
    case InCategory(c) => Owns(db, userId, feedId) && db.feeds[feedId].categoryId == Some(c)
    case NoCategory => Owns(db, userId, feedId) && db.feeds[feedId].categoryId == None
    case AllFeeds => true
  }

  function MarkRead(db: Db, userId: Id, sel: Selection, now: int): Db {
    var unread := set i | i in db.entries && db.entries[i].reader.status.Unread? && Selects(db, userId, sel, db.entries[i].feedId);
    SetReader(db, unread, userId, r => WithStatus(r, Read, now))
  }
}
