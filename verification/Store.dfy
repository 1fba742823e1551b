/** The store itself: tables it changes in place, one method per operation, each
    proved to perform exactly its statement or transaction of module Sql. */
module Stores {
  import opened Rows
  import opened Sql
  import opened Invariants

  class Store {
    const plain: string -> string
    var users: set<Id>
    var categories: map<Id, Category>
    var feeds: map<Id, Feed>
    var entries: map<Id, Entry>
    var tombstones: set<(Id, string)>
    var nextCategory: Id
    var nextFeed: Id
    var nextEntry: Id
    var fts: Fts
    var updateTrigger: bool
    var backfilled: bool

    constructor (plain: string -> string, users: set<Id>)
      ensures this.plain == plain && Snapshot() == EmptyDb(users)
    {
      this.plain, this.users := plain, users;
      categories, feeds, entries, tombstones := map[], map[], map[], {};
      nextCategory, nextFeed, nextEntry := 1, 1, 1;
      fts, updateTrigger, backfilled := Fts(map[], false), true, true;
    }

    ghost function Snapshot(): Db
      reads this
    {
      Db(users, categories, feeds, entries, tombstones, nextCategory, nextFeed, nextEntry, fts, updateTrigger, backfilled)
    }

    // ---- reads -------------------------------------------------------------

    method GetFeed(userId: Id, feedId: Id) returns (r: Option<Feed>)
      ensures r == if Owns(Snapshot(), userId, feedId) then Some(feeds[feedId]) else None
    {
      r := if feedId in feeds && feeds[feedId].userId == userId then Some(feeds[feedId]) else None;
    }

    method GetEntry(userId: Id, entryId: Id) returns (r: Option<Entry>)
      ensures r.Some? <==> entryId in entries && entries[entryId].userId == userId
      ensures r.Some? ==> r.value == entries[entryId]
    {
      r := if entryId in entries && entries[entryId].userId == userId then Some(entries[entryId]) else None;
    }

    /** A scan for the row with this (feed, guid); uniqueness makes it the one. */
    method GetEntryByGUID(feedId: Id, guid: string) returns (r: Option<Id>)
      requires UniqueGuids(Snapshot())
      ensures r == FindByGuid(entries, feedId, guid)
    {
      var rest := entries.Keys;
      while exists i :: i in rest
        invariant rest <= entries.Keys
        invariant forall i | i in entries.Keys - rest :: !IsRowOf(entries, i, feedId, guid)
        decreases rest
      {
        var i :| i in rest;
        if entries[i].feedId == feedId && entries[i].guid == guid {
          assert IsRowOf(entries, i, feedId, guid);
          return Some(i);
        }
        rest := rest - {i};
      }
      return None;
    }

    /** The rows of one chunk's IN list: SELECT guid, hash ... WHERE guid IN (...). */
    method ChunkHashes(feedId: Id, chunk: seq<string>) returns (hashes: map<string, string>)
      requires UniqueGuids(Snapshot())
      ensures hashes == HashesOf(entries, feedId, Elems(chunk))
    {
      hashes := map[];
      var rest := entries.Keys;
      while exists i :: i in rest
        invariant rest <= entries.Keys
        invariant forall g | g in hashes :: g in chunk && exists i | i in entries.Keys - rest :: IsRowOf(entries, i, feedId, g) && hashes[g] == entries[i].meta.hash
        invariant forall i | i in entries.Keys - rest :: entries[i].feedId == feedId && entries[i].guid in chunk ==> entries[i].guid in hashes
        decreases rest
      {
        var i :| i in rest;
        if entries[i].feedId == feedId && entries[i].guid in chunk {
          assert IsRowOf(entries, i, feedId, entries[i].guid);
          hashes := hashes[entries[i].guid := entries[i].meta.hash];
        }
        rest := rest - {i};
      }
      assert rest == {};
      var whole := HashesOf(entries, feedId, Elems(chunk));
      forall g ensures g in hashes <==> g in whole {
        if g in whole {
          var i := FindByGuid(entries, feedId, g).value;
          assert entries[i].guid in hashes;
        }
        if g in hashes {
          assert exists i :: IsRowOf(entries, i, feedId, g);
        }
      }
      assert forall g | g in hashes :: hashes[g] == whole[g];
    }

    /** EntryDedup: the lookup in chunks of 500 equals one lookup of all guids. */
    method EntryDedup(feedId: Id, guids: seq<string>) returns (existing: map<string, string>, tombstoned: set<string>)
      requires UniqueGuids(Snapshot())
      ensures existing == HashesOf(entries, feedId, Elems(guids))
      ensures tombstoned == TombstonedOf(tombstones, feedId, Elems(guids))
    {
      existing, tombstoned := map[], {};
      var start := 0;
      while start < |guids|
        invariant 0 <= start <= |guids|
        invariant existing == HashesOf(entries, feedId, Elems(guids[..start]))
        invariant tombstoned == TombstonedOf(tombstones, feedId, Elems(guids[..start]))
        decreases |guids| - start
      {
        var end := if start + 500 < |guids| then start + 500 else |guids|;
        var chunk := guids[start..end];
        var hashes := ChunkHashes(feedId, chunk);
        existing := existing + hashes;
        tombstoned := tombstoned + TombstonedOf(tombstones, feedId, Elems(chunk));
        assert guids[..end] == guids[..start] + chunk;
        LookupJoins(entries, tombstones, feedId, guids[..start], chunk);
        start := end;
      }
      assert guids[..start] == guids;
    }

    // ---- feeds -------------------------------------------------------------

    method IsUrlTaken(userId: Id, url: string, except: Id) returns (taken: bool)
      ensures taken == UrlTaken(Snapshot(), userId, url, except)
    {
      var rest := feeds.Keys;
      while exists i :: i in rest
        invariant rest <= feeds.Keys
        invariant forall i | i in feeds.Keys - rest && i != except :: !(feeds[i].userId == userId && feeds[i].feedUrl == url)
        decreases rest
      {
        var i :| i in rest;
        if i != except && feeds[i].userId == userId && feeds[i].feedUrl == url {
          return true;
        }
        rest := rest - {i};
      }
      return false;
    }

    method CreateFeed(f: Feed) returns (id: Id, outcome: Outcome)
      modifies this
      ensures (Snapshot(), outcome) == Sql.CreateFeed(old(Snapshot()), f)
      ensures outcome.Ok? ==> id == old(nextFeed)
    {
      var taken := IsUrlTaken(f.userId, f.feedUrl, nextFeed);
      if taken {
        return 0, Conflict;
      }
      if f.userId !in users || (f.categoryId.Some? && f.categoryId.value !in categories) {
        return 0, Conflict;
      }
      id := nextFeed;
      nextFeed := nextFeed + 1;
      feeds := feeds[id := f.(userTitle := "")];
      outcome := Ok;
    }

    method UpdateFeed(userId: Id, feedId: Id, url: string, p: PollState)
      modifies this
      ensures Snapshot() == Sql.UpdateFeed(old(Snapshot()), userId, feedId, url, p)
    {
      if feedId in feeds && feeds[feedId].userId == userId && feeds[feedId].feedUrl == url {
        feeds := feeds[feedId := feeds[feedId].(poll := p)];
      }
    }

    method SetFeedURL(userId: Id, feedId: Id, url: string, now: int) returns (outcome: Outcome)
      modifies this
      ensures (Snapshot(), outcome) == Sql.SetFeedURL(old(Snapshot()), userId, feedId, url, now)
    {
      if feedId !in feeds || feeds[feedId].userId != userId {
        return NotFound;
      }
      var taken := IsUrlTaken(userId, url, feedId);
      if taken {
        return Conflict;
      }
      var f := feeds[feedId];
      feeds := feeds[feedId := f.(feedUrl := url, poll := f.poll.(etag := "", lastModified := "", nextCheckAt := now))];
      return Ok;
    }

    method SetFeedUserTitle(userId: Id, feedId: Id, title: string) returns (outcome: Outcome)
      modifies this
      ensures (Snapshot(), outcome) == SetUserTitle(old(Snapshot()), userId, feedId, title)
    {
      if feedId !in feeds || feeds[feedId].userId != userId {
        return NotFound;
      }
      feeds := feeds[feedId := feeds[feedId].(userTitle := title)];
      return Ok;
    }

    method SetFeedCategory(userId: Id, feedId: Id, category: Option<Id>) returns (outcome: Outcome)
      modifies this
      ensures (Snapshot(), outcome) == SetCategory(old(Snapshot()), userId, feedId, category)
    {
      if feedId !in feeds || feeds[feedId].userId != userId {
        return NotFound;
      }
      if userId !in users || (category.Some? && category.value !in categories) {
        return Conflict;
      }
      feeds := feeds[feedId := feeds[feedId].(categoryId := category)];
      return Ok;
    }

    method IsTitleTaken(userId: Id, title: string, except: Id) returns (taken: bool)
      ensures taken == TitleTaken(Snapshot(), userId, title, except)
    {
      var rest := categories.Keys;
      while exists c :: c in rest
        invariant rest <= categories.Keys
        invariant forall c | c in categories.Keys - rest && c != except :: !SameTitle(categories[c], userId, title)
        decreases rest
      {
        var c :| c in rest;
        if c != except && categories[c].userId == userId && Fold(categories[c].title) == Fold(title) {
          return true;
        }
        rest := rest - {c};
      }
      return false;
    }

    method GetCategory(userId: Id, id: Id) returns (r: Option<Category>)
      ensures r == if OwnsCategory(Snapshot(), userId, id) then Some(categories[id]) else None
    {
      r := if id in categories && categories[id].userId == userId then Some(categories[id]) else None;
    }

    method CreateCategory(userId: Id, title: string) returns (id: Id, outcome: Outcome)
      modifies this
      ensures (Snapshot(), outcome) == Sql.CreateCategory(old(Snapshot()), userId, title)
      ensures outcome.Ok? ==> id == old(nextCategory)
    {
      var taken := IsTitleTaken(userId, title, nextCategory);
      if taken || userId !in users {
        return 0, Conflict;
      }
      id := nextCategory;
      nextCategory := nextCategory + 1;
      categories := categories[id := Category(userId, title)];
      outcome := Ok;
    }

    method UpdateCategory(userId: Id, id: Id, title: string) returns (outcome: Outcome)
      modifies this
      ensures (Snapshot(), outcome) == Sql.UpdateCategory(old(Snapshot()), userId, id, title)
    {
      if id !in categories || categories[id].userId != userId {
        return NotFound;
      }
      var taken := IsTitleTaken(userId, title, id);
      if taken {
        return Conflict;
      }
      categories := categories[id := Category(userId, title)];
      return Ok;
    }

    /** ON DELETE SET NULL visits the category's feeds one by one, in any order. */
    method DeleteCategory(userId: Id, id: Id) returns (outcome: Outcome)
      modifies this
      ensures (Snapshot(), outcome) == Sql.DeleteCategory(old(Snapshot()), userId, id)
    {
      if id !in categories || categories[id].userId != userId {
        return NotFound;
      }
      ghost var before := feeds;
      var rest := feeds.Keys;
      while exists i :: i in rest
        invariant rest <= feeds.Keys == before.Keys
        invariant forall i | i in before :: feeds[i] == if i in rest then before[i] else Uncategorised(before[i], id)
        invariant Snapshot() == old(Snapshot()).(feeds := feeds)
        decreases rest
      {
        var i :| i in rest;
        if feeds[i].categoryId == Some(id) {
          feeds := feeds[i := feeds[i].(categoryId := None)];
        }
        rest := rest - {i};
      }
      SameMap(feeds, map i | i in before :: Uncategorised(before[i], id));
      categories := categories - {id};
      return Ok;
    }

    /** The cascade removes the feed's entries one by one, each firing the index's
        delete trigger, then its tombstones. */
    method DeleteFeed(userId: Id, feedId: Id) returns (outcome: Outcome)
      modifies this
      ensures (Snapshot(), outcome) == Sql.DeleteFeed(old(Snapshot()), userId, feedId)
    {
      if feedId !in feeds || feeds[feedId].userId != userId {
        return NotFound;
      }
      DropEntries(feedId);
      tombstones := set t | t in tombstones && t.0 != feedId;
      feeds := feeds - {feedId};
      return Ok;
    }

    /** The cascade to entries, in any order. */
    method DropEntries(feedId: Id)
      modifies this`entries, this`fts
      ensures entries == old(entries) - EntriesOf(old(entries), feedId)
      ensures fts == FtsDeleteAll(old(fts), old(entries), EntriesOf(old(entries), feedId))
    {
      ghost var rows, index := entries, fts;
      var gone := set i | i in entries && entries[i].feedId == feedId;
      var rest := gone;
      while exists i :: i in rest
        invariant rest <= gone == EntriesOf(rows, feedId)
        invariant entries == rows - (gone - rest)
        invariant fts == FtsDeleteAll(index, rows, gone - rest)
        decreases rest
      {
        var i :| i in rest;
        FtsDeleteOneMore(index, rows, gone - rest, i);
        assert gone - (rest - {i}) == (gone - rest) + {i};
        fts := FtsDelete(fts, i, IndexDoc(entries[i]));
        entries := entries - {i};
        rest := rest - {i};
      }
      assert gone - rest == gone;
    }

    /** One transaction: flip the flag, then reconcile the backlog. */
    method SetFeedFullContent(userId: Id, feedId: Id, on: bool, at: int) returns (outcome: Outcome)
      modifies this
      ensures (Snapshot(), outcome) == SetFullContent(old(Snapshot()), userId, feedId, on, at)
    {
      if feedId !in feeds || feeds[feedId].userId != userId {
        return NotFound;
      }
      feeds := feeds[feedId := feeds[feedId].(fullContent := on)];
      if on {
        MarkFeedEntriesPending(feedId, at);
      } else {
        CancelFeedExtractions(feedId);
      }
      SameMap(entries, SetFullContent(old(Snapshot()), userId, feedId, on, at).0.entries);
      return Ok;
    }

    method MarkFeedEntriesPending(feedId: Id, at: int)
      modifies this`entries
      ensures entries.Keys == old(entries).Keys
      ensures forall i | i in entries :: entries[i] == MarkPending(old(entries)[i], feedId, at)
    {
      ghost var before := entries;
      var rest := entries.Keys;
      while exists i :: i in rest
        invariant rest <= entries.Keys == before.Keys
        invariant forall i | i in before :: entries[i] == if i in rest then before[i] else MarkPending(before[i], feedId, at)
        decreases rest
      {
        var i :| i in rest;
        var e := entries[i];
        if e.feedId == feedId && (e.extraction.state == ExtractNone || e.extraction.state == ExtractFailed) {
          entries := entries[i := e.(extraction := Extraction(ExtractPending, 0, Some(at), ""))];
        }
        rest := rest - {i};
      }
    }

    method CancelFeedExtractions(feedId: Id)
      modifies this`entries
      ensures entries.Keys == old(entries).Keys
      ensures forall i | i in entries :: entries[i] == CancelExtraction(old(entries)[i], feedId)
    {
      ghost var before := entries;
      var rest := entries.Keys;
      while exists i :: i in rest
        invariant rest <= entries.Keys == before.Keys
        invariant forall i | i in before :: entries[i] == if i in rest then before[i] else CancelExtraction(before[i], feedId)
        decreases rest
      {
        var i :| i in rest;
        var e := entries[i];
        if e.feedId == feedId && (e.extraction.state == ExtractPending || e.extraction.state == ExtractFailed) {
          entries := entries[i := e.(extraction := e.extraction.(state := ExtractNone, nextAt := None, error := ""))];
        }
        rest := rest - {i};
      }
    }

    // ---- entries -----------------------------------------------------------

    /** One transaction: a failed foreign key rolls back what the batch did so far. */
    method UpsertEntries(feedId: Id, batch: seq<NewEntry>) returns (inserted: seq<(Id, NewEntry)>, outcome: Outcome)
      requires References(Snapshot()) && UniqueGuids(Snapshot())
      modifies this
      ensures (Snapshot(), outcome) == Upsert(plain, old(Snapshot()), feedId, batch)
      ensures inserted == if feedId in old(feeds) && outcome.Ok?
                          then UpsertInserted(plain, old(Snapshot()), feedId, old(feeds)[feedId].fullContent, batch)
                          else []
    {
      if feedId !in feeds {
        return [], Ok;
      }
      var began := (entries, fts, nextEntry);
      var ok;
      inserted, ok := UpsertItems(feedId, feeds[feedId].fullContent, batch);
      if !ok {
        entries, fts, nextEntry := began.0, began.1, began.2;
        return [], Conflict;
      }
      outcome := Ok;
    }

    /** The loop of the transaction, which ends at the first failed foreign key. */
    method UpsertItems(feedId: Id, full: bool, batch: seq<NewEntry>) returns (inserted: seq<(Id, NewEntry)>, ok: bool)
      requires RowsNumbered(Snapshot()) && UniqueGuids(Snapshot())
      modifies this`entries, this`fts, this`nextEntry
      ensures ok <==> Accepted(plain, old(Snapshot()), feedId, full, batch)
      ensures ok ==> Snapshot() == UpsertAll(plain, old(Snapshot()), feedId, full, batch)
      ensures ok ==> inserted == UpsertInserted(plain, old(Snapshot()), feedId, full, batch)
    {
      ghost var before := Snapshot();
      inserted := [];
      for k := 0 to |batch|
        invariant Snapshot() == UpsertAll(plain, before, feedId, full, batch[..k])
        invariant inserted == UpsertInserted(plain, before, feedId, full, batch[..k])
        invariant forall x | x in inserted :: x.1.userId in users
        invariant RowsNumbered(Snapshot()) && UniqueGuids(Snapshot())
      {
        assert batch[..k + 1][..k] == batch[..k];
        var id;
        id, ok := UpsertItem(feedId, full, batch[k]);
        if !ok {
          StaysRefused(plain, before, feedId, full, batch, k);
          return [], false;
        }
        if id.Some? {
          inserted := inserted + [(id.value, batch[k])];
        }
      }
      assert batch[..|batch|] == batch;
      ok := true;
    }

    /** One item: the id of the row it inserts, if any; not `ok` when that row's user
        does not exist. */
    method UpsertItem(feedId: Id, full: bool, n: NewEntry) returns (id: Option<Id>, ok: bool)
      requires RowsNumbered(Snapshot()) && UniqueGuids(Snapshot())
      modifies this`entries, this`fts, this`nextEntry
      ensures id.Some? <==> (feedId, n.guid) !in old(tombstones) && FindByGuid(old(entries), feedId, n.guid).None?
      ensures id.Some? ==> id.value == old(nextEntry)
      ensures ok == (id.Some? ==> n.userId in users)
      ensures Snapshot() == if ok then UpsertOne(plain, old(Snapshot()), feedId, full, n) else old(Snapshot())
      ensures RowsNumbered(Snapshot()) && UniqueGuids(Snapshot())
    {
      id, ok := None, true;
      if (feedId, n.guid) in tombstones {
        return;
      }
      var existing := GetEntryByGUID(feedId, n.guid);
      match existing {
        case None =>
          ok := n.userId in users;
          id := Some(nextEntry);
          if ok {
            var _ := InsertEntry(feedId, full, n);
          }
        case Some(i) =>
          if entries[i].meta.hash != n.meta.hash {
            UpdateEntry(i, n);
          }
      }
    }

    /** Ids already given out are below the next one. */
    ghost predicate RowsNumbered(db: Db) {
      forall i | i in db.entries :: i < db.nextEntry
    }

    method InsertEntry(feedId: Id, full: bool, n: NewEntry) returns (id: Id)
      requires RowsNumbered(Snapshot()) && UniqueGuids(Snapshot())
      requires FindByGuid(entries, feedId, n.guid).None?
      modifies this`entries, this`fts, this`nextEntry
      ensures id == old(nextEntry) && Snapshot() == InsertRow(plain, old(Snapshot()), feedId, full, n)
      ensures id in fts.docs && fts.docs[id] == Doc(n.meta.title, plain(n.content), plain(n.meta.summary))
      ensures RowsNumbered(Snapshot()) && UniqueGuids(Snapshot())
    {
      var state, nextAt := ExtractNone, None;
      if full {
        state, nextAt := ExtractPending, Some(n.createdAt);
      }
      id := nextEntry;
      var e := Entry(n.userId, feedId, n.guid, n.createdAt, n.meta, n.content,
                     plain(n.content), plain(n.meta.summary),
                     Reader(Unread, false, None), Extraction(state, 0, nextAt, ""));
      assert forall i | i in entries :: !IsRowOf(entries, i, feedId, n.guid);
      fts := FtsInsert(fts, id, IndexDoc(e));
      entries := entries[id := e];
      nextEntry := nextEntry + 1;
    }

    /** UpdateEntryMetadata for an extracted entry, else UpdateEntryContent. */
    method UpdateEntry(id: Id, n: NewEntry)
      requires id in entries && entries[id].meta.hash != n.meta.hash
      requires RowsNumbered(Snapshot()) && UniqueGuids(Snapshot())
      modifies this`entries, this`fts
      ensures Snapshot() == RefreshRow(plain, old(Snapshot()), id, n)
      ensures updateTrigger && old(entries)[id].userId == n.userId ==>
                id in fts.docs && fts.docs[id].title == n.meta.title && fts.docs[id].summary == plain(n.meta.summary)
      ensures RowsNumbered(Snapshot()) && UniqueGuids(Snapshot())
    {
      if entries[id].userId != n.userId {
        return;
      }
      var e := entries[id].(meta := n.meta, summaryText := plain(n.meta.summary));
      if entries[id].extraction.state != ExtractDone {
        e := e.(content := n.content, contentText := plain(n.content));
      }
      if updateTrigger {
        fts := FtsInsert(FtsDelete(fts, id, IndexDoc(entries[id])), id, IndexDoc(e));
      }
      entries := entries[id := e];
    }

    /** The transaction of DeleteEntry, given what its earlier read returned. */
    method DeleteEntryTx(userId: Id, id: Id, feedId: Id, guid: string) returns (outcome: Outcome)
      modifies this
      ensures (Snapshot(), outcome) == Sql.DeleteEntry(old(Snapshot()), userId, id, feedId, guid)
    {
      if feedId !in feeds {
        return Conflict;
      }
      if id !in entries || entries[id].userId != userId {
        return NotFound;
      }
      tombstones := tombstones + {(feedId, guid)};
      fts := FtsDelete(fts, id, IndexDoc(entries[id]));
      entries := entries - {id};
      return Ok;
    }

    /** DeleteEntry: the read for ownership and key, then the transaction. */
    method DeleteEntry(userId: Id, id: Id) returns (outcome: Outcome)
      modifies this
      ensures (Snapshot(), outcome) == DeleteEntryAtOnce(old(Snapshot()), userId, id)
    {
      var e := GetEntry(userId, id);
      if e.None? {
        return NotFound;
      }
      outcome := DeleteEntryTx(userId, id, e.value.feedId, e.value.guid);
    }

    method SetEntryContent(id: Id, content: string)
      modifies this
      ensures Snapshot() == Sql.SetEntryContent(plain, old(Snapshot()), id, content)
      ensures updateTrigger && id in old(entries) && old(entries)[id].extraction.state.ExtractPending? ==>
                id in fts.docs && fts.docs[id].content == plain(content)
    {
      if id in entries && entries[id].extraction.state == ExtractPending {
        var e := entries[id];
        var e' := e.(content := content, contentText := plain(content),
                     extraction := e.extraction.(state := ExtractDone, nextAt := None, error := ""));
        if updateTrigger {
          fts := FtsInsert(FtsDelete(fts, id, IndexDoc(e)), id, IndexDoc(e'));
        }
        entries := entries[id := e'];
      }
    }

    method UpdateExtractState(id: Id, x: Extraction)
      modifies this
      ensures Snapshot() == Sql.UpdateExtractState(old(Snapshot()), id, x)
    {
      if id in entries {
        entries := entries[id := entries[id].(extraction := x)];
      }
    }
  }

  /** An item whose row is refused is refused with any items after it. */
  lemma StaysRefused(plain: string -> string, db: Db, feedId: Id, full: bool, batch: seq<NewEntry>, k: nat)
    requires k < |batch| && batch[k].userId !in db.users
    requires var mid := UpsertAll(plain, db, feedId, full, batch[..k]);
             (feedId, batch[k].guid) !in mid.tombstones && FindByGuid(mid.entries, feedId, batch[k].guid).None?
    ensures !Accepted(plain, db, feedId, full, batch)
  {
    var mid := UpsertAll(plain, db, feedId, full, batch[..k]);
    var x := (mid.nextEntry, batch[k]);
    assert batch[..k + 1][..k] == batch[..k];
    assert UpsertInserted(plain, db, feedId, full, batch[..k + 1])[|UpsertInserted(plain, db, feedId, full, batch[..k])|] == x;
    InsertedGrows(plain, db, feedId, full, batch, k + 1, x);
  }

  lemma {:induction false} InsertedGrows(plain: string -> string, db: Db, feedId: Id, full: bool, batch: seq<NewEntry>, k: nat, x: (Id, NewEntry))
    requires k <= |batch| && x in UpsertInserted(plain, db, feedId, full, batch[..k])
    ensures x in UpsertInserted(plain, db, feedId, full, batch)
  {
    if k == |batch| {
      assert batch[..k] == batch;
    } else {
      assert batch[..|batch| - 1][..k] == batch[..k];
      InsertedGrows(plain, db, feedId, full, batch[..|batch| - 1], k, x);
    }
  }

  function Elems(s: seq<string>): set<string> {
    set g | g in s
  }

  lemma LookupJoins(entries: map<Id, Entry>, tombstones: set<(Id, string)>, feedId: Id, a: seq<string>, b: seq<string>)
    ensures HashesOf(entries, feedId, Elems(a + b)) == HashesOf(entries, feedId, Elems(a)) + HashesOf(entries, feedId, Elems(b))
    ensures TombstonedOf(tombstones, feedId, Elems(a + b)) == TombstonedOf(tombstones, feedId, Elems(a)) + TombstonedOf(tombstones, feedId, Elems(b))
  {
    assert Elems(a + b) == Elems(a) + Elems(b);
  }

  /** The cascade may visit the rows in any order. */
  lemma FtsDeleteOneMore(fts: Fts, entries: map<Id, Entry>, ids: set<Id>, i: Id)
    requires ids <= entries.Keys && i in entries && i !in ids
    ensures FtsDelete(FtsDeleteAll(fts, entries, ids), i, IndexDoc(entries[i])) == FtsDeleteAll(fts, entries, ids + {i})
  {
    assert fts.docs - ids - {i} == fts.docs - (ids + {i});
  }
}
