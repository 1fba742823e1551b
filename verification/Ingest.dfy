/** The pre-filter of ingest: items that are tombstoned or unchanged are dropped
    before sanitising. Upserting the rest has the same effect as upserting all of
    them, on every store, exactly when no guid occurs with two different hashes. */
module Ingest {
  import opened Rows
  import opened Sql
  import opened Invariants

  predicate Keeps(existing: map<string, string>, tombstoned: set<string>, n: NewEntry) {
    n.guid !in tombstoned && !(n.guid in existing && existing[n.guid] == n.meta.hash)
  }

  function Filter(existing: map<string, string>, tombstoned: set<string>, batch: seq<NewEntry>): seq<NewEntry> {
    if batch == [] then []
    else
      Filter(existing, tombstoned, batch[..|batch| - 1])
      + (if Keeps(existing, tombstoned, batch[|batch| - 1]) then [batch[|batch| - 1]] else [])
  }

  /** What is kept: items that are not tombstoned, and whose hash is not the one stored. */
  lemma {:induction false} KeptIff(existing: map<string, string>, tombstoned: set<string>, batch: seq<NewEntry>, n: NewEntry)
    ensures n in Filter(existing, tombstoned, batch)
            <==> n in batch && n.guid !in tombstoned && (n.guid in existing ==> existing[n.guid] != n.meta.hash)
  {
    if batch != [] {
      KeptIff(existing, tombstoned, batch[..|batch| - 1], n);
      assert n in batch <==> n in batch[..|batch| - 1] || n == batch[|batch| - 1];
    }
  }

  function Guids(batch: seq<NewEntry>): set<string> {
    set n | n in batch :: n.guid
  }

  /** The batch as ingest hands it to UpsertEntries, looked up in the same store. */
  ghost function Filtered(db: Db, feedId: Id, batch: seq<NewEntry>): seq<NewEntry> {
    Filter(HashesOf(db.entries, feedId, Guids(batch)), TombstonedOf(db.tombstones, feedId, Guids(batch)), batch)
  }

  ghost predicate OneHashPerGuid(batch: seq<NewEntry>) {
    forall i, j | 0 <= i < |batch| && 0 <= j < |batch| && batch[i].guid == batch[j].guid
      :: batch[i].meta.hash == batch[j].meta.hash
  }

  ghost predicate Numbered(db: Db) {
    (forall i | i in db.entries :: i < db.nextEntry) && UniqueGuids(db)
  }

  lemma UpsertOneKeepsNumbered(plain: string -> string, db: Db, feedId: Id, full: bool, n: NewEntry)
    requires Numbered(db)
    ensures Numbered(UpsertOne(plain, db, feedId, full, n))
    ensures UpsertOne(plain, db, feedId, full, n).tombstones == db.tombstones
  {
    if FindByGuid(db.entries, feedId, n.guid).None? {
      assert forall i | i in db.entries :: !IsRowOf(db.entries, i, feedId, n.guid);
    }
  }

  lemma {:induction false} UpsertAllKeepsNumbered(plain: string -> string, db: Db, feedId: Id, full: bool, batch: seq<NewEntry>)
    requires Numbered(db)
    ensures Numbered(UpsertAll(plain, db, feedId, full, batch))
    ensures UpsertAll(plain, db, feedId, full, batch).tombstones == db.tombstones
  {
    if batch != [] {
      UpsertAllKeepsNumbered(plain, db, feedId, full, batch[..|batch| - 1]);
      UpsertOneKeepsNumbered(plain, UpsertAll(plain, db, feedId, full, batch[..|batch| - 1]), feedId, full, batch[|batch| - 1]);
    }
  }

  /** A row whose guid the batch repeats only with the stored hash stays as it is. */
  lemma {:induction false} UnchangedRowStays(plain: string -> string, db: Db, feedId: Id, full: bool, batch: seq<NewEntry>, id: Id)
    requires Numbered(db) && id in db.entries && db.entries[id].feedId == feedId
    requires forall n | n in batch && n.guid == db.entries[id].guid :: n.meta.hash == db.entries[id].meta.hash
    ensures var r := UpsertAll(plain, db, feedId, full, batch);
            id in r.entries && r.entries[id] == db.entries[id]
  {
    if batch != [] {
      var front, n := batch[..|batch| - 1], batch[|batch| - 1];
      UnchangedRowStays(plain, db, feedId, full, front, id);
      UpsertAllKeepsNumbered(plain, db, feedId, full, front);
      var mid := UpsertAll(plain, db, feedId, full, front);
      if n.guid == db.entries[id].guid {
        assert IsRowOf(mid.entries, id, feedId, n.guid);
        assert n in batch;
      }
    }
  }

  /** Same store (ids included), same list of inserted rows, and committed or not alike. */
  ghost predicate SameEffect(plain: string -> string, db: Db, feedId: Id, full: bool, batch: seq<NewEntry>) {
    var kept := Filtered(db, feedId, batch);
    && UpsertAll(plain, db, feedId, full, kept) == UpsertAll(plain, db, feedId, full, batch)
    && UpsertInserted(plain, db, feedId, full, kept) == UpsertInserted(plain, db, feedId, full, batch)
    && Accepted(plain, db, feedId, full, kept) == Accepted(plain, db, feedId, full, batch)
  }

  ghost predicate Transparent(plain: string -> string, batch: seq<NewEntry>) {
    forall db, feedId, full | Numbered(db) :: SameEffect(plain, db, feedId, full, batch)
  }

  /** Skipping an item that the lookup found unchanged or tombstoned loses nothing. */
  lemma DroppedIsNoOp(plain: string -> string, db: Db, feedId: Id, full: bool, batch: seq<NewEntry>)
    requires Numbered(db) && batch != [] && OneHashPerGuid(batch)
    requires var n := batch[|batch| - 1];
             || (feedId, n.guid) in db.tombstones
             || (FindByGuid(db.entries, feedId, n.guid).Some?
                 && db.entries[FindByGuid(db.entries, feedId, n.guid).value].meta.hash == n.meta.hash)
    ensures var front, n := batch[..|batch| - 1], batch[|batch| - 1];
            && UpsertAll(plain, db, feedId, full, batch) == UpsertAll(plain, db, feedId, full, front)
            && UpsertInserted(plain, db, feedId, full, batch) == UpsertInserted(plain, db, feedId, full, front)
  {
    var front, n := batch[..|batch| - 1], batch[|batch| - 1];
    UpsertAllKeepsNumbered(plain, db, feedId, full, front);
    var mid := UpsertAll(plain, db, feedId, full, front);
    if (feedId, n.guid) !in db.tombstones {
      var id := FindByGuid(db.entries, feedId, n.guid).value;
      UnchangedRowStays(plain, db, feedId, full, front, id);
      assert IsRowOf(mid.entries, id, feedId, n.guid);
      assert FindByGuid(mid.entries, feedId, n.guid) == Some(id);
    }
  }

  lemma {:induction false} FilterTransparentFor(plain: string -> string, db: Db, feedId: Id, full: bool, batch: seq<NewEntry>, guids: set<string>)
    requires Numbered(db) && OneHashPerGuid(batch) && Guids(batch) <= guids
    ensures var kept := Filter(HashesOf(db.entries, feedId, guids), TombstonedOf(db.tombstones, feedId, guids), batch);
            && UpsertAll(plain, db, feedId, full, kept) == UpsertAll(plain, db, feedId, full, batch)
            && UpsertInserted(plain, db, feedId, full, kept) == UpsertInserted(plain, db, feedId, full, batch)
  {
    if batch != [] {
      var front, n := batch[..|batch| - 1], batch[|batch| - 1];
      var hashes, tombs := HashesOf(db.entries, feedId, guids), TombstonedOf(db.tombstones, feedId, guids);
      FilterTransparentFor(plain, db, feedId, full, front, guids);
      assert n in batch;
      if Keeps(hashes, tombs, n) {
        var kept := Filter(hashes, tombs, front);
        assert Filter(hashes, tombs, batch) == kept + [n];
        assert (kept + [n])[..|kept + [n]| - 1] == kept;
      } else {
        assert Filter(hashes, tombs, batch) == Filter(hashes, tombs, front);
        DroppedIsNoOp(plain, db, feedId, full, batch);
      }
    }
  }

  // ---- the premise is exact ------------------------------------------------

  function LastHash(batch: seq<NewEntry>, guid: string, otherwise: string): string {
    if batch == [] then otherwise
    else if batch[|batch| - 1].guid == guid then batch[|batch| - 1].meta.hash
    else LastHash(batch[..|batch| - 1], guid, otherwise)
  }

  lemma UpsertOneSetsHash(plain: string -> string, db: Db, feedId: Id, full: bool, n: NewEntry, id: Id)
    requires Numbered(db) && id in db.entries && db.entries[id].feedId == feedId && db.entries[id].userId == n.userId
    requires (feedId, db.entries[id].guid) !in db.tombstones
    ensures var r, e := UpsertOne(plain, db, feedId, full, n), db.entries[id];
            && id in r.entries && r.entries[id].feedId == feedId && r.entries[id].guid == e.guid && r.entries[id].userId == e.userId
            && r.entries[id].meta.hash == if n.guid == e.guid then n.meta.hash else e.meta.hash
  {
    if n.guid == db.entries[id].guid {
      assert IsRowOf(db.entries, id, feedId, n.guid);
    }
  }

  /** An existing row ends with the hash of the last item of its guid. */
  lemma {:induction false} LastItemWins(plain: string -> string, db: Db, feedId: Id, full: bool, batch: seq<NewEntry>, id: Id)
    requires Numbered(db) && id in db.entries && db.entries[id].feedId == feedId
    requires (feedId, db.entries[id].guid) !in db.tombstones
    requires forall n | n in batch :: n.userId == db.entries[id].userId
    ensures var r := UpsertAll(plain, db, feedId, full, batch);
            && id in r.entries && r.entries[id].feedId == feedId
            && r.entries[id].guid == db.entries[id].guid && r.entries[id].userId == db.entries[id].userId
            && r.entries[id].meta.hash == LastHash(batch, db.entries[id].guid, db.entries[id].meta.hash)
  {
    if batch != [] {
      var front, n := batch[..|batch| - 1], batch[|batch| - 1];
      LastItemWins(plain, db, feedId, full, front, id);
      UpsertAllKeepsNumbered(plain, db, feedId, full, front);
      assert n in batch;
      UpsertOneSetsHash(plain, UpsertAll(plain, db, feedId, full, front), feedId, full, n, id);
    }
  }

  /** A sound store with one feed whose only entry has this guid and hash. */
  function OneEntry(plain: string -> string, userId: Id, guid: string, hash: string): Db {
    var meta := Meta("", "", "", "", "", 0, hash);
    var e := Entry(userId, 1, guid, 0, meta, "", plain(""), plain(""), Reader(Unread, false, None), Extraction(ExtractNone, 0, None, ""));
    EmptyDb({userId}).(feeds := map[1 := NewFeed(userId, "", "", None, false, 0, 0)], entries := map[1 := e],
                       nextFeed := 2, nextEntry := 2, fts := FtsRebuild(map[1 := e]))
  }

  /** Among items of one guid, dropping those with hash `h` leaves the last other one. */
  lemma {:induction false} FilteredLastHash(batch: seq<NewEntry>, guid: string, h: string, existing: map<string, string>)
    requires guid in existing && existing[guid] == h
    ensures var kept := Filter(existing, {}, batch);
            && (forall n | n in kept :: n in batch)
            && (LastHash(kept, guid, h) == h ==> forall n | n in batch && n.guid == guid :: n.meta.hash == h)
  {
    if batch != [] {
      var front, n := batch[..|batch| - 1], batch[|batch| - 1];
      FilteredLastHash(front, guid, h, existing);
      var kept := Filter(existing, {}, front);
      if Keeps(existing, {}, n) {
        assert Filter(existing, {}, batch) == kept + [n];
        assert (kept + [n])[..|kept + [n]| - 1] == kept;
      } else {
        assert Filter(existing, {}, batch) == kept;
      }
      forall m | m in batch && m.guid == guid && LastHash(Filter(existing, {}, batch), guid, h) == h
        ensures m.meta.hash == h
      {
        assert m == n || m in front;
      }
    }
  }

  lemma {:induction false} LastHashOccurs(batch: seq<NewEntry>, guid: string, otherwise: string)
    requires exists n :: n in batch && n.guid == guid
    ensures exists n :: n in batch && n.guid == guid && n.meta.hash == LastHash(batch, guid, otherwise)
    ensures forall o :: LastHash(batch, guid, o) == LastHash(batch, guid, otherwise)
  {
    var n := batch[|batch| - 1];
    if n.guid != guid {
      var front := batch[..|batch| - 1];
      var m :| m in batch && m.guid == guid;
      assert m in front;
      LastHashOccurs(front, guid, otherwise);
    }
  }

  /** When a guid comes with two hashes, some store tells the filtered batch and
      the whole batch apart: the one already holding the last of them. */
  lemma RepeatedGuidShows(plain: string -> string, batch: seq<NewEntry>, userId: Id) returns (db: Db)
    requires forall n | n in batch :: n.userId == userId
    requires !OneHashPerGuid(batch)
    ensures Numbered(db) && !SameEffect(plain, db, 1, false, batch)
  {
    var i, j :| 0 <= i < |batch| && 0 <= j < |batch| && batch[i].guid == batch[j].guid && batch[i].meta.hash != batch[j].meta.hash;
    var guid := batch[i].guid;
    var h := LastHash(batch, guid, "");
    assert batch[i] in batch && batch[j] in batch;
    LastHashOccurs(batch, guid, "");
    db := OneEntry(plain, userId, guid, h);
    var kept := Filtered(db, 1, batch);
    assert IsRowOf(db.entries, 1, 1, guid);
    var existing := HashesOf(db.entries, 1, Guids(batch));
    assert guid in existing && existing[guid] == h;
    assert TombstonedOf(db.tombstones, 1, Guids(batch)) == {};
    FilteredLastHash(batch, guid, h, existing);
    assert LastHash(kept, guid, h) != h;
    assert LastHash(batch, guid, h) == h;
    LastItemWins(plain, db, 1, false, kept, 1);
    LastItemWins(plain, db, 1, false, batch, 1);
  }

  /** Main theorem on the pre-filter, for a batch of one user as ingest builds it. */
  lemma FilterTransparentIff(plain: string -> string, batch: seq<NewEntry>, userId: Id)
    requires forall n | n in batch :: n.userId == userId
    ensures OneHashPerGuid(batch) <==> Transparent(plain, batch)
  {
    if OneHashPerGuid(batch) {
      forall db, feedId, full | Numbered(db)
        ensures SameEffect(plain, db, feedId, full, batch)
      {
        FilterTransparentFor(plain, db, feedId, full, batch, Guids(batch));
      }
    } else {
      var db := RepeatedGuidShows(plain, batch, userId);
    }
  }
}
