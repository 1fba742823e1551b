/** When the in-memory store and the SQL store show the same: up to ids, which one
    counter hands out in memory and one per table does in the database, and up to
    times, which the database cuts to whole seconds. Operation by operation, whether
    that is kept. */
module Mirroring {
  import opened Rows
  import opened Sql
  import opened Invariants
  import opened MemStores
  import I = Ingest
  import S = Schedule

  // ---- whole seconds -------------------------------------------------------

  /** nullUnix. */
  function CutTime(t: Option<int>): Option<int> {
    if t.Some? then Some(S.ToUnix(t.value)) else None
  }

  /** UpdateFeed's parameters: nullDurSec stores no TTL that is not positive. */
  function CutPoll(p: PollState): PollState {
    p.(checkedAt := CutTime(p.checkedAt), nextCheckAt := S.ToUnix(p.nextCheckAt), updatedAt := S.ToUnix(p.updatedAt),
       ttl := if p.ttl <= 0 then 0 else S.ToUnix(p.ttl))
  }

  function CutFeed(f: Feed): Feed {
    f.(createdAt := S.ToUnix(f.createdAt), poll := CutPoll(f.poll))
  }

  function CutMeta(m: Meta): Meta {
    m.(publishedAt := S.ToUnix(m.publishedAt))
  }

  function CutItem(n: NewEntry): NewEntry {
    n.(createdAt := S.ToUnix(n.createdAt), meta := CutMeta(n.meta))
  }

  function CutItems(batch: seq<Staged>): (r: seq<NewEntry>)
    ensures |r| == |batch| && forall k | 0 <= k < |r| :: r[k] == CutItem(batch[k].n)
  {
    seq(|batch|, k requires 0 <= k < |batch| => CutItem(batch[k].n))
  }

  function CutReader(r: Reader): Reader {
    r.(readAt := CutTime(r.readAt))
  }

  function CutExtraction(x: Extraction): Extraction {
    x.(nextAt := CutTime(x.nextAt))
  }

  /** `seconds` is the whole second of the nanosecond `t`. */
  predicate Second(t: int, seconds: int) {
    seconds * S.SECOND <= t < (seconds + 1) * S.SECOND
  }

  predicate SecondIfAny(t: Option<int>, seconds: Option<int>) {
    match (t, seconds)
    case (None, None) => true
    case (Some(x), Some(y)) => Second(x, y)
    case _ => false
  }

  /** What the cuts do: whole seconds for each time, none for a time that is not there
      and for a lifetime that is not positive; and every other column as it is. */
  lemma CutsToSeconds(f: Feed, n: NewEntry, r: Reader, x: Extraction)
    ensures var g := CutFeed(f);
            && Second(f.createdAt, g.createdAt) && SecondIfAny(f.poll.checkedAt, g.poll.checkedAt)
            && Second(f.poll.nextCheckAt, g.poll.nextCheckAt) && Second(f.poll.updatedAt, g.poll.updatedAt)
            && (if f.poll.ttl <= 0 then g.poll.ttl == 0 else Second(f.poll.ttl, g.poll.ttl))
            && g == f.(createdAt := g.createdAt, poll := f.poll.(checkedAt := g.poll.checkedAt, nextCheckAt := g.poll.nextCheckAt,
                                                                 updatedAt := g.poll.updatedAt, ttl := g.poll.ttl))
    ensures var m := CutItem(n);
            && Second(n.createdAt, m.createdAt) && Second(n.meta.publishedAt, m.meta.publishedAt)
            && m == n.(createdAt := m.createdAt, meta := n.meta.(publishedAt := m.meta.publishedAt))
    ensures SecondIfAny(r.readAt, CutReader(r).readAt) && CutReader(r) == r.(readAt := CutReader(r).readAt)
    ensures SecondIfAny(x.nextAt, CutExtraction(x).nextAt) && CutExtraction(x) == x.(nextAt := CutExtraction(x).nextAt)
  {
  }

  // ---- renamings -----------------------------------------------------------

  /** In-memory ids to the SQL's, and back; it only ever grows. */
  datatype Ren = Ren(to: map<Id, Id>, from: map<Id, Id>)

  datatype Ids = Ids(categories: Ren, feeds: Ren, entries: Ren)

  ghost predicate Bijection(r: Ren) {
    && (forall i | i in r.to :: r.to[i] in r.from && r.from[r.to[i]] == i)
    && (forall j | j in r.from :: r.from[j] in r.to && r.to[r.from[j]] == j)
  }

  function With(r: Ren, i: Id, j: Id): Ren {
    Ren(r.to[i := j], r.from[j := i])
  }

  lemma WithBijection(r: Ren, i: Id, j: Id)
    requires Bijection(r) && i !in r.to && j !in r.from
    ensures Bijection(With(r, i, j))
  {
  }

  /** An id that only memory knows is renamed to one that names no row. */
  function Renamed(r: Ren, i: Id, none: Id): Id {
    if i in r.to then r.to[i] else none
  }

  function SqlFeed(ids: Ids, db: Db, i: Id): Id {
    Renamed(ids.feeds, i, db.nextFeed)
  }

  function SqlEntry(ids: Ids, db: Db, i: Id): Id {
    Renamed(ids.entries, i, db.nextEntry)
  }

  function SqlEntries(ids: Ids, db: Db, s: set<Id>): set<Id> {
    set i | i in s :: SqlEntry(ids, db, i)
  }

  function SqlCategory(ids: Ids, db: Db, c: Id): Id {
    Renamed(ids.categories, c, db.nextCategory)
  }

  function SqlParent(ids: Ids, db: Db, c: Option<Id>): Option<Id> {
    if c.Some? then Some(SqlCategory(ids, db, c.value)) else None
  }

  /** The same feed as a row to insert. */
  function SqlRow(ids: Ids, db: Db, f: Feed): Feed {
    CutFeed(f).(categoryId := SqlParent(ids, db, f.categoryId))
  }

  // ---- showing the same ----------------------------------------------------

  ghost predicate CategoriesMirror(ids: Ids, m: MemDb, db: Db) {
    && Bijection(ids.categories)
    && (forall c | c in ids.categories.to :: c < m.nextID) && (forall d | d in ids.categories.from :: d < db.nextCategory)
    && (forall c | c in m.categories :: c in ids.categories.to) && (forall d | d in db.categories :: d in ids.categories.from)
    && (forall c | c in ids.categories.to ::
          && (c in m.categories <==> ids.categories.to[c] in db.categories)
          && (c in m.categories ==> m.categories[c] == db.categories[ids.categories.to[c]]))
  }

  predicate FeedShows(ids: Ids, f: Feed, row: Feed) {
    && (f.categoryId.Some? ==> f.categoryId.value in ids.categories.to)
    && row == CutFeed(f).(categoryId := if f.categoryId.Some? then Some(ids.categories.to[f.categoryId.value]) else None)
  }

  ghost predicate FeedMirrors(ids: Ids, m: MemDb, db: Db, i: Id)
    requires i in ids.feeds.to
  {
    && (i in m.feeds <==> ids.feeds.to[i] in db.feeds)
    && (i in m.feeds ==> FeedShows(ids, m.feeds[i], db.feeds[ids.feeds.to[i]]))
  }

  ghost predicate FeedsMirror(ids: Ids, m: MemDb, db: Db) {
    && Bijection(ids.feeds)
    && (forall i | i in ids.feeds.to :: i < m.nextID) && (forall j | j in ids.feeds.from :: j < db.nextFeed)
    && (forall i | i in m.feeds :: i in ids.feeds.to) && (forall j | j in db.feeds :: j in ids.feeds.from)
    && (forall i {:trigger FeedMirrors(ids, m, db, i)} | i in ids.feeds.to :: FeedMirrors(ids, m, db, i))
  }

  function AsRow(plain: string -> string, e: MemEntry, feedId: Id, nextAt: Option<int>): Entry {
    Entry(e.userId, feedId, e.guid, S.ToUnix(e.createdAt), CutMeta(e.meta), e.content, plain(e.content), plain(e.meta.summary),
          CutReader(e.reader), Extraction(e.state, e.attempts, CutTime(nextAt), e.error))
  }

  ghost predicate RowMirrors(plain: string -> string, ids: Ids, m: MemDb, db: Db, i: Id)
    requires i in ids.entries.to
  {
    && (i in m.entries <==> ids.entries.to[i] in db.entries)
    && (i in m.entries ==>
          && m.entries[i].feedId in ids.feeds.to
          && db.entries[ids.entries.to[i]] == AsRow(plain, m.entries[i], ids.feeds.to[m.entries[i].feedId], At(m.nextExtract, i)))
  }

  ghost predicate RowsMirror(plain: string -> string, ids: Ids, m: MemDb, db: Db) {
    && Bijection(ids.entries)
    && (forall i | i in ids.entries.to :: i < m.nextID) && (forall j | j in ids.entries.from :: j < db.nextEntry)
    && (forall i | i in m.entries :: i in ids.entries.to) && (forall j | j in db.entries :: j in ids.entries.from)
    && (forall i | i in m.nextExtract :: i < m.nextID)
    && (forall i {:trigger RowMirrors(plain, ids, m, db, i)} | i in ids.entries.to :: RowMirrors(plain, ids, m, db, i))
  }

  ghost predicate TombstonesMirror(ids: Ids, m: MemDb, db: Db) {
    forall f, g :: Tkey(f, g) in m.tombstones <==> f in ids.feeds.to && (ids.feeds.to[f], g) in db.tombstones
  }

  ghost predicate Mirrors(plain: string -> string, ids: Ids, m: MemDb, db: Db) {
    CategoriesMirror(ids, m, db) && FeedsMirror(ids, m, db) && RowsMirror(plain, ids, m, db) && TombstonesMirror(ids, m, db)
  }

  /** What the database keeps under these operations. */
  ghost predicate Rules(db: Db) {
    References(db) && UniqueGuids(db) && UniqueTitles(db)
  }

  // ---- what an operation does not touch ------------------------------------

  /** The renaming of the feeds only grew. */
  predicate Grown(a: Ren, b: Ren) {
    forall i | i in a.to :: i in b.to && b.to[i] == a.to[i]
  }

  /** Rows do not look at the feeds' contents, nor at categories. */
  lemma RowsUntouched(plain: string -> string, ids: Ids, m: MemDb, db: Db, ids': Ids, m': MemDb, db': Db)
    requires RowsMirror(plain, ids, m, db) && ids'.entries == ids.entries && Grown(ids.feeds, ids'.feeds)
    requires m'.entries == m.entries && m'.nextExtract == m.nextExtract && db'.entries == db.entries
    requires m.nextID <= m'.nextID && db.nextEntry <= db'.nextEntry
    ensures RowsMirror(plain, ids', m', db')
  {
    forall i | i in ids'.entries.to ensures RowMirrors(plain, ids', m', db', i) {
      assert RowMirrors(plain, ids, m, db, i);
    }
  }

  lemma FeedsUntouched(ids: Ids, m: MemDb, db: Db, ids': Ids, m': MemDb, db': Db)
    requires FeedsMirror(ids, m, db) && ids'.feeds == ids.feeds && Grown(ids.categories, ids'.categories)
    requires m'.feeds == m.feeds && db'.feeds == db.feeds && m.nextID <= m'.nextID && db.nextFeed <= db'.nextFeed
    ensures FeedsMirror(ids', m', db')
  {
    forall i | i in ids'.feeds.to ensures FeedMirrors(ids', m', db', i) {
      assert FeedMirrors(ids, m, db, i);
      if i in m.feeds {
        ShowsStill(ids, ids', m.feeds[i], db.feeds[ids.feeds.to[i]]);
      }
    }
  }

  lemma ShowsStill(ids: Ids, ids': Ids, f: Feed, row: Feed)
    requires FeedShows(ids, f, row) && Grown(ids.categories, ids'.categories)
    ensures FeedShows(ids', f, row)
  {
    if f.categoryId.Some? {
      var c := f.categoryId.value;
      assert c in ids'.categories.to && ids'.categories.to[c] == ids.categories.to[c];
    }
  }

  /** Where only entries changed, the rows decide. */
  lemma RowsDecide(plain: string -> string, ids: Ids, m: MemDb, db: Db, ids': Ids, m': MemDb, db': Db)
    requires Mirrors(plain, ids, m, db) && ids' == ids.(entries := ids'.entries) && m.nextID <= m'.nextID
    requires m' == m.(entries := m'.entries, nextExtract := m'.nextExtract, nextID := m'.nextID)
    requires db' == db.(entries := db'.entries, fts := db'.fts, nextEntry := db'.nextEntry)
    ensures Mirrors(plain, ids', m', db') <==> RowsMirror(plain, ids', m', db')
  {
    FeedsUntouched(ids, m, db, ids', m', db');
  }

  /** Where only feeds changed, they decide. */
  lemma FeedsDecide(plain: string -> string, ids: Ids, m: MemDb, db: Db, ids': Ids, m': MemDb, db': Db)
    requires Mirrors(plain, ids, m, db) && ids' == ids.(feeds := ids'.feeds) && Grown(ids.feeds, ids'.feeds) && m.nextID <= m'.nextID
    requires m' == m.(feeds := m'.feeds, nextID := m'.nextID) && db' == db.(feeds := db'.feeds, nextFeed := db'.nextFeed)
    ensures Mirrors(plain, ids', m', db') <==> FeedsMirror(ids', m', db') && TombstonesMirror(ids', m', db')
  {
    RowsUntouched(plain, ids, m, db, ids', m', db');
  }

  /** Where only categories changed, they decide. */
  lemma CategoriesDecide(plain: string -> string, ids: Ids, m: MemDb, db: Db, ids': Ids, m': MemDb, db': Db)
    requires Mirrors(plain, ids, m, db) && ids' == ids.(categories := ids'.categories) && Grown(ids.categories, ids'.categories)
    requires m' == m.(categories := m'.categories, nextID := m'.nextID) && m.nextID <= m'.nextID
    requires db' == db.(categories := db'.categories, nextCategory := db'.nextCategory)
    ensures Mirrors(plain, ids', m', db') <==> CategoriesMirror(ids', m', db')
  {
    RowsUntouched(plain, ids, m, db, ids', m', db');
    FeedsUntouched(ids, m, db, ids', m', db');
  }

  // ---- feeds ---------------------------------------------------------------

  lemma UrlTakenAgrees(ids: Ids, m: MemDb, db: Db, u: Id, url: string, i: Id, j: Id)
    requires FeedsMirror(ids, m, db)
    requires if i in ids.feeds.to then j == ids.feeds.to[i] else j !in ids.feeds.from
    ensures MemUrlTaken(m, u, url, i) == UrlTaken(db, u, url, j)
  {
    if MemUrlTaken(m, u, url, i) {
      var k :| k in m.feeds && k != i && m.feeds[k].userId == u && m.feeds[k].feedUrl == url;
      assert FeedMirrors(ids, m, db, k);
      var k' := ids.feeds.to[k];
      assert k' in db.feeds && k' != j && db.feeds[k'].userId == u && db.feeds[k'].feedUrl == url;
    }
    if UrlTaken(db, u, url, j) {
      var k :| k in db.feeds && k != j && db.feeds[k].userId == u && db.feeds[k].feedUrl == url;
      assert k in ids.feeds.from;
      var i' := ids.feeds.from[k];
      assert FeedMirrors(ids, m, db, i');
      assert i' in m.feeds && i' != i && m.feeds[i'].userId == u && m.feeds[i'].feedUrl == url;
    }
  }

  /** Memory accepts it, the foreign keys do not. */
  predicate Dangling(users: set<Id>, m: MemDb, u: Id, category: Option<Id>) {
    u !in users || (category.Some? && category.value !in m.categories)
  }

  lemma DanglingAgrees(ids: Ids, m: MemDb, db: Db, u: Id, category: Option<Id>)
    requires CategoriesMirror(ids, m, db) && References(db)
    ensures Dangling(db.users, m, u, category) == !HasParents(db, u, SqlParent(ids, db, category))
  {
  }

  function CreatedIds(ids: Ids, m: MemDb, db: Db, f: Feed): Ids {
    if MemCreateFeed(m, f).1.Ok? then ids.(feeds := With(ids.feeds, m.nextID, db.nextFeed)) else ids
  }

  /** Exactly: a subscription takes the two apart when memory accepts it with a title
      that the INSERT does not name, or with a parent that does not exist; and only
      the latter gets two answers. */
  lemma CreateFeedMirrorsIff(plain: string -> string, ids: Ids, m: MemDb, db: Db, f: Feed)
    requires Mirrors(plain, ids, m, db) && Rules(db)
    ensures Mirrors(plain, CreatedIds(ids, m, db, f), MemCreateFeed(m, f).0, Sql.CreateFeed(db, SqlRow(ids, db, f)).0)
            <==> !(MemCreateFeed(m, f).1.Ok? && (f.userTitle != "" || Dangling(db.users, m, f.userId, f.categoryId)))
    ensures MemCreateFeed(m, f).1 == Sql.CreateFeed(db, SqlRow(ids, db, f)).1
            <==> !(MemCreateFeed(m, f).1.Ok? && Dangling(db.users, m, f.userId, f.categoryId))
  {
    var row := SqlRow(ids, db, f);
    CreateAnswers(ids, m, db, f);
    if MemCreateFeed(m, f).1.Ok? && Sql.CreateFeed(db, row).1.Ok? {
      NewFeedDecides(plain, ids, m, db, f, row.(userTitle := ""));
      RowShowsIff(ids, m, db, f);
    } else if MemCreateFeed(m, f).1.Ok? {
      assert db.nextFeed in CreatedIds(ids, m, db, f).feeds.from;
    }
  }

  /** What either store answers, and what it is then. */
  lemma CreateAnswers(ids: Ids, m: MemDb, db: Db, f: Feed)
    requires CategoriesMirror(ids, m, db) && FeedsMirror(ids, m, db) && References(db)
    ensures var row := SqlRow(ids, db, f); var x, y := MemCreateFeed(m, f), Sql.CreateFeed(db, row);
            && x.1 in {Ok, Conflict} && y.1 in {Ok, Conflict}
            && (y.1.Ok? <==> x.1.Ok? && !Dangling(db.users, m, f.userId, f.categoryId))
            && (y.1.Ok? ==> HasParents(db, f.userId, row.categoryId))
            && x.0 == (if x.1.Ok? then m.(feeds := m.feeds[m.nextID := f], nextID := m.nextID + 1) else m)
            && y.0 == (if y.1.Ok? then db.(feeds := db.feeds[db.nextFeed := row.(userTitle := "")], nextFeed := db.nextFeed + 1) else db)
  {
    UrlTakenAgrees(ids, m, db, f.userId, f.feedUrl, m.nextID, db.nextFeed);
    DanglingAgrees(ids, m, db, f.userId, f.categoryId);
  }

  lemma NewFeedDecides(plain: string -> string, ids: Ids, m: MemDb, db: Db, f: Feed, row: Feed)
    requires Mirrors(plain, ids, m, db) && References(db)
    ensures Mirrors(plain, ids.(feeds := With(ids.feeds, m.nextID, db.nextFeed)),
                    m.(feeds := m.feeds[m.nextID := f], nextID := m.nextID + 1),
                    db.(feeds := db.feeds[db.nextFeed := row], nextFeed := db.nextFeed + 1))
            <==> FeedShows(ids, f, row)
  {
    var ids' := ids.(feeds := With(ids.feeds, m.nextID, db.nextFeed));
    var m', db' := m.(feeds := m.feeds[m.nextID := f], nextID := m.nextID + 1), db.(feeds := db.feeds[db.nextFeed := row], nextFeed := db.nextFeed + 1);
    assert m.nextID !in ids.feeds.to;
    FeedsDecide(plain, ids, m, db, ids', m', db');
    NewFeedMirrorsIff(ids, m, db, f, row);
    NewFeedHasNoTombstones(ids, m, db, m', db');
  }

  lemma RowShowsIff(ids: Ids, m: MemDb, db: Db, f: Feed)
    requires CategoriesMirror(ids, m, db) && HasParents(db, f.userId, SqlParent(ids, db, f.categoryId)) && References(db)
    ensures FeedShows(ids, f, SqlRow(ids, db, f).(userTitle := "")) <==> f.userTitle == ""
  {
  }

  lemma NewFeedMirrorsIff(ids: Ids, m: MemDb, db: Db, f: Feed, row: Feed)
    requires FeedsMirror(ids, m, db)
    ensures FeedsMirror(ids.(feeds := With(ids.feeds, m.nextID, db.nextFeed)),
                        m.(feeds := m.feeds[m.nextID := f], nextID := m.nextID + 1),
                        db.(feeds := db.feeds[db.nextFeed := row], nextFeed := db.nextFeed + 1))
            <==> FeedShows(ids, f, row)
  {
    var ids' := ids.(feeds := With(ids.feeds, m.nextID, db.nextFeed));
    var m', db' := m.(feeds := m.feeds[m.nextID := f], nextID := m.nextID + 1), db.(feeds := db.feeds[db.nextFeed := row], nextFeed := db.nextFeed + 1);
    WithBijection(ids.feeds, m.nextID, db.nextFeed);
    forall i | i in ids.feeds.to ensures FeedMirrors(ids', m', db', i) {
      assert FeedMirrors(ids, m, db, i);
    }
    assert FeedMirrors(ids', m', db', m.nextID) <==> FeedShows(ids, f, row);
  }

  lemma NewFeedHasNoTombstones(ids: Ids, m: MemDb, db: Db, m': MemDb, db': Db)
    requires FeedsMirror(ids, m, db) && TombstonesMirror(ids, m, db) && References(db)
    requires m'.tombstones == m.tombstones && db'.tombstones == db.tombstones
    ensures TombstonesMirror(ids.(feeds := With(ids.feeds, m.nextID, db.nextFeed)), m', db')
  {
  }

  /** Both change one row, and no feed's id. */
  lemma FeedReplaced(plain: string -> string, ids: Ids, m: MemDb, db: Db, i: Id, f: Feed, row: Feed)
    requires Mirrors(plain, ids, m, db) && i in m.feeds && i in ids.feeds.to && FeedShows(ids, f, row)
    ensures Mirrors(plain, ids, m.(feeds := m.feeds[i := f]), db.(feeds := db.feeds[ids.feeds.to[i] := row]))
  {
    assert FeedMirrors(ids, m, db, i);
    var m', db' := m.(feeds := m.feeds[i := f]), db.(feeds := db.feeds[ids.feeds.to[i] := row]);
    forall k | k in ids.feeds.to ensures FeedMirrors(ids, m', db', k) {
      assert FeedMirrors(ids, m, db, k);
    }
    FeedsDecide(plain, ids, m, db, ids, m', db');
  }

  lemma OwnsAgrees(ids: Ids, m: MemDb, db: Db, u: Id, i: Id)
    requires FeedsMirror(ids, m, db)
    ensures MemOwns(m, u, i) == Owns(db, u, SqlFeed(ids, db, i))
    ensures MemOwns(m, u, i) ==> i in ids.feeds.to && FeedShows(ids, m.feeds[i], db.feeds[ids.feeds.to[i]])
  {
    if i in ids.feeds.to {
      assert FeedMirrors(ids, m, db, i);
    }
  }

  lemma UpdateFeedMirrors(plain: string -> string, ids: Ids, m: MemDb, db: Db, u: Id, i: Id, url: string, p: PollState)
    requires Mirrors(plain, ids, m, db)
    ensures Mirrors(plain, ids, MemUpdateFeed(m, u, i, url, p), Sql.UpdateFeed(db, u, SqlFeed(ids, db, i), url, CutPoll(p)))
  {
    OwnsAgrees(ids, m, db, u, i);
    if MemOwns(m, u, i) && m.feeds[i].feedUrl == url {
      FeedReplaced(plain, ids, m, db, i, m.feeds[i].(poll := p), db.feeds[ids.feeds.to[i]].(poll := CutPoll(p)));
    }
  }

  lemma SetFeedURLMirrors(plain: string -> string, ids: Ids, m: MemDb, db: Db, u: Id, i: Id, url: string, now: int)
    requires Mirrors(plain, ids, m, db)
    ensures Mirrors(plain, ids, MemSetFeedURL(m, u, i, url, now).0, Sql.SetFeedURL(db, u, SqlFeed(ids, db, i), url, S.ToUnix(now)).0)
    ensures MemSetFeedURL(m, u, i, url, now).1 == Sql.SetFeedURL(db, u, SqlFeed(ids, db, i), url, S.ToUnix(now)).1
  {
    OwnsAgrees(ids, m, db, u, i);
    if MemOwns(m, u, i) {
      UrlTakenAgrees(ids, m, db, u, url, i, ids.feeds.to[i]);
      var f, row := m.feeds[i], db.feeds[ids.feeds.to[i]];
      FeedReplaced(plain, ids, m, db, i, f.(feedUrl := url, poll := f.poll.(etag := "", lastModified := "", nextCheckAt := now)),
                   row.(feedUrl := url, poll := row.poll.(etag := "", lastModified := "", nextCheckAt := S.ToUnix(now))));
    }
  }

  lemma SetUserTitleMirrors(plain: string -> string, ids: Ids, m: MemDb, db: Db, u: Id, i: Id, title: string)
    requires Mirrors(plain, ids, m, db)
    ensures Mirrors(plain, ids, MemSetUserTitle(m, u, i, title).0, SetUserTitle(db, u, SqlFeed(ids, db, i), title).0)
    ensures MemSetUserTitle(m, u, i, title).1 == SetUserTitle(db, u, SqlFeed(ids, db, i), title).1
  {
    OwnsAgrees(ids, m, db, u, i);
    if MemOwns(m, u, i) {
      FeedReplaced(plain, ids, m, db, i, m.feeds[i].(userTitle := title), db.feeds[ids.feeds.to[i]].(userTitle := title));
    }
  }

  /** Exactly: a feed's category takes the two apart when memory accepts one that does
      not exist. */
  lemma SetCategoryMirrorsIff(plain: string -> string, ids: Ids, m: MemDb, db: Db, u: Id, i: Id, category: Option<Id>)
    requires Mirrors(plain, ids, m, db) && Rules(db)
    ensures var parent := SqlParent(ids, db, category);
            && (Mirrors(plain, ids, MemSetCategory(m, u, i, category).0, SetCategory(db, u, SqlFeed(ids, db, i), parent).0)
                <==> !(MemOwns(m, u, i) && Dangling(db.users, m, u, category)))
            && (MemSetCategory(m, u, i, category).1 == SetCategory(db, u, SqlFeed(ids, db, i), parent).1
                <==> !(MemOwns(m, u, i) && Dangling(db.users, m, u, category)))
  {
    OwnsAgrees(ids, m, db, u, i);
    DanglingAgrees(ids, m, db, u, category);
    if MemOwns(m, u, i) {
      var j := ids.feeds.to[i];
      if Dangling(db.users, m, u, category) {
        DanglingApart(ids, m, db, i, category);
      } else {
        FeedReplaced(plain, ids, m, db, i, m.feeds[i].(categoryId := category), db.feeds[j].(categoryId := SqlParent(ids, db, category)));
      }
    }
  }

  lemma DanglingApart(ids: Ids, m: MemDb, db: Db, i: Id, category: Option<Id>)
    requires CategoriesMirror(ids, m, db) && FeedsMirror(ids, m, db) && References(db) && i in m.feeds
    requires Dangling(db.users, m, m.feeds[i].userId, category)
    ensures !FeedsMirror(ids, m.(feeds := m.feeds[i := m.feeds[i].(categoryId := category)]), db)
  {
    assert FeedMirrors(ids, m, db, i);
    var m' := m.(feeds := m.feeds[i := m.feeds[i].(categoryId := category)]);
    var j := ids.feeds.to[i];
    assert j in db.feeds && HasParents(db, db.feeds[j].userId, db.feeds[j].categoryId);
    if category.Some? && category.value !in m.categories && category.value in ids.categories.to {
      var c := category.value;
      assert c in m.categories <==> ids.categories.to[c] in db.categories;
    }
    assert !FeedMirrors(ids, m', db, i);
  }

  lemma DeleteFeedMirrors(plain: string -> string, ids: Ids, m: MemDb, db: Db, u: Id, i: Id)
    requires Mirrors(plain, ids, m, db) && Rules(db)
    ensures Mirrors(plain, ids, MemDeleteFeed(m, u, i).0, Sql.DeleteFeed(db, u, SqlFeed(ids, db, i)).0)
    ensures MemDeleteFeed(m, u, i).1 == Sql.DeleteFeed(db, u, SqlFeed(ids, db, i)).1
  {
    OwnsAgrees(ids, m, db, u, i);
    if MemOwns(m, u, i) {
      var j, m', db' := ids.feeds.to[i], MemDeleteFeed(m, u, i).0, Sql.DeleteFeed(db, u, SqlFeed(ids, db, i)).0;
      forall k | k in ids.feeds.to ensures FeedMirrors(ids, m', db', k) {
        assert FeedMirrors(ids, m, db, k);
      }
      RowsDropped(plain, ids, m, db, u, i);
      forall f, g ensures Tkey(f, g) in m'.tombstones <==> f in ids.feeds.to && (ids.feeds.to[f], g) in db'.tombstones {
        PrefixIsFeed(i, f, g);
      }
    }
  }

  lemma RowsDropped(plain: string -> string, ids: Ids, m: MemDb, db: Db, u: Id, i: Id)
    requires Mirrors(plain, ids, m, db) && MemOwns(m, u, i) && Owns(db, u, SqlFeed(ids, db, i))
    ensures RowsMirror(plain, ids, MemDeleteFeed(m, u, i).0, Sql.DeleteFeed(db, u, SqlFeed(ids, db, i)).0)
  {
    var m', db' := MemDeleteFeed(m, u, i).0, Sql.DeleteFeed(db, u, SqlFeed(ids, db, i)).0;
    forall k | k in ids.entries.to ensures RowMirrors(plain, ids, m', db', k) {
      assert RowMirrors(plain, ids, m, db, k);
    }
  }

  // ---- categories ----------------------------------------------------------

  /** Another category of the user has the title but for the case of its letters; the
      in-memory store compares titles exactly. */
  predicate MemVariantTaken(m: MemDb, u: Id, title: string, except: Id) {
    exists c | c in m.categories && c != except :: SameTitle(m.categories[c], u, title)
  }

  lemma VariantTakenAgrees(ids: Ids, m: MemDb, db: Db, u: Id, title: string, c: Id, d: Id)
    requires CategoriesMirror(ids, m, db)
    requires if c in ids.categories.to then d == ids.categories.to[c] else d !in ids.categories.from
    ensures MemVariantTaken(m, u, title, c) == TitleTaken(db, u, title, d)
    ensures MemTitleTaken(m, u, title, c) ==> MemVariantTaken(m, u, title, c)
  {
    if MemVariantTaken(m, u, title, c) {
      var k :| k in m.categories && k != c && SameTitle(m.categories[k], u, title);
      var k' := ids.categories.to[k];
      assert k' in db.categories && k' != d && SameTitle(db.categories[k'], u, title);
    }
    if TitleTaken(db, u, title, d) {
      var k :| k in db.categories && k != d && SameTitle(db.categories[k], u, title);
      var k' := ids.categories.from[k];
      assert k' in m.categories && k' != c && SameTitle(m.categories[k'], u, title);
    }
    if MemTitleTaken(m, u, title, c) {
      var k :| k in m.categories && k != c && m.categories[k] == Category(u, title);
      assert SameTitle(m.categories[k], u, title);
    }
  }

  function NewCategoryIds(ids: Ids, m: MemDb, db: Db, u: Id, title: string): Ids {
    if MemCreateCategory(m, u, title).1.Ok? then ids.(categories := With(ids.categories, m.nextID, db.nextCategory)) else ids
  }

  /** Memory accepts a new category that the SQL refuses. */
  predicate RefusedCategory(users: set<Id>, m: MemDb, u: Id, title: string) {
    MemCreateCategory(m, u, title).1.Ok? && (u !in users || MemVariantTaken(m, u, title, m.nextID))
  }

  /** Exactly: a new category takes the two apart, and gets two answers, when memory
      accepts it for a user who does not exist, or beside one that differs in case alone. */
  lemma CreateCategoryMirrorsIff(plain: string -> string, ids: Ids, m: MemDb, db: Db, u: Id, title: string)
    requires Mirrors(plain, ids, m, db) && Rules(db)
    ensures Mirrors(plain, NewCategoryIds(ids, m, db, u, title), MemCreateCategory(m, u, title).0, Sql.CreateCategory(db, u, title).0)
            <==> !RefusedCategory(db.users, m, u, title)
    ensures Sql.CreateCategory(db, u, title).1 == if RefusedCategory(db.users, m, u, title) then Conflict else MemCreateCategory(m, u, title).1
  {
    NewCategoryAnswers(ids, m, db, u, title);
    if MemCreateCategory(m, u, title).1.Ok? {
      if RefusedCategory(db.users, m, u, title) {
        assert db.nextCategory in NewCategoryIds(ids, m, db, u, title).categories.from;
      } else {
        NewCategoryDecides(plain, ids, m, db, Category(u, title));
      }
    }
  }

  lemma NewCategoryAnswers(ids: Ids, m: MemDb, db: Db, u: Id, title: string)
    requires CategoriesMirror(ids, m, db)
    ensures var x, y, c := MemCreateCategory(m, u, title), Sql.CreateCategory(db, u, title), Category(u, title);
            && x.1 in {Ok, Conflict} && y.1 in {Ok, Conflict} && (y.1.Ok? <==> x.1.Ok? && !RefusedCategory(db.users, m, u, title))
            && x.0 == (if x.1.Ok? then m.(categories := m.categories[m.nextID := c], nextID := m.nextID + 1) else m)
            && y.0 == (if y.1.Ok? then db.(categories := db.categories[db.nextCategory := c], nextCategory := db.nextCategory + 1) else db)
  {
    VariantTakenAgrees(ids, m, db, u, title, m.nextID, db.nextCategory);
  }

  lemma NewCategoryDecides(plain: string -> string, ids: Ids, m: MemDb, db: Db, c: Category)
    requires Mirrors(plain, ids, m, db)
    ensures Mirrors(plain, ids.(categories := With(ids.categories, m.nextID, db.nextCategory)),
                    m.(categories := m.categories[m.nextID := c], nextID := m.nextID + 1),
                    db.(categories := db.categories[db.nextCategory := c], nextCategory := db.nextCategory + 1))
  {
    NewCategoryMirrors(ids, m, db, c);
    CategoriesDecide(plain, ids, m, db, ids.(categories := With(ids.categories, m.nextID, db.nextCategory)),
                     m.(categories := m.categories[m.nextID := c], nextID := m.nextID + 1),
                     db.(categories := db.categories[db.nextCategory := c], nextCategory := db.nextCategory + 1));
  }

  lemma NewCategoryMirrors(ids: Ids, m: MemDb, db: Db, c: Category)
    requires CategoriesMirror(ids, m, db)
    ensures CategoriesMirror(ids.(categories := With(ids.categories, m.nextID, db.nextCategory)),
                             m.(categories := m.categories[m.nextID := c], nextID := m.nextID + 1),
                             db.(categories := db.categories[db.nextCategory := c], nextCategory := db.nextCategory + 1))
  {
    WithBijection(ids.categories, m.nextID, db.nextCategory);
  }

  /** Memory accepts a category's new title that the SQL refuses. */
  predicate RefusedRename(m: MemDb, u: Id, c: Id, title: string) {
    MemUpdateCategory(m, u, c, title).1.Ok? && MemVariantTaken(m, u, title, c)
  }

  /** Exactly: a category's new title takes the two apart, and gets two answers, when
      memory accepts it beside one that differs in case alone. */
  lemma UpdateCategoryMirrorsIff(plain: string -> string, ids: Ids, m: MemDb, db: Db, u: Id, c: Id, title: string)
    requires Mirrors(plain, ids, m, db) && Rules(db)
    ensures Mirrors(plain, ids, MemUpdateCategory(m, u, c, title).0, Sql.UpdateCategory(db, u, SqlCategory(ids, db, c), title).0)
            <==> !RefusedRename(m, u, c, title)
    ensures Sql.UpdateCategory(db, u, SqlCategory(ids, db, c), title).1
            == if RefusedRename(m, u, c, title) then Conflict else MemUpdateCategory(m, u, c, title).1
  {
    RenameAnswers(ids, m, db, u, c, title);
    if RefusedRename(m, u, c, title) {
      RefusedRenameApart(ids, m, db, u, c, title);
    } else if MemUpdateCategory(m, u, c, title).1.Ok? {
      CategoryReplaced(plain, ids, m, db, c, Category(u, title));
    }
  }

  /** The old title is another one, or the two would already have differed in case alone. */
  lemma RefusedRenameApart(ids: Ids, m: MemDb, db: Db, u: Id, c: Id, title: string)
    requires CategoriesMirror(ids, m, db) && UniqueTitles(db) && RefusedRename(m, u, c, title)
    ensures !CategoriesMirror(ids, m.(categories := m.categories[c := Category(u, title)]), db)
  {
    var d := ids.categories.to[c];
    VariantTakenAgrees(ids, m, db, u, title, c, d);
    var k :| k in db.categories && k != d && SameTitle(db.categories[k], u, title);
    assert db.categories[d] != Category(u, title);
  }

  lemma RenameAnswers(ids: Ids, m: MemDb, db: Db, u: Id, c: Id, title: string)
    requires CategoriesMirror(ids, m, db) && References(db)
    ensures var x, y, d := MemUpdateCategory(m, u, c, title), Sql.UpdateCategory(db, u, SqlCategory(ids, db, c), title), SqlCategory(ids, db, c);
            && (y.1 == if RefusedRename(m, u, c, title) then Conflict else x.1) && (x.1.Ok? ==> c in m.categories)
            && x.0 == (if x.1.Ok? then m.(categories := m.categories[c := Category(u, title)]) else m)
            && y.0 == (if y.1.Ok? then db.(categories := db.categories[d := Category(u, title)]) else db)
  {
    if MemOwnsCategory(m, u, c) {
      VariantTakenAgrees(ids, m, db, u, title, c, ids.categories.to[c]);
    }
  }

  lemma CategoryReplaced(plain: string -> string, ids: Ids, m: MemDb, db: Db, c: Id, row: Category)
    requires Mirrors(plain, ids, m, db) && c in m.categories
    ensures Mirrors(plain, ids, m.(categories := m.categories[c := row]), db.(categories := db.categories[SqlCategory(ids, db, c) := row]))
  {
    CategoriesDecide(plain, ids, m, db, ids, m.(categories := m.categories[c := row]),
                     db.(categories := db.categories[SqlCategory(ids, db, c) := row]));
  }

  lemma DeleteCategoryMirrors(plain: string -> string, ids: Ids, m: MemDb, db: Db, u: Id, c: Id)
    requires Mirrors(plain, ids, m, db) && Rules(db)
    ensures Mirrors(plain, ids, MemDeleteCategory(m, u, c).0, Sql.DeleteCategory(db, u, SqlCategory(ids, db, c)).0)
    ensures MemDeleteCategory(m, u, c).1 == Sql.DeleteCategory(db, u, SqlCategory(ids, db, c)).1
  {
    assert MemOwnsCategory(m, u, c) == OwnsCategory(db, u, SqlCategory(ids, db, c));
    if MemOwnsCategory(m, u, c) {
      CategoryDropped(plain, ids, m, db, c);
    }
  }

  lemma CategoryDropped(plain: string -> string, ids: Ids, m: MemDb, db: Db, c: Id)
    requires Mirrors(plain, ids, m, db) && c in ids.categories.to
    ensures Mirrors(plain, ids, m.(categories := m.categories - {c}, feeds := map i | i in m.feeds :: Uncategorised(m.feeds[i], c)),
                    db.(categories := db.categories - {ids.categories.to[c]},
                        feeds := map i | i in db.feeds :: Uncategorised(db.feeds[i], ids.categories.to[c])))
  {
    var m1 := m.(feeds := map i | i in m.feeds :: Uncategorised(m.feeds[i], c));
    var db1 := db.(feeds := map i | i in db.feeds :: Uncategorised(db.feeds[i], ids.categories.to[c]));
    FeedsUncategorised(plain, ids, m, db, c);
    CategoryRemoved(plain, ids, m1, db1, c);
  }

  lemma FeedsUncategorised(plain: string -> string, ids: Ids, m: MemDb, db: Db, c: Id)
    requires Mirrors(plain, ids, m, db) && c in ids.categories.to
    ensures Mirrors(plain, ids, m.(feeds := map i | i in m.feeds :: Uncategorised(m.feeds[i], c)),
                    db.(feeds := map i | i in db.feeds :: Uncategorised(db.feeds[i], ids.categories.to[c])))
  {
    UncategorisedFeedsMirror(ids, m, db, c);
    FeedsDecide(plain, ids, m, db, ids, m.(feeds := map i | i in m.feeds :: Uncategorised(m.feeds[i], c)),
                db.(feeds := map i | i in db.feeds :: Uncategorised(db.feeds[i], ids.categories.to[c])));
  }

  lemma CategoryRemoved(plain: string -> string, ids: Ids, m: MemDb, db: Db, c: Id)
    requires Mirrors(plain, ids, m, db) && c in ids.categories.to
    ensures Mirrors(plain, ids, m.(categories := m.categories - {c}), db.(categories := db.categories - {ids.categories.to[c]}))
  {
    var m', db' := m.(categories := m.categories - {c}), db.(categories := db.categories - {ids.categories.to[c]});
    CategoryGone(ids, m, db, c);
    CategoriesDecide(plain, ids, m, db, ids, m', db');
  }

  lemma CategoryGone(ids: Ids, m: MemDb, db: Db, c: Id)
    requires CategoriesMirror(ids, m, db) && c in ids.categories.to
    ensures CategoriesMirror(ids, m.(categories := m.categories - {c}), db.(categories := db.categories - {ids.categories.to[c]}))
  {
  }

  lemma UncategorisedFeedsMirror(ids: Ids, m: MemDb, db: Db, c: Id)
    requires FeedsMirror(ids, m, db) && Bijection(ids.categories) && c in ids.categories.to
    ensures FeedsMirror(ids, m.(feeds := map i | i in m.feeds :: Uncategorised(m.feeds[i], c)),
                        db.(feeds := map i | i in db.feeds :: Uncategorised(db.feeds[i], ids.categories.to[c])))
  {
    var m' := m.(feeds := map i | i in m.feeds :: Uncategorised(m.feeds[i], c));
    var db' := db.(feeds := map i | i in db.feeds :: Uncategorised(db.feeds[i], ids.categories.to[c]));
    forall i | i in ids.feeds.to ensures FeedMirrors(ids, m', db', i) {
      assert FeedMirrors(ids, m, db, i);
      if i in m.feeds {
        UncategorisedShows(ids, m.feeds[i], db.feeds[ids.feeds.to[i]], c);
      }
    }
  }

  lemma UncategorisedShows(ids: Ids, f: Feed, row: Feed, c: Id)
    requires Bijection(ids.categories) && c in ids.categories.to && FeedShows(ids, f, row)
    ensures FeedShows(ids, Uncategorised(f, c), Uncategorised(row, ids.categories.to[c]))
  {
    if f.categoryId.Some? && f.categoryId.value != c {
      assert ids.categories.to[f.categoryId.value] != ids.categories.to[c];
    }
  }

  // ---- the backlog ---------------------------------------------------------

  lemma ToggleMirrors(plain: string -> string, ids: Ids, m: MemDb, db: Db, u: Id, i: Id, on: bool, at: int)
    requires Mirrors(plain, ids, m, db)
    ensures Mirrors(plain, ids, MemSetFullContent(m, u, i, on, at).0, SetFullContent(db, u, SqlFeed(ids, db, i), on, S.ToUnix(at)).0)
    ensures MemSetFullContent(m, u, i, on, at).1 == SetFullContent(db, u, SqlFeed(ids, db, i), on, S.ToUnix(at)).1
  {
    OwnsAgrees(ids, m, db, u, i);
    if MemOwns(m, u, i) {
      var j := ids.feeds.to[i];
      var m', db' := MemSetFullContent(m, u, i, on, at).0, SetFullContent(db, u, j, on, S.ToUnix(at)).0;
      FeedReplaced(plain, ids, m, db, i, m.feeds[i].(fullContent := on), db.feeds[j].(fullContent := on));
      assert FeedsMirror(ids, m', db') by {
        FeedsUntouched(ids, m.(feeds := m'.feeds), db.(feeds := db'.feeds), ids, m', db');
      }
      RowsToggled(plain, ids, m, db, u, i, on, at);
    }
  }

  lemma RowsToggled(plain: string -> string, ids: Ids, m: MemDb, db: Db, u: Id, i: Id, on: bool, at: int)
    requires RowsMirror(plain, ids, m, db) && Bijection(ids.feeds) && i in ids.feeds.to && MemOwns(m, u, i) && Owns(db, u, ids.feeds.to[i])
    ensures RowsMirror(plain, ids, MemSetFullContent(m, u, i, on, at).0, SetFullContent(db, u, ids.feeds.to[i], on, S.ToUnix(at)).0)
  {
    var j := ids.feeds.to[i];
    var m', db' := MemSetFullContent(m, u, i, on, at).0, SetFullContent(db, u, j, on, S.ToUnix(at)).0;
    forall k | k in ids.entries.to ensures RowMirrors(plain, ids, m', db', k) {
      assert RowMirrors(plain, ids, m, db, k);
      if k in m.entries {
        ToggledRow(plain, m, k, i, ids.feeds.to[m.entries[k].feedId], j, on, at);
        assert At(m'.nextExtract, k) == MemToggledAt(m.entries[k], i, on, at, At(m.nextExtract, k));
      }
    }
  }

  lemma ToggledRow(plain: string -> string, m: MemDb, k: Id, i: Id, feed: Id, j: Id, on: bool, at: int)
    requires k in m.entries && (m.entries[k].feedId == i <==> feed == j)
    ensures AsRow(plain, MemToggled(m.entries[k], i, on), feed, MemToggledAt(m.entries[k], i, on, at, At(m.nextExtract, k)))
            == Toggled(AsRow(plain, m.entries[k], feed, At(m.nextExtract, k)), j, on, S.ToUnix(at))
  {
  }

  // ---- the lookup ----------------------------------------------------------

  lemma FindAgrees(plain: string -> string, ids: Ids, m: MemDb, db: Db, feedId: Id, guid: string)
    requires Mirrors(plain, ids, m, db) && UniqueGuids(db) && feedId in ids.feeds.to
    ensures var i, j := FindMem(m.entries, feedId, guid), FindByGuid(db.entries, ids.feeds.to[feedId], guid);
            (i.Some? <==> j.Some?) && (i.Some? ==> i.value in ids.entries.to && j.value == ids.entries.to[i.value])
  {
    var i, j := FindMem(m.entries, feedId, guid), FindByGuid(db.entries, ids.feeds.to[feedId], guid);
    if i.Some? {
      assert RowMirrors(plain, ids, m, db, i.value);
      assert IsRowOf(db.entries, ids.entries.to[i.value], ids.feeds.to[feedId], guid);
    }
    if j.Some? {
      var k := ids.entries.from[j.value];
      assert RowMirrors(plain, ids, m, db, k);
      assert IsMemRow(m.entries, k, feedId, guid);
    }
  }

  lemma HashAgrees(plain: string -> string, ids: Ids, m: MemDb, db: Db, feedId: Id, guid: string)
    requires Mirrors(plain, ids, m, db) && UniqueGuids(db) && feedId in ids.feeds.to
    ensures HashesAgree(m.entries, db.entries, feedId, ids.feeds.to[feedId], guid)
  {
    FindAgrees(plain, ids, m, db, feedId, guid);
    var i := FindMem(m.entries, feedId, guid);
    if i.Some? {
      assert RowMirrors(plain, ids, m, db, i.value);
    }
  }

  /** The lookup that a poll makes before it upserts. */
  lemma DedupMirrors(plain: string -> string, ids: Ids, m: MemDb, db: Db, feedId: Id, guids: set<string>)
    requires Mirrors(plain, ids, m, db) && UniqueGuids(db) && feedId in ids.feeds.to
    ensures MemHashes(m.entries, feedId, guids) == HashesOf(db.entries, ids.feeds.to[feedId], guids)
    ensures (set g | g in guids && Tkey(feedId, g) in m.tombstones) == TombstonedOf(db.tombstones, ids.feeds.to[feedId], guids)
  {
    forall g ensures HashesAgree(m.entries, db.entries, feedId, ids.feeds.to[feedId], g) {
      HashAgrees(plain, ids, m, db, feedId, g);
    }
    SameAnswers(m.entries, db.entries, feedId, ids.feeds.to[feedId], guids);
  }

  ghost predicate HashesAgree(a: map<Id, MemEntry>, b: map<Id, Entry>, feedId: Id, j: Id, guid: string) {
    && (FindMem(a, feedId, guid).Some? <==> FindByGuid(b, j, guid).Some?)
    && (FindMem(a, feedId, guid).Some? ==>
          a[FindMem(a, feedId, guid).value].meta.hash == b[FindByGuid(b, j, guid).value].meta.hash)
  }

  lemma SameAnswers(a: map<Id, MemEntry>, b: map<Id, Entry>, feedId: Id, j: Id, guids: set<string>)
    requires forall g :: HashesAgree(a, b, feedId, j, g)
    ensures MemHashes(a, feedId, guids) == HashesOf(b, j, guids)
  {
    var x, y := MemHashes(a, feedId, guids), HashesOf(b, j, guids);
    forall g ensures (g in x <==> g in y) && (g in x ==> x[g] == y[g]) {
      assert HashesAgree(a, b, feedId, j, g);
    }
    assert x.Keys == y.Keys;
  }

  // ---- upserts -------------------------------------------------------------

  /** An item that finds the row of another user under a new hash: the SQL leaves the
      row, the in-memory store refreshes it. */
  ghost predicate ForeignHit(db: Db, feedId: Id, n: NewEntry) {
    && (feedId, n.guid) !in db.tombstones && FindByGuid(db.entries, feedId, n.guid).Some?
    && var e := db.entries[FindByGuid(db.entries, feedId, n.guid).value]; e.userId != n.userId && e.meta.hash != n.meta.hash
  }

  /** An item as ingest stages it: unread, unstarred, with nothing counted. The SQL
      inserts every item so, the in-memory store copies what the item says. */
  predicate Fresh(x: Staged) {
    x.reader == Reader(Unread, false, None) && x.attempts == 0 && x.error == ""
  }

  ghost predicate SqlInserts(db: Db, feedId: Id, guid: string) {
    (feedId, guid) !in db.tombstones && FindByGuid(db.entries, feedId, guid).None?
  }

  /** One item as a transaction of its own. */
  ghost function UpsertAlone(plain: string -> string, db: Db, feedId: Id, full: bool, n: NewEntry): Db {
    if SqlInserts(db, feedId, n.guid) && n.userId !in db.users then db else UpsertOne(plain, db, feedId, full, n)
  }

  ghost function UpsertedIds(ids: Ids, m: MemDb, db: Db, feedId: Id, guid: string): Ids {
    if MemInserts(m, feedId, guid) then ids.(entries := With(ids.entries, m.nextID, db.nextEntry)) else ids
  }

  lemma InsertRowsMirrorIff(plain: string -> string, ids: Ids, m: MemDb, db: Db, feedId: Id, full: bool, x: Staged)
    requires RowsMirror(plain, ids, m, db) && feedId in ids.feeds.to
    ensures RowsMirror(plain, ids.(entries := With(ids.entries, m.nextID, db.nextEntry)),
                       MemInsert(m, feedId, full, x), InsertRow(plain, db, ids.feeds.to[feedId], full, CutItem(x.n)))
            <==> Fresh(x)
  {
    var ids' := ids.(entries := With(ids.entries, m.nextID, db.nextEntry));
    var m', db' := MemInsert(m, feedId, full, x), InsertRow(plain, db, ids.feeds.to[feedId], full, CutItem(x.n));
    WithBijection(ids.entries, m.nextID, db.nextEntry);
    forall i | i in ids.entries.to ensures RowMirrors(plain, ids', m', db', i) {
      assert RowMirrors(plain, ids, m, db, i);
    }
    InsertedRowIff(plain, feedId, full, x, ids.feeds.to[feedId]);
    assert At(m'.nextExtract, m.nextID) == if full then Some(x.n.createdAt) else None;
    assert RowMirrors(plain, ids', m', db', m.nextID) <==> Fresh(x);
  }

  lemma InsertedRowIff(plain: string -> string, feedId: Id, full: bool, x: Staged, j: Id)
    ensures var n := CutItem(x.n); var at := if full then Some(x.n.createdAt) else None;
            AsRow(plain, Inserted(feedId, full, x), j, at)
            == Entry(n.userId, j, n.guid, n.createdAt, n.meta, n.content, plain(n.content), plain(n.meta.summary),
                     Reader(Unread, false, None),
                     Extraction(if full then ExtractPending else ExtractNone, 0, if full then Some(n.createdAt) else None, ""))
            <==> Fresh(x)
  {
  }

  lemma InsertMirrorsIff(plain: string -> string, ids: Ids, m: MemDb, db: Db, feedId: Id, full: bool, x: Staged)
    requires Mirrors(plain, ids, m, db) && feedId in ids.feeds.to
    ensures Mirrors(plain, ids.(entries := With(ids.entries, m.nextID, db.nextEntry)),
                    MemInsert(m, feedId, full, x), InsertRow(plain, db, ids.feeds.to[feedId], full, CutItem(x.n)))
            <==> Fresh(x)
  {
    var ids' := ids.(entries := With(ids.entries, m.nextID, db.nextEntry));
    var m', db' := MemInsert(m, feedId, full, x), InsertRow(plain, db, ids.feeds.to[feedId], full, CutItem(x.n));
    InsertRowsMirrorIff(plain, ids, m, db, feedId, full, x);
    RowsDecide(plain, ids, m, db, ids', m', db');
  }

  /** Exactly: refreshing a row keeps the two in step unless the hash is new and the
      item another user's. */
  lemma RefreshMirrorsIff(plain: string -> string, ids: Ids, m: MemDb, db: Db, i: Id, n: NewEntry)
    requires Mirrors(plain, ids, m, db) && i in m.entries && i in ids.entries.to && RowMirrors(plain, ids, m, db, i)
    ensures Mirrors(plain, ids, MemRefresh(m, i, n), RefreshRow(plain, db, ids.entries.to[i], CutItem(n)))
            <==> !(m.entries[i].meta.hash != n.meta.hash && m.entries[i].userId != n.userId)
  {
    var m', db' := MemRefresh(m, i, n), RefreshRow(plain, db, ids.entries.to[i], CutItem(n));
    RowsDecide(plain, ids, m, db, ids, m', db');
    if m.entries[i].meta.hash != n.meta.hash && m.entries[i].userId != n.userId {
      assert !RowMirrors(plain, ids, m', db', i);
    } else {
      RefreshedRowsMirror(plain, ids, m, db, i, n);
    }
  }

  lemma RefreshedRowsMirror(plain: string -> string, ids: Ids, m: MemDb, db: Db, i: Id, n: NewEntry)
    requires RowsMirror(plain, ids, m, db) && i in m.entries && i in ids.entries.to && RowMirrors(plain, ids, m, db, i)
    requires m.entries[i].meta.hash == n.meta.hash || m.entries[i].userId == n.userId
    ensures RowsMirror(plain, ids, MemRefresh(m, i, n), RefreshRow(plain, db, ids.entries.to[i], CutItem(n)))
  {
    var m', db' := MemRefresh(m, i, n), RefreshRow(plain, db, ids.entries.to[i], CutItem(n));
    forall k | k in ids.entries.to ensures RowMirrors(plain, ids, m', db', k) {
      assert RowMirrors(plain, ids, m, db, k);
    }
  }

  lemma InsertsAgree(plain: string -> string, ids: Ids, m: MemDb, db: Db, feedId: Id, guid: string)
    requires Mirrors(plain, ids, m, db) && UniqueGuids(db) && feedId in ids.feeds.to
    ensures MemInserts(m, feedId, guid) == SqlInserts(db, ids.feeds.to[feedId], guid)
    ensures Tkey(feedId, guid) in m.tombstones <==> (ids.feeds.to[feedId], guid) in db.tombstones
  {
    FindAgrees(plain, ids, m, db, feedId, guid);
  }

  /** Exactly: one item of an upsert keeps the two in step unless it is a foreign hit,
      or its row is new and either not fresh or of a user who does not exist. */
  lemma UpsertOneMirrorsIff(plain: string -> string, ids: Ids, m: MemDb, db: Db, feedId: Id, full: bool, x: Staged)
    requires Mirrors(plain, ids, m, db) && UniqueGuids(db) && feedId in ids.feeds.to
    ensures var j, n := ids.feeds.to[feedId], CutItem(x.n);
            Mirrors(plain, UpsertedIds(ids, m, db, feedId, n.guid), MemUpsertOne(m, feedId, full, x), UpsertAlone(plain, db, j, full, n))
            <==> !ForeignHit(db, j, n) && (MemInserts(m, feedId, n.guid) ==> Fresh(x) && n.userId in db.users)
  {
    var j, n := ids.feeds.to[feedId], CutItem(x.n);
    FindAgrees(plain, ids, m, db, feedId, n.guid);
    InsertsAgree(plain, ids, m, db, feedId, n.guid);
    if Tkey(feedId, n.guid) !in m.tombstones {
      match FindMem(m.entries, feedId, n.guid)
      case Some(i) =>
        assert RowMirrors(plain, ids, m, db, i);
        RefreshMirrorsIff(plain, ids, m, db, i, x.n);
      case None =>
        if n.userId in db.users {
          InsertMirrorsIff(plain, ids, m, db, feedId, full, x);
        } else {
          assert db.nextEntry in UpsertedIds(ids, m, db, feedId, n.guid).entries.from;
        }
    }
  }

  // ---- whole batches -------------------------------------------------------

  function Freshened(x: Staged): Staged {
    x.(reader := Reader(Unread, false, None), attempts := 0, error := "")
  }

  /** What the in-memory upsert of one item would be if it looked at the item's user
      before it refreshes a row, and inserted every item fresh. */
  ghost function CarefulOne(m: MemDb, feedId: Id, full: bool, x: Staged): MemDb {
    if Tkey(feedId, x.n.guid) in m.tombstones then m
    else match FindMem(m.entries, feedId, x.n.guid)
      case Some(i) => if m.entries[i].userId == x.n.userId then MemRefresh(m, i, x.n) else m
      case None => MemInsert(m, feedId, full, Freshened(x))
  }

  ghost function CarefulAll(m: MemDb, feedId: Id, full: bool, batch: seq<Staged>): MemDb {
    if batch == [] then m else CarefulOne(CarefulAll(m, feedId, full, batch[..|batch| - 1]), feedId, full, batch[|batch| - 1])
  }

  ghost function UpsertedAllIds(plain: string -> string, ids: Ids, m: MemDb, db: Db, feedId: Id, full: bool, batch: seq<Staged>): Ids
    requires feedId in ids.feeds.to
    ensures UpsertedAllIds(plain, ids, m, db, feedId, full, batch).feeds == ids.feeds
  {
    if batch == [] then ids
    else
      var front, j := batch[..|batch| - 1], ids.feeds.to[feedId];
      UpsertedIds(UpsertedAllIds(plain, ids, m, db, feedId, full, front),
                  CarefulAll(m, feedId, full, front), UpsertAll(plain, db, j, full, CutItems(front)), feedId, batch[|batch| - 1].n.guid)
  }

  /** The inserted rows are the same items in the same order, under renamed ids. */
  ghost predicate SameInserted(r: Ren, a: seq<(Id, Staged)>, b: seq<(Id, NewEntry)>) {
    |a| == |b| && forall k | 0 <= k < |a| :: b[k].1 == CutItem(a[k].1.n) && a[k].0 in r.to && r.to[a[k].0] == b[k].0
  }

  lemma CutFront(batch: seq<Staged>)
    requires batch != []
    ensures CutItems(batch)[..|batch| - 1] == CutItems(batch[..|batch| - 1]) && CutItems(batch)[|batch| - 1] == CutItem(batch[|batch| - 1].n)
  {
  }

  lemma {:induction false} UpsertAllKeepsUsers(plain: string -> string, db: Db, j: Id, full: bool, batch: seq<NewEntry>)
    ensures UpsertAll(plain, db, j, full, batch).users == db.users
  {
    if batch != [] {
      UpsertAllKeepsUsers(plain, db, j, full, batch[..|batch| - 1]);
    }
  }

  lemma CarefulOneMirrors(plain: string -> string, ids: Ids, m: MemDb, db: Db, feedId: Id, full: bool, x: Staged)
    requires Mirrors(plain, ids, m, db) && UniqueGuids(db) && feedId in ids.feeds.to
    ensures Mirrors(plain, UpsertedIds(ids, m, db, feedId, x.n.guid), CarefulOne(m, feedId, full, x),
                    UpsertOne(plain, db, ids.feeds.to[feedId], full, CutItem(x.n)))
  {
    var n := CutItem(x.n);
    FindAgrees(plain, ids, m, db, feedId, n.guid);
    InsertsAgree(plain, ids, m, db, feedId, n.guid);
    if Tkey(feedId, n.guid) !in m.tombstones {
      match FindMem(m.entries, feedId, n.guid)
      case Some(i) =>
        assert RowMirrors(plain, ids, m, db, i);
        RefreshMirrorsIff(plain, ids, m, db, i, x.n);
      case None =>
        assert CutItem(Freshened(x).n) == n;
        InsertMirrorsIff(plain, ids, m, db, feedId, full, Freshened(x));
    }
  }

  /** Such an upsert would mirror the SQL's, whatever the batch. */
  lemma {:induction false} CarefulAllMirrors(plain: string -> string, ids: Ids, m: MemDb, db: Db, feedId: Id, full: bool, batch: seq<Staged>)
    requires Mirrors(plain, ids, m, db) && I.Numbered(db) && feedId in ids.feeds.to
    ensures Mirrors(plain, UpsertedAllIds(plain, ids, m, db, feedId, full, batch),
                    CarefulAll(m, feedId, full, batch), UpsertAll(plain, db, ids.feeds.to[feedId], full, CutItems(batch)))
    ensures I.Numbered(UpsertAll(plain, db, ids.feeds.to[feedId], full, CutItems(batch)))
  {
    hide Mirrors;
    if batch != [] {
      var front, x, j := batch[..|batch| - 1], batch[|batch| - 1], ids.feeds.to[feedId];
      CutFront(batch);
      CarefulAllMirrors(plain, ids, m, db, feedId, full, front);
      var mid := UpsertAll(plain, db, j, full, CutItems(front));
      CarefulOneMirrors(plain, UpsertedAllIds(plain, ids, m, db, feedId, full, front), CarefulAll(m, feedId, full, front), mid, feedId, full, x);
      I.UpsertOneKeepsNumbered(plain, mid, j, full, CutItem(x.n));
    }
  }

  /** Two rows alike but for what a careless upsert may get wrong. */
  predicate SameFrame(e: MemEntry, e': MemEntry) {
    e' == e.(meta := e'.meta, content := e'.content, reader := e'.reader, attempts := e'.attempts, error := e'.error)
  }

  /** The same rows, of the same feeds and guids, in the same state. */
  ghost predicate SameSkeleton(a: MemDb, b: MemDb) {
    b == a.(entries := b.entries) && b.entries.Keys == a.entries.Keys && forall i | i in a.entries :: SameFrame(a.entries[i], b.entries[i])
  }

  lemma SameFinds(a: MemDb, b: MemDb, feedId: Id, guid: string)
    requires SameSkeleton(a, b) && UniqueMem(b)
    ensures FindMem(a.entries, feedId, guid) == FindMem(b.entries, feedId, guid)
    ensures MemInserts(a, feedId, guid) == MemInserts(b, feedId, guid) && a.nextID == b.nextID
  {
    var x, y := FindMem(a.entries, feedId, guid), FindMem(b.entries, feedId, guid);
    if x.Some? {
      var i := x.value;
      assert SameFrame(a.entries[i], b.entries[i]) && IsMemRow(b.entries, i, feedId, guid);
    }
    if y.Some? {
      var i := y.value;
      assert SameFrame(a.entries[i], b.entries[i]) && IsMemRow(a.entries, i, feedId, guid);
    }
  }

  lemma OneKeepsSkeleton(a: MemDb, b: MemDb, feedId: Id, full: bool, x: Staged)
    requires SameSkeleton(a, b) && UniqueMem(b)
    ensures SameSkeleton(MemUpsertOne(a, feedId, full, x), CarefulOne(b, feedId, full, x))
  {
    SameFinds(a, b, feedId, x.n.guid);
  }

  lemma MirroredSound(plain: string -> string, ids: Ids, m: MemDb, db: Db)
    requires Mirrors(plain, ids, m, db) && UniqueGuids(db)
    ensures MemSound(m)
  {
    forall i, k | i in m.entries && k in m.entries && m.entries[i].feedId == m.entries[k].feedId && m.entries[i].guid == m.entries[k].guid
      ensures i == k
    {
      assert RowMirrors(plain, ids, m, db, i) && RowMirrors(plain, ids, m, db, k);
      assert ids.entries.to[i] == ids.entries.to[k];
    }
  }

  lemma SkeletonSound(a: MemDb, b: MemDb)
    requires SameSkeleton(a, b) && MemSound(a)
    ensures MemSound(b)
  {
    forall i, k | i in b.entries && k in b.entries && b.entries[i].feedId == b.entries[k].feedId && b.entries[i].guid == b.entries[k].guid
      ensures i == k
    {
      assert SameFrame(a.entries[i], b.entries[i]) && SameFrame(a.entries[k], b.entries[k]);
    }
  }

  lemma OwnSkeleton(m: MemDb)
    ensures SameSkeleton(m, m)
  {
  }

  lemma {:induction false} AllKeepSkeleton(m: MemDb, feedId: Id, full: bool, batch: seq<Staged>)
    requires MemSound(m)
    ensures SameSkeleton(MemUpsertAll(m, feedId, full, batch), CarefulAll(m, feedId, full, batch))
    ensures MemSound(MemUpsertAll(m, feedId, full, batch)) && MemSound(CarefulAll(m, feedId, full, batch))
  {
    hide SameSkeleton, UniqueMem, MemUpsertOne, CarefulOne;
    MemUpsertAllSound(m, feedId, full, batch);
    if batch == [] {
      OwnSkeleton(m);
    } else {
      var front, x := batch[..|batch| - 1], batch[|batch| - 1];
      AllKeepSkeleton(m, feedId, full, front);
      OneKeepsSkeleton(MemUpsertAll(m, feedId, full, front), CarefulAll(m, feedId, full, front), feedId, full, x);
      SkeletonSound(MemUpsertAll(m, feedId, full, batch), CarefulAll(m, feedId, full, batch));
    }
  }

  /** The columns that a careless upsert may get wrong show the same. */
  predicate SameShown(e: MemEntry, e': MemEntry) {
    && CutMeta(e.meta) == CutMeta(e'.meta) && e.content == e'.content && CutReader(e.reader) == CutReader(e'.reader)
    && e.attempts == e'.attempts && e.error == e'.error
  }

  ghost predicate RowsShown(a: map<Id, MemEntry>, b: map<Id, MemEntry>) {
    forall i | i in a && i in b :: SameShown(a[i], b[i])
  }

  ghost predicate AllShown(a: MemDb, b: MemDb) {
    RowsShown(a.entries, b.entries)
  }

  lemma ShownRow(plain: string -> string, e: MemEntry, e': MemEntry, feedId: Id, at: Option<int>)
    requires SameFrame(e, e')
    ensures AsRow(plain, e, feedId, at) == AsRow(plain, e', feedId, at) <==> SameShown(e, e')
  {
  }

  /** Beside one that mirrors the database, another with the same skeleton does so
      exactly if it shows the same. */
  lemma ShownMirrorsIff(plain: string -> string, ids: Ids, a: MemDb, b: MemDb, db: Db)
    requires Mirrors(plain, ids, b, db) && SameSkeleton(a, b)
    ensures Mirrors(plain, ids, a, db) <==> AllShown(a, b)
  {
    RowsDecide(plain, ids, b, db, ids, a, db);
    forall i | i in ids.entries.to
      ensures RowMirrors(plain, ids, a, db, i) <==> (i in a.entries ==> SameShown(a.entries[i], b.entries[i]))
    {
      assert RowMirrors(plain, ids, b, db, i);
      if i in a.entries {
        ShownRow(plain, a.entries[i], b.entries[i], ids.feeds.to[a.entries[i].feedId], At(a.nextExtract, i));
      }
    }
  }

  /** An item that memory inserts names a user who does not exist. */
  ghost predicate Stranger(users: set<Id>, m: MemDb, feedId: Id, full: bool, batch: seq<Staged>) {
    exists x | x in MemInserted(m, feedId, full, batch) :: x.1.n.userId !in users
  }

  lemma AcceptedIff(plain: string -> string, ids: Ids, m: MemDb, db: Db, feedId: Id, full: bool, batch: seq<Staged>)
    requires Mirrors(plain, ids, m, db) && I.Numbered(db) && feedId in ids.feeds.to
    ensures Accepted(plain, db, ids.feeds.to[feedId], full, CutItems(batch)) <==> !Stranger(db.users, m, feedId, full, batch)
  {
    hide Mirrors, I.Numbered;
    InsertedMirror(plain, ids, m, db, feedId, full, batch);
    var a, b := MemInserted(m, feedId, full, batch), UpsertInserted(plain, db, ids.feeds.to[feedId], full, CutItems(batch));
    if Stranger(db.users, m, feedId, full, batch) {
      var k :| 0 <= k < |a| && a[k].1.n.userId !in db.users;
      assert b[k] in b && b[k].1.userId !in db.users;
    }
    if !Accepted(plain, db, ids.feeds.to[feedId], full, CutItems(batch)) {
      var k :| 0 <= k < |b| && b[k].1.userId !in db.users;
      assert a[k] in a && a[k].1.n.userId !in db.users;
    }
  }

  /** A batch takes the two apart: it inserts an item of a user who does not exist, or
      does not end as it would had it left the rows of other users alone and inserted
      every item fresh. */
  ghost predicate UpsertApart(users: set<Id>, m: MemDb, feedId: Id, batch: seq<Staged>) {
    feedId in m.feeds
    && var full := m.feeds[feedId].fullContent;
       || Stranger(users, m, feedId, full, batch)
       || !AllShown(MemUpsertAll(m, feedId, full, batch), CarefulAll(m, feedId, full, batch))
  }

  ghost function UpsertIds(plain: string -> string, ids: Ids, m: MemDb, db: Db, feedId: Id, batch: seq<Staged>): Ids {
    if feedId in m.feeds && feedId in ids.feeds.to then UpsertedAllIds(plain, ids, m, db, feedId, m.feeds[feedId].fullContent, batch) else ids
  }

  /** Exactly: any batch whatever takes the two apart when one of its inserted items has
      no user, or when memory ends otherwise than a careful upsert; and only the
      former gets two answers, Ok from memory and a conflict from the foreign key. */
  lemma UpsertMirrorsIff(plain: string -> string, ids: Ids, m: MemDb, db: Db, feedId: Id, batch: seq<Staged>)
    requires Mirrors(plain, ids, m, db) && Rules(db)
    ensures Mirrors(plain, UpsertIds(plain, ids, m, db, feedId, batch), MemUpsert(m, feedId, batch),
                    Upsert(plain, db, SqlFeed(ids, db, feedId), CutItems(batch)).0)
            <==> !UpsertApart(db.users, m, feedId, batch)
    ensures Upsert(plain, db, SqlFeed(ids, db, feedId), CutItems(batch)).1
            == if feedId in m.feeds && Stranger(db.users, m, feedId, m.feeds[feedId].fullContent, batch) then Conflict else Ok
  {
    hide Mirrors, Stranger, Accepted, MemSound, SameSkeleton, AllShown, MemUpsertAll, CarefulAll, UpsertAll, UpsertedAllIds;
    FeedThere(plain, ids, m, db, feedId);
    if feedId in m.feeds {
      var full, j := m.feeds[feedId].fullContent, ids.feeds.to[feedId];
      assert I.Numbered(db);
      var ids', a, b, end := UpsertedAllIds(plain, ids, m, db, feedId, full, batch),
          MemUpsertAll(m, feedId, full, batch), CarefulAll(m, feedId, full, batch), UpsertAll(plain, db, j, full, CutItems(batch));
      AcceptedIff(plain, ids, m, db, feedId, full, batch);
      if Stranger(db.users, m, feedId, full, batch) {
        RejectedApart(plain, ids, m, db, feedId, full, batch);
      } else {
        CarefulAllMirrors(plain, ids, m, db, feedId, full, batch);
        MirroredSound(plain, ids, m, db);
        AllKeepSkeleton(m, feedId, full, batch);
        ShownMirrorsIff(plain, ids', a, b, end);
      }
    }
  }

  lemma FeedThere(plain: string -> string, ids: Ids, m: MemDb, db: Db, i: Id)
    requires Mirrors(plain, ids, m, db)
    ensures i in m.feeds <==> SqlFeed(ids, db, i) in db.feeds
    ensures i in m.feeds ==> i in ids.feeds.to && m.feeds[i].fullContent == db.feeds[ids.feeds.to[i]].fullContent
                             && m.feeds[i].userId == db.feeds[ids.feeds.to[i]].userId
  {
    if i in ids.feeds.to {
      assert FeedMirrors(ids, m, db, i);
    }
  }

  /** What the SQL would have inserted has ids that the database never handed out. */
  lemma RejectedApart(plain: string -> string, ids: Ids, m: MemDb, db: Db, feedId: Id, full: bool, batch: seq<Staged>)
    requires Mirrors(plain, ids, m, db) && I.Numbered(db) && feedId in ids.feeds.to && Stranger(db.users, m, feedId, full, batch)
    ensures !Mirrors(plain, UpsertedAllIds(plain, ids, m, db, feedId, full, batch), MemUpsertAll(m, feedId, full, batch), db)
  {
    hide Mirrors, I.Numbered, MemUpsertAll, CarefulAll, UpsertAll, UpsertedAllIds, MemInserted, UpsertInserted;
    var a, b := MemInserted(m, feedId, full, batch), UpsertInserted(plain, db, ids.feeds.to[feedId], full, CutItems(batch));
    InsertedMirror(plain, ids, m, db, feedId, full, batch);
    CarefulAllMirrors(plain, ids, m, db, feedId, full, batch);
    assert a != [];
    InsertedIsNew(plain, db, ids.feeds.to[feedId], full, CutItems(batch), b[0]);
    BeyondApart(plain, UpsertedAllIds(plain, ids, m, db, feedId, full, batch), CarefulAll(m, feedId, full, batch),
                UpsertAll(plain, db, ids.feeds.to[feedId], full, CutItems(batch)), MemUpsertAll(m, feedId, full, batch), db, a[0].0);
  }

  lemma BeyondApart(plain: string -> string, ids: Ids, m: MemDb, db: Db, m': MemDb, db': Db, i: Id)
    requires Mirrors(plain, ids, m, db) && i in ids.entries.to && db'.nextEntry <= ids.entries.to[i]
    ensures !Mirrors(plain, ids, m', db')
  {
    assert ids.entries.to[i] in ids.entries.from;
  }

  lemma {:induction false} InsertedIsNew(plain: string -> string, db: Db, j: Id, full: bool, batch: seq<NewEntry>, x: (Id, NewEntry))
    requires x in UpsertInserted(plain, db, j, full, batch)
    ensures db.nextEntry <= x.0
    ensures db.nextEntry <= UpsertAll(plain, db, j, full, batch).nextEntry
  {
    var front := batch[..|batch| - 1];
    NextEntryGrows(plain, db, j, full, front);
    NextEntryGrows(plain, db, j, full, batch);
    if x in UpsertInserted(plain, db, j, full, front) {
      InsertedIsNew(plain, db, j, full, front, x);
    }
  }

  lemma {:induction false} NextEntryGrows(plain: string -> string, db: Db, j: Id, full: bool, batch: seq<NewEntry>)
    ensures db.nextEntry <= UpsertAll(plain, db, j, full, batch).nextEntry
  {
    if batch != [] {
      NextEntryGrows(plain, db, j, full, batch[..|batch| - 1]);
    }
  }

  lemma InsertedOneMore(r: Ren, a: seq<(Id, Staged)>, b: seq<(Id, NewEntry)>, i: Id, j: Id, x: Staged)
    requires SameInserted(r, a, b) && i !in r.to
    ensures SameInserted(With(r, i, j), a + [(i, x)], b + [(j, CutItem(x.n))])
  {
  }

  /** The rows that an upsert reports as new, whatever the batch. */
  lemma {:induction false} InsertedMirror(plain: string -> string, ids: Ids, m: MemDb, db: Db, feedId: Id, full: bool, batch: seq<Staged>)
    requires Mirrors(plain, ids, m, db) && I.Numbered(db) && feedId in ids.feeds.to
    ensures SameInserted(UpsertedAllIds(plain, ids, m, db, feedId, full, batch).entries,
                         MemInserted(m, feedId, full, batch), UpsertInserted(plain, db, ids.feeds.to[feedId], full, CutItems(batch)))
  {
    hide Mirrors, SameSkeleton, UniqueMem;
    if batch != [] {
      var front, x, j := batch[..|batch| - 1], batch[|batch| - 1], ids.feeds.to[feedId];
      CutFront(batch);
      InsertedMirror(plain, ids, m, db, feedId, full, front);
      CarefulAllMirrors(plain, ids, m, db, feedId, full, front);
      MirroredSound(plain, ids, m, db);
      AllKeepSkeleton(m, feedId, full, front);
      var mid, a, b := UpsertAll(plain, db, j, full, CutItems(front)), MemUpsertAll(m, feedId, full, front), CarefulAll(m, feedId, full, front);
      SameFinds(a, b, feedId, x.n.guid);
      LastInserted(plain, UpsertedAllIds(plain, ids, m, db, feedId, full, front), b, mid, feedId, x,
                   MemInserted(m, feedId, full, front), UpsertInserted(plain, db, j, full, CutItems(front)));
    }
  }

  lemma LastInserted(plain: string -> string, ids: Ids, m: MemDb, db: Db, feedId: Id, x: Staged,
                     a: seq<(Id, Staged)>, b: seq<(Id, NewEntry)>)
    requires Mirrors(plain, ids, m, db) && UniqueGuids(db) && feedId in ids.feeds.to && SameInserted(ids.entries, a, b)
    ensures SameInserted(UpsertedIds(ids, m, db, feedId, x.n.guid).entries,
                         a + (if MemInserts(m, feedId, x.n.guid) then [(m.nextID, x)] else []),
                         b + (if SqlInserts(db, ids.feeds.to[feedId], x.n.guid) then [(db.nextEntry, CutItem(x.n))] else []))
  {
    InsertsAgree(plain, ids, m, db, feedId, x.n.guid);
    if MemInserts(m, feedId, x.n.guid) {
      InsertedOneMore(ids.entries, a, b, m.nextID, db.nextEntry, x);
    }
  }

  // ---- when a batch does so ------------------------------------------------

  /** An item that on its own would end otherwise than a careful one. */
  ghost predicate CarelessItem(m: MemDb, feedId: Id, x: Staged) {
    Tkey(feedId, x.n.guid) !in m.tombstones
    && match FindMem(m.entries, feedId, x.n.guid)
       case Some(i) => m.entries[i].userId != x.n.userId && m.entries[i].meta.hash != x.n.meta.hash
       case None => !Fresh(x)
  }

  ghost predicate DistinctGuids(batch: seq<Staged>) {
    forall k, l | 0 <= k < l < |batch| :: batch[k].n.guid != batch[l].n.guid
  }

  /** The rows of `guid` are the same in both. */
  ghost predicate SameRowsOf(a: MemDb, b: MemDb, feedId: Id, guid: string) {
    && a.tombstones == b.tombstones
    && forall i :: (IsMemRow(a.entries, i, feedId, guid) <==> IsMemRow(b.entries, i, feedId, guid))
                   && (IsMemRow(a.entries, i, feedId, guid) ==> b.entries[i] == a.entries[i])
  }

  lemma {:induction false} OthersUntouched(m: MemDb, feedId: Id, full: bool, batch: seq<Staged>, guid: string)
    requires MemSound(m) && forall x | x in batch :: x.n.guid != guid
    ensures SameRowsOf(m, MemUpsertAll(m, feedId, full, batch), feedId, guid)
    ensures SameRowsOf(m, CarefulAll(m, feedId, full, batch), feedId, guid)
  {
    hide MemSound, SameSkeleton;
    if batch != [] {
      var front, x := batch[..|batch| - 1], batch[|batch| - 1];
      assert x in batch;
      OthersUntouched(m, feedId, full, front, guid);
      AllKeepSkeleton(m, feedId, full, front);
      OneLeavesOthers(MemUpsertAll(m, feedId, full, front), feedId, full, x, guid);
      OneLeavesOthers(CarefulAll(m, feedId, full, front), feedId, full, x, guid);
    }
  }

  lemma OneLeavesOthers(m: MemDb, feedId: Id, full: bool, x: Staged, guid: string)
    requires MemSound(m) && x.n.guid != guid
    ensures SameRowsOf(m, MemUpsertOne(m, feedId, full, x), feedId, guid)
    ensures SameRowsOf(m, CarefulOne(m, feedId, full, x), feedId, guid)
  {
  }

  lemma SameRowsSameFind(a: MemDb, b: MemDb, feedId: Id, guid: string)
    requires SameRowsOf(a, b, feedId, guid) && UniqueMem(a)
    ensures FindMem(a.entries, feedId, guid) == FindMem(b.entries, feedId, guid)
  {
    var x, y := FindMem(a.entries, feedId, guid), FindMem(b.entries, feedId, guid);
    assert x.Some? ==> IsMemRow(b.entries, x.value, feedId, guid);
    assert y.Some? ==> IsMemRow(a.entries, y.value, feedId, guid);
  }

  lemma PutShownIff(a: map<Id, MemEntry>, b: map<Id, MemEntry>, i: Id, e: MemEntry, e': MemEntry)
    requires a.Keys == b.Keys && (i in a ==> SameShown(a[i], b[i]))
    ensures RowsShown(a[i := e], b[i := e']) <==> RowsShown(a, b) && SameShown(e, e')
  {
    assert i in a[i := e] && i in b[i := e'];
    assert forall k | k in a && k != i :: a[i := e][k] == a[k] && b[i := e'][k] == b[k];
  }

  /** An item whose row both still have alike decides for itself. */
  lemma LastShownIff(a: MemDb, b: MemDb, feedId: Id, full: bool, x: Staged)
    requires MemSound(a) && MemSound(b) && SameSkeleton(a, b) && SameRowsOf(a, b, feedId, x.n.guid)
    ensures AllShown(MemUpsertOne(a, feedId, full, x), CarefulOne(b, feedId, full, x)) <==> AllShown(a, b) && !CarelessItem(a, feedId, x)
  {
    hide RowsShown;
    SameRowsSameFind(a, b, feedId, x.n.guid);
    if Tkey(feedId, x.n.guid) !in a.tombstones {
      match FindMem(a.entries, feedId, x.n.guid)
      case Some(i) =>
        var e := a.entries[i];
        assert IsMemRow(a.entries, i, feedId, x.n.guid) && b.entries[i] == e;
        RefreshShownIff(a, b, i, e, x.n);
      case None =>
        PutShownIff(a.entries, b.entries, a.nextID, Inserted(feedId, full, x), Inserted(feedId, full, Freshened(x)));
    }
  }

  lemma RefreshShownIff(a: MemDb, b: MemDb, i: Id, e: MemEntry, n: NewEntry)
    requires a.entries.Keys == b.entries.Keys && i in a.entries && a.entries[i] == e == b.entries[i]
    ensures AllShown(MemRefresh(a, i, n), if e.userId == n.userId then MemRefresh(b, i, n) else b)
            <==> AllShown(a, b) && !(e.userId != n.userId && e.meta.hash != n.meta.hash)
  {
    hide RowsShown;
    if e.meta.hash != n.meta.hash {
      var e' := MemRefreshed(e, n);
      PutShownIff(a.entries, b.entries, i, e', if e.userId == n.userId then e' else e);
      assert b.entries == b.entries[i := e];
    }
  }

  lemma ShowsItself(m: MemDb)
    ensures AllShown(m, m)
  {
  }

  lemma SameRowsVia(m: MemDb, a: MemDb, b: MemDb, feedId: Id, guid: string)
    requires SameRowsOf(m, a, feedId, guid) && SameRowsOf(m, b, feedId, guid)
    ensures SameRowsOf(a, b, feedId, guid)
  {
  }

  lemma SameRowsDecideSame(a: MemDb, b: MemDb, feedId: Id, x: Staged)
    requires MemSound(a) && SameRowsOf(a, b, feedId, x.n.guid)
    ensures CarelessItem(b, feedId, x) == CarelessItem(a, feedId, x) && MemInserts(b, feedId, x.n.guid) == MemInserts(a, feedId, x.n.guid)
  {
    SameRowsSameFind(a, b, feedId, x.n.guid);
  }

  /** Exactly: where no guid comes twice, a batch ends as a careful upsert unless one of
      its items on its own does not. */
  lemma {:induction false} DistinctShownIff(m: MemDb, feedId: Id, full: bool, batch: seq<Staged>)
    requires MemSound(m) && DistinctGuids(batch)
    ensures AllShown(MemUpsertAll(m, feedId, full, batch), CarefulAll(m, feedId, full, batch))
            <==> forall x | x in batch :: !CarelessItem(m, feedId, x)
  {
    hide MemSound, AllShown, SameRowsOf, SameSkeleton, CarelessItem, MemUpsertOne, CarefulOne;
    if batch == [] {
      ShowsItself(m);
    } else {
      var front, x := batch[..|batch| - 1], batch[|batch| - 1];
      var a, b := MemUpsertAll(m, feedId, full, front), CarefulAll(m, feedId, full, front);
      DistinctShownIff(m, feedId, full, front);
      AllKeepSkeleton(m, feedId, full, front);
      OthersUntouched(m, feedId, full, front, x.n.guid);
      SameRowsVia(m, a, b, feedId, x.n.guid);
      LastShownIff(a, b, feedId, full, x);
      SameRowsDecideSame(m, a, feedId, x);
      assert batch == front + [x];
    }
  }

  lemma {:induction false} DistinctStrangerIff(users: set<Id>, m: MemDb, feedId: Id, full: bool, batch: seq<Staged>)
    requires MemSound(m) && DistinctGuids(batch)
    ensures Stranger(users, m, feedId, full, batch) <==> exists x | x in batch :: MemInserts(m, feedId, x.n.guid) && x.n.userId !in users
  {
    hide MemSound, SameRowsOf, CarelessItem, MemInserts, MemUpsertAll;
    if batch != [] {
      var front, x := batch[..|batch| - 1], batch[|batch| - 1];
      var a := MemUpsertAll(m, feedId, full, front);
      var before, all := MemInserted(m, feedId, full, front), MemInserted(m, feedId, full, batch);
      DistinctStrangerIff(users, m, feedId, full, front);
      OthersUntouched(m, feedId, full, front, x.n.guid);
      SameRowsDecideSame(m, a, feedId, x);
      assert batch == front + [x];
      assert all == before + (if MemInserts(m, feedId, x.n.guid) then [(a.nextID, x)] else []);
      if MemInserts(m, feedId, x.n.guid) {
        assert (a.nextID, x) in all;
      }
    }
  }

  /** Exactly: where no guid comes twice, a batch takes the two apart when one of its
      items does: it brings a new hash to another user's row, or inserts a row that is
      not fresh or of a user who does not exist. */
  lemma DistinctApartIff(users: set<Id>, m: MemDb, feedId: Id, batch: seq<Staged>)
    requires MemSound(m) && DistinctGuids(batch) && feedId in m.feeds
    ensures UpsertApart(users, m, feedId, batch)
            <==> exists x | x in batch :: CarelessItem(m, feedId, x) || (MemInserts(m, feedId, x.n.guid) && x.n.userId !in users)
  {
    hide MemSound, DistinctGuids, Stranger, AllShown, CarelessItem, MemInserts, MemUpsertAll, CarefulAll;
    DistinctShownIff(m, feedId, m.feeds[feedId].fullContent, batch);
    DistinctStrangerIff(users, m, feedId, m.feeds[feedId].fullContent, batch);
  }

  /** Batches as ingest makes them: fresh items of the user whose the feed's rows are. */
  predicate Ingested(batch: seq<Staged>, u: Id) {
    forall x | x in batch :: Fresh(x) && x.n.userId == u
  }

  predicate RowsBelong(m: MemDb, feedId: Id, u: Id) {
    forall i | i in m.entries && m.entries[i].feedId == feedId :: m.entries[i].userId == u
  }

  lemma {:induction false} IngestedIsCareful(m: MemDb, feedId: Id, full: bool, batch: seq<Staged>, u: Id)
    requires Ingested(batch, u) && RowsBelong(m, feedId, u)
    ensures MemUpsertAll(m, feedId, full, batch) == CarefulAll(m, feedId, full, batch)
    ensures RowsBelong(MemUpsertAll(m, feedId, full, batch), feedId, u)
    ensures forall x | x in MemInserted(m, feedId, full, batch) :: x.1.n.userId == u
  {
    if batch != [] {
      var front, x := batch[..|batch| - 1], batch[|batch| - 1];
      assert x in batch && Freshened(x) == x;
      IngestedIsCareful(m, feedId, full, front, u);
    }
  }

  // ---- single entries ------------------------------------------------------

  lemma DeleteEntryMirrors(plain: string -> string, ids: Ids, m: MemDb, db: Db, u: Id, i: Id)
    requires Mirrors(plain, ids, m, db) && Rules(db)
    ensures Mirrors(plain, ids, MemDeleteEntry(m, u, i).0, DeleteEntryAtOnce(db, u, SqlEntry(ids, db, i)).0)
    ensures MemDeleteEntry(m, u, i).1 == DeleteEntryAtOnce(db, u, SqlEntry(ids, db, i)).1
  {
    if i in ids.entries.to {
      assert RowMirrors(plain, ids, m, db, i);
    }
    if i in m.entries && m.entries[i].userId == u {
      var e, m', db' := m.entries[i], MemDeleteEntry(m, u, i).0, DeleteEntryAtOnce(db, u, SqlEntry(ids, db, i)).0;
      FeedsUntouched(ids, m, db, ids, m', db');
      forall k | k in ids.entries.to ensures RowMirrors(plain, ids, m', db', k) {
        assert RowMirrors(plain, ids, m, db, k);
      }
      forall f, g ensures Tkey(f, g) in m'.tombstones <==> f in ids.feeds.to && (ids.feeds.to[f], g) in db'.tombstones {
        TkeyInjective(f, g, e.feedId, e.guid);
      }
    }
  }

  /** Both replace one row and its schedule. */
  lemma RowReplaced(plain: string -> string, ids: Ids, m: MemDb, db: Db, i: Id, e: MemEntry, at: Option<int>, db': Db)
    requires Mirrors(plain, ids, m, db) && i in m.entries && i in ids.entries.to && e.feedId == m.entries[i].feedId
    requires RowMirrors(plain, ids, m, db, i)
    requires db' == db.(entries := db.entries[ids.entries.to[i] := AsRow(plain, e, ids.feeds.to[e.feedId], at)], fts := db'.fts)
    ensures Mirrors(plain, ids, m.(entries := m.entries[i := e], nextExtract := Scheduled(m.nextExtract, i, at)), db')
  {
    var m' := m.(entries := m.entries[i := e], nextExtract := Scheduled(m.nextExtract, i, at));
    RowsReplaced(plain, ids, m, db, i, e, at, db');
    RowsDecide(plain, ids, m, db, ids, m', db');
  }

  lemma RowsReplaced(plain: string -> string, ids: Ids, m: MemDb, db: Db, i: Id, e: MemEntry, at: Option<int>, db': Db)
    requires RowsMirror(plain, ids, m, db) && i in m.entries && i in ids.entries.to && e.feedId == m.entries[i].feedId
    requires RowMirrors(plain, ids, m, db, i)
    requires db' == db.(entries := db.entries[ids.entries.to[i] := AsRow(plain, e, ids.feeds.to[e.feedId], at)], fts := db'.fts)
    ensures RowsMirror(plain, ids, m.(entries := m.entries[i := e], nextExtract := Scheduled(m.nextExtract, i, at)), db')
  {
    var m' := m.(entries := m.entries[i := e], nextExtract := Scheduled(m.nextExtract, i, at));
    forall k | k in ids.entries.to ensures RowMirrors(plain, ids, m', db', k) {
      assert RowMirrors(plain, ids, m, db, k);
    }
  }

  lemma SetContentMirrors(plain: string -> string, ids: Ids, m: MemDb, db: Db, i: Id, content: string)
    requires Mirrors(plain, ids, m, db)
    ensures Mirrors(plain, ids, MemSetContent(m, i, content).0, Sql.SetEntryContent(plain, db, SqlEntry(ids, db, i), content))
    ensures MemSetContent(m, i, content).1.NotFound? <==> SqlEntry(ids, db, i) !in db.entries
  {
    if i in ids.entries.to {
      assert RowMirrors(plain, ids, m, db, i);
    }
    if i in m.entries && m.entries[i].state.ExtractPending? {
      RowReplaced(plain, ids, m, db, i, m.entries[i].(content := content, state := ExtractDone, error := ""), None,
                  Sql.SetEntryContent(plain, db, SqlEntry(ids, db, i), content));
    }
  }

  lemma SetExtractMirrors(plain: string -> string, ids: Ids, m: MemDb, db: Db, i: Id, x: Extraction)
    requires Mirrors(plain, ids, m, db)
    ensures Mirrors(plain, ids, MemSetExtract(m, i, x).0, Sql.UpdateExtractState(db, SqlEntry(ids, db, i), CutExtraction(x)))
    ensures MemSetExtract(m, i, x).1.NotFound? <==> SqlEntry(ids, db, i) !in db.entries
  {
    if i in ids.entries.to {
      assert RowMirrors(plain, ids, m, db, i);
    }
    if i in m.entries {
      RowReplaced(plain, ids, m, db, i, m.entries[i].(state := x.state, attempts := x.attempts, error := x.error), x.nextAt,
                  Sql.UpdateExtractState(db, SqlEntry(ids, db, i), CutExtraction(x)));
    }
  }

  // ---- what readers set ----------------------------------------------------

  /** Both set the reader columns of the same rows to the same. */
  lemma ReadersMirror(plain: string -> string, ids: Ids, m: MemDb, db: Db, rows: map<Id, MemEntry>, rows': map<Id, Entry>)
    requires Mirrors(plain, ids, m, db) && rows.Keys == m.entries.Keys && rows'.Keys == db.entries.Keys
    requires forall i | i in m.entries :: i in ids.entries.to && ids.entries.to[i] in db.entries
                                          && ReaderSet(m.entries[i], rows[i], db.entries[ids.entries.to[i]], rows'[ids.entries.to[i]])
    ensures Mirrors(plain, ids, m.(entries := rows), db.(entries := rows'))
  {
    RowsSet(plain, ids, m, db, rows, rows');
    RowsDecide(plain, ids, m, db, ids, m.(entries := rows), db.(entries := rows'));
  }

  lemma RowsSet(plain: string -> string, ids: Ids, m: MemDb, db: Db, rows: map<Id, MemEntry>, rows': map<Id, Entry>)
    requires RowsMirror(plain, ids, m, db) && rows.Keys == m.entries.Keys && rows'.Keys == db.entries.Keys
    requires forall i | i in m.entries :: i in ids.entries.to && ids.entries.to[i] in db.entries
                                          && ReaderSet(m.entries[i], rows[i], db.entries[ids.entries.to[i]], rows'[ids.entries.to[i]])
    ensures RowsMirror(plain, ids, m.(entries := rows), db.(entries := rows'))
  {
    var m', db' := m.(entries := rows), db.(entries := rows');
    forall i | i in ids.entries.to ensures RowMirrors(plain, ids, m', db', i) {
      assert RowMirrors(plain, ids, m, db, i);
    }
  }

  predicate ReaderSet(e: MemEntry, e': MemEntry, row: Entry, row': Entry) {
    && e' == e.(reader := e'.reader) && row' == row.(reader := row'.reader)
    && (row.reader == CutReader(e.reader) ==> row'.reader == CutReader(e'.reader))
  }

  /** `f` and `g` do the same to the reader columns, but for the seconds. */
  ghost predicate SameOnReaders(f: Reader -> Reader, g: Reader -> Reader) {
    forall r :: g(CutReader(r)) == CutReader(f(r))
  }

  lemma SetReaderMirrors(plain: string -> string, ids: Ids, m: MemDb, db: Db, s: set<Id>, u: Id, f: Reader -> Reader, g: Reader -> Reader)
    requires Mirrors(plain, ids, m, db) && SameOnReaders(f, g)
    ensures Mirrors(plain, ids, MemSetReader(m, s, u, f), SetReader(db, SqlEntries(ids, db, s), u, g))
  {
    forall i | i in m.entries
      ensures i in ids.entries.to && ids.entries.to[i] in db.entries
      ensures ids.entries.to[i] in SqlEntries(ids, db, s) <==> i in s
      ensures db.entries[ids.entries.to[i]].userId == m.entries[i].userId
    {
      assert RowMirrors(plain, ids, m, db, i);
      assert i in s ==> SqlEntry(ids, db, i) in SqlEntries(ids, db, s);
    }
    ReadersMirror(plain, ids, m, db, MemSetReader(m, s, u, f).entries, SetReader(db, SqlEntries(ids, db, s), u, g).entries);
  }

  lemma SetStatusMirrors(plain: string -> string, ids: Ids, m: MemDb, db: Db, u: Id, s: set<Id>, status: Status, now: int)
    requires Mirrors(plain, ids, m, db)
    ensures Mirrors(plain, ids, MemSetStatus(m, u, s, status, now), Sql.SetStatus(db, u, SqlEntries(ids, db, s), status, S.ToUnix(now)))
  {
    SetReaderMirrors(plain, ids, m, db, s, u, r => WithStatus(r, status, now), r => WithStatus(r, status, S.ToUnix(now)));
  }

  lemma SetStarredMirrors(plain: string -> string, ids: Ids, m: MemDb, db: Db, u: Id, s: set<Id>, starred: bool)
    requires Mirrors(plain, ids, m, db)
    ensures Mirrors(plain, ids, MemSetStarred(m, u, s, starred), Sql.SetStarred(db, u, SqlEntries(ids, db, s), starred))
  {
    SetReaderMirrors(plain, ids, m, db, s, u, (r: Reader) => r.(starred := starred), (r: Reader) => r.(starred := starred));
  }

  function SqlSelection(ids: Ids, db: Db, sel: Selection): Selection {
    match sel
    case OneFeed(f) => OneFeed(SqlFeed(ids, db, f))
    case InCategory(c) => InCategory(SqlCategory(ids, db, c))
    case _ => sel
  }

  /** An unread entry of the user is selected, but by the category of another user's
      feed, which the SQL's subquery leaves out. */
  predicate ForeignSelected(m: MemDb, u: Id, sel: Selection, i: Id) {
    && i in m.entries && m.entries[i].userId == u && m.entries[i].reader.status.Unread?
    && (sel.InCategory? || sel.NoCategory?) && MemSelects(m.feeds, sel, m.entries[i].feedId) && m.feeds[m.entries[i].feedId].userId != u
  }

  predicate MarkAllApart(m: MemDb, u: Id, sel: Selection) {
    exists i | i in m.entries :: ForeignSelected(m, u, sel, i)
  }

  lemma SelectionAgrees(plain: string -> string, ids: Ids, m: MemDb, db: Db, u: Id, sel: Selection, i: Id)
    requires Mirrors(plain, ids, m, db) && Rules(db) && i in m.entries
    ensures i in ids.entries.to && ids.entries.to[i] in db.entries
    ensures var e, row := m.entries[i], db.entries[ids.entries.to[i]];
            && row.userId == e.userId && row.reader == CutReader(e.reader)
            && (e.userId == u && e.reader.status.Unread? ==>
                  Selects(db, u, SqlSelection(ids, db, sel), row.feedId) == (MemSelects(m.feeds, sel, e.feedId) && !ForeignSelected(m, u, sel, i)))
  {
    assert RowMirrors(plain, ids, m, db, i);
    var e, row := m.entries[i], db.entries[ids.entries.to[i]];
    var j := ids.entries.to[i];
    assert j in db.entries && db.entries[j].feedId in db.feeds;
    assert FeedMirrors(ids, m, db, e.feedId);
    CategoryAgrees(ids, m, db, e.feedId, sel);
  }

  lemma CategoryAgrees(ids: Ids, m: MemDb, db: Db, f: Id, sel: Selection)
    requires CategoriesMirror(ids, m, db) && FeedsMirror(ids, m, db) && References(db) && f in m.feeds && f in ids.feeds.to
    ensures ids.feeds.to[f] in db.feeds
    ensures (ids.feeds.to[f] == SqlFeed(ids, db, if sel.OneFeed? then sel.feed else f)) <==> (sel.OneFeed? ==> f == sel.feed)
    ensures var a, b := m.feeds[f].categoryId, db.feeds[ids.feeds.to[f]].categoryId;
            && (a == None <==> b == None)
            && (sel.InCategory? ==> (a == Some(sel.category) <==> b == Some(SqlCategory(ids, db, sel.category))))
  {
    assert FeedMirrors(ids, m, db, f);
    var j := ids.feeds.to[f];
    assert j in db.feeds && HasParents(db, db.feeds[j].userId, db.feeds[j].categoryId);
    var a, b := m.feeds[f].categoryId, db.feeds[j].categoryId;
    if sel.InCategory? && a.Some? {
      assert b.value == ids.categories.to[a.value] && b.value < db.nextCategory;
      assert ids.categories.from[b.value] == a.value;
    }
  }

  lemma ForeignSelectedApart(plain: string -> string, ids: Ids, m: MemDb, db: Db, u: Id, sel: Selection, now: int, i: Id)
    requires Mirrors(plain, ids, m, db) && Rules(db) && ForeignSelected(m, u, sel, i)
    ensures !Mirrors(plain, ids, MemMarkRead(m, u, sel, now), Sql.MarkRead(db, u, SqlSelection(ids, db, sel), S.ToUnix(now)))
  {
    var m', db' := MemMarkRead(m, u, sel, now), Sql.MarkRead(db, u, SqlSelection(ids, db, sel), S.ToUnix(now));
    SelectionAgrees(plain, ids, m, db, u, sel, i);
    assert m'.entries[i].reader.status.Read? && db'.entries[ids.entries.to[i]].reader.status.Unread?;
    assert !RowMirrors(plain, ids, m', db', i);
  }

  /** Exactly: marking a selection read takes the two apart when memory selects an entry
      by the category of a feed that is not the user's. */
  lemma MarkReadMirrorsIff(plain: string -> string, ids: Ids, m: MemDb, db: Db, u: Id, sel: Selection, now: int)
    requires Mirrors(plain, ids, m, db) && Rules(db)
    ensures Mirrors(plain, ids, MemMarkRead(m, u, sel, now), Sql.MarkRead(db, u, SqlSelection(ids, db, sel), S.ToUnix(now)))
            <==> !MarkAllApart(m, u, sel)
  {
    hide Mirrors, Rules;
    var m', db' := MemMarkRead(m, u, sel, now), Sql.MarkRead(db, u, SqlSelection(ids, db, sel), S.ToUnix(now));
    if MarkAllApart(m, u, sel) {
      var i :| i in m.entries && ForeignSelected(m, u, sel, i);
      ForeignSelectedApart(plain, ids, m, db, u, sel, now, i);
    } else {
      forall i | i in m.entries
        ensures i in ids.entries.to && ids.entries.to[i] in db.entries
        ensures ReaderSet(m.entries[i], m'.entries[i], db.entries[ids.entries.to[i]], db'.entries[ids.entries.to[i]])
      {
        SelectionAgrees(plain, ids, m, db, u, sel, i);
      }
      ReadersMirror(plain, ids, m, db, m'.entries, db'.entries);
    }
  }
}
