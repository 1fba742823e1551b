/** The in-memory store that the service tests run on: a class over maps, and the
    operation that each of its methods performs on the values those maps hold. */
module MemStores {
  import opened Rows
  import opened Sql
  import opened Decimal

  /** An entry as it is kept in memory: the schedule is a map of its own and the
      plain-text columns do not exist. */
  datatype MemEntry = MemEntry(
    userId: Id, feedId: Id, guid: string, createdAt: int,
    meta: Meta, content: string, reader: Reader,
    state: ExtractState, attempts: int, error: string)

  /** An item as the store is handed it: all of it, the reader's columns and the counted
      attempts included, goes into a new entry. */
  datatype Staged = Staged(n: NewEntry, reader: Reader, attempts: int, error: string)

  /** Times are nanoseconds here, and a TTL may be negative. */
  datatype MemDb = MemDb(
    categories: map<Id, Category>, feeds: map<Id, Feed>, entries: map<Id, MemEntry>, tombstones: set<string>,
    nextExtract: map<Id, int>, nextID: Id)

  // ---- tombstone keys ------------------------------------------------------

  function Text(b: bytes): string {
    seq(|b|, k requires 0 <= k < |b| => b[k] as int as char)
  }

  function Prefix(feedId: Id): string {
    Text(FormatInt(feedId)) + "|"
  }

  /** fmt.Sprintf("%d|%s", feedID, guid). */
  function Tkey(feedId: Id, guid: string): string {
    Prefix(feedId) + guid
  }

  lemma FormatIntInjective(a: int, b: int)
    requires FormatInt(a) == FormatInt(b)
    ensures a == b
  {
    ValueOfDigits(if a < 0 then -a else a);
    ValueOfDigits(if b < 0 then -b else b);
    assert a < 0 ==> FormatInt(a)[0] == MINUS && FormatInt(a)[1..] == Digits(-a);
    assert b < 0 ==> FormatInt(b)[0] == MINUS && FormatInt(b)[1..] == Digits(-b);
    assert a >= 0 ==> IsDigit(FormatInt(a)[0]);
    assert b >= 0 ==> IsDigit(FormatInt(b)[0]);
  }

  lemma NoBar(x: int, k: nat)
    requires k < |FormatInt(x)|
    ensures Text(FormatInt(x))[k] != '|'
  {
    assert FormatInt(x)[k] == MINUS || IsDigit(FormatInt(x)[k]);
  }

  /** A key begins with a feed's prefix exactly when it is one of that feed's, so the
      deletion by prefix never reaches another feed's tombstones. */
  lemma PrefixIsFeed(feedId: Id, f: Id, g: string)
    ensures Prefix(feedId) <= Tkey(f, g) <==> feedId == f
  {
    if Prefix(feedId) <= Tkey(f, g) {
      var a, b := Text(FormatInt(feedId)), Text(FormatInt(f));
      assert Tkey(f, g)[|a|] == '|' && Tkey(f, g)[|b|] == '|';
      forall k | 0 <= k < |a| ensures a[k] != '|' && Tkey(f, g)[k] == a[k] { NoBar(feedId, k); }
      forall k | 0 <= k < |b| ensures b[k] != '|' && Tkey(f, g)[k] == b[k] { NoBar(f, k); }
      assert |a| == |b|;
      assert a == Tkey(f, g)[..|a|] == b;
      forall k | 0 <= k < |a| ensures FormatInt(feedId)[k] == FormatInt(f)[k] {
        assert a[k] == b[k];
      }
      assert FormatInt(feedId) == FormatInt(f);
      FormatIntInjective(feedId, f);
    }
  }

  lemma TkeyInjective(f: Id, g: string, f': Id, g': string)
    ensures Tkey(f, g) == Tkey(f', g') <==> f == f' && g == g'
  {
    if Tkey(f, g) == Tkey(f', g') {
      PrefixIsFeed(f, f', g');
      assert g == Tkey(f, g)[|Prefix(f)|..] == g';
    }
  }

  // ---- the operations ------------------------------------------------------

  predicate MemOwns(m: MemDb, u: Id, feedId: Id) {
    feedId in m.feeds && m.feeds[feedId].userId == u
  }

  predicate MemUrlTaken(m: MemDb, u: Id, url: string, except: Id) {
    exists i | i in m.feeds && i != except :: m.feeds[i].userId == u && m.feeds[i].feedUrl == url
  }

  function MemCreateFeed(m: MemDb, f: Feed): (MemDb, Outcome) {
    if MemUrlTaken(m, f.userId, f.feedUrl, m.nextID) then (m, Conflict)
    else (m.(feeds := m.feeds[m.nextID := f], nextID := m.nextID + 1), Ok)
  }

  function MemSetUserTitle(m: MemDb, u: Id, feedId: Id, title: string): (MemDb, Outcome) {
    if !MemOwns(m, u, feedId) then (m, NotFound)
    else (m.(feeds := m.feeds[feedId := m.feeds[feedId].(userTitle := title)]), Ok)
  }

  /** No look at the categories. */
  function MemSetCategory(m: MemDb, u: Id, feedId: Id, category: Option<Id>): (MemDb, Outcome) {
    if !MemOwns(m, u, feedId) then (m, NotFound)
    else (m.(feeds := m.feeds[feedId := m.feeds[feedId].(categoryId := category)]), Ok)
  }

  predicate MemTitleTaken(m: MemDb, u: Id, title: string, except: Id) {
    exists c | c in m.categories && c != except :: m.categories[c] == Category(u, title)
  }

  predicate MemOwnsCategory(m: MemDb, u: Id, c: Id) {
    c in m.categories && m.categories[c].userId == u
  }

  function MemCreateCategory(m: MemDb, u: Id, title: string): (MemDb, Outcome) {
    if MemTitleTaken(m, u, title, m.nextID) then (m, Conflict)
    else (m.(categories := m.categories[m.nextID := Category(u, title)], nextID := m.nextID + 1), Ok)
  }

  function MemUpdateCategory(m: MemDb, u: Id, c: Id, title: string): (MemDb, Outcome) {
    if !MemOwnsCategory(m, u, c) then (m, NotFound)
    else if MemTitleTaken(m, u, title, c) then (m, Conflict)
    else (m.(categories := m.categories[c := Category(u, title)]), Ok)
  }

  function MemDeleteCategory(m: MemDb, u: Id, c: Id): (MemDb, Outcome) {
    if !MemOwnsCategory(m, u, c) then (m, NotFound)
    else (m.(categories := m.categories - {c}, feeds := map i | i in m.feeds :: Uncategorised(m.feeds[i], c)), Ok)
  }

  function MemUpdateFeed(m: MemDb, u: Id, feedId: Id, url: string, p: PollState): MemDb {
    if MemOwns(m, u, feedId) && m.feeds[feedId].feedUrl == url
    then m.(feeds := m.feeds[feedId := m.feeds[feedId].(poll := p)])
    else m
  }

  function MemSetFeedURL(m: MemDb, u: Id, feedId: Id, url: string, now: int): (MemDb, Outcome) {
    if !MemOwns(m, u, feedId) then (m, NotFound)
    else if MemUrlTaken(m, u, url, feedId) then (m, Conflict)
    else
      var f := m.feeds[feedId];
      (m.(feeds := m.feeds[feedId :=
           f.(feedUrl := url, poll := f.poll.(etag := "", lastModified := "", nextCheckAt := now))]), Ok)
  }

  function MemEntriesOf(entries: map<Id, MemEntry>, feedId: Id): set<Id> {
    set i | i in entries && entries[i].feedId == feedId
  }

  function MemDeleteFeed(m: MemDb, u: Id, feedId: Id): (MemDb, Outcome) {
    if !MemOwns(m, u, feedId) then (m, NotFound)
    else
      var gone := MemEntriesOf(m.entries, feedId);
      (m.(feeds := m.feeds - {feedId}, entries := m.entries - gone, nextExtract := m.nextExtract - gone,
          tombstones := (set k | k in m.tombstones && !(Prefix(feedId) <= k))), Ok)
  }

  function MemToggled(e: MemEntry, feedId: Id, on: bool): MemEntry {
    if e.feedId == feedId && on && e.state in {ExtractNone, ExtractFailed} then e.(state := ExtractPending, attempts := 0, error := "")
    else if e.feedId == feedId && !on && e.state in {ExtractPending, ExtractFailed} then e.(state := ExtractNone, error := "")
    else e
  }

  /** Where the schedule of a row stands after the toggle. */
  function MemToggledAt(e: MemEntry, feedId: Id, on: bool, at: int, was: Option<int>): Option<int> {
    if e.feedId == feedId && on && e.state in {ExtractNone, ExtractFailed} then Some(at)
    else if e.feedId == feedId && !on && e.state in {ExtractPending, ExtractFailed} then None
    else was
  }

  function At(m: map<Id, int>, i: Id): Option<int> {
    if i in m then Some(m[i]) else None
  }

  lemma SameSchedule(a: map<Id, int>, b: map<Id, int>)
    requires forall i :: At(a, i) == At(b, i)
    ensures a == b
  {
    forall i ensures (i in a.Keys <==> i in b.Keys) && (i in a.Keys ==> a[i] == b[i]) {
      assert At(a, i) == At(b, i);
    }
    assert a.Keys == b.Keys;
    SameMap(a, b);
  }

  function MemSetFullContent(m: MemDb, u: Id, feedId: Id, on: bool, at: int): (MemDb, Outcome) {
    if !MemOwns(m, u, feedId) then (m, NotFound)
    else
      (m.(feeds := m.feeds[feedId := m.feeds[feedId].(fullContent := on)],
          entries := (map i | i in m.entries :: MemToggled(m.entries[i], feedId, on)),
          nextExtract := MemSchedule(m, feedId, on, at)), Ok)
  }

  function MemSchedule(m: MemDb, feedId: Id, on: bool, at: int): map<Id, int> {
    map i | i in m.nextExtract.Keys + m.entries.Keys
            && (i !in m.entries || MemToggledAt(m.entries[i], feedId, on, at, At(m.nextExtract, i)).Some?)
      :: if i in m.entries then MemToggledAt(m.entries[i], feedId, on, at, At(m.nextExtract, i)).value else m.nextExtract[i]
  }

  predicate IsMemRow(entries: map<Id, MemEntry>, i: Id, feedId: Id, guid: string) {
    i in entries && entries[i].feedId == feedId && entries[i].guid == guid
  }

  ghost predicate UniqueMem(m: MemDb) {
    forall i, j | i in m.entries && j in m.entries ::
      m.entries[i].feedId == m.entries[j].feedId && m.entries[i].guid == m.entries[j].guid ==> i == j
  }

  ghost function FindMem(entries: map<Id, MemEntry>, feedId: Id, guid: string): (r: Option<Id>)
    ensures r.None? ==> forall i :: !IsMemRow(entries, i, feedId, guid)
    ensures r.Some? ==> IsMemRow(entries, r.value, feedId, guid)
  {
    if exists i :: IsMemRow(entries, i, feedId, guid) then
      var i :| IsMemRow(entries, i, feedId, guid);
      Some(i)
    else None
  }

  ghost function MemHashes(entries: map<Id, MemEntry>, feedId: Id, guids: set<string>): map<string, string> {
    map g | g in guids && FindMem(entries, feedId, g).Some? :: entries[FindMem(entries, feedId, g).value].meta.hash
  }

  function MemRefreshed(e: MemEntry, n: NewEntry): MemEntry {
    e.(meta := n.meta, content := if e.state.ExtractDone? then e.content else n.content)
  }

  /** No look at the user here, unlike the SQL's UPDATE. */
  function MemRefresh(m: MemDb, i: Id, n: NewEntry): MemDb
    requires i in m.entries
  {
    if m.entries[i].meta.hash != n.meta.hash then m.(entries := m.entries[i := MemRefreshed(m.entries[i], n)]) else m
  }

  function Inserted(feedId: Id, full: bool, x: Staged): MemEntry {
    MemEntry(x.n.userId, feedId, x.n.guid, x.n.createdAt, x.n.meta, x.n.content, x.reader,
             if full then ExtractPending else ExtractNone, x.attempts, x.error)
  }

  function MemInsert(m: MemDb, feedId: Id, full: bool, x: Staged): MemDb {
    m.(entries := m.entries[m.nextID := Inserted(feedId, full, x)],
       nextExtract := if full then m.nextExtract[m.nextID := x.n.createdAt] else m.nextExtract,
       nextID := m.nextID + 1)
  }

  ghost function MemUpsertOne(m: MemDb, feedId: Id, full: bool, x: Staged): MemDb {
    if Tkey(feedId, x.n.guid) in m.tombstones then m
    else match FindMem(m.entries, feedId, x.n.guid)
      case Some(i) => MemRefresh(m, i, x.n)
      case None => MemInsert(m, feedId, full, x)
  }

  ghost function MemUpsertAll(m: MemDb, feedId: Id, full: bool, batch: seq<Staged>): MemDb {
    if batch == [] then m else MemUpsertOne(MemUpsertAll(m, feedId, full, batch[..|batch| - 1]), feedId, full, batch[|batch| - 1])
  }

  ghost predicate MemInserts(m: MemDb, feedId: Id, guid: string) {
    Tkey(feedId, guid) !in m.tombstones && FindMem(m.entries, feedId, guid).None?
  }

  ghost function MemInserted(m: MemDb, feedId: Id, full: bool, batch: seq<Staged>): seq<(Id, Staged)> {
    if batch == [] then []
    else
      var front, x := batch[..|batch| - 1], batch[|batch| - 1];
      var mid := MemUpsertAll(m, feedId, full, front);
      MemInserted(m, feedId, full, front) + (if MemInserts(mid, feedId, x.n.guid) then [(mid.nextID, x)] else [])
  }

  ghost function MemUpsert(m: MemDb, feedId: Id, batch: seq<Staged>): MemDb {
    if feedId in m.feeds then MemUpsertAll(m, feedId, m.feeds[feedId].fullContent, batch) else m
  }

  /** The deleted row's schedule stays in its map. */
  function MemDeleteEntry(m: MemDb, u: Id, id: Id): (MemDb, Outcome) {
    if id !in m.entries || m.entries[id].userId != u then (m, NotFound)
    else
      var e := m.entries[id];
      (m.(tombstones := m.tombstones + {Tkey(e.feedId, e.guid)}, entries := m.entries - {id}), Ok)
  }

  function Scheduled(m: map<Id, int>, i: Id, at: Option<int>): map<Id, int> {
    if at.Some? then m[i := at.value] else m - {i}
  }

  function MemSetContent(m: MemDb, id: Id, content: string): (MemDb, Outcome) {
    if id !in m.entries then (m, NotFound)
    else if !m.entries[id].state.ExtractPending? then (m, Ok)
    else
      (m.(entries := m.entries[id := m.entries[id].(content := content, state := ExtractDone, error := "")],
          nextExtract := Scheduled(m.nextExtract, id, None)), Ok)
  }

  function MemSetExtract(m: MemDb, id: Id, x: Extraction): (MemDb, Outcome) {
    if id !in m.entries then (m, NotFound)
    else
      (m.(entries := m.entries[id := m.entries[id].(state := x.state, attempts := x.attempts, error := x.error)],
          nextExtract := Scheduled(m.nextExtract, id, x.nextAt)), Ok)
  }

  function MemSetReader(m: MemDb, ids: set<Id>, u: Id, f: Reader -> Reader): MemDb {
    m.(entries := map i | i in m.entries ::
         if i in ids && m.entries[i].userId == u then m.entries[i].(reader := f(m.entries[i].reader)) else m.entries[i])
  }

  function Elements(ids: seq<Id>): set<Id> {
    set i | i in ids
  }

  function MemSetStatus(m: MemDb, u: Id, ids: set<Id>, status: Status, now: int): MemDb {
    MemSetReader(m, ids, u, r => WithStatus(r, status, now))
  }

  function MemSetStarred(m: MemDb, u: Id, ids: set<Id>, starred: bool): MemDb {
    MemSetReader(m, ids, u, (r: Reader) => r.(starred := starred))
  }

  /** No look at the feed's user, unlike the SQL's subquery. */
  predicate MemSelects(feeds: map<Id, Feed>, sel: Selection, feedId: Id) {
    match sel
    case OneFeed(f) => feedId == f
    case InCategory(c) => feedId in feeds && feeds[feedId].categoryId == Some(c)
    case NoCategory => feedId in feeds && feeds[feedId].categoryId == None
    case AllFeeds => true
  }

  function MarkedRead(feeds: map<Id, Feed>, u: Id, sel: Selection, now: int, e: MemEntry): MemEntry {
    if e.userId == u && e.reader.status.Unread? && MemSelects(feeds, sel, e.feedId) then e.(reader := WithStatus(e.reader, Read, now)) else e
  }

  function MemMarkRead(m: MemDb, u: Id, sel: Selection, now: int): MemDb {
    m.(entries := map i | i in m.entries :: MarkedRead(m.feeds, u, sel, now, m.entries[i]))
  }

  // ---- what every operation keeps ------------------------------------------

  ghost predicate MemSound(m: MemDb) {
    && UniqueMem(m)
    && (forall c | c in m.categories :: c < m.nextID)
    && (forall i | i in m.feeds :: i < m.nextID)
    && (forall i | i in m.entries :: i < m.nextID)
    && (forall i | i in m.nextExtract :: i < m.nextID)
  }

  lemma MemInsertSound(m: MemDb, feedId: Id, full: bool, x: Staged)
    requires MemSound(m) && FindMem(m.entries, feedId, x.n.guid).None?
    ensures MemSound(MemInsert(m, feedId, full, x))
  {
    assert forall i | i in m.entries :: !IsMemRow(m.entries, i, feedId, x.n.guid);
  }

  lemma MemUpsertOneSound(m: MemDb, feedId: Id, full: bool, x: Staged)
    requires MemSound(m)
    ensures MemSound(MemUpsertOne(m, feedId, full, x))
  {
    if MemInserts(m, feedId, x.n.guid) {
      MemInsertSound(m, feedId, full, x);
    }
  }

  lemma {:induction false} MemUpsertAllSound(m: MemDb, feedId: Id, full: bool, batch: seq<Staged>)
    requires MemSound(m)
    ensures MemSound(MemUpsertAll(m, feedId, full, batch))
  {
    if batch != [] {
      MemUpsertAllSound(m, feedId, full, batch[..|batch| - 1]);
      MemUpsertOneSound(MemUpsertAll(m, feedId, full, batch[..|batch| - 1]), feedId, full, batch[|batch| - 1]);
    }
  }

  lemma MemToggleSound(m: MemDb, u: Id, feedId: Id, on: bool, at: int)
    requires MemSound(m)
    ensures MemSound(MemSetFullContent(m, u, feedId, on, at).0)
  {
    var m' := MemSetFullContent(m, u, feedId, on, at).0;
    assert forall i | i in m'.entries :: m'.entries[i].feedId == m.entries[i].feedId && m'.entries[i].guid == m.entries[i].guid;
  }

  // ---- the store -----------------------------------------------------------

  class MemStore {
    var categories: map<Id, Category>
    var feeds: map<Id, Feed>
    var entries: map<Id, MemEntry>
    var tombstones: set<string>
    var nextExtract: map<Id, int>
    var nextID: Id

    constructor ()
      ensures Contents() == MemDb(map[], map[], map[], {}, map[], 1)
    {
      categories, feeds, entries, tombstones, nextExtract, nextID := map[], map[], map[], {}, map[], 1;
    }

    ghost function Contents(): MemDb
      reads this
    {
      MemDb(categories, feeds, entries, tombstones, nextExtract, nextID)
    }

    method IsUrlTaken(userId: Id, url: string, except: Id) returns (taken: bool)
      ensures taken == MemUrlTaken(Contents(), userId, url, except)
    {
      var rest := feeds.Keys;
      while exists i :: i in rest
        invariant rest <= feeds.Keys
        invariant forall i | i in feeds.Keys - rest && i != except :: !(feeds[i].userId == userId && feeds[i].feedUrl == url)
        decreases rest
      {
        var i :| i in rest;
        if i != except && feeds[i].userId == userId && feeds[i].feedUrl == url {
          return true;
        }
        rest := rest - {i};
      }
      return false;
    }

    method CreateFeed(f: Feed) returns (id: Id, outcome: Outcome)
      modifies this
      ensures (Contents(), outcome) == MemCreateFeed(old(Contents()), f) && (outcome.Ok? ==> id == old(nextID))
    {
      var taken := IsUrlTaken(f.userId, f.feedUrl, nextID);
      if taken {
        return 0, Conflict;
      }
      id := nextID;
      nextID := nextID + 1;
      feeds := feeds[id := f];
      outcome := Ok;
    }

    method UpdateFeed(userId: Id, feedId: Id, url: string, p: PollState)
      modifies this
      ensures Contents() == MemUpdateFeed(old(Contents()), userId, feedId, url, p)
    {
      if feedId !in feeds || feeds[feedId].userId != userId || feeds[feedId].feedUrl != url {
        return;
      }
      feeds := feeds[feedId := feeds[feedId].(poll := p)];
    }

    method SetFeedUserTitle(userId: Id, feedId: Id, title: string) returns (outcome: Outcome)
      modifies this
      ensures (Contents(), outcome) == MemSetUserTitle(old(Contents()), userId, feedId, title)
    {
      if feedId !in feeds || feeds[feedId].userId != userId {
        return NotFound;
      }
      feeds := feeds[feedId := feeds[feedId].(userTitle := title)];
      return Ok;
    }

    method SetFeedCategory(userId: Id, feedId: Id, category: Option<Id>) returns (outcome: Outcome)
      modifies this
      ensures (Contents(), outcome) == MemSetCategory(old(Contents()), userId, feedId, category)
    {
      if feedId !in feeds || feeds[feedId].userId != userId {
        return NotFound;
      }
      feeds := feeds[feedId := feeds[feedId].(categoryId := category)];
      return Ok;
    }

    method IsTitleTaken(userId: Id, title: string, except: Id) returns (taken: bool)
      ensures taken == MemTitleTaken(Contents(), userId, title, except)
    {
      var rest := categories.Keys;
      while exists c :: c in rest
        invariant rest <= categories.Keys
        invariant forall c | c in categories.Keys - rest && c != except :: categories[c] != Category(userId, title)
        decreases rest
      {
        var c :| c in rest;
        if c != except && categories[c] == Category(userId, title) {
          return true;
        }
        rest := rest - {c};
      }
      return false;
    }

    method CreateCategory(userId: Id, title: string) returns (id: Id, outcome: Outcome)
      modifies this
      ensures (Contents(), outcome) == MemCreateCategory(old(Contents()), userId, title) && (outcome.Ok? ==> id == old(nextID))
    {
      var taken := IsTitleTaken(userId, title, nextID);
      if taken {
        return 0, Conflict;
      }
      id := nextID;
      nextID := nextID + 1;
      categories := categories[id := Category(userId, title)];
      outcome := Ok;
    }

    method UpdateCategory(userId: Id, id: Id, title: string) returns (outcome: Outcome)
      modifies this
      ensures (Contents(), outcome) == MemUpdateCategory(old(Contents()), userId, id, title)
    {
      if id !in categories || categories[id].userId != userId {
        return NotFound;
      }
      var taken := IsTitleTaken(userId, title, id);
      if taken {
        return Conflict;
      }
      categories := categories[id := categories[id].(title := title)];
      return Ok;
    }

    method DeleteCategory(userId: Id, id: Id) returns (outcome: Outcome)
      modifies this
      ensures (Contents(), outcome) == MemDeleteCategory(old(Contents()), userId, id)
    {
      if id !in categories || categories[id].userId != userId {
        return NotFound;
      }
      ghost var before := feeds;
      var rest := feeds.Keys;
      while exists i :: i in rest
        invariant rest <= feeds.Keys == before.Keys
        invariant forall i | i in before :: feeds[i] == if i in rest then before[i] else Uncategorised(before[i], id)
        invariant Contents() == old(Contents()).(feeds := feeds)
        decreases rest
      {
        var i :| i in rest;
        if feeds[i].categoryId == Some(id) {
          feeds := feeds[i := feeds[i].(categoryId := None)];
        }
        rest := rest - {i};
      }
      SameMap(feeds, map i | i in before :: Uncategorised(before[i], id));
      categories := categories - {id};
      return Ok;
    }

    method SetFeedURL(userId: Id, feedId: Id, url: string, now: int) returns (outcome: Outcome)
      modifies this
      ensures (Contents(), outcome) == MemSetFeedURL(old(Contents()), userId, feedId, url, now)
    {
      if feedId !in feeds || feeds[feedId].userId != userId {
        return NotFound;
      }
      var taken := IsUrlTaken(userId, url, feedId);
      if taken {
        return Conflict;
      }
      var f := feeds[feedId];
      feeds := feeds[feedId := f.(feedUrl := url, poll := f.poll.(etag := "", lastModified := "", nextCheckAt := now))];
      return Ok;
    }

    method DeleteFeed(userId: Id, feedId: Id) returns (outcome: Outcome)
      modifies this
      ensures (Contents(), outcome) == MemDeleteFeed(old(Contents()), userId, feedId)
    {
      if feedId !in feeds || feeds[feedId].userId != userId {
        return NotFound;
      }
      DropEntries(feedId);
      tombstones := set k | k in tombstones && !(Prefix(feedId) <= k);
      feeds := feeds - {feedId};
      return Ok;
    }

    /** One by one, each with its schedule. */
    method DropEntries(feedId: Id)
      modifies this`entries, this`nextExtract
      ensures entries == old(entries) - MemEntriesOf(old(entries), feedId)
      ensures nextExtract == old(nextExtract) - MemEntriesOf(old(entries), feedId)
    {
      ghost var rows, due := entries, nextExtract;
      ghost var gone := {};
      var rest := entries.Keys;
      while exists i :: i in rest
        invariant rest <= entries.Keys && entries == rows - gone && nextExtract == due - gone
        invariant forall i :: i in gone <==> i in MemEntriesOf(rows, feedId) && i !in rest
        decreases rest
      {
        var i :| i in rest;
        if entries[i].feedId == feedId {
          gone := gone + {i};
          entries, nextExtract := entries - {i}, nextExtract - {i};
        }
        rest := rest - {i};
      }
      assert forall i :: i in gone <==> i in MemEntriesOf(rows, feedId);
      assert gone == MemEntriesOf(rows, feedId);
    }

    method SetFeedFullContent(userId: Id, feedId: Id, on: bool, at: int) returns (outcome: Outcome)
      modifies this
      ensures (Contents(), outcome) == MemSetFullContent(old(Contents()), userId, feedId, on, at)
    {
      if feedId !in feeds || feeds[feedId].userId != userId {
        return NotFound;
      }
      feeds := feeds[feedId := feeds[feedId].(fullContent := on)];
      ghost var m := Contents();
      Reconcile(feedId, on, at);
      SameSchedule(nextExtract, MemSchedule(m, feedId, on, at));
      return Ok;
    }

    method Reconcile(feedId: Id, on: bool, at: int)
      modifies this`entries, this`nextExtract
      ensures entries == map i | i in old(entries) :: MemToggled(old(entries)[i], feedId, on)
      ensures forall i :: At(nextExtract, i)
                          == if i in old(entries) then MemToggledAt(old(entries)[i], feedId, on, at, At(old(nextExtract), i)) else At(old(nextExtract), i)
    {
      ghost var rows, due := entries, nextExtract;
      var rest := entries.Keys;
      while exists i :: i in rest
        invariant rest <= entries.Keys == rows.Keys
        invariant forall i | i in rows :: entries[i] == if i in rest then rows[i] else MemToggled(rows[i], feedId, on)
        invariant forall i :: At(nextExtract, i)
                              == if i in rows && i !in rest then MemToggledAt(rows[i], feedId, on, at, At(due, i)) else At(due, i)
        decreases rest
      {
        var i :| i in rest;
        ReconcileEntry(i, feedId, on, at);
        rest := rest - {i};
      }
      SameMap(entries, map i | i in rows :: MemToggled(rows[i], feedId, on));
    }

    method ReconcileEntry(i: Id, feedId: Id, on: bool, at: int)
      requires i in entries
      modifies this`entries, this`nextExtract
      ensures entries == old(entries)[i := MemToggled(old(entries)[i], feedId, on)]
      ensures forall k :: At(nextExtract, k)
                          == if k == i then MemToggledAt(old(entries)[i], feedId, on, at, At(old(nextExtract), i)) else At(old(nextExtract), k)
    {
      var e := entries[i];
      if e.feedId == feedId && on && (e.state == ExtractNone || e.state == ExtractFailed) {
        entries := entries[i := e.(state := ExtractPending, attempts := 0, error := "")];
        nextExtract := nextExtract[i := at];
      } else if e.feedId == feedId && !on && (e.state == ExtractPending || e.state == ExtractFailed) {
        entries := entries[i := e.(state := ExtractNone, error := "")];
        nextExtract := nextExtract - {i};
      }
    }

    method FindRow(feedId: Id, guid: string) returns (r: Option<Id>)
      requires UniqueMem(Contents())
      ensures r == FindMem(entries, feedId, guid)
    {
      var rest := entries.Keys;
      while exists i :: i in rest
        invariant rest <= entries.Keys
        invariant forall i | i in entries.Keys - rest :: !IsMemRow(entries, i, feedId, guid)
        decreases rest
      {
        var i :| i in rest;
        if entries[i].feedId == feedId && entries[i].guid == guid {
          assert IsMemRow(entries, i, feedId, guid);
          return Some(i);
        }
        rest := rest - {i};
      }
      return None;
    }

    method EntryDedup(feedId: Id, guids: seq<string>) returns (existing: map<string, string>, tombstoned: set<string>)
      requires UniqueMem(Contents())
      ensures existing == MemHashes(entries, feedId, set g | g in guids)
      ensures tombstoned == set g | g in guids && Tkey(feedId, g) in tombstones
    {
      existing := map[];
      var rest := entries.Keys;
      while exists i :: i in rest
        invariant rest <= entries.Keys
        invariant forall g | g in existing :: g in guids && exists i | i in entries.Keys - rest :: IsMemRow(entries, i, feedId, g) && existing[g] == entries[i].meta.hash
        invariant forall i | i in entries.Keys - rest :: entries[i].feedId == feedId && entries[i].guid in guids ==> entries[i].guid in existing
        decreases rest
      {
        var i :| i in rest;
        if entries[i].feedId == feedId && entries[i].guid in guids {
          assert IsMemRow(entries, i, feedId, entries[i].guid);
          existing := existing[entries[i].guid := entries[i].meta.hash];
        }
        rest := rest - {i};
      }
      AllHashes(Contents(), feedId, guids, existing);
      tombstoned := set g | g in guids && Tkey(feedId, g) in tombstones;
    }

    method UpsertEntries(feedId: Id, batch: seq<Staged>) returns (inserted: seq<(Id, Staged)>)
      requires MemSound(Contents())
      modifies this
      ensures Contents() == MemUpsert(old(Contents()), feedId, batch)
      ensures inserted == if feedId in old(feeds) then MemInserted(old(Contents()), feedId, old(feeds)[feedId].fullContent, batch) else []
    {
      inserted := [];
      if feedId !in feeds {
        return;
      }
      var full := feeds[feedId].fullContent;
      ghost var m := Contents();
      for k := 0 to |batch|
        invariant Contents() == MemUpsertAll(m, feedId, full, batch[..k])
        invariant inserted == MemInserted(m, feedId, full, batch[..k])
      {
        assert batch[..k + 1][..k] == batch[..k];
        MemUpsertAllSound(m, feedId, full, batch[..k]);
        var id := UpsertEntry(feedId, full, batch[k]);
        if id.Some? {
          inserted := inserted + [(id.value, batch[k])];
        }
      }
      assert batch[..|batch|] == batch;
    }

    /** One round of the loop: the id of the inserted row, if it is one. */
    method UpsertEntry(feedId: Id, full: bool, x: Staged) returns (id: Option<Id>)
      requires UniqueMem(Contents())
      modifies this
      ensures Contents() == MemUpsertOne(old(Contents()), feedId, full, x)
      ensures id == if MemInserts(old(Contents()), feedId, x.n.guid) then Some(old(nextID)) else None
    {
      var n := x.n;
      if Tkey(feedId, n.guid) in tombstones {
        return None;
      }
      var existing := FindRow(feedId, n.guid);
      match existing
      case Some(i) =>
        if entries[i].meta.hash != n.meta.hash {
          var e := entries[i].(meta := n.meta);
          if e.state != ExtractDone {
            e := e.(content := n.content);
          }
          entries := entries[i := e];
        }
        return None;
      case None =>
        var i := nextID;
        nextID := nextID + 1;
        if full {
          nextExtract := nextExtract[i := n.createdAt];
        }
        entries := entries[i := MemEntry(n.userId, feedId, n.guid, n.createdAt, n.meta, n.content, x.reader,
                                         if full then ExtractPending else ExtractNone, x.attempts, x.error)];
        return Some(i);
    }

    /** SetStatus: one entry of the list after the other. */
    method SetStatus(userId: Id, ids: seq<Id>, status: Status, now: int)
      modifies this`entries
      ensures Contents() == MemSetStatus(old(Contents()), userId, Elements(ids), status, now)
    {
      ghost var before := entries;
      for k := 0 to |ids|
        invariant entries.Keys == before.Keys
        invariant forall i | i in before :: entries[i] ==
                    if i in ids[..k] && before[i].userId == userId then before[i].(reader := WithStatus(before[i].reader, status, now)) else before[i]
      {
        var i := ids[k];
        if i in entries && entries[i].userId == userId {
          var r := entries[i].reader.(status := status);
          r := if status == Read then r.(readAt := Some(now)) else r.(readAt := None);
          entries := entries[i := entries[i].(reader := r)];
        }
      }
      assert ids[..|ids|] == ids;
      SameMap(entries, MemSetStatus(old(Contents()), userId, Elements(ids), status, now).entries);
    }

    method SetStarred(userId: Id, ids: seq<Id>, starred: bool)
      modifies this`entries
      ensures Contents() == MemSetStarred(old(Contents()), userId, Elements(ids), starred)
    {
      ghost var before := entries;
      for k := 0 to |ids|
        invariant entries.Keys == before.Keys
        invariant forall i | i in before :: entries[i] ==
                    if i in ids[..k] && before[i].userId == userId then before[i].(reader := before[i].reader.(starred := starred)) else before[i]
      {
        var i := ids[k];
        if i in entries && entries[i].userId == userId {
          entries := entries[i := entries[i].(reader := entries[i].reader.(starred := starred))];
        }
      }
      assert ids[..|ids|] == ids;
      SameMap(entries, MemSetStarred(old(Contents()), userId, Elements(ids), starred).entries);
    }

    method MarkEntry(i: Id, userId: Id, sel: Selection, now: int)
      requires i in entries
      modifies this`entries
      ensures entries == old(entries)[i := MarkedRead(feeds, userId, sel, now, old(entries)[i])]
    {
      var e := entries[i];
      if e.userId != userId || e.reader.status != Unread {
        return;
      }
      match sel {
        case OneFeed(f) => if e.feedId != f { return; }
        case InCategory(c) => if e.feedId !in feeds || feeds[e.feedId].categoryId != Some(c) { return; }
        case NoCategory => if e.feedId !in feeds || feeds[e.feedId].categoryId != None { return; }
        case AllFeeds =>
      }
      entries := entries[i := e.(reader := Reader(Read, e.reader.starred, Some(now)))];
    }

    method MarkReadByFilter(userId: Id, sel: Selection, now: int)
      modifies this`entries
      ensures Contents() == MemMarkRead(old(Contents()), userId, sel, now)
    {
      ghost var before := entries;
      var rest := entries.Keys;
      while exists i :: i in rest
        invariant rest <= entries.Keys == before.Keys
        invariant forall i | i in before :: entries[i] == if i in rest then before[i] else MarkedRead(feeds, userId, sel, now, before[i])
        decreases rest
      {
        var i :| i in rest;
        MarkEntry(i, userId, sel, now);
        rest := rest - {i};
      }
      SameMap(entries, MemMarkRead(old(Contents()), userId, sel, now).entries);
    }

    method DeleteEntry(userId: Id, id: Id) returns (outcome: Outcome)
      modifies this
      ensures (Contents(), outcome) == MemDeleteEntry(old(Contents()), userId, id)
    {
      if id !in entries || entries[id].userId != userId {
        return NotFound;
      }
      tombstones := tombstones + {Tkey(entries[id].feedId, entries[id].guid)};
      entries := entries - {id};
      return Ok;
    }

    method SetEntryContent(id: Id, content: string) returns (outcome: Outcome)
      modifies this
      ensures (Contents(), outcome) == MemSetContent(old(Contents()), id, content)
    {
      if id !in entries {
        return NotFound;
      }
      if entries[id].state != ExtractPending {
        return Ok;
      }
      entries := entries[id := entries[id].(content := content, state := ExtractDone, error := "")];
      nextExtract := nextExtract - {id};
      return Ok;
    }

    method UpdateExtractState(id: Id, x: Extraction) returns (outcome: Outcome)
      modifies this
      ensures (Contents(), outcome) == MemSetExtract(old(Contents()), id, x)
    {
      if id !in entries {
        return NotFound;
      }
      entries := entries[id := entries[id].(state := x.state, attempts := x.attempts, error := x.error)];
      if x.nextAt.Some? {
        nextExtract := nextExtract[id := x.nextAt.value];
      } else {
        nextExtract := nextExtract - {id};
      }
      return Ok;
    }
  }

  /** A map of the right hashes that misses no row is the whole answer. */
  lemma AllHashes(m: MemDb, feedId: Id, guids: seq<string>, existing: map<string, string>)
    requires UniqueMem(m)
    requires forall g | g in existing :: g in guids && exists i :: IsMemRow(m.entries, i, feedId, g) && existing[g] == m.entries[i].meta.hash
    requires forall i | i in m.entries && m.entries[i].feedId == feedId && m.entries[i].guid in guids :: m.entries[i].guid in existing
    ensures existing == MemHashes(m.entries, feedId, set g | g in guids)
  {
    var whole := MemHashes(m.entries, feedId, set g | g in guids);
    forall g ensures g in existing <==> g in whole {
      if g in whole {
        assert m.entries[FindMem(m.entries, feedId, g).value].guid in existing;
      }
      if g in existing {
        assert exists i :: IsMemRow(m.entries, i, feedId, g);
      }
    }
    assert forall g | g in existing :: existing[g] == whole[g];
  }
}
