/** Keyset pagination: pages cut from a newest-first order at a cursor, taken at
    different times from a store that changes in between. */
module Pagination {
  import opened Rows
  import opened Sql

  datatype Order = PublishedDesc | ReadAtDesc

  /** A row's place in the active order; also the cursor that names it. */
  datatype Pos = Pos(key: int, id: Id)

  datatype Filter = Filter(
    feedId: Option<Id>, status: Option<Status>, starred: Option<bool>,
    categoryId: Option<Id>, uncategorised: bool,
    limit: int, cursor: Option<Pos>, order: Order)

  function CursorKey(e: Entry, order: Order): int {
    if order.ReadAtDesc? && e.reader.readAt.Some? then e.reader.readAt.value else e.meta.publishedAt
  }

  /** The order is by key, then by id, both descending. */
  predicate Newer(a: Pos, b: Pos) {
    a.key > b.key || (a.key == b.key && a.id > b.id)
  }

  function Limit(f: Filter): nat {
    if f.limit <= 0 || f.limit > 200 then 50 else f.limit
  }

  // ---- which rows match ----------------------------------------------------

  predicate MatchesRow(userId: Id, f: Filter, e: Entry) {
    && e.userId == userId
    && (f.feedId.Some? ==> e.feedId == f.feedId.value)
    && (f.status.Some? ==> e.reader.status == f.status.value)
    && (f.starred.Some? ==> e.reader.starred == f.starred.value)
    && (f.order.ReadAtDesc? ==> e.reader.readAt.Some?)
  }

  /** The JOIN with feeds that the SQL adds for a category filter. */
  predicate MatchesCategory(db: Db, f: Filter, e: Entry) {
    if f.categoryId.Some? then e.feedId in db.feeds && db.feeds[e.feedId].categoryId == f.categoryId
    else f.uncategorised ==> e.feedId in db.feeds && db.feeds[e.feedId].categoryId.None?
  }

  predicate Matches(db: Db, userId: Id, f: Filter, e: Entry) {
    MatchesRow(userId, f, e) && MatchesCategory(db, f, e)
  }

  /** The in-memory store's version of the category filter. */
  predicate MemMatchesCategory(db: Db, f: Filter, e: Entry) {
    f.categoryId.Some? || f.uncategorised ==>
      && e.feedId in db.feeds
      && !(f.uncategorised && db.feeds[e.feedId].categoryId.Some?)
      && !(f.categoryId.Some? && db.feeds[e.feedId].categoryId != f.categoryId)
  }

  /** The in-memory store lists the same rows as the SQL on every database exactly
      when a filter does not ask for a category and for uncategorised at once. */
  lemma MemAgreesIff(f: Filter)
    ensures (forall db: Db, i | i in db.entries :: MatchesCategory(db, f, db.entries[i]) == MemMatchesCategory(db, f, db.entries[i]))
            <==> !(f.categoryId.Some? && f.uncategorised)
  {
    if f.categoryId.Some? && f.uncategorised {
      var feed := NewFeed(1, "", "", f.categoryId, false, 0, 0);
      var e := Entry(1, 1, "", 0, Meta("", "", "", "", "", 0, ""), "", "", "", Reader(Unread, false, None), Extraction(ExtractNone, 0, None, ""));
      var db := EmptyDb({1}).(feeds := map[1 := feed], entries := map[1 := e]);
      assert db.entries[1] == e && MatchesCategory(db, f, e) && !MemMatchesCategory(db, f, e);
    }
  }

  function Positions(db: Db, userId: Id, f: Filter): set<Pos> {
    set i | i in db.entries && Matches(db, userId, f, db.entries[i]) :: Pos(CursorKey(db.entries[i], f.order), i)
  }

  // ---- the order -----------------------------------------------------------

  ghost predicate Descending(s: seq<Pos>) {
    forall i, j | 0 <= i < j < |s| :: Newer(s[i], s[j])
  }

  ghost predicate Newest(m: Pos, s: set<Pos>) {
    m in s && forall p | p in s && p != m :: Newer(m, p)
  }

  lemma {:induction false} HasNewest(s: set<Pos>)
    requires exists p :: p in s
    ensures exists m :: Newest(m, s)
    decreases |s|
  {
    var x: Pos :| x in s;
    var rest := s - {x};
    assert s == rest + {x};
    if exists p :: p in rest {
      HasNewest(rest);
      var r :| Newest(r, rest);
      assert Newest(if Newer(x, r) then x else r, s);
    } else {
      assert forall p | p in s :: p in rest || p == x;
      assert Newest(x, s);
    }
  }

  /** The elements newest first. */
  ghost function Sorted(s: set<Pos>): (r: seq<Pos>)
    ensures Descending(r) && |r| == |s| && forall p :: p in r <==> p in s
    decreases |s|
  {
    if exists p :: p in s then
      HasNewest(s);
      var m :| Newest(m, s);
      [m] + Sorted(s - {m})
    else
      assert s == {};
      []
  }

  lemma {:induction false} SortedUnique(a: seq<Pos>, b: seq<Pos>)
    requires Descending(a) && Descending(b) && forall p :: p in a <==> p in b
    ensures a == b
    decreases |a|
  {
    assert b == [] || b[0] in a;
    if a != [] {
      assert a[0] in b && b[0] in a;
      assert a[0] == b[0];
      forall p ensures p in a[1..] <==> p in b[1..] {
        if p in a[1..] { assert p in b && p != b[0]; }
        if p in b[1..] { assert p in a && p != a[0]; }
      }
      SortedUnique(a[1..], b[1..]);
    }
  }

  // ---- one page ------------------------------------------------------------

  /** The rows strictly past the cursor. */
  function Past(s: set<Pos>, cursor: Option<Pos>): set<Pos> {
    set p | p in s && (cursor.Some? ==> Newer(cursor.value, p))
  }

  ghost function Page(s: set<Pos>, cursor: Option<Pos>, limit: nat): (r: (seq<Pos>, Option<Pos>))
    requires 0 < limit
  {
    var rest := Sorted(Past(s, cursor));
    if |rest| > limit then (rest[..limit], Some(rest[limit - 1])) else (rest, None)
  }

  function Preview(e: Entry): Entry {
    e.(content := e.content[..if |e.content| < 2048 then |e.content| else 2048],
       meta := e.meta.(summary := e.meta.summary[..if |e.meta.summary| < 2048 then |e.meta.summary| else 2048]))
  }

  /** sort.Slice with the newest-first order. */
  method SortNewestFirst(items: seq<Pos>) returns (r: seq<Pos>)
    requires forall i, j | 0 <= i < j < |items| :: items[i] != items[j]
    ensures Descending(r) && forall p :: p in r <==> p in items
  {
    r := [];
    for k := 0 to |items|
      invariant Descending(r) && forall p :: p in r <==> p in items[..k]
    {
      var x, at := items[k], 0;
      while at < |r| && Newer(r[at], x)
        invariant 0 <= at <= |r|
        invariant forall i | 0 <= i < at :: Newer(r[i], x)
      {
        at := at + 1;
      }
      ghost var before := r;
      assert x !in r;
      assert forall i | at <= i < |r| :: Newer(x, r[i]) by {
        if at < |r| { assert r[at] in r; }
      }
      r := r[..at] + [x] + r[at..];
      forall p ensures p in r <==> p in items[..k + 1] {
        assert p in r <==> p in before || p == x by { assert before == before[..at] + before[at..]; }
      }
    }
    assert items[..|items|] == items;
  }

  method DropToCursor(ordered: seq<Pos>, cursor: Option<Pos>) returns (after: seq<Pos>)
    requires Descending(ordered)
    ensures Descending(after)
    ensures forall p :: p in after <==> p in ordered && (cursor.Some? ==> Newer(cursor.value, p))
  {
    after := [];
    for k := 0 to |ordered|
      invariant Descending(after)
      invariant forall p :: p in after <==> p in ordered[..k] && (cursor.Some? ==> Newer(cursor.value, p))
    {
      var x := ordered[k];
      if cursor.None? || Newer(cursor.value, x) {
        assert forall i | 0 <= i < |after| :: Newer(after[i], x) by {
          assert forall i | 0 <= i < |after| :: after[i] in ordered[..k];
        }
        after := after + [x];
      }
    }
    assert ordered[..|ordered|] == ordered;
  }

  /** The positions of the rows the filter selects, each once, in map order. */
  method MatchingRows(db: Db, userId: Id, f: Filter) returns (matching: seq<Pos>)
    ensures forall p :: p in matching <==> p in Positions(db, userId, f)
    ensures forall i, j | 0 <= i < j < |matching| :: matching[i] != matching[j]
  {
    matching := [];
    var rest := db.entries.Keys;
    while exists i :: i in rest
      invariant rest <= db.entries.Keys
      invariant forall p: Pos :: p in matching <==>
          p.id in db.entries && p.id !in rest && Matches(db, userId, f, db.entries[p.id]) && p.key == CursorKey(db.entries[p.id], f.order)
      invariant forall i, j | 0 <= i < j < |matching| :: matching[i] != matching[j]
      decreases rest
    {
      var i :| i in rest;
      var e := db.entries[i];
      if Matches(db, userId, f, e) {
        matching := matching + [Pos(CursorKey(e, f.order), i)];
      }
      rest := rest - {i};
    }
  }

  /** What the reader asked for: an entry of this user, and of the feed, status, star and
      category named; in the order of reading, one that was read. */
  predicate AskedFor(db: Db, userId: Id, f: Filter, e: Entry) {
    && e.userId == userId && (f.order.ReadAtDesc? ==> e.reader.readAt.Some?)
    && (match f.feedId case None => true case Some(feed) => e.feedId == feed)
    && (match f.status case None => true case Some(status) => e.reader.status == status)
    && (match f.starred case None => true case Some(starred) => e.reader.starred == starred)
    && (match f.categoryId
        case Some(c) => e.feedId in db.feeds && db.feeds[e.feedId].categoryId == Some(c)
        case None => f.uncategorised ==> e.feedId in db.feeds && db.feeds[e.feedId].categoryId == None)
  }

  /** Where an entry stands: when it was read, in that order, else when it was published. */
  predicate StandsAt(f: Filter, e: Entry, i: Id, p: Pos) {
    p.id == i && p.key == match f.order case PublishedDesc => e.meta.publishedAt
                                        case ReadAtDesc => if e.reader.readAt.Some? then e.reader.readAt.value else e.meta.publishedAt
  }

  /** Farther down the list: an older key, or the same key and a smaller id. */
  predicate Below(p: Pos, q: Pos) {
    p.key < q.key || (p.key == q.key && p.id < q.id)
  }

  /** At most the limit, where one out of range means 50. */
  predicate CutAt(limit: int, size: nat, more: bool) {
    var cap := if 1 <= limit <= 200 then limit else 50;
    size <= cap && (more ==> size == cap)
  }

  /** The page holds what was asked for, from the cursor down and in order, and leaves out
      nothing of it but what stands below its own cursor. */
  ghost predicate IsPage(db: Db, userId: Id, f: Filter, positions: seq<Pos>, next: Option<Pos>) {
    && (forall p | p in positions ::
          && p.id in db.entries && AskedFor(db, userId, f, db.entries[p.id]) && StandsAt(f, db.entries[p.id], p.id, p)
          && (f.cursor.Some? ==> Below(p, f.cursor.value)))
    && (forall j, k | 0 <= j < k < |positions| :: Below(positions[k], positions[j]))
    && (forall i, p: Pos | i in db.entries && AskedFor(db, userId, f, db.entries[i]) && StandsAt(f, db.entries[i], i, p) ::
          p in positions || (f.cursor.Some? && !Below(p, f.cursor.value)) || (next.Some? && Below(p, next.value)))
    && CutAt(f.limit, |positions|, next.Some?) && (next.Some? ==> next.value == positions[|positions| - 1])
  }

  lemma PageIsAskedFor(db: Db, userId: Id, f: Filter, positions: seq<Pos>, next: Option<Pos>)
    requires (positions, next) == Page(Positions(db, userId, f), f.cursor, Limit(f))
    ensures IsPage(db, userId, f, positions, next)
  {
    PageCuts(Positions(db, userId, f), f.cursor, Limit(f));
    forall i, p: Pos | i in db.entries && AskedFor(db, userId, f, db.entries[i]) && StandsAt(f, db.entries[i], i, p)
      ensures p in positions || (f.cursor.Some? && !Below(p, f.cursor.value)) || (next.Some? && Below(p, next.value))
    {
      assert Matches(db, userId, f, db.entries[i]) && p == Pos(CursorKey(db.entries[i], f.order), i);
      assert p in Positions(db, userId, f);
    }
  }

  /** A list preview: all of the entry, but at most 2048 characters of its texts. */
  predicate Previews(e: Entry, shown: Entry) {
    && shown == e.(content := shown.content, meta := e.meta.(summary := shown.meta.summary))
    && shown.content <= e.content && |shown.content| == (if |e.content| <= 2048 then |e.content| else 2048)
    && shown.meta.summary <= e.meta.summary && |shown.meta.summary| == (if |e.meta.summary| <= 2048 then |e.meta.summary| else 2048)
  }

  lemma PreviewPreviews(e: Entry)
    ensures Previews(e, Preview(e))
  {
  }

  /** ListEntries: filter, order, drop up to the cursor, cut at the limit. */
  method ListEntries(db: Db, userId: Id, f: Filter) returns (page: seq<Entry>, positions: seq<Pos>, next: Option<Pos>)
    ensures (positions, next) == Page(Positions(db, userId, f), f.cursor, Limit(f))
    ensures |page| == |positions|
    ensures forall k | 0 <= k < |page| :: positions[k].id in db.entries && page[k] == Preview(db.entries[positions[k].id])
    ensures forall k | 0 <= k < |page| :: Previews(db.entries[positions[k].id], page[k])
    ensures IsPage(db, userId, f, positions, next)
  {
    hide IsPage, AskedFor, Previews, Preview;
    var matching := MatchingRows(db, userId, f);
    var ordered := SortNewestFirst(matching);
    var out := DropToCursor(ordered, f.cursor);
    SortedUnique(out, Sorted(Past(Positions(db, userId, f), f.cursor)));
    positions, next := out, None;
    if |out| > Limit(f) {
      next := Some(out[Limit(f) - 1]);
      positions := out[..Limit(f)];
    }
    page := [];
    for k := 0 to |positions|
      invariant |page| == k
      invariant forall j | 0 <= j < k :: positions[j].id in db.entries && page[j] == Preview(db.entries[positions[j].id])
    {
      assert positions[k] in out && positions[k] in ordered;
      page := page + [Preview(db.entries[positions[k].id])];
    }
    forall k | 0 <= k < |page| ensures Previews(db.entries[positions[k].id], page[k]) {
      PreviewPreviews(db.entries[positions[k].id]);
    }
    PageIsAskedFor(db, userId, f, positions, next);
  }

  // ---- following cursors over a changing store -----------------------------

  /** What each page's query saw. */
  function Snapshots(dbs: seq<Db>, userId: Id, f: Filter): (r: seq<set<Pos>>)
    ensures |r| == |dbs|
  {
    seq(|dbs|, k requires 0 <= k < |dbs| => Positions(dbs[k], userId, f))
  }

  /** Page k was cut from the rows `sets[k]` matching at that time, from the cursor
      that page k - 1 returned. */
  ghost predicate Walk(sets: seq<set<Pos>>, limit: nat, pages: seq<seq<Pos>>, cursors: seq<Option<Pos>>)
    requires 0 < limit
  {
    && |pages| == |sets| && |cursors| == |sets| + 1 && cursors[0] == None
    && (forall k | 0 <= k < |sets| :: (pages[k], cursors[k + 1]) == Page(sets[k], cursors[k], limit))
    && (forall k | 0 < k < |sets| :: cursors[k].Some?)
  }

  function Joined(pages: seq<seq<Pos>>): seq<Pos> {
    if pages == [] then [] else Joined(pages[..|pages| - 1]) + pages[|pages| - 1]
  }

  lemma WalkFront(sets: seq<set<Pos>>, limit: nat, pages: seq<seq<Pos>>, cursors: seq<Option<Pos>>)
    requires 0 < limit && sets != [] && Walk(sets, limit, pages, cursors)
    ensures Walk(sets[..|sets| - 1], limit, pages[..|sets| - 1], cursors[..|sets|])
  {
    var n := |sets| - 1;
    forall k | 0 <= k < n
      ensures (pages[..n][k], cursors[..n + 1][k + 1]) == Page(sets[..n][k], cursors[..n + 1][k], limit)
    {
      assert (pages[k], cursors[k + 1]) == Page(sets[k], cursors[k], limit);
    }
  }

  /** What has been returned so far: strictly descending, ending at the cursor, and
      holding every row up to it that matched throughout. */
  ghost predicate Covered(sets: seq<set<Pos>>, joined: seq<Pos>, cursor: Option<Pos>) {
    && Descending(joined)
    && (cursor.Some? && sets != [] ==> joined != [] && joined[|joined| - 1] == cursor.value)
    && (forall p | (forall k | 0 <= k < |sets| :: p in sets[k]) && sets != [] && (cursor.Some? ==> !Newer(cursor.value, p)) :: p in joined)
    && (forall p | p in joined :: exists k | 0 <= k < |sets| :: p in sets[k])
  }

  lemma PageCuts(s: set<Pos>, cursor: Option<Pos>, limit: nat)
    requires 0 < limit
    ensures var (page, next) := Page(s, cursor, limit);
            && Descending(page)
            && (forall p | p in page :: p in s && (cursor.Some? ==> Newer(cursor.value, p)))
            && (next.Some? ==> |page| == limit && page[limit - 1] == next.value)
            && (forall p | p in s && (cursor.Some? ==> Newer(cursor.value, p)) && (next.Some? ==> !Newer(next.value, p)) :: p in page)
  {
    var rest := Sorted(Past(s, cursor));
    var (page, next) := Page(s, cursor, limit);
    assert forall p | p in page :: p in rest;
    forall p | p in s && (cursor.Some? ==> Newer(cursor.value, p)) && (next.Some? ==> !Newer(next.value, p)) ensures p in page {
      assert p in rest;
      var i :| 0 <= i < |rest| && rest[i] == p;
      assert next.Some? && i >= limit ==> Newer(rest[limit - 1], rest[i]);
    }
  }

  /** A page cut at the cursor continues the descending list. */
  lemma Continues(before: seq<Pos>, page: seq<Pos>)
    requires Descending(before) && Descending(page)
    requires before != [] ==> forall p | p in page :: Newer(before[|before| - 1], p)
    ensures Descending(before + page)
  {
    forall i, j | 0 <= i < j < |before + page| ensures Newer((before + page)[i], (before + page)[j]) {
      if i < |before| <= j {
        assert page[j - |before|] in page;
      }
    }
  }

  lemma CoversOneMore(sets: seq<set<Pos>>, s: set<Pos>, before: seq<Pos>, cursor: Option<Pos>, limit: nat)
    requires 0 < limit && Covered(sets, before, cursor)
    requires if sets == [] then before == [] && cursor.None? else cursor.Some?
    ensures Covered(sets + [s], before + Page(s, cursor, limit).0, Page(s, cursor, limit).1)
  {
    var (page, next) := Page(s, cursor, limit);
    var all := sets + [s];
    PageCuts(s, cursor, limit);
    Continues(before, page);
    forall p | (forall k | 0 <= k < |all| :: p in all[k]) && (next.Some? ==> !Newer(next.value, p)) ensures p in before + page {
      assert p in all[|sets|];
      forall k | 0 <= k < |sets| ensures p in sets[k] {
        assert p in all[k];
      }
    }
    forall p | p in before + page ensures exists k | 0 <= k < |all| :: p in all[k] {
      if p in before {
        var k :| 0 <= k < |sets| && p in sets[k];
        assert p in all[k];
      } else {
        assert p in all[|sets|];
      }
    }
  }

  lemma {:induction false} WalkCovers(sets: seq<set<Pos>>, limit: nat, pages: seq<seq<Pos>>, cursors: seq<Option<Pos>>)
    requires 0 < limit && Walk(sets, limit, pages, cursors)
    ensures Covered(sets, Joined(pages), cursors[|sets|])
  {
    if sets != [] {
      var n := |sets| - 1;
      WalkFront(sets, limit, pages, cursors);
      WalkCovers(sets[..n], limit, pages[..n], cursors[..n + 1]);
      assert (pages[n], cursors[n + 1]) == Page(sets[n], cursors[n], limit);
      assert n == 0 ==> Joined(pages[..n]) == [];
      CoversOneMore(sets[..n], sets[n], Joined(pages[..n]), cursors[n], limit);
      assert sets[..n] + [sets[n]] == sets;
    }
  }

  /** A page that returns a cursor is full. */
  lemma FullUnlessLast(sets: seq<set<Pos>>, limit: nat, pages: seq<seq<Pos>>, cursors: seq<Option<Pos>>, k: nat)
    requires 0 < limit && Walk(sets, limit, pages, cursors) && k < |sets| && cursors[k + 1].Some?
    ensures |pages[k]| == limit
  {
    assert (pages[k], cursors[k + 1]) == Page(sets[k], cursors[k], limit);
    PageCuts(sets[k], cursors[k], limit);
  }

  /** Main theorem: followed from no cursor to no cursor while the store changes,
      the pages list rows in strictly descending order, so no position twice, and
      every row that matches throughout and keeps its key exactly once. */
  lemma WalkReturnsOnce(sets: seq<set<Pos>>, limit: nat, pages: seq<seq<Pos>>, cursors: seq<Option<Pos>>)
    requires 0 < limit && sets != [] && Walk(sets, limit, pages, cursors)
    ensures Descending(Joined(pages))
    ensures cursors[|sets|].None? ==>
              forall p | (forall k | 0 <= k < |sets| :: p in sets[k]) ::
                p in Joined(pages) && multiset(Joined(pages))[p] == 1
  {
    WalkCovers(sets, limit, pages, cursors);
    if cursors[|sets|].None? {
      forall p | forall k | 0 <= k < |sets| :: p in sets[k]
        ensures p in Joined(pages) && multiset(Joined(pages))[p] == 1
      {
        DescendingOnce(Joined(pages), p);
      }
    }
  }

  /** The same over databases: pages cut at different times from any databases list
      an entry that matches the filter in all of them and keeps its key exactly once. */
  lemma ChangingStore(dbs: seq<Db>, userId: Id, f: Filter, pages: seq<seq<Pos>>, cursors: seq<Option<Pos>>, e: Pos)
    requires dbs != [] && Walk(Snapshots(dbs, userId, f), Limit(f), pages, cursors) && cursors[|dbs|].None?
    requires forall k | 0 <= k < |dbs| ::
               && e.id in dbs[k].entries && Matches(dbs[k], userId, f, dbs[k].entries[e.id])
               && CursorKey(dbs[k].entries[e.id], f.order) == e.key
    ensures multiset(Joined(pages))[e] == 1
  {
    var sets := Snapshots(dbs, userId, f);
    assert forall k | 0 <= k < |sets| :: e in sets[k];
    WalkReturnsOnce(sets, Limit(f), pages, cursors);
  }

  lemma {:induction false} DescendingOnce(s: seq<Pos>, p: Pos)
    requires Descending(s) && p in s
    ensures multiset(s)[p] == 1
  {
    var i :| 0 <= i < |s| && s[i] == p;
    assert s == s[..i] + [p] + s[i + 1..];
    assert p !in s[..i] && p !in s[i + 1..];
    assert multiset(s) == multiset(s[..i]) + multiset{p} + multiset(s[i + 1..]);
  }

  function Union(sets: seq<set<Pos>>): set<Pos> {
    if sets == [] then {} else Union(sets[..|sets| - 1]) + sets[|sets| - 1]
  }

  lemma {:induction false} InUnion(sets: seq<set<Pos>>, k: nat, p: Pos)
    requires k < |sets| && p in sets[k]
    ensures p in Union(sets)
  {
    if k < |sets| - 1 {
      InUnion(sets[..|sets| - 1], k, p);
    }
  }

  lemma {:induction false} DescendingCount(s: seq<Pos>, u: set<Pos>)
    requires Descending(s) && forall p | p in s :: p in u
    ensures |s| <= |u|
  {
    if s != [] {
      var last := s[|s| - 1];
      forall p | p in s[..|s| - 1] ensures p in u - {last} {
        var i :| 0 <= i < |s| - 1 && s[i] == p;
        assert Newer(s[i], last);
      }
      DescendingCount(s[..|s| - 1], u - {last});
    }
  }

  lemma {:induction false} FullPages(pages: seq<seq<Pos>>, limit: nat)
    requires forall k | 0 <= k < |pages| :: |pages[k]| == limit
    ensures |Joined(pages)| == |pages| * limit
  {
    if pages != [] {
      FullPages(pages[..|pages| - 1], limit);
      assert |pages| * limit == (|pages| - 1) * limit + limit;
    }
  }

  /** Termination: pages that each return a cursor are full and distinct, so there
      are never more of them than the rows that ever matched allow, and on a store
      that stops growing the cursors come to an end. */
  lemma WalkTerminates(sets: seq<set<Pos>>, limit: nat, pages: seq<seq<Pos>>, cursors: seq<Option<Pos>>)
    requires 0 < limit && sets != [] && Walk(sets, limit, pages, cursors) && cursors[|sets|].Some?
    ensures |pages| * limit <= |Union(sets)|
  {
    WalkCovers(sets, limit, pages, cursors);
    forall k | 0 <= k < |pages| ensures |pages[k]| == limit {
      FullUnlessLast(sets, limit, pages, cursors, k);
    }
    FullPages(pages, limit);
    forall p | p in Joined(pages) ensures p in Union(sets) {
      var k :| 0 <= k < |sets| && p in sets[k];
      InUnion(sets, k, p);
    }
    DescendingCount(Joined(pages), Union(sets));
  }

  /** On a store that does not change, the joined pages are the whole sorted list. */
  lemma FixedStoreListsAll(s: set<Pos>, limit: nat, sets: seq<set<Pos>>, pages: seq<seq<Pos>>, cursors: seq<Option<Pos>>)
    requires 0 < limit && sets != [] && Walk(sets, limit, pages, cursors) && cursors[|sets|].None?
    requires forall k | 0 <= k < |sets| :: sets[k] == s
    ensures Joined(pages) == Sorted(s)
  {
    WalkCovers(sets, limit, pages, cursors);
    forall p ensures p in Joined(pages) <==> p in Sorted(s) {
      if p in s {
        assert forall k | 0 <= k < |sets| :: p in sets[k];
      }
    }
    SortedUnique(Joined(pages), Sorted(s));
  }
}
