/** EditFeed: four user-owned fields changed by separate store calls, ordered so that
    the only call the user's input can fail comes first. */
module Editing {
  import opened Rows
  import opened Sql
  import opened Invariants
  import opened Safety
  import opened Stores
  import opened System
  import Validators

  datatype Input = Input(title: string, url: string, category: Option<Id>, fullContent: bool)

  datatype Result = Edited(urlChanged: bool, categoryChanged: bool) | Missing | InvalidUrl | BadCategory | Duplicate

  /** TrimSpace, normalizeFeedURL and httpURL. */
  datatype Checks = Checks(trim: string -> string, canon: string -> string, isHttp: string -> bool)

  /** What the two clock readings say, when the calls that take them are made. */
  datatype Clock = Clock(url: int, toggle: int)

  /** The URL asked for, none when the field is blank. */
  function WantedUrl(c: Checks, input: Input): Option<string> {
    var url := c.trim(input.url);
    if url == "" then None else Some(c.canon(url))
  }

  predicate ChangesUrl(c: Checks, input: Input, f: Feed) {
    WantedUrl(c, input).Some? && WantedUrl(c, input).value != "" && WantedUrl(c, input).value != f.feedUrl
  }

  /** ensureCategoryOwned. */
  predicate MayUse(db: Db, userId: Id, category: Option<Id>) {
    category.Some? ==> OwnsCategory(db, userId, category.value)
  }

  /** The row as the form describes it; a new URL takes the old URL's validators away. */
  function EditedRow(c: Checks, input: Input, f: Feed, now: int): Feed {
    var g := f.(userTitle := c.trim(input.title), categoryId := input.category, fullContent := input.fullContent);
    if ChangesUrl(c, input, f)
    then g.(feedUrl := WantedUrl(c, input).value, poll := f.poll.(etag := "", lastModified := "", nextCheckAt := now))
    else g
  }

  /** The saved row. A form whose URL is blank or, normalised, the stored one leaves URL and
      poll columns as they were; another URL takes the validators away and makes the feed
      due. */
  predicate SavedAs(c: Checks, input: Input, f: Feed, now: int, changed: bool, saved: Feed) {
    var url := c.canon(c.trim(input.url));
    && (changed <==> c.trim(input.url) != "" && url != "" && url != f.feedUrl)
    && saved.feedUrl == (if changed then url else f.feedUrl)
    && saved.poll == (if changed then f.poll.(etag := "", lastModified := "", nextCheckAt := now) else f.poll)
    && saved.userTitle == c.trim(input.title) && saved.categoryId == input.category && saved.fullContent == input.fullContent
    && saved.userId == f.userId && saved.createdAt == f.createdAt
  }

  function EditedDb(c: Checks, db: Db, userId: Id, feedId: Id, input: Input, now: Clock): Db
    requires Owns(db, userId, feedId)
  {
    var f := db.feeds[feedId];
    db.(feeds := db.feeds[feedId := EditedRow(c, input, f, now.url)],
        entries := if input.fullContent == f.fullContent then db.entries
                   else map i | i in db.entries :: Toggled(db.entries[i], feedId, input.fullContent, now.toggle))
  }

  /** The three steps that cannot fail once the row is known to be the user's. */
  method ApplyRest(s: Store, trim: string -> string, userId: Id, feedId: Id, input: Input, f: Feed, now: int)
    requires Owns(s.Snapshot(), userId, feedId) && HasParents(s.Snapshot(), userId, input.category)
    requires s.feeds[feedId].categoryId == f.categoryId && s.feeds[feedId].fullContent == f.fullContent
    modifies s
    ensures s.Snapshot() == old(s.Snapshot()).(
              feeds := old(s.feeds)[feedId := old(s.feeds)[feedId].(
                         userTitle := trim(input.title), categoryId := input.category, fullContent := input.fullContent)],
              entries := if input.fullContent == f.fullContent then old(s.entries)
                         else map i | i in old(s.entries) :: Toggled(old(s.entries)[i], feedId, input.fullContent, now))
  {
    var _ := s.SetFeedUserTitle(userId, feedId, trim(input.title));
    if f.categoryId != input.category {
      var _ := s.SetFeedCategory(userId, feedId, input.category);
    }
    if input.fullContent != f.fullContent {
      var _ := s.SetFeedFullContent(userId, feedId, input.fullContent, now);
    }
  }

  /** All or nothing although it is not one transaction: whatever the form is refused
      for, a URL already subscribed included, leaves the store untouched; accepted,
      exactly the four fields (and what they imply) change. */
  method EditFeed(s: Store, c: Checks, userId: Id, feedId: Id, input: Input, now: Clock) returns (r: Result)
    requires References(s.Snapshot())
    modifies s
    ensures !r.Edited? ==> s.Snapshot() == old(s.Snapshot())
    ensures r.Edited? ==> old(Owns(s.Snapshot(), userId, feedId)) && s.Snapshot() == EditedDb(c, old(s.Snapshot()), userId, feedId, input, now)
    ensures r.Missing? <==> !old(Owns(s.Snapshot(), userId, feedId))
    ensures !r.Missing? ==> (r.InvalidUrl? <==> WantedUrl(c, input).Some? && !c.isHttp(WantedUrl(c, input).value))
    ensures !r.Missing? && !r.InvalidUrl? ==> (r.BadCategory? <==> !MayUse(old(s.Snapshot()), userId, input.category))
    ensures !r.Missing? && !r.InvalidUrl? && !r.BadCategory? ==>
              (r.Duplicate? <==> ChangesUrl(c, input, old(s.feeds)[feedId]) && UrlTaken(old(s.Snapshot()), userId, WantedUrl(c, input).value, feedId))
    ensures r.Edited? ==> r.urlChanged == ChangesUrl(c, input, old(s.feeds)[feedId])
                          && r.categoryChanged == (old(s.feeds)[feedId].categoryId != input.category)
    ensures r.InvalidUrl? ==> c.trim(input.url) != "" && !c.isHttp(c.canon(c.trim(input.url)))
    ensures r.Edited? ==> feedId in old(s.feeds) && feedId in s.feeds
                          && SavedAs(c, input, old(s.feeds)[feedId], now.url, r.urlChanged, s.feeds[feedId])
  {
    var got := s.GetFeed(userId, feedId);
    if got.None? { return Missing; }
    var f := got.value;
    var wanted := WantedUrl(c, input);
    if wanted.Some? && !c.isHttp(wanted.value) { return InvalidUrl; }
    if input.category.Some? {
      var owned := s.GetCategory(userId, input.category.value);
      if owned.None? { return BadCategory; }
    }
    if ChangesUrl(c, input, f) {
      var outcome := s.SetFeedURL(userId, feedId, wanted.value, now.url);
      if outcome.Conflict? { return Duplicate; }
    }
    ApplyRest(s, c.trim, userId, feedId, input, f, now.toggle);
    return Edited(ChangesUrl(c, input, f), f.categoryId != input.category);
  }

  // ---- with everyone else between the store calls --------------------------

  /** Everything but another edit of the feed's own three columns, and the deletion of
      the category asked for: polls, scrapes, other feeds, other users, URL edits,
      subscriptions, deletions of entries and of the feed itself. */
  predicate LeavesAlone(ev: Event, id: Id, category: Option<Id>) {
    && !((ev.EditTitle? || ev.EditCategory? || ev.Toggle?) && ev.feedId == id)
    && !(ev.DropCategory? && category == Some(ev.categoryId))
  }

  predicate RowKept(a: Feed, b: Feed, category: Option<Id>) {
    && b.userId == a.userId && b.userTitle == a.userTitle && b.fullContent == a.fullContent
    && (a.categoryId == category ==> b.categoryId == category)
  }

  /** A row that is still there kept its columns, and the category can still be used. */
  ghost predicate Stays(a: Db, b: Db, id: Id, category: Option<Id>) {
    && a.nextFeed <= b.nextFeed && b.users == a.users
    && (category.Some? && category.value in a.categories ==> category.value in b.categories)
    && (id < a.nextFeed && id in b.feeds ==> id in a.feeds && RowKept(a.feeds[id], b.feeds[id], category))
  }

  lemma PollStepStays(cfg: Config, s: System, ev: Event, id: Id, category: Option<Id>)
    ensures Stays(s.db, PollStep(cfg, s, ev).db, id, category)
  {
    if ev.PollIngest? && ev.p in s.polls {
      IngestStays(cfg.plain, s.db, s.polls[ev.p].feedId, ev.batch, id, category);
    }
  }

  lemma IngestStays(plain: string -> string, db: Db, feedId: Id, batch: seq<NewEntry>, id: Id, category: Option<Id>)
    ensures Stays(db, Upsert(plain, db, feedId, batch).0, id, category)
  {
    if feedId in db.feeds {
      UpsertAllStays(plain, db, feedId, db.feeds[feedId].fullContent, batch);
    }
  }

  lemma {:induction false} UpsertAllStays(plain: string -> string, db: Db, feedId: Id, full: bool, batch: seq<NewEntry>)
    ensures var db' := UpsertAll(plain, db, feedId, full, batch);
            db'.feeds == db.feeds && db'.nextFeed == db.nextFeed && db'.users == db.users && db'.categories == db.categories
  {
    if batch != [] {
      UpsertAllStays(plain, db, feedId, full, batch[..|batch| - 1]);
      UpsertOneStays(plain, UpsertAll(plain, db, feedId, full, batch[..|batch| - 1]), feedId, full, batch[|batch| - 1]);
    }
  }

  lemma UpsertOneStays(plain: string -> string, db: Db, feedId: Id, full: bool, n: NewEntry)
    ensures var db' := UpsertOne(plain, db, feedId, full, n);
            db'.feeds == db.feeds && db'.nextFeed == db.nextFeed && db'.users == db.users && db'.categories == db.categories
  {
  }

  lemma ScrapeStepStays(cfg: Config, s: System, ev: Event, id: Id, category: Option<Id>)
    ensures Stays(s.db, ScrapeStep(cfg, s, ev).db, id, category)
  {
  }

  lemma UserStepStays(cfg: Config, s: System, ev: Event, id: Id, category: Option<Id>)
    requires LeavesAlone(ev, id, category)
    ensures Stays(s.db, UserStep(cfg, s, ev).db, id, category)
  {
    hide UserStep;
    if IsFeedEdit(ev) {
      FeedEditStays(cfg, s, ev, id, category);
    } else {
      OtherUserStepStays(cfg, s, ev, id, category);
    }
  }

  lemma FeedEditStays(cfg: Config, s: System, ev: Event, id: Id, category: Option<Id>)
    requires LeavesAlone(ev, id, category) && IsFeedEdit(ev)
    ensures Stays(s.db, UserStep(cfg, s, ev).db, id, category)
  {
  }

  lemma OtherUserStepStays(cfg: Config, s: System, ev: Event, id: Id, category: Option<Id>)
    requires LeavesAlone(ev, id, category) && !IsFeedEdit(ev)
    ensures Stays(s.db, UserStep(cfg, s, ev).db, id, category)
  {
  }

  /** However many of them, in any order. */
  lemma {:induction false} RunStays(cfg: Config, s: System, evs: seq<Event>, id: Id, category: Option<Id>)
    requires forall ev | ev in evs :: LeavesAlone(ev, id, category)
    ensures Stays(s.db, Run(cfg, s, evs).db, id, category)
  {
    if evs != [] {
      var mid, ev := Run(cfg, s, evs[..|evs| - 1]), evs[|evs| - 1];
      RunStays(cfg, s, evs[..|evs| - 1], id, category);
      assert ev in evs;
      PollStepStays(cfg, mid, ev, id, category);
      ScrapeStepStays(cfg, mid, ev, id, category);
      UserStepStays(cfg, mid, ev, id, category);
    }
  }

  /** The user's step, when it is taken at all, and then what happens before the next. */
  function Stage(taken: bool, ev: Event, after: seq<Event>): seq<Event> {
    (if taken then [ev] else []) + after
  }

  lemma StageStays(cfg: Config, s: System, taken: bool, ev: Event, after: seq<Event>, id: Id, category: Option<Id>)
    requires forall e | e in after :: LeavesAlone(e, id, category)
    ensures var s1 := if taken then Step(cfg, s, ev) else s; Stays(s1.db, Run(cfg, s, Stage(taken, ev, after)).db, id, category)
  {
    var s1 := if taken then Step(cfg, s, ev) else s;
    RunStays(cfg, s1, after, id, category);
    if taken {
      Validators.RunSnoc(cfg, s, [], ev);
      assert [] + [ev] == [ev];
      Validators.RunAppend(cfg, s, [ev], after);
    } else {
      assert Stage(taken, ev, after) == after;
    }
  }

  /** What the edit knows of the row so far: it is the user's, and the columns already
      dealt with are as asked for. */
  ghost predicate Holds(db: Db, u: Id, id: Id, input: Input, title: bool, category: bool, flag: bool) {
    && id < db.nextFeed && HasParents(db, u, input.category)
    && (id in db.feeds ==>
          && db.feeds[id].userId == u
          && (title ==> db.feeds[id].userTitle == input.title)
          && (category ==> db.feeds[id].categoryId == input.category)
          && (flag ==> db.feeds[id].fullContent == input.fullContent))
  }

  lemma StaysHolds(a: Db, b: Db, u: Id, id: Id, input: Input, title: bool, category: bool, flag: bool)
    requires Holds(a, u, id, input, title, category, flag) && Stays(a, b, id, input.category)
    ensures Holds(b, u, id, input, title, category, flag)
  {
  }

  lemma TitleStage(cfg: Config, s: System, u: Id, id: Id, input: Input, after: seq<Event>, category: bool, flag: bool)
    requires Holds(s.db, u, id, input, false, category, flag) && forall e | e in after :: LeavesAlone(e, id, input.category)
    ensures Holds(Run(cfg, s, Stage(true, EditTitle(u, id, input.title), after)).db, u, id, input, true, category, flag)
  {
    var ev := EditTitle(u, id, input.title);
    StageStays(cfg, s, true, ev, after, id, input.category);
    StaysHolds(Step(cfg, s, ev).db, Run(cfg, s, Stage(true, ev, after)).db, u, id, input, true, category, flag);
  }

  lemma CategoryStage(cfg: Config, s: System, u: Id, id: Id, input: Input, taken: bool, after: seq<Event>, flag: bool)
    requires Holds(s.db, u, id, input, true, !taken, flag) && forall e | e in after :: LeavesAlone(e, id, input.category)
    ensures Holds(Run(cfg, s, Stage(taken, EditCategory(u, id, input.category), after)).db, u, id, input, true, true, flag)
  {
    var ev := EditCategory(u, id, input.category);
    StageStays(cfg, s, taken, ev, after, id, input.category);
    StaysHolds(if taken then Step(cfg, s, ev).db else s.db, Run(cfg, s, Stage(taken, ev, after)).db, u, id, input, true, true, flag);
  }

  lemma ToggleStage(cfg: Config, s: System, u: Id, id: Id, input: Input, taken: bool, now: int, after: seq<Event>)
    requires Holds(s.db, u, id, input, true, true, !taken) && forall e | e in after :: LeavesAlone(e, id, input.category)
    ensures Holds(Run(cfg, s, Stage(taken, Toggle(u, id, input.fullContent, now), after)).db, u, id, input, true, true, true)
  {
    var ev := Toggle(u, id, input.fullContent, now);
    StageStays(cfg, s, taken, ev, after, id, input.category);
    StaysHolds(if taken then Step(cfg, s, ev).db else s.db, Run(cfg, s, Stage(taken, ev, after)).db, u, id, input, true, true, true);
  }

  /** What the others do after the read and after each of the four calls. */
  datatype Others = Others(read: seq<Event>, url: seq<Event>, title: seq<Event>, category: seq<Event>, flag: seq<Event>)

  ghost predicate Harmless(o: Others, id: Id, category: Option<Id>) {
    forall ev | ev in o.read + o.url + o.title + o.category + o.flag :: LeavesAlone(ev, id, category)
  }

  /** From the read of `f` to its last call, an edit that gets past its URL, as the
      shared system sees it. */
  function Calls(userId: Id, feedId: Id, input: Input, f: Feed, url: string, now: Clock, o: Others): seq<Event> {
    UrlCall(userId, feedId, f, url, now, o) + TitleCall(userId, feedId, input, o)
    + CategoryCall(userId, feedId, input, f, o) + FlagCall(userId, feedId, input, f, now, o)
  }

  function UrlCall(userId: Id, feedId: Id, f: Feed, url: string, now: Clock, o: Others): seq<Event> {
    o.read + Stage(url != "" && url != f.feedUrl, EditURL(userId, feedId, url, now.url), o.url)
  }

  function TitleCall(userId: Id, feedId: Id, input: Input, o: Others): seq<Event> {
    Stage(true, EditTitle(userId, feedId, input.title), o.title)
  }

  function CategoryCall(userId: Id, feedId: Id, input: Input, f: Feed, o: Others): seq<Event> {
    Stage(f.categoryId != input.category, EditCategory(userId, feedId, input.category), o.category)
  }

  function FlagCall(userId: Id, feedId: Id, input: Input, f: Feed, now: Clock, o: Others): seq<Event> {
    Stage(input.fullContent != f.fullContent, Toggle(userId, feedId, input.fullContent, now.toggle), o.flag)
  }

  lemma FourParts(cfg: Config, s: System, a: seq<Event>, b: seq<Event>, c: seq<Event>, d: seq<Event>)
    ensures Run(cfg, s, a + b + c + d) == Run(cfg, Run(cfg, Run(cfg, Run(cfg, s, a), b), c), d)
  {
    Validators.RunAppend(cfg, s, a, b);
    Validators.RunAppend(cfg, s, a + b, c);
    Validators.RunAppend(cfg, s, a + b + c, d);
  }

  /** An edit is not one transaction, and anything that leaves its columns alone may run
      from its read on; still, if the row is there at the end it has the title, the
      category and the flag that the form asked for. */
  lemma EditSurvivesOthers(cfg: Config, s: System, userId: Id, feedId: Id, input: Input, url: string, now: Clock, o: Others)
    requires References(s.db) && Owns(s.db, userId, feedId) && MayUse(s.db, userId, input.category)
    requires Harmless(o, feedId, input.category)
    ensures var end := Run(cfg, s, Calls(userId, feedId, input, s.db.feeds[feedId], url, now, o));
            feedId in end.db.feeds ==>
              && end.db.feeds[feedId].userTitle == input.title
              && end.db.feeds[feedId].categoryId == input.category
              && end.db.feeds[feedId].fullContent == input.fullContent
  {
    var f := s.db.feeds[feedId];
    var c0, c1 := UrlCall(userId, feedId, f, url, now, o), TitleCall(userId, feedId, input, o);
    var c2, c3 := CategoryCall(userId, feedId, input, f, o), FlagCall(userId, feedId, input, f, now, o);
    EachHarmless(o, feedId, input.category);
    UrlCallHolds(cfg, s, userId, feedId, input, url, now, o);
    var s0 := Run(cfg, s, c0);
    TitleStage(cfg, s0, userId, feedId, input, o.title, f.categoryId == input.category, input.fullContent == f.fullContent);
    var s1 := Run(cfg, s0, c1);
    CategoryStage(cfg, s1, userId, feedId, input, f.categoryId != input.category, o.category, input.fullContent == f.fullContent);
    ToggleStage(cfg, Run(cfg, s1, c2), userId, feedId, input, input.fullContent != f.fullContent, now.toggle, o.flag);
    FourParts(cfg, s, c0, c1, c2, c3);
  }

  lemma UrlCallHolds(cfg: Config, s: System, userId: Id, feedId: Id, input: Input, url: string, now: Clock, o: Others)
    requires References(s.db) && Owns(s.db, userId, feedId) && MayUse(s.db, userId, input.category)
    requires forall ev | ev in o.read || ev in o.url :: LeavesAlone(ev, feedId, input.category)
    ensures var f := s.db.feeds[feedId];
            Holds(Run(cfg, s, UrlCall(userId, feedId, f, url, now, o)).db, userId, feedId, input,
                  false, f.categoryId == input.category, input.fullContent == f.fullContent)
  {
    var f := s.db.feeds[feedId];
    var c0 := UrlCall(userId, feedId, f, url, now, o);
    RunStays(cfg, s, c0, feedId, input.category);
    StaysHolds(s.db, Run(cfg, s, c0).db, userId, feedId, input, false, f.categoryId == input.category, input.fullContent == f.fullContent);
  }

  lemma EachHarmless(o: Others, id: Id, category: Option<Id>)
    requires Harmless(o, id, category)
    ensures forall ev | ev in o.read || ev in o.url || ev in o.title || ev in o.category || ev in o.flag :: LeavesAlone(ev, id, category)
  {
    forall ev | ev in o.read || ev in o.url || ev in o.title || ev in o.category || ev in o.flag ensures LeavesAlone(ev, id, category) {
      assert ev in o.read + o.url + o.title + o.category + o.flag;
    }
  }
}
