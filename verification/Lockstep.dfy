/** The in-memory store and the SQL store given the same operations from empty: they
    stay in step exactly until an operation that takes them apart, and answer the
    same exactly but for the operations named here. */
module Lockstep {
  import opened Rows
  import opened Sql
  import opened MemStores
  import opened Mirroring
  import V = Invariants
  import S = Schedule

  // ---- operations ----------------------------------------------------------

  /** An operation as a caller of the in-memory store names it, times in nanoseconds. */
  datatype Op =
    | Create(f: Feed)
    | Update(u: Id, feed: Id, url: string, p: PollState)
    | SetUrl(u: Id, feed: Id, url: string, now: int)
    | Retitle(u: Id, feed: Id, title: string)
    | Categorise(u: Id, feed: Id, category: Option<Id>)
    | DropFeed(u: Id, feed: Id)
    | Toggle(u: Id, feed: Id, on: bool, at: int)
    | NewCategory(u: Id, title: string)
    | RenameCategory(u: Id, c: Id, title: string)
    | DropCategory(u: Id, c: Id)
    | Upsert(feed: Id, batch: seq<Staged>)
    | DropEntry(u: Id, entry: Id)
    | Mark(u: Id, ids: seq<Id>, status: Status, now: int)
    | Star(u: Id, ids: seq<Id>, starred: bool)
    | MarkAll(u: Id, sel: Selection, now: int)
    | SaveArticle(entry: Id, content: string)
    | SetState(entry: Id, x: Extraction)

  ghost function MemDo(m: MemDb, op: Op): (MemDb, Outcome) {
    match op
    case Create(f) => MemCreateFeed(m, f)
    case Update(u, feed, url, p) => (MemUpdateFeed(m, u, feed, url, p), Ok)
    case SetUrl(u, feed, url, now) => MemSetFeedURL(m, u, feed, url, now)
    case Retitle(u, feed, title) => MemSetUserTitle(m, u, feed, title)
    case Categorise(u, feed, category) => MemSetCategory(m, u, feed, category)
    case DropFeed(u, feed) => MemDeleteFeed(m, u, feed)
    case Toggle(u, feed, on, at) => MemSetFullContent(m, u, feed, on, at)
    case NewCategory(u, title) => MemCreateCategory(m, u, title)
    case RenameCategory(u, c, title) => MemUpdateCategory(m, u, c, title)
    case DropCategory(u, c) => MemDeleteCategory(m, u, c)
    case Upsert(feed, batch) => (MemUpsert(m, feed, batch), Ok)
    case DropEntry(u, entry) => MemDeleteEntry(m, u, entry)
    case Mark(u, ids, status, now) => (MemSetStatus(m, u, Elements(ids), status, now), Ok)
    case Star(u, ids, starred) => (MemSetStarred(m, u, Elements(ids), starred), Ok)
    case MarkAll(u, sel, now) => (MemMarkRead(m, u, sel, now), Ok)
    case SaveArticle(entry, content) => MemSetContent(m, entry, content)
    case SetState(entry, x) => MemSetExtract(m, entry, x)
  }

  /** The same operation on the SQL store: ids renamed, times cut to seconds. */
  ghost function SqlDo(plain: string -> string, ids: Ids, db: Db, op: Op): (Db, Outcome) {
    match op
    case Create(f) => Sql.CreateFeed(db, SqlRow(ids, db, f))
    case Update(u, feed, url, p) => (Sql.UpdateFeed(db, u, SqlFeed(ids, db, feed), url, CutPoll(p)), Ok)
    case SetUrl(u, feed, url, now) => Sql.SetFeedURL(db, u, SqlFeed(ids, db, feed), url, S.ToUnix(now))
    case Retitle(u, feed, title) => SetUserTitle(db, u, SqlFeed(ids, db, feed), title)
    case Categorise(u, feed, category) => SetCategory(db, u, SqlFeed(ids, db, feed), SqlParent(ids, db, category))
    case DropFeed(u, feed) => Sql.DeleteFeed(db, u, SqlFeed(ids, db, feed))
    case Toggle(u, feed, on, at) => SetFullContent(db, u, SqlFeed(ids, db, feed), on, S.ToUnix(at))
    case NewCategory(u, title) => Sql.CreateCategory(db, u, title)
    case RenameCategory(u, c, title) => Sql.UpdateCategory(db, u, SqlCategory(ids, db, c), title)
    case DropCategory(u, c) => Sql.DeleteCategory(db, u, SqlCategory(ids, db, c))
    case Upsert(feed, batch) => Sql.Upsert(plain, db, SqlFeed(ids, db, feed), CutItems(batch))
    case DropEntry(u, entry) => DeleteEntryAtOnce(db, u, SqlEntry(ids, db, entry))
    case Mark(u, es, status, now) => (Sql.SetStatus(db, u, SqlEntries(ids, db, Elements(es)), status, S.ToUnix(now)), Ok)
    case Star(u, es, starred) => (Sql.SetStarred(db, u, SqlEntries(ids, db, Elements(es)), starred), Ok)
    case MarkAll(u, sel, now) => (Sql.MarkRead(db, u, SqlSelection(ids, db, sel), S.ToUnix(now)), Ok)
    case SaveArticle(entry, content) => (Sql.SetEntryContent(plain, db, SqlEntry(ids, db, entry), content), Ok)
    case SetState(entry, x) => (Sql.UpdateExtractState(db, SqlEntry(ids, db, entry), CutExtraction(x)), Ok)
  }

  ghost function IdsDo(plain: string -> string, ids: Ids, m: MemDb, db: Db, op: Op): Ids {
    match op
    case Create(f) => CreatedIds(ids, m, db, f)
    case NewCategory(u, title) => NewCategoryIds(ids, m, db, u, title)
    case Upsert(feed, batch) => UpsertIds(plain, ids, m, db, feed, batch)
    case _ => ids
  }

  /** What takes the two apart: a title that the INSERT drops, a parent that only the
      foreign keys miss, a category that only the index without case refuses, a batch
      that memory upserts without the care of the SQL, and a selection by the category
      of another user's feed. */
  ghost predicate TakesApart(users: set<Id>, m: MemDb, op: Op) {
    match op
    case Create(f) => MemCreateFeed(m, f).1.Ok? && (f.userTitle != "" || Dangling(users, m, f.userId, f.categoryId))
    case Categorise(u, feed, category) => MemOwns(m, u, feed) && Dangling(users, m, u, category)
    case NewCategory(u, title) => RefusedCategory(users, m, u, title)
    case RenameCategory(u, c, title) => RefusedRename(m, u, c, title)
    case Upsert(feed, batch) => UpsertApart(users, m, feed, batch)
    case MarkAll(u, sel, _) => MarkAllApart(m, u, sel)
    case _ => false
  }

  /** What gets two answers: what only the SQL refuses, and the two extraction updates of
      a row that is not there, an error only in memory. */
  ghost predicate AnswersDiffer(users: set<Id>, m: MemDb, op: Op) {
    match op
    case Create(f) => MemCreateFeed(m, f).1.Ok? && Dangling(users, m, f.userId, f.categoryId)
    case Categorise(u, feed, category) => MemOwns(m, u, feed) && Dangling(users, m, u, category)
    case NewCategory(u, title) => RefusedCategory(users, m, u, title)
    case RenameCategory(u, c, title) => RefusedRename(m, u, c, title)
    case Upsert(feed, batch) => feed in m.feeds && Stranger(users, m, feed, m.feeds[feed].fullContent, batch)
    case SaveArticle(entry, _) => entry !in m.entries
    case SetState(entry, _) => entry !in m.entries
    case _ => false
  }

  // ---- what the database keeps ---------------------------------------------

  lemma InsertKeepsRules(plain: string -> string, db: Db, j: Id, full: bool, n: NewEntry)
    requires Rules(db) && j in db.feeds && n.userId in db.users && SqlInserts(db, j, n.guid)
    ensures Rules(InsertRow(plain, db, j, full, n))
  {
    assert forall i | i in db.entries :: !IsRowOf(db.entries, i, j, n.guid);
  }

  lemma RefreshKeepsRules(plain: string -> string, db: Db, i: Id, n: NewEntry)
    requires Rules(db) && i in db.entries
    ensures Rules(RefreshRow(plain, db, i, n))
  {
  }

  lemma UpsertOneKeepsRules(plain: string -> string, db: Db, j: Id, full: bool, n: NewEntry)
    requires Rules(db) && j in db.feeds && (SqlInserts(db, j, n.guid) ==> n.userId in db.users)
    ensures var db' := UpsertOne(plain, db, j, full, n); Rules(db') && db'.feeds == db.feeds && db'.users == db.users
  {
    hide Rules;
    if SqlInserts(db, j, n.guid) {
      InsertKeepsRules(plain, db, j, full, n);
    } else if FindByGuid(db.entries, j, n.guid).Some? {
      RefreshKeepsRules(plain, db, FindByGuid(db.entries, j, n.guid).value, n);
    }
  }

  lemma {:induction false} UpsertAllKeepsRules(plain: string -> string, db: Db, j: Id, full: bool, batch: seq<NewEntry>)
    requires Rules(db) && j in db.feeds && Accepted(plain, db, j, full, batch)
    ensures var db' := UpsertAll(plain, db, j, full, batch); Rules(db') && db'.feeds == db.feeds && db'.users == db.users
  {
    hide Rules, Accepted;
    if batch != [] {
      var front, n := batch[..|batch| - 1], batch[|batch| - 1];
      V.AcceptedFront(plain, db, j, full, batch);
      UpsertAllKeepsRules(plain, db, j, full, front);
      UpsertOneKeepsRules(plain, UpsertAll(plain, db, j, full, front), j, full, n);
    }
  }

  lemma UpsertKeepsRules(plain: string -> string, db: Db, j: Id, batch: seq<NewEntry>)
    requires Rules(db)
    ensures Rules(Sql.Upsert(plain, db, j, batch).0)
  {
    hide Rules, Accepted;
    if j in db.feeds && Accepted(plain, db, j, db.feeds[j].fullContent, batch) {
      UpsertAllKeepsRules(plain, db, j, db.feeds[j].fullContent, batch);
    }
  }

  lemma ToggleKeepsRules(db: Db, u: Id, j: Id, on: bool, at: int)
    requires Rules(db)
    ensures Rules(SetFullContent(db, u, j, on, at).0)
  {
    var rows := SetFullContent(db, u, j, on, at).0.entries;
    assert forall i | i in rows :: rows[i] == db.entries[i].(extraction := rows[i].extraction);
  }

  lemma SetReaderKeepsRules(db: Db, s: set<Id>, u: Id, f: Reader -> Reader)
    requires Rules(db)
    ensures Rules(SetReader(db, s, u, f))
  {
    var rows := SetReader(db, s, u, f).entries;
    assert forall i | i in rows :: rows[i] == db.entries[i].(reader := rows[i].reader);
  }

  lemma DeleteCategoryKeepsRules(db: Db, u: Id, c: Id)
    requires Rules(db)
    ensures Rules(Sql.DeleteCategory(db, u, c).0)
  {
  }

  lemma DeleteFeedKeepsRules(db: Db, u: Id, j: Id)
    requires Rules(db)
    ensures Rules(Sql.DeleteFeed(db, u, j).0)
  {
  }

  /** Operations on one feed's row or on categories. */
  predicate OnFeeds(op: Op) {
    op.Create? || op.Update? || op.SetUrl? || op.Retitle? || op.Categorise? || op.NewCategory? || op.RenameCategory?
  }

  /** Only feeds changed: none went, and each has its parents. */
  ghost predicate FeedsKept(a: Db, b: Db) {
    && b == a.(feeds := b.feeds, nextFeed := b.nextFeed) && a.feeds.Keys <= b.feeds.Keys
    && forall i | i in b.feeds :: i < b.nextFeed && HasParents(a, b.feeds[i].userId, b.feeds[i].categoryId)
  }

  lemma FeedOpKeepsFeeds(plain: string -> string, ids: Ids, db: Db, op: Op)
    requires V.References(db) && (op.Create? || op.Update? || op.SetUrl? || op.Retitle? || op.Categorise?)
    ensures FeedsKept(db, SqlDo(plain, ids, db, op).0)
  {
    hide UrlTaken, SqlRow, SqlFeed, SqlParent, CutPoll, Sql.DeleteFeed, Sql.CreateCategory, Sql.UpdateCategory, Sql.DeleteCategory,
         SetFullContent, Sql.Upsert, DeleteEntryAtOnce, Sql.SetStatus, Sql.SetStarred, Sql.MarkRead, Sql.SetEntryContent, Sql.UpdateExtractState;
  }

  lemma FeedOpKeepsRules(plain: string -> string, ids: Ids, db: Db, op: Op)
    requires Rules(db) && OnFeeds(op)
    ensures Rules(SqlDo(plain, ids, db, op).0)
  {
    hide SqlDo;
    if op.NewCategory? || op.RenameCategory? {
      CategoryOpKeepsRules(plain, ids, db, op);
    } else {
      FeedOpKeepsFeeds(plain, ids, db, op);
    }
  }

  lemma CategoryOpKeepsRules(plain: string -> string, ids: Ids, db: Db, op: Op)
    requires Rules(db) && (op.NewCategory? || op.RenameCategory?)
    ensures Rules(SqlDo(plain, ids, db, op).0)
  {
  }

  lemma EntryOpKeepsRules(plain: string -> string, ids: Ids, db: Db, op: Op)
    requires Rules(db) && (op.DropEntry? || op.SaveArticle? || op.SetState?)
    ensures Rules(SqlDo(plain, ids, db, op).0)
  {
  }

  lemma SqlKeepsRules(plain: string -> string, ids: Ids, db: Db, op: Op)
    requires Rules(db)
    ensures Rules(SqlDo(plain, ids, db, op).0)
  {
    if OnFeeds(op) {
      FeedOpKeepsRules(plain, ids, db, op);
    } else {
      match op
      case DropFeed(u, feed) => DeleteFeedKeepsRules(db, u, SqlFeed(ids, db, feed));
      case DropCategory(u, c) => DeleteCategoryKeepsRules(db, u, SqlCategory(ids, db, c));
      case Toggle(u, feed, on, at) => ToggleKeepsRules(db, u, SqlFeed(ids, db, feed), on, S.ToUnix(at));
      case Upsert(feed, batch) => UpsertKeepsRules(plain, db, SqlFeed(ids, db, feed), CutItems(batch));
      case Mark(u, es, status, now) => SetReaderKeepsRules(db, SqlEntries(ids, db, Elements(es)), u, r => WithStatus(r, status, S.ToUnix(now)));
      case Star(u, es, starred) => SetReaderKeepsRules(db, SqlEntries(ids, db, Elements(es)), u, (r: Reader) => r.(starred := starred));
      case MarkAll(u, sel, now) => MarkReadKeepsRules(db, u, SqlSelection(ids, db, sel), S.ToUnix(now));
      case _ => EntryOpKeepsRules(plain, ids, db, op);
    }
  }

  lemma MarkReadKeepsRules(db: Db, u: Id, sel: Selection, now: int)
    requires Rules(db)
    ensures Rules(Sql.MarkRead(db, u, sel, now))
  {
    var rows := Sql.MarkRead(db, u, sel, now).entries;
    assert forall i | i in rows :: rows[i] == db.entries[i].(reader := rows[i].reader);
  }

  lemma SqlKeepsUsers(plain: string -> string, ids: Ids, db: Db, op: Op)
    ensures SqlDo(plain, ids, db, op).0.users == db.users
  {
    if op.Upsert? {
      var j := SqlFeed(ids, db, op.feed);
      if j in db.feeds {
        UpsertAllKeepsUsers(plain, db, j, db.feeds[j].fullContent, CutItems(op.batch));
      }
    }
  }

  // ---- one operation -------------------------------------------------------

  /** Exactly: one operation keeps the two in step unless it is one that takes them
      apart, and gets one answer unless it is one that gets two. */
  lemma StepMirrorsIff(plain: string -> string, ids: Ids, m: MemDb, db: Db, op: Op)
    requires Mirrors(plain, ids, m, db) && Rules(db)
    ensures Mirrors(plain, IdsDo(plain, ids, m, db, op), MemDo(m, op).0, SqlDo(plain, ids, db, op).0) <==> !TakesApart(db.users, m, op)
    ensures MemDo(m, op).1 == SqlDo(plain, ids, db, op).1 <==> !AnswersDiffer(db.users, m, op)
  {
    hide Mirrors;
    if op.Create? || op.Categorise? {
      ParentStepMirrorsIff(plain, ids, m, db, op);
    } else if op.NewCategory? || op.RenameCategory? || op.DropCategory? {
      CategoryStepMirrorsIff(plain, ids, m, db, op);
    } else if OnFeeds(op) || op.DropFeed? || op.Toggle? {
      FeedStepMirrors(plain, ids, m, db, op);
    } else if op.Mark? || op.Star? || op.MarkAll? {
      ReaderStepMirrorsIff(plain, ids, m, db, op);
    } else {
      EntryStepMirrorsIff(plain, ids, m, db, op);
    }
  }

  lemma ParentStepMirrorsIff(plain: string -> string, ids: Ids, m: MemDb, db: Db, op: Op)
    requires Mirrors(plain, ids, m, db) && Rules(db) && (op.Create? || op.Categorise?)
    ensures Mirrors(plain, IdsDo(plain, ids, m, db, op), MemDo(m, op).0, SqlDo(plain, ids, db, op).0) <==> !TakesApart(db.users, m, op)
    ensures MemDo(m, op).1 == SqlDo(plain, ids, db, op).1 <==> !AnswersDiffer(db.users, m, op)
  {
    hide Mirrors;
    match op
    case Create(f) => CreateFeedMirrorsIff(plain, ids, m, db, f);
    case Categorise(u, feed, category) => SetCategoryMirrorsIff(plain, ids, m, db, u, feed, category);
  }

  lemma CategoryStepMirrorsIff(plain: string -> string, ids: Ids, m: MemDb, db: Db, op: Op)
    requires Mirrors(plain, ids, m, db) && Rules(db) && (op.NewCategory? || op.RenameCategory? || op.DropCategory?)
    ensures Mirrors(plain, IdsDo(plain, ids, m, db, op), MemDo(m, op).0, SqlDo(plain, ids, db, op).0) <==> !TakesApart(db.users, m, op)
    ensures MemDo(m, op).1 == SqlDo(plain, ids, db, op).1 <==> !AnswersDiffer(db.users, m, op)
  {
    hide Mirrors, MemVariantTaken;
    match op
    case NewCategory(u, title) => CreateCategoryMirrorsIff(plain, ids, m, db, u, title);
    case RenameCategory(u, c, title) => UpdateCategoryMirrorsIff(plain, ids, m, db, u, c, title);
    case DropCategory(u, c) => DeleteCategoryMirrors(plain, ids, m, db, u, c);
  }

  lemma FeedStepMirrors(plain: string -> string, ids: Ids, m: MemDb, db: Db, op: Op)
    requires Mirrors(plain, ids, m, db) && Rules(db) && (op.Update? || op.SetUrl? || op.Retitle? || op.DropFeed? || op.Toggle?)
    ensures Mirrors(plain, ids, MemDo(m, op).0, SqlDo(plain, ids, db, op).0)
    ensures MemDo(m, op).1 == SqlDo(plain, ids, db, op).1
  {
    hide Mirrors;
    match op
    case Update(u, feed, url, p) => UpdateFeedMirrors(plain, ids, m, db, u, feed, url, p);
    case SetUrl(u, feed, url, now) => SetFeedURLMirrors(plain, ids, m, db, u, feed, url, now);
    case Retitle(u, feed, title) => SetUserTitleMirrors(plain, ids, m, db, u, feed, title);
    case DropFeed(u, feed) => DeleteFeedMirrors(plain, ids, m, db, u, feed);
    case Toggle(u, feed, on, at) => ToggleMirrors(plain, ids, m, db, u, feed, on, at);
  }

  lemma ReaderStepMirrorsIff(plain: string -> string, ids: Ids, m: MemDb, db: Db, op: Op)
    requires Mirrors(plain, ids, m, db) && Rules(db) && (op.Mark? || op.Star? || op.MarkAll?)
    ensures Mirrors(plain, ids, MemDo(m, op).0, SqlDo(plain, ids, db, op).0) <==> !TakesApart(db.users, m, op)
  {
    hide Mirrors, MarkAllApart;
    match op
    case Mark(u, es, status, now) => SetStatusMirrors(plain, ids, m, db, u, Elements(es), status, now);
    case Star(u, es, starred) => SetStarredMirrors(plain, ids, m, db, u, Elements(es), starred);
    case MarkAll(u, sel, now) => MarkReadMirrorsIff(plain, ids, m, db, u, sel, now);
  }

  lemma EntryStepMirrorsIff(plain: string -> string, ids: Ids, m: MemDb, db: Db, op: Op)
    requires Mirrors(plain, ids, m, db) && Rules(db) && (op.Upsert? || op.DropEntry? || op.SaveArticle? || op.SetState?)
    ensures Mirrors(plain, IdsDo(plain, ids, m, db, op), MemDo(m, op).0, SqlDo(plain, ids, db, op).0) <==> !TakesApart(db.users, m, op)
    ensures MemDo(m, op).1 == SqlDo(plain, ids, db, op).1 <==> !AnswersDiffer(db.users, m, op)
  {
    hide Mirrors, UpsertApart, Stranger;
    match op
    case Upsert(feed, batch) => UpsertMirrorsIff(plain, ids, m, db, feed, batch);
    case DropEntry(u, entry) => DeleteEntryMirrors(plain, ids, m, db, u, entry);
    case _ => ExtractionStepMirrors(plain, ids, m, db, op);
  }

  lemma ExtractionStepMirrors(plain: string -> string, ids: Ids, m: MemDb, db: Db, op: Op)
    requires Mirrors(plain, ids, m, db) && (op.SaveArticle? || op.SetState?)
    ensures Mirrors(plain, ids, MemDo(m, op).0, SqlDo(plain, ids, db, op).0)
    ensures MemDo(m, op).1 == SqlDo(plain, ids, db, op).1 <==> !AnswersDiffer(db.users, m, op)
  {
    hide Mirrors;
    match op
    case SaveArticle(entry, content) =>
      SetContentMirrors(plain, ids, m, db, entry, content);
      EntryThere(plain, ids, m, db, entry);
    case SetState(entry, x) =>
      SetExtractMirrors(plain, ids, m, db, entry, x);
      EntryThere(plain, ids, m, db, entry);
  }

  lemma EntryThere(plain: string -> string, ids: Ids, m: MemDb, db: Db, i: Id)
    requires Mirrors(plain, ids, m, db)
    ensures i in m.entries <==> SqlEntry(ids, db, i) in db.entries
  {
    if i in ids.entries.to {
      assert RowMirrors(plain, ids, m, db, i);
    }
  }

  // ---- whole runs ----------------------------------------------------------

  datatype Both = Both(m: MemDb, db: Db, ids: Ids)

  function Nothing(users: set<Id>): Both {
    var none := Ren(map[], map[]);
    Both(MemDb(map[], map[], map[], {}, map[], 1), EmptyDb(users), Ids(none, none, none))
  }

  ghost function RunBoth(plain: string -> string, users: set<Id>, ops: seq<Op>): Both {
    if ops == [] then Nothing(users)
    else
      var was, op := RunBoth(plain, users, ops[..|ops| - 1]), ops[|ops| - 1];
      Both(MemDo(was.m, op).0, SqlDo(plain, was.ids, was.db, op).0, IdsDo(plain, was.ids, was.m, was.db, op))
  }

  ghost predicate InStep(plain: string -> string, b: Both) {
    Mirrors(plain, b.ids, b.m, b.db)
  }

  /** In step after every prefix of the run. */
  ghost predicate AlwaysInStep(plain: string -> string, users: set<Id>, ops: seq<Op>) {
    InStep(plain, RunBoth(plain, users, ops)) && (ops != [] ==> AlwaysInStep(plain, users, ops[..|ops| - 1]))
  }

  /** No operation of the run takes the two apart where it comes. */
  ghost predicate NeverApart(plain: string -> string, users: set<Id>, ops: seq<Op>) {
    ops != [] ==>
      && NeverApart(plain, users, ops[..|ops| - 1])
      && !TakesApart(users, RunBoth(plain, users, ops[..|ops| - 1]).m, ops[|ops| - 1])
  }

  lemma {:induction false} RunKeepsRules(plain: string -> string, users: set<Id>, ops: seq<Op>)
    ensures Rules(RunBoth(plain, users, ops).db) && RunBoth(plain, users, ops).db.users == users
  {
    if ops != [] {
      var was, op := RunBoth(plain, users, ops[..|ops| - 1]), ops[|ops| - 1];
      RunKeepsRules(plain, users, ops[..|ops| - 1]);
      SqlKeepsRules(plain, was.ids, was.db, op);
      SqlKeepsUsers(plain, was.ids, was.db, op);
    }
  }

  lemma NothingInStep(plain: string -> string, users: set<Id>)
    ensures InStep(plain, Nothing(users))
  {
  }

  lemma LastStep(plain: string -> string, users: set<Id>, ops: seq<Op>)
    requires ops != [] && InStep(plain, RunBoth(plain, users, ops[..|ops| - 1]))
    ensures InStep(plain, RunBoth(plain, users, ops)) <==> !TakesApart(users, RunBoth(plain, users, ops[..|ops| - 1]).m, ops[|ops| - 1])
  {
    var was := RunBoth(plain, users, ops[..|ops| - 1]);
    RunKeepsRules(plain, users, ops[..|ops| - 1]);
    StepMirrorsIff(plain, was.ids, was.m, was.db, ops[|ops| - 1]);
  }

  /** Main theorem. Exactly: from empty the two show the same after each operation of a
      run, up to ids and whole seconds, if and only if no operation of the run takes
      them apart. */
  lemma {:induction false} RunMirrorsIff(plain: string -> string, users: set<Id>, ops: seq<Op>)
    ensures AlwaysInStep(plain, users, ops) <==> NeverApart(plain, users, ops)
  {
    if ops == [] {
      NothingInStep(plain, users);
    } else {
      RunMirrorsIff(plain, users, ops[..|ops| - 1]);
      if AlwaysInStep(plain, users, ops[..|ops| - 1]) {
        LastStep(plain, users, ops);
      }
    }
  }

  /** And as long as they are in step, whatever operation comes next gets the same
      answer from both, unless it is one that gets two. */
  lemma RunAnswersIff(plain: string -> string, users: set<Id>, ops: seq<Op>, op: Op)
    requires InStep(plain, RunBoth(plain, users, ops))
    ensures var b := RunBoth(plain, users, ops);
            MemDo(b.m, op).1 == SqlDo(plain, b.ids, b.db, op).1 <==> !AnswersDiffer(users, b.m, op)
  {
    var b := RunBoth(plain, users, ops);
    RunKeepsRules(plain, users, ops);
    StepMirrorsIff(plain, b.ids, b.m, b.db, op);
  }

  // ---- runs with the batches that ingest makes -------------------------------

  /** A batch comes as ingest makes it: fresh items of the user of the feed. */
  predicate ComesIngested(m: MemDb, op: Op) {
    op.Upsert? && op.feed in m.feeds ==> Ingested(op.batch, m.feeds[op.feed].userId)
  }

  ghost predicate AllIngested(plain: string -> string, users: set<Id>, ops: seq<Op>) {
    ops != [] ==>
      && AllIngested(plain, users, ops[..|ops| - 1])
      && ComesIngested(RunBoth(plain, users, ops[..|ops| - 1]).m, ops[|ops| - 1])
  }

  /** Every entry is of the user of its feed. */
  predicate Belongs(m: MemDb) {
    forall i | i in m.entries :: m.entries[i].feedId in m.feeds && m.entries[i].userId == m.feeds[m.entries[i].feedId].userId
  }

  lemma {:induction false} UpsertAllBelongs(m: MemDb, feedId: Id, full: bool, batch: seq<Staged>)
    requires Belongs(m) && feedId in m.feeds && Ingested(batch, m.feeds[feedId].userId)
    ensures Belongs(MemUpsertAll(m, feedId, full, batch)) && MemUpsertAll(m, feedId, full, batch).feeds == m.feeds
  {
    if batch != [] {
      assert batch[|batch| - 1] in batch;
      UpsertAllBelongs(m, feedId, full, batch[..|batch| - 1]);
    }
  }

  lemma FeedOpBelongs(m: MemDb, op: Op)
    requires MemSound(m) && Belongs(m) && (OnFeeds(op) || op.DropFeed? || op.Toggle? || op.DropCategory?)
    ensures Belongs(MemDo(m, op).0)
  {
  }

  lemma StepBelongs(m: MemDb, op: Op)
    requires MemSound(m) && Belongs(m) && ComesIngested(m, op)
    ensures Belongs(MemDo(m, op).0)
  {
    if OnFeeds(op) || op.DropFeed? || op.Toggle? || op.DropCategory? {
      FeedOpBelongs(m, op);
    } else if op.Mark? || op.Star? || op.MarkAll? {
      OnlyReadersSet(m, op);
    } else if op.Upsert? && op.feed in m.feeds {
      UpsertAllBelongs(m, op.feed, m.feeds[op.feed].fullContent, op.batch);
    }
  }

  lemma {:induction false} RunBelongs(plain: string -> string, users: set<Id>, ops: seq<Op>)
    requires AllIngested(plain, users, ops)
    ensures Belongs(RunBoth(plain, users, ops).m) && MemSound(RunBoth(plain, users, ops).m)
  {
    if ops != [] {
      RunBelongs(plain, users, ops[..|ops| - 1]);
      StepBelongs(RunBoth(plain, users, ops[..|ops| - 1]).m, ops[|ops| - 1]);
      MemDoSound(RunBoth(plain, users, ops[..|ops| - 1]).m, ops[|ops| - 1]);
    }
  }

  /** In runs whose batches come as ingest makes them, neither a batch nor a selection
      ever takes the two apart, nor gets a batch two answers. */
  lemma IngestStaysInStep(plain: string -> string, users: set<Id>, ops: seq<Op>, op: Op)
    requires InStep(plain, RunBoth(plain, users, ops)) && AllIngested(plain, users, ops + [op]) && (op.Upsert? || op.MarkAll?)
    ensures InStep(plain, RunBoth(plain, users, ops + [op]))
    ensures var b := RunBoth(plain, users, ops); MemDo(b.m, op).1 == SqlDo(plain, b.ids, b.db, op).1
  {
    hide Mirrors;
    var b, all := RunBoth(plain, users, ops), ops + [op];
    assert all[..|all| - 1] == ops && all[|all| - 1] == op;
    RunBelongs(plain, users, ops);
    RunKeepsRules(plain, users, ops);
    LastStep(plain, users, all);
    RunAnswersIff(plain, users, ops, op);
    if op.Upsert? && op.feed in b.m.feeds {
      var u := b.m.feeds[op.feed].userId;
      FeedThere(plain, b.ids, b.m, b.db, op.feed);
      assert HasParents(b.db, u, b.db.feeds[b.ids.feeds.to[op.feed]].categoryId);
      IngestedTogether(users, b.m, op.feed, op.batch);
    }
  }

  lemma IngestedTogether(users: set<Id>, m: MemDb, feed: Id, batch: seq<Staged>)
    requires Belongs(m) && feed in m.feeds && m.feeds[feed].userId in users && Ingested(batch, m.feeds[feed].userId)
    ensures !UpsertApart(users, m, feed, batch) && !Stranger(users, m, feed, m.feeds[feed].fullContent, batch)
  {
    IngestedIsCareful(m, feed, m.feeds[feed].fullContent, batch, m.feeds[feed].userId);
  }

  // ---- the class -----------------------------------------------------------

  lemma FeedOpSound(m: MemDb, op: Op)
    requires MemSound(m) && OnFeeds(op)
    ensures MemSound(MemDo(m, op).0)
  {
  }

  lemma ReaderOpSound(m: MemDb, op: Op)
    requires MemSound(m) && (op.Mark? || op.Star? || op.MarkAll?)
    ensures MemSound(MemDo(m, op).0)
  {
    OnlyReadersSet(m, op);
    var rows := MemDo(m, op).0.entries;
    assert forall i | i in rows :: rows[i] == m.entries[i].(reader := rows[i].reader);
  }

  lemma OnlyReadersSet(m: MemDb, op: Op)
    requires op.Mark? || op.Star? || op.MarkAll?
    ensures var m' := MemDo(m, op).0;
            && m' == m.(entries := m'.entries) && m'.entries.Keys == m.entries.Keys
            && forall i | i in m.entries :: m'.entries[i] == m.entries[i].(reader := m'.entries[i].reader)
  {
  }

  lemma MemDoSound(m: MemDb, op: Op)
    requires MemSound(m)
    ensures MemSound(MemDo(m, op).0)
  {
    if OnFeeds(op) {
      FeedOpSound(m, op);
    } else if op.Mark? || op.Star? || op.MarkAll? {
      ReaderOpSound(m, op);
    } else if op.Toggle? {
      MemToggleSound(m, op.u, op.feed, op.on, op.at);
    } else if op.Upsert? && op.feed in m.feeds {
      MemUpsertAllSound(m, op.feed, m.feeds[op.feed].fullContent, op.batch);
    }
  }

  method PerformOnFeeds(s: MemStore, op: Op) returns (outcome: Outcome)
    requires OnFeeds(op) || op.DropFeed? || op.Toggle? || op.DropCategory?
    modifies s
    ensures (s.Contents(), outcome) == MemDo(old(s.Contents()), op)
  {
    outcome := Ok;
    match op
    case Create(f) => var _, o := s.CreateFeed(f); outcome := o;
    case Update(u, feed, url, p) => s.UpdateFeed(u, feed, url, p);
    case SetUrl(u, feed, url, now) => outcome := s.SetFeedURL(u, feed, url, now);
    case Retitle(u, feed, title) => outcome := s.SetFeedUserTitle(u, feed, title);
    case Categorise(u, feed, category) => outcome := s.SetFeedCategory(u, feed, category);
    case DropFeed(u, feed) => outcome := s.DeleteFeed(u, feed);
    case Toggle(u, feed, on, at) => outcome := s.SetFeedFullContent(u, feed, on, at);
    case NewCategory(u, title) => var _, o := s.CreateCategory(u, title); outcome := o;
    case RenameCategory(u, c, title) => outcome := s.UpdateCategory(u, c, title);
    case DropCategory(u, c) => outcome := s.DeleteCategory(u, c);
  }

  method PerformOnEntries(s: MemStore, op: Op) returns (outcome: Outcome)
    requires MemSound(s.Contents()) && !(OnFeeds(op) || op.DropFeed? || op.Toggle? || op.DropCategory?)
    modifies s
    ensures (s.Contents(), outcome) == MemDo(old(s.Contents()), op)
  {
    outcome := Ok;
    match op
    case Upsert(feed, batch) => var _ := s.UpsertEntries(feed, batch);
    case DropEntry(u, entry) => outcome := s.DeleteEntry(u, entry);
    case Mark(u, es, status, now) => s.SetStatus(u, es, status, now);
    case Star(u, es, starred) => s.SetStarred(u, es, starred);
    case MarkAll(u, sel, now) => s.MarkReadByFilter(u, sel, now);
    case SaveArticle(entry, content) => outcome := s.SetEntryContent(entry, content);
    case SetState(entry, x) => outcome := s.UpdateExtractState(entry, x);
  }

  /** The class itself, from new, is the in-memory side of the run. */
  method Drive(plain: string -> string, users: set<Id>, ops: seq<Op>) returns (s: MemStore)
    ensures fresh(s) && s.Contents() == RunBoth(plain, users, ops).m && MemSound(s.Contents())
  {
    s := new MemStore();
    for k := 0 to |ops|
      invariant s.Contents() == RunBoth(plain, users, ops[..k]).m && MemSound(s.Contents()) && fresh(s)
    {
      assert ops[..k + 1][..k] == ops[..k];
      MemDoSound(s.Contents(), ops[k]);
      var op := ops[k];
      if OnFeeds(op) || op.DropFeed? || op.Toggle? || op.DropCategory? {
        var _ := PerformOnFeeds(s, op);
      } else {
        var _ := PerformOnEntries(s, op);
      }
    }
    assert ops[..|ops|] == ops;
  }

  // ---- witnesses -----------------------------------------------------------

  /** User 1 subscribes to a feed, and one item of it is ingested. */
  const SUBSCRIBED := Create(NewFeed(1, "a", "", None, false, 0, 0))
  const INGESTED := Upsert(1, [Item(1, "h")])

  function Item(u: Id, hash: string): Staged {
    Staged(NewEntry(u, "g", Meta("", "", "", "", "", 0, hash), "", 0), Reader(Unread, false, None), 0, "")
  }

  lemma FirstStep(plain: string -> string, users: set<Id>, op: Op)
    ensures var b := Nothing(users);
            RunBoth(plain, users, [op]) == Both(MemDo(b.m, op).0, SqlDo(plain, b.ids, b.db, op).0, IdsDo(plain, b.ids, b.m, b.db, op))
  {
    assert [op][..0] == [];
  }

  /** One subscription with a title of the user's own is enough. */
  lemma UserTitleTakesApart(plain: string -> string, users: set<Id>, f: Feed)
    requires f.userTitle != ""
    ensures !InStep(plain, RunBoth(plain, users, [Create(f)]))
  {
    assert [Create(f)][..0] == [];
    NothingInStep(plain, users);
    LastStep(plain, users, [Create(f)]);
  }

  /** So is one under a category that does not exist, which the SQL refuses. */
  lemma MissingCategoryTakesApart(plain: string -> string, users: set<Id>, f: Feed)
    requires f.categoryId.Some?
    ensures !InStep(plain, RunBoth(plain, users, [Create(f)]))
    ensures MemDo(Nothing(users).m, Create(f)).1 == Ok && SqlDo(plain, Nothing(users).ids, Nothing(users).db, Create(f)).1 == Conflict
  {
    assert [Create(f)][..0] == [];
    NothingInStep(plain, users);
    LastStep(plain, users, [Create(f)]);
  }

  /** Two titles that differ in case alone are enough: the second is a conflict in the SQL
      alone. */
  lemma CaseVariantTakesApart(plain: string -> string, users: set<Id>, u: Id, a: string, b: string)
    requires u in users && a != b && Fold(a) == Fold(b)
    ensures var was := RunBoth(plain, users, [NewCategory(u, a)]); var op := NewCategory(u, b);
            && InStep(plain, was) && !InStep(plain, RunBoth(plain, users, [NewCategory(u, a), op]))
            && MemDo(was.m, op).1 == Ok && SqlDo(plain, was.ids, was.db, op).1 == Conflict
  {
    hide Mirrors;
    var ops, op := [NewCategory(u, a)], NewCategory(u, b);
    assert ops[..0] == [] && [NewCategory(u, a), op][..1] == ops;
    NothingInStep(plain, users);
    LastStep(plain, users, ops);
    FirstStep(plain, users, ops[0]);
    var was := RunBoth(plain, users, ops);
    assert was.m.categories == map[1 := Category(u, a)] && was.m.nextID == 2;
    assert SameTitle(was.m.categories[1], u, b);
    LastStep(plain, users, [NewCategory(u, a), op]);
    RunAnswersIff(plain, users, ops, op);
  }

  lemma TwoCategories(plain: string -> string, users: set<Id>, u: Id, a: string, c: string)
    requires u in users && Fold(a) != Fold(c)
    ensures var was := RunBoth(plain, users, [NewCategory(u, a), NewCategory(u, c)]);
            InStep(plain, was) && was.m.categories == map[1 := Category(u, a), 2 := Category(u, c)]
  {
    hide Mirrors, SqlDo, IdsDo;
    var one, two := [NewCategory(u, a)], [NewCategory(u, a), NewCategory(u, c)];
    assert one[..0] == [] && two[..1] == one;
    NothingInStep(plain, users);
    FirstStep(plain, users, one[0]);
    LastStep(plain, users, one);
    assert RunBoth(plain, users, one).m.categories == map[1 := Category(u, a)];
    LastStep(plain, users, two);
  }

  /** So is a category's new title that differs from another in case alone. */
  lemma RenameTakesApart(plain: string -> string, users: set<Id>, u: Id, a: string, b: string, c: string)
    requires u in users && a != b && Fold(a) == Fold(b) != Fold(c)
    ensures var was := RunBoth(plain, users, [NewCategory(u, a), NewCategory(u, c)]); var op := RenameCategory(u, 2, b);
            && InStep(plain, was) && !InStep(plain, RunBoth(plain, users, [NewCategory(u, a), NewCategory(u, c), op]))
            && MemDo(was.m, op).1 == Ok && SqlDo(plain, was.ids, was.db, op).1 == Conflict
  {
    hide Mirrors, RunBoth, IdsDo;
    var two, op := [NewCategory(u, a), NewCategory(u, c)], RenameCategory(u, 2, b);
    var was := RunBoth(plain, users, two);
    TwoCategories(plain, users, u, a, c);
    assert SameTitle(was.m.categories[1], u, b) && RefusedRename(was.m, u, 2, b);
    assert [NewCategory(u, a), NewCategory(u, c), op][..2] == two;
    LastStep(plain, users, [NewCategory(u, a), NewCategory(u, c), op]);
    RunKeepsRules(plain, users, two);
    UpdateCategoryMirrorsIff(plain, was.ids, was.m, was.db, u, 2, b);
  }

  /** Such as these. */
  lemma NewsTwice(plain: string -> string, users: set<Id>)
    requires 1 in users
    ensures !AlwaysInStep(plain, users, [NewCategory(1, "News"), NewCategory(1, "news")])
  {
    assert Fold("News") == Fold("news");
    assert "News"[0] != "news"[0];
    CaseVariantTakesApart(plain, users, 1, "News", "news");
  }

  lemma AfterSubscribing(plain: string -> string, users: set<Id>)
    ensures RunBoth(plain, users, [SUBSCRIBED]).m == MemDb(map[], map[1 := SUBSCRIBED.f], map[], {}, map[], 2)
  {
    hide SqlDo, IdsDo;
    FirstStep(plain, users, SUBSCRIBED);
  }

  lemma AfterIngesting(plain: string -> string, users: set<Id>)
    ensures var m := RunBoth(plain, users, [SUBSCRIBED, INGESTED]).m;
            1 in m.feeds && MemSound(m) && CarelessItem(m, 1, Item(2, "other"))
  {
    hide SqlDo, IdsDo;
    AfterSubscribing(plain, users);
    assert [SUBSCRIBED, INGESTED][..1] == [SUBSCRIBED];
    OneIngested(RunBoth(plain, users, [SUBSCRIBED]).m);
  }

  lemma OneIngested(was: MemDb)
    requires was == MemDb(map[], map[1 := SUBSCRIBED.f], map[], {}, map[], 2)
    ensures var m := MemDo(was, INGESTED).0; 1 in m.feeds && MemSound(m) && CarelessItem(m, 1, Item(2, "other"))
  {
    var m, x := MemDo(was, INGESTED).0, Item(1, "h");
    assert [x][..0] == [];
    assert MemUpsertAll(was, 1, false, [x]) == MemUpsertOne(was, 1, false, x);
    assert INGESTED.batch == [x] && FindMem(was.entries, 1, "g").None?;
    assert m == MemInsert(was, 1, false, x);
    assert IsMemRow(m.entries, 2, 1, "g");
    assert FindMem(m.entries, 1, "g") == Some(2);
    assert "h"[0] != "other"[0];
  }

  lemma SubscribedAndIngestedInStep(plain: string -> string, users: set<Id>)
    requires 1 in users
    ensures InStep(plain, RunBoth(plain, users, [SUBSCRIBED, INGESTED]))
  {
    hide Mirrors, SqlDo, IdsDo, UpsertApart;
    assert [SUBSCRIBED, INGESTED][..1] == [SUBSCRIBED] && [SUBSCRIBED][..0] == [] && [SUBSCRIBED] + [INGESTED] == [SUBSCRIBED, INGESTED];
    NothingInStep(plain, users);
    LastStep(plain, users, [SUBSCRIBED]);
    AfterSubscribing(plain, users);
    assert AllIngested(plain, users, []) && AllIngested(plain, users, [SUBSCRIBED]);
    IngestStaysInStep(plain, users, [SUBSCRIBED], INGESTED);
  }

  /** From two empty stores, a subscription and an ingested item on, an item of
      another user with a new hash takes the two apart. */
  lemma ForeignHitHappens(plain: string -> string, users: set<Id>)
    requires 1 in users
    ensures InStep(plain, RunBoth(plain, users, [SUBSCRIBED, INGESTED]))
    ensures !InStep(plain, RunBoth(plain, users, [SUBSCRIBED, INGESTED, Upsert(1, [Item(2, "other")])]))
  {
    hide Mirrors, UpsertApart, RunBoth, MemSound, CarelessItem;
    var ops, op := [SUBSCRIBED, INGESTED], Upsert(1, [Item(2, "other")]);
    SubscribedAndIngestedInStep(plain, users);
    AfterIngesting(plain, users);
    assert [SUBSCRIBED, INGESTED, op][..2] == ops;
    DistinctApartIff(users, RunBoth(plain, users, ops).m, 1, op.batch);
    assert Item(2, "other") in op.batch;
    LastStep(plain, users, [SUBSCRIBED, INGESTED, op]);
  }

  // ---- schedules left behind -----------------------------------------------

  /** A schedule without an entry. */
  predicate LeftBehind(m: MemDb, i: Id) {
    i in m.nextExtract && i !in m.entries
  }

  lemma {:induction false} UpsertAllLeavesBehind(m: MemDb, feedId: Id, full: bool, batch: seq<Staged>, i: Id)
    requires LeftBehind(m, i) && i < m.nextID
    ensures LeftBehind(MemUpsertAll(m, feedId, full, batch), i) && i < MemUpsertAll(m, feedId, full, batch).nextID
  {
    if batch != [] {
      UpsertAllLeavesBehind(m, feedId, full, batch[..|batch| - 1], i);
    }
  }

  lemma StepLeavesBehind(m: MemDb, op: Op, i: Id)
    requires LeftBehind(m, i) && i < m.nextID
    ensures LeftBehind(MemDo(m, op).0, i) && i < MemDo(m, op).0.nextID
  {
    if op.Upsert? && op.feed in m.feeds {
      UpsertAllLeavesBehind(m, op.feed, m.feeds[op.feed].fullContent, op.batch, i);
    }
  }

  ghost function MemRun(m: MemDb, ops: seq<Op>): MemDb {
    if ops == [] then m else MemDo(MemRun(m, ops[..|ops| - 1]), ops[|ops| - 1]).0
  }

  /** The deletion of a scheduled entry leaves its schedule in memory, in every
      continuation: no operation ever takes it out again. */
  lemma {:induction false} DeletedScheduleStays(m: MemDb, u: Id, i: Id, ops: seq<Op>)
    requires MemSound(m) && i in m.entries && m.entries[i].userId == u && i in m.nextExtract
    ensures var end := MemRun(MemDeleteEntry(m, u, i).0, ops); LeftBehind(end, i) && i < end.nextID
  {
    if ops != [] {
      DeletedScheduleStays(m, u, i, ops[..|ops| - 1]);
      StepLeavesBehind(MemRun(MemDeleteEntry(m, u, i).0, ops[..|ops| - 1]), ops[|ops| - 1], i);
    }
  }
}
