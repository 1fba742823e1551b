/** The one-time backfill of the plain-text columns and the full-text index, which a
    crash may cut short after any commit and a later boot starts again. */
module Backfill {
  import opened Rows
  import opened Sql
  import opened Invariants
  import opened System
  import opened Safety

  const BATCH: nat := 500

  function Project(plain: string -> string, e: Entry): Entry {
    e.(contentText := plain(e.content), summaryText := plain(e.meta.summary))
  }

  /** UPDATE entries SET content_text, summary_text WHERE id: trigger entries_au fires
      for it where it exists. */
  function ProjectRow(plain: string -> string, db: Db, id: Id): Db
    requires id in db.entries
  {
    var e := Project(plain, db.entries[id]);
    db.(entries := db.entries[id := e], fts := FtsUpdate(db, id, e))
  }

  /** The database that one undisturbed backfill makes. */
  function Backfilled(plain: string -> string, db: Db): Db {
    var rows := map i | i in db.entries :: Project(plain, db.entries[i]);
    db.(entries := rows, fts := FtsRebuild(rows), updateTrigger := true, backfilled := true)
  }

  /** A trigger that exists finds in the index what it is about to delete. */
  ghost predicate TriggerSafe(db: Db) {
    db.updateTrigger ==> db.fts == FtsRebuild(db.entries)
  }

  /** Row ids start at 1; the keyset loop starts after 0. */
  ghost predicate PositiveIds(db: Db) {
    forall i | i in db.entries :: 0 < i
  }

  /** What a backfill cut short leaves: some rows projected, nothing else touched, and
      the flag not set. */
  ghost predicate Partway(plain: string -> string, was: Db, now: Db) {
    && !now.backfilled && TriggerSafe(now)
    && now == was.(entries := now.entries, fts := now.fts, updateTrigger := now.updateTrigger)
    && now.entries.Keys == was.entries.Keys
    && forall i | i in was.entries :: now.entries[i] in {was.entries[i], Project(plain, was.entries[i])}
  }

  /** Nothing but the two text columns of entries, the index, its trigger and the flag. */
  ghost predicate OnlyTexts(was: Db, now: Db) {
    && now == was.(entries := now.entries, fts := now.fts, updateTrigger := now.updateTrigger, backfilled := now.backfilled)
    && now.entries.Keys == was.entries.Keys
    && forall i | i in was.entries ::
         now.entries[i] == was.entries[i].(contentText := now.entries[i].contentText, summaryText := now.entries[i].summaryText)
  }

  /** A finished backfill changes the two columns of every row to what they should be,
      and indexes title and both; one cut short changes them for some rows. */
  ghost predicate Textual(plain: string -> string, was: Db, now: Db) {
    && OnlyTexts(was, now)
    && (forall i | i in was.entries :: now.entries[i] == was.entries[i] || Projected(plain, now.entries[i]))
    && (now.backfilled && !was.backfilled ==>
          && (forall i | i in now.entries :: Projected(plain, now.entries[i]))
          && now.updateTrigger && !now.fts.corrupt && now.fts.docs.Keys == now.entries.Keys
          && forall i | i in now.entries :: now.fts.docs[i] == Doc(now.entries[i].meta.title, now.entries[i].contentText, now.entries[i].summaryText))
  }

  lemma BackfilledIsTextual(plain: string -> string, was: Db)
    requires !was.backfilled
    ensures Textual(plain, was, Backfilled(plain, was))
  {
  }

  lemma PartwayIsTextual(plain: string -> string, was: Db, now: Db)
    requires Partway(plain, was, now) && !was.backfilled
    ensures Textual(plain, was, now)
  {
    forall i | i in was.entries
      ensures now.entries[i] == was.entries[i].(contentText := now.entries[i].contentText, summaryText := now.entries[i].summaryText)
    {
      assert now.entries[i] in {was.entries[i], Project(plain, was.entries[i])};
    }
  }

  lemma ProjectRowPartway(plain: string -> string, was: Db, now: Db, id: Id)
    requires Partway(plain, was, now) && id in now.entries
    ensures Partway(plain, was, ProjectRow(plain, now, id))
  {
    if now.updateTrigger {
      FtsUpdateExact(now, id, Project(plain, now.entries[id]));
    }
  }

  /** Starting again after a crash ends in the same database as never crashing. */
  lemma RestartIsTransparent(plain: string -> string, was: Db, now: Db)
    requires Partway(plain, was, now) && !was.backfilled
    ensures Backfilled(plain, now) == Backfilled(plain, was)
  {
    SameMap(Backfilled(plain, now).entries, Backfilled(plain, was).entries);
  }

  // ---- the query -----------------------------------------------------------

  ghost predicate Ascending(s: seq<Id>) {
    forall j, k | 0 <= j < k < |s| :: s[j] < s[k]
  }

  /** SELECT id WHERE id > after ORDER BY id LIMIT 500. */
  ghost predicate IsBatch(db: Db, after: Id, rows: seq<Id>) {
    && Ascending(rows) && |rows| <= BATCH
    && (forall i | i in rows :: i in db.entries && after < i)
    && (forall i | i in db.entries && after < i && i !in rows :: |rows| == BATCH && rows[|rows| - 1] < i)
  }

  method LeastAbove(db: Db, after: Id) returns (least: Option<Id>)
    ensures least.None? ==> forall i | i in db.entries :: i <= after
    ensures least.Some? ==> least.value in db.entries && after < least.value
                            && forall i | i in db.entries && after < i :: least.value <= i
  {
    least := None;
    var rest := db.entries.Keys;
    while exists i :: i in rest
      invariant rest <= db.entries.Keys
      invariant least.None? ==> forall i | i in db.entries && i !in rest :: i <= after
      invariant least.Some? ==> least.value in db.entries && after < least.value
                                && forall i | i in db.entries && i !in rest && after < i :: least.value <= i
      decreases rest
    {
      var i :| i in rest;
      rest := rest - {i};
      if after < i && (least.None? || i < least.value) {
        least := Some(i);
      }
    }
  }

  method SelectBatch(db: Db, after: Id) returns (rows: seq<Id>)
    ensures IsBatch(db, after, rows)
  {
    rows := [];
    var least := LeastAbove(db, after);
    while least.Some? && |rows| < BATCH
      invariant Ascending(rows) && |rows| <= BATCH
      invariant forall i | i in rows :: i in db.entries && after < i
      invariant least.None? ==> forall i | i in db.entries && after < i :: i in rows
      invariant least.Some? ==> least.value in db.entries && after < least.value
                                && (forall i | i in rows :: i < least.value)
                                && (forall i | i in db.entries && after < i && i !in rows :: least.value <= i)
      decreases BATCH - |rows|
    {
      var last := least.value;
      assert forall k | 0 <= k < |rows| :: rows[k] in rows;
      rows := rows + [last];
      least := LeastAbove(db, last);
    }
    assert rows != [] ==> rows[|rows| - 1] in rows;
  }

  // ---- the backfill --------------------------------------------------------

  function Above(db: Db, after: Id): set<Id> {
    set i | i in db.entries && after < i
  }

  /** The rows up to a cursor, each once and in order. */
  ghost predicate UpTo(db: Db, lastID: Id, updated: seq<Id>) {
    Ascending(updated) && (forall i | i in updated :: i in db.entries) && forall i | i in db.entries :: i in updated <==> i <= lastID
  }

  lemma UpToBatch(db: Db, lastID: Id, updated: seq<Id>, rows: seq<Id>)
    requires UpTo(db, lastID, updated) && IsBatch(db, lastID, rows) && rows != []
    ensures var last := rows[|rows| - 1];
            && UpTo(db, last, updated + rows)
            && (forall i | i in db.entries :: i in rows <==> lastID < i <= last)
            && last in Above(db, lastID) && Above(db, last) < Above(db, lastID)
  {
    var last := rows[|rows| - 1];
    assert last in rows;
    forall i | i in db.entries ensures i in rows <==> lastID < i <= last {
      if i in rows {
        var k :| 0 <= k < |rows| && rows[k] == i;
      }
    }
    forall j, k | 0 <= j < k < |updated + rows| ensures (updated + rows)[j] < (updated + rows)[k] {
      if j < |updated| <= k {
        assert updated[j] in updated && rows[k - |updated|] in rows;
      }
    }
  }

  class Database {
    var db: Db

    constructor (db: Db)
      ensures this.db == db
    {
      this.db := db;
    }

    /** One batch's transaction. */
    method UpdateBatch(plain: string -> string, rows: seq<Id>, ghost was: Db)
      requires Ascending(rows) && Partway(plain, was, db) && forall i | i in rows :: i in db.entries
      modifies this
      ensures Partway(plain, was, db) && db.entries.Keys == old(db).entries.Keys
      ensures forall i | i in old(db).entries ::
                db.entries[i] == if i in rows then Project(plain, old(db).entries[i]) else old(db).entries[i]
      ensures forall i | i in old(db).entries ::
                && db.entries[i] == old(db).entries[i].(contentText := db.entries[i].contentText, summaryText := db.entries[i].summaryText)
                && (if i in rows then Projected(plain, db.entries[i]) else db.entries[i] == old(db).entries[i])
    {
      hide Partway, TriggerSafe, FtsUpdate;
      ghost var before := db;
      for k := 0 to |rows|
        invariant Partway(plain, was, db) && db.entries.Keys == before.entries.Keys
        invariant forall i | i in before.entries ::
                    db.entries[i] == if i in rows[..k] then Project(plain, before.entries[i]) else before.entries[i]
      {
        ProjectRowPartway(plain, was, db, rows[k]);
        db := ProjectRow(plain, db, rows[k]);
      }
      assert rows[..|rows|] == rows;
    }

    /** The keyset loop. `commits` is how many commits happen before the crash;
        `updated` lists the rows whose update was committed, in order. */
    method ProjectRows(plain: string -> string, commits: nat, ghost was: Db)
      returns (left: nat, crashed: bool, ghost updated: seq<Id>)
      requires Partway(plain, was, db) && PositiveIds(db)
      modifies this
      ensures Partway(plain, was, db) && db.entries.Keys == old(db).entries.Keys
      ensures Ascending(updated) && forall i | i in updated :: i in db.entries && db.entries[i] == Project(plain, old(db).entries[i])
      ensures !crashed ==> forall i | i in db.entries :: i in updated
    {
      hide Partway, TriggerSafe;
      left, crashed, updated := commits, false, [];
      ghost var before := db;
      var lastID := 0;
      var rows := SelectBatch(db, lastID);
      while rows != []
        invariant Partway(plain, was, db) && db.entries.Keys == before.entries.Keys
        invariant IsBatch(db, lastID, rows)
        invariant UpTo(db, lastID, updated)
        invariant forall i | i in before.entries ::
                    db.entries[i] == if i <= lastID then Project(plain, before.entries[i]) else before.entries[i]
        decreases Above(db, lastID)
      {
        if left == 0 {
          crashed := true;
          return;
        }
        left := left - 1;
        UpToBatch(db, lastID, updated, rows);
        UpdateBatch(plain, rows, was);
        updated := updated + rows;
        lastID := rows[|rows| - 1];
        rows := SelectBatch(db, lastID);
      }
    }

    /** backfillSearchText. Any crash leaves the flag unset and the rows partway; a run
        to the end updates each row exactly once, in id order, and makes the database
        that Backfilled describes. */
    method BackfillSearchText(plain: string -> string, commits: nat) returns (ok: bool, ghost updated: seq<Id>)
      requires PositiveIds(db) && TriggerSafe(db)
      modifies this
      ensures old(db).backfilled ==> ok && db == old(db) && updated == []
      ensures !old(db).backfilled && ok ==> db == Backfilled(plain, old(db))
      ensures !old(db).backfilled && ok ==> Ascending(updated) && forall i :: i in updated <==> i in old(db).entries
      ensures !ok ==> Partway(plain, old(db), db)
      ensures Booted(plain, old(db), db) && Textual(plain, old(db), db)
    {
      updated := [];
      if db.backfilled {
        return true, updated;
      }
      ghost var was := db;
      var left, crashed;
      left, crashed, updated := ProjectRows(plain, commits, was);
      ok := false;
      PartwayIsTextual(plain, was, db);
      if crashed || left == 0 { return; }
      db := db.(fts := FtsRebuild(db.entries));
      if left == 1 { return; }
      db := db.(updateTrigger := true);
      if left == 2 { return; }
      db := db.(backfilled := true);
      SameMap(db.entries, Backfilled(plain, was).entries);
      BackfilledIsTextual(plain, was);
      ok := true;
    }

    /** Boot after boot, each crashing where it will: once one gets to the end, the
        database is the one that a single undisturbed backfill makes. */
    method Boots(plain: string -> string, commits: seq<nat>) returns (ok: bool)
      requires PositiveIds(db) && TriggerSafe(db) && !db.backfilled
      modifies this
      ensures ok == db.backfilled
      ensures if ok then db == Backfilled(plain, old(db)) else Partway(plain, old(db), db)
      ensures Textual(plain, old(db), db)
    {
      ghost var was := db;
      ok := false;
      assert forall i | i in db.entries :: was.entries[i] == db.entries[i];
      for k := 0 to |commits|
        invariant ok == db.backfilled && PositiveIds(db) && TriggerSafe(db)
        invariant if ok then db == Backfilled(plain, was) else Partway(plain, was, db)
      {
        ghost var before := db;
        if !ok { RestartIsTransparent(plain, was, before); }
        ghost var updated;
        ok, updated := BackfillSearchText(plain, commits[k]);
        if !ok { PartwayTrans(plain, was, before, db); }
      }
      if ok { BackfilledIsTextual(plain, was); } else { PartwayIsTextual(plain, was, db); }
    }
  }

  lemma PartwayTrans(plain: string -> string, a: Db, b: Db, c: Db)
    requires Partway(plain, a, b) && Partway(plain, b, c)
    ensures Partway(plain, a, c)
  {
    forall i | i in a.entries ensures c.entries[i] in {a.entries[i], Project(plain, a.entries[i])} {
      assert i in b.entries;
    }
  }

  // ---- any history of boots and use ----------------------------------------

  /** What backfillSearchText may do to a database, crash or not. */
  ghost predicate Booted(plain: string -> string, was: Db, now: Db) {
    if was.backfilled then now == was else now == Backfilled(plain, was) || Partway(plain, was, now)
  }

  /** A boot of a history, crashed or not, leaves all but the texts and the index alone. */
  lemma BootIsTextual(plain: string -> string, was: Db, now: Db)
    requires Booted(plain, was, now)
    ensures Textual(plain, was, now)
  {
    if !was.backfilled {
      if now == Backfilled(plain, was) {
        BackfilledIsTextual(plain, was);
      } else {
        PartwayIsTextual(plain, was, now);
      }
    }
  }

  /** The reader at work: any run of the shared system, by actors that read the
      database after the boot. */
  ghost predicate Used(cfg: Config, was: Db, now: Db, evs: seq<Event>) {
    now == Run(cfg, System(was, map[], map[], map[], {}, map[]), evs).db
  }

  /** A boot, or use of a database whose backfill is done: an unfinished backfill is an
      error that keeps the reader from starting. */
  ghost predicate Goes(cfg: Config, was: Db, now: Db) {
    Booted(cfg.plain, was, now) || (was.backfilled && exists evs :: Used(cfg, was, now, evs))
  }

  /** What the migrations leave of the invariants: all but the projection and the
      index, whose update trigger they drop. */
  ghost predicate Migrated(max: nat, db: Db) {
    && References(db) && UniqueGuids(db) && UniqueUrls(db) && UniqueTitles(db) && NoneResurrected(db)
    && FullContentQueued(db) && ExtractionsSound(db, max)
    && TriggerSafe(db) && PositiveIds(db)
  }

  lemma BackfilledIsSound(cfg: Config, db: Db)
    requires Migrated(cfg.max, db)
    ensures Sound(cfg.plain, cfg.max, Backfilled(cfg.plain, db))
  {
    var rows := Backfilled(cfg.plain, db).entries;
    assert forall i | i in rows :: rows[i] == Project(cfg.plain, db.entries[i]);
  }

  lemma PartwayIsMigrated(cfg: Config, was: Db, now: Db)
    requires Migrated(cfg.max, was) && Partway(cfg.plain, was, now)
    ensures Migrated(cfg.max, now)
  {
    assert forall i | i in now.entries ::
        now.entries[i] == was.entries[i].(contentText := now.entries[i].contentText, summaryText := now.entries[i].summaryText);
  }

  lemma UseKeepsSound(cfg: Config, was: Db, now: Db, evs: seq<Event>)
    requires GoodConfig(cfg) && Sound(cfg.plain, cfg.max, was) && Used(cfg, was, now, evs)
    ensures Sound(cfg.plain, cfg.max, now)
  {
    RunKeepsSound(cfg, System(was, map[], map[], map[], {}, map[]), evs);
  }

  lemma {:induction false} RunKeepsFlag(cfg: Config, s: System, evs: seq<Event>)
    ensures Run(cfg, s, evs).db.backfilled == s.db.backfilled
  {
    if evs != [] {
      var mid := Run(cfg, s, evs[..|evs| - 1]);
      RunKeepsFlag(cfg, s, evs[..|evs| - 1]);
      StepKeepsFlag(cfg, mid, evs[|evs| - 1]);
    }
  }

  lemma {:induction false} UpsertAllKeepsFlag(plain: string -> string, db: Db, feedId: Id, full: bool, batch: seq<NewEntry>)
    ensures UpsertAll(plain, db, feedId, full, batch).backfilled == db.backfilled
  {
    if batch != [] {
      UpsertAllKeepsFlag(plain, db, feedId, full, batch[..|batch| - 1]);
    }
  }

  lemma PollStepKeepsFlag(cfg: Config, s: System, ev: Event)
    ensures PollStep(cfg, s, ev).db.backfilled == s.db.backfilled
  {
    if ev.PollIngest? && ev.p in s.polls && s.polls[ev.p].feedId in s.db.feeds {
      UpsertAllKeepsFlag(cfg.plain, s.db, s.polls[ev.p].feedId, s.db.feeds[s.polls[ev.p].feedId].fullContent, ev.batch);
    }
  }

  lemma ScrapeStepKeepsFlag(cfg: Config, s: System, ev: Event)
    ensures ScrapeStep(cfg, s, ev).db.backfilled == s.db.backfilled
  {
  }

  lemma UserStepKeepsFlag(cfg: Config, s: System, ev: Event)
    ensures UserStep(cfg, s, ev).db.backfilled == s.db.backfilled
  {
  }

  lemma StepKeepsFlag(cfg: Config, s: System, ev: Event)
    ensures Step(cfg, s, ev).db.backfilled == s.db.backfilled
  {
    hide PollStep, ScrapeStep, UserStep;
    PollStepKeepsFlag(cfg, s, ev);
    ScrapeStepKeepsFlag(cfg, s, ev);
    UserStepKeepsFlag(cfg, s, ev);
  }

  /** Main theorem: in every state of every history of crashing boots and arbitrary use
      that starts at a migrated database, a set flag means that the database is sound:
      every row projected, the index exact, the trigger there, and all that the
      reader's runs keep. Without the flag the next boot finds what it needs. In both
      cases a trigger that exists never deletes what the index does not hold. */
  lemma {:induction false} FlagMeansDone(cfg: Config, dbs: seq<Db>, k: nat)
    requires GoodConfig(cfg) && k < |dbs| && !dbs[0].backfilled && Migrated(cfg.max, dbs[0])
    requires forall j | 0 <= j < |dbs| - 1 :: Goes(cfg, dbs[j], dbs[j + 1])
    ensures if dbs[k].backfilled then Sound(cfg.plain, cfg.max, dbs[k]) else Migrated(cfg.max, dbs[k])
    ensures TriggerSafe(dbs[k])
  {
    if k > 0 {
      FlagMeansDone(cfg, dbs, k - 1);
      var was, now := dbs[k - 1], dbs[k];
      assert Goes(cfg, was, now);
      if !was.backfilled {
        if now == Backfilled(cfg.plain, was) {
          BackfilledIsSound(cfg, was);
        } else {
          PartwayIsMigrated(cfg, was, now);
        }
      } else if now != was {
        var evs :| Used(cfg, was, now, evs);
        UseKeepsSound(cfg, was, now, evs);
        RunKeepsFlag(cfg, System(was, map[], map[], map[], {}, map[]), evs);
      }
    }
  }
}
