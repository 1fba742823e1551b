/** The store shared by polls, scrapes and deletions in flight. Each actor works
    on a copy of a row that it read in an earlier step and that may be stale by
    the time it writes. A run is any sequence of events: an event that its actor
    cannot perform leaves the system as it is, so "every run" is every interleaving. */
module System {
  import opened Rows
  import opened Sql

  /** A feed server's answer, reduced to what can reach the conditional-GET columns. */
  datatype Response = Response(requestUrl: string, finalUrl: string, permanent: bool, etag: string, lastModified: string)

  /** A poll's in-memory feed. `heard` is the last response it received. */
  datatype Poll = Poll(userId: Id, feedId: Id, url: string, etag: string, lastModified: string, heard: Option<Response>)

  /** A scrape's in-memory entry; `seen` counts the writes of the row's attempt
      column before this scrape read it. */
  datatype Scrape = Scrape(entryId: Id, attempts: int, seen: nat)

  /** DeleteEntry between its read and its transaction. */
  datatype Deletion = Deletion(userId: Id, entryId: Id, feedId: Id, guid: string)

  /** Bookkeeping of the model: counted failures since the entry was last queued,
      and how often its attempt column was assigned. */
  datatype Tally = Tally(failures: nat, writes: nat)

  datatype System = System(
    db: Db,
    polls: map<nat, Poll>, scrapes: map<nat, Scrape>, deletions: map<nat, Deletion>,
    history: set<Response>, tallies: map<Id, Tally>)

  /** `plain` strips markup, `canon` normalises a feed URL, `max` is MaxAttempts,
      `users` are the rows of the users table, which nothing here changes. */
  datatype Config = Config(plain: string -> string, canon: string -> string, max: nat, users: set<Id>)

  ghost predicate GoodConfig(cfg: Config) {
    0 < cfg.max && forall u :: cfg.canon(cfg.canon(u)) == cfg.canon(u)
  }

  datatype Event =
    | Subscribe(userId: Id, url: string, title: string, category: Option<Id>, full: bool, now: int, nextCheck: int)
    | EditURL(userId: Id, feedId: Id, url: string, now: int)
    | EditTitle(userId: Id, feedId: Id, title: string)
    | EditCategory(userId: Id, feedId: Id, category: Option<Id>)
    | AddCategory(userId: Id, title: string)
    | RenameCategory(userId: Id, categoryId: Id, title: string)
    | DropCategory(userId: Id, categoryId: Id)
    | Toggle(userId: Id, feedId: Id, on: bool, now: int)
    | Unsubscribe(userId: Id, feedId: Id)
    | Mark(ids: set<Id>, userId: Id, change: Reader -> Reader)
    | DeleteRead(d: nat, userId: Id, entryId: Id)
    | DeleteCommit(d: nat)
    | PollRead(p: nat, userId: Id, feedId: Id)
    | PollHear(p: nat, response: Response)
    | PollAdopt(p: nat, now: int)
    | PollResolve(p: nat, now: int)
    | PollDrop(p: nat)
    | PollIngest(p: nat, batch: seq<NewEntry>)
    | PollSucceed(p: nat, written: PollState)
    | PollFail(p: nat, written: PollState)
    | ScrapeRead(s: nat, entryId: Id)
    | ScrapeSave(s: nat, content: string)
    | ScrapeFail(s: nat, nextAt: int, error: string)
    | ScrapeRetry(s: nat, nextAt: int, error: string)

  // ---- what the actors do --------------------------------------------------

  /** adoptPermanentRedirect's guard. */
  predicate Adopts(p: Poll) {
    p.heard.Some? && p.heard.value.permanent && p.heard.value.finalUrl != "" && p.heard.value.finalUrl != p.url
  }

  /** canonicalURL: the end of an all-permanent chain, else the URL asked for. */
  function CanonicalUrl(r: Response): string {
    if r.permanent && r.finalUrl != "" then r.finalUrl else r.requestUrl
  }

  /** The identity that resolveFeed gives the feed behind its last response. */
  function ResolvedUrl(canon: string -> string, r: Response): string {
    canon(CanonicalUrl(r))
  }

  /** `r` was served for `url`: as the URL requested, or at the end of an
      all-permanent redirect chain. URLs count up to normalisation. */
  predicate Covers(canon: string -> string, r: Response, url: string) {
    || canon(r.requestUrl) == canon(url)
    || (r.permanent && r.finalUrl != "" && canon(r.finalUrl) == canon(url))
  }

  /** recordSuccess copies the validators that the response carries. */
  function Recorded(p: Poll, r: Response): Poll {
    p.(etag := if r.etag != "" then r.etag else p.etag,
       lastModified := if r.lastModified != "" then r.lastModified else p.lastModified)
  }

  function WriteBack(db: Db, p: Poll, written: PollState): Db {
    UpdateFeed(db, p.userId, p.feedId, p.url, written.(etag := p.etag, lastModified := p.lastModified))
  }

  /** The extraction columns a failed scrape writes: failEmit. */
  function FailedExtraction(max: nat, attempts: int, nextAt: int, error: string): Extraction {
    if attempts + 1 >= max
    then Extraction(ExtractFailed, attempts + 1, None, error)
    else Extraction(ExtractPending, attempts + 1, Some(nextAt), error)
  }

  function TallyOf(tallies: map<Id, Tally>, i: Id): Tally {
    if i in tallies then tallies[i] else Tally(0, 0)
  }

  // ---- one step ------------------------------------------------------------

  function UserStep(cfg: Config, s: System, ev: Event): System {
    match ev
    case Subscribe(u, url, title, cat, full, now, next) =>
      s.(db := CreateFeed(s.db, NewFeed(u, url, title, cat, full, now, next)).0)
    case EditURL(u, id, url, now) => s.(db := SetFeedURL(s.db, u, id, url, now).0)
    case EditTitle(u, id, title) => s.(db := SetUserTitle(s.db, u, id, title).0)
    case EditCategory(u, id, cat) => s.(db := SetCategory(s.db, u, id, cat).0)
    case AddCategory(u, title) => s.(db := CreateCategory(s.db, u, title).0)
    case RenameCategory(u, c, title) => s.(db := UpdateCategory(s.db, u, c, title).0)
    case DropCategory(u, c) => s.(db := DeleteCategory(s.db, u, c).0)
    case Toggle(u, id, on, now) =>
      s.(db := SetFullContent(s.db, u, id, on, now).0, tallies := ToggleTallies(s, u, id, on))
    case Unsubscribe(u, id) => s.(db := DeleteFeed(s.db, u, id).0)
    case Mark(ids, u, change) => s.(db := SetReader(s.db, ids, u, change))
    case DeleteRead(d, u, id) =>
      if id in s.db.entries && s.db.entries[id].userId == u
      then s.(deletions := s.deletions[d := Deletion(u, id, s.db.entries[id].feedId, s.db.entries[id].guid)])
      else s
    case DeleteCommit(d) =>
      if d in s.deletions then
        var x := s.deletions[d];
        s.(db := DeleteEntry(s.db, x.userId, x.entryId, x.feedId, x.guid).0)
      else s
    case _ => s
  }

  /** Enabling full content assigns zero attempts to the rows it queues. */
  function ToggleTallies(s: System, u: Id, feedId: Id, on: bool): map<Id, Tally> {
    if on && Owns(s.db, u, feedId) then
      map i | i in s.db.entries ::
        if s.db.entries[i].feedId == feedId && s.db.entries[i].extraction.state in {ExtractNone, ExtractFailed}
        then Tally(0, TallyOf(s.tallies, i).writes + 1)
        else TallyOf(s.tallies, i)
    else s.tallies
  }

  ghost function PollStep(cfg: Config, s: System, ev: Event): System {
    match ev
    case PollRead(p, u, id) =>
      if Owns(s.db, u, id) then
        var f := s.db.feeds[id];
        s.(polls := s.polls[p := Poll(u, id, f.feedUrl, f.poll.etag, f.poll.lastModified, None)])
      else s
    case PollHear(p, r) =>
      if p in s.polls
      then s.(polls := s.polls[p := s.polls[p].(heard := Some(r))], history := s.history + {r})
      else s
    case PollAdopt(p, now) =>
      if p in s.polls && Adopts(s.polls[p]) then
        var f := s.polls[p];
        var (db', outcome) := SetFeedURL(s.db, f.userId, f.feedId, f.heard.value.finalUrl, now);
        if outcome.Ok?
        then s.(db := db', polls := s.polls[p := f.(url := f.heard.value.finalUrl, etag := "", lastModified := "")])
        else s
      else s
    case PollResolve(p, now) =>
      if p in s.polls && s.polls[p].heard.Some? then
        var f := s.polls[p];
        var url := ResolvedUrl(cfg.canon, f.heard.value);
        var (db', outcome) := SetFeedURL(s.db, f.userId, f.feedId, url, now);
        if url != f.url && outcome.Ok?
        then s.(db := db', polls := s.polls[p := f.(url := url)])  // the validators in memory stay
        else s
      else s
    case PollDrop(p) =>
      if p in s.polls then s.(db := DeleteFeed(s.db, s.polls[p].userId, s.polls[p].feedId).0) else s
    case PollIngest(p, batch) =>
      if p in s.polls then s.(db := Upsert(cfg.plain, s.db, s.polls[p].feedId, batch).0) else s
    case PollSucceed(p, written) =>
      if p in s.polls && s.polls[p].heard.Some? && Covers(cfg.canon, s.polls[p].heard.value, s.polls[p].url) then
        var f := Recorded(s.polls[p], s.polls[p].heard.value);
        s.(db := WriteBack(s.db, f, written), polls := s.polls[p := f])
      else s
    case PollFail(p, written) =>
      if p in s.polls then s.(db := WriteBack(s.db, s.polls[p], written)) else s
    case _ => s
  }

  /** A scrape's write of the extraction columns of its row. */
  function WriteExtraction(s: System, a: Scrape, x: Extraction, failures: nat): System {
    s.(db := UpdateExtractState(s.db, a.entryId, x),
       tallies := if a.entryId in s.db.entries
                  then s.tallies[a.entryId := Tally(failures, TallyOf(s.tallies, a.entryId).writes + 1)]
                  else s.tallies)
  }

  function ScrapeStep(cfg: Config, s: System, ev: Event): System {
    match ev
    case ScrapeRead(a, id) =>
      if id in s.db.entries && s.db.entries[id].extraction.state.ExtractPending?
      then s.(scrapes := s.scrapes[a := Scrape(id, s.db.entries[id].extraction.attempts, TallyOf(s.tallies, id).writes)])
      else s
    case ScrapeSave(a, content) =>
      if a in s.scrapes then s.(db := SetEntryContent(cfg.plain, s.db, s.scrapes[a].entryId, content)) else s
    case ScrapeFail(a, nextAt, error) =>
      if a in s.scrapes then
        var sc := s.scrapes[a];
        WriteExtraction(s, sc, FailedExtraction(cfg.max, sc.attempts, nextAt, error),
                        TallyOf(s.tallies, sc.entryId).failures + 1)
      else s
    case ScrapeRetry(a, nextAt, error) =>
      if a in s.scrapes then
        var sc := s.scrapes[a];
        WriteExtraction(s, sc, Extraction(ExtractPending, sc.attempts, Some(nextAt), error),
                        TallyOf(s.tallies, sc.entryId).failures)
      else s
    case _ => s
  }

  predicate IsPollEvent(ev: Event) {
    ev.PollRead? || ev.PollHear? || ev.PollAdopt? || ev.PollResolve? || ev.PollDrop? || ev.PollIngest?
    || ev.PollSucceed? || ev.PollFail?
  }

  predicate IsScrapeEvent(ev: Event) {
    ev.ScrapeRead? || ev.ScrapeSave? || ev.ScrapeFail? || ev.ScrapeRetry?
  }

  ghost function Step(cfg: Config, s: System, ev: Event): System {
    if IsPollEvent(ev) then PollStep(cfg, s, ev)
    else if IsScrapeEvent(ev) then ScrapeStep(cfg, s, ev)
    else UserStep(cfg, s, ev)
  }

  ghost function Run(cfg: Config, s: System, evs: seq<Event>): System {
    if evs == [] then s else Step(cfg, Run(cfg, s, evs[..|evs| - 1]), evs[|evs| - 1])
  }

  /** A freshly migrated database with nobody at work. */
  function Initial(cfg: Config): System {
    System(EmptyDb(cfg.users), map[], map[], map[], {}, map[])
  }
}
