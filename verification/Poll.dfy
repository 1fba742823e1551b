/** The poll pipeline: fetch, adopt redirects, parse, ingest, reschedule. Results of
    the network, parser, sanitiser and store calls come from a World the pipeline
    cannot choose; a panic is one of them. */
module Polling {
  import opened Rows
  import opened System
  import opened Actors
  import opened Sql
  import I = Ingest
  import Shared = System
  import S = Schedule

  datatype PollResult = PollSuccess | PollNotModified | PollFetchError | PollHTTPError | PollParseError | PollStoreError | PollPanic

  datatype Reason = Timeout | DNS | TLS | HTTP4xx | HTTP5xx | RateLimited | ParseReason | Internal

  datatype Metric = PollDone(result: PollResult) | PollDuration | ErrorSeen(reason: Reason)

  datatype FetchResponse = FetchResponse(
    status: int, notModified: bool, bodyEmpty: bool, html: bool,
    etag: string, lastModified: string, retryAfter: int, finalUrl: string, permanent: bool)

  /** `canceled`: the error is a cancellation and the poll's own context is done. */
  datatype FetchResult = FetchPanicked | FetchFailed(reason: Reason, canceled: bool) | Fetched(response: FetchResponse)

  datatype ParsedFeed = ParsedFeed(title: string, siteUrl: string, description: string, ttl: int, entries: seq<NewEntry>)

  datatype ParseResult = ParsePanicked | ParseFailed | Parsed(feed: ParsedFeed)

  datatype DiscoverResult = DiscoverPanicked | Discovered(urls: seq<string>)

  datatype SetResult = SetOk | SetConflict | SetFailed

  /** EntryDedup's answer. */
  datatype Lookup = Lookup(existing: map<string, string>, tombstoned: set<string>)

  datatype World = World(
    clock: nat -> int,
    fetch: FetchResult, parse: ParseResult,
    page: FetchResult, pageParse: ParseResult, discover: DiscoverResult,
    linked: FetchResult, linkedParse: ParseResult,
    adopt: SetResult, move: SetResult, dropOk: bool,
    dedup: Option<Lookup>, sanitise: NewEntry -> Option<NewEntry>, upsertOk: bool,
    weekly: Option<int>, writeOk: bool)

  datatype Config = Config(
    reschedule: S.RescheduleConfig, schedule: S.ScheduleConfig, jitter: int -> int,
    canon: string -> string, trim: string -> string)

  ghost predicate WellConfigured(cfg: Config) {
    && S.GoodReschedule(cfg.reschedule) && S.GoodSchedule(cfg.schedule) && S.Jitters(cfg.jitter)
    && (forall u :: cfg.canon(cfg.canon(u)) == cfg.canon(u))
  }

  /** A store call that ends a poll: the write-back, or the removal of a duplicate row. */
  datatype Ending = Wrote(reading: int, next: int, row: PollState, ok: bool) | Dropped

  /** How an attempt ended, for the metrics. */
  datatype Outcome = Panicked | Silent | Ended(result: PollResult, reason: Reason)

  predicate IsGood(r: PollResult) { r.PollSuccess? || r.PollNotModified? }

  /** The counters an attempt adds: one result, and an error exactly when it is bad. */
  function Counted(o: Outcome): seq<Metric> {
    if o.Ended? then [PollDone(o.result)] + (if IsGood(o.result) then [] else [ErrorSeen(o.reason)]) else []
  }

  function ClassifyStatus(status: int): Reason {
    if status == 429 then RateLimited else if status >= 500 then HTTP5xx else if status >= 400 then HTTP4xx else Internal
  }

  function Heard(url: string, r: FetchResponse): Response {
    Response(url, r.finalUrl, r.permanent, r.etag, r.lastModified)
  }

  ghost predicate Steady(clock: nat -> int) {
    forall i, j | i <= j :: clock(i) <= clock(j)
  }

  /** The row was dropped, or a write-back was made whose next check lies strictly
      after its own clock reading, and which failed exactly when `err`. */
  predicate Finishes(writeOk: bool, e: Ending, err: bool, start: int) {
    match e
    case Dropped => !err
    case Wrote(reading, next, row, ok) => ok == writeOk == !err && start <= reading < next && row.nextCheckAt == S.ToUnix(next)
  }

  function LongestInterval(cfg: Config): int {
    S.Max(cfg.schedule.maxInterval + cfg.schedule.maxInterval / 4, S.MAX_TTL_INFLUENCE)
  }

  function LongestBackoff(cfg: Config): int {
    cfg.reschedule.maxBackoff + cfg.reschedule.maxBackoff / 4
  }

  /** How far away the next check is: a good result keeps to the adaptive interval's
      bounds, a failure to the backoff's, a store error to one of the two. */
  predicate Spaced(cfg: Config, outcome: Outcome, gap: int) {
    if outcome.Ended? && IsGood(outcome.result) then cfg.schedule.minInterval <= gap <= LongestInterval(cfg)
    else if outcome.Ended? && outcome.result.PollStoreError? then 0 < gap <= S.Max(LongestInterval(cfg), LongestBackoff(cfg))
    else 0 < gap <= LongestBackoff(cfg)
  }

  /** The write that ended the attempt is the last event performed: the row written
      back as a success exactly for a good result, or the row removed. */
  ghost predicate Landed(cfg: Config, me: nat, trace: seq<Event>, outcome: Outcome, ending: Ending) {
    match ending
    case Dropped => trace != [] && trace[|trace| - 1] == PollDrop(me)
    case Wrote(reading, next, row, ok) =>
      var write := if outcome.Ended? && IsGood(outcome.result) then PollSucceed(me, row) else PollFail(me, row);
      Spaced(cfg, outcome, next - reading) && (ok ==> trace != [] && trace[|trace| - 1] == write)
  }

  /** Sanitising a batch; None when the sanitiser panics on one of its items. */
  function Sanitised(sanitise: NewEntry -> Option<NewEntry>, batch: seq<NewEntry>): Option<seq<NewEntry>> {
    if batch == [] then Some([])
    else
      match (Sanitised(sanitise, batch[..|batch| - 1]), sanitise(batch[|batch| - 1]))
      case (Some(front), Some(last)) => Some(front + [last])
      case _ => None
  }

  /** What ingest sends to the store: the items the lookup keeps, sanitised. */
  function Prepared(w: World, pf: ParsedFeed): Option<seq<NewEntry>>
    requires w.dedup.Some?
  {
    Sanitised(w.sanitise, I.Filter(w.dedup.value.existing, w.dedup.value.tombstoned, pf.entries))
  }

  // ---- the verdict: what each world is counted as ---------------------------

  /** How recordSuccess ends: a sanitiser panic, a store failure, or a good result. */
  function RecordVerdict(w: World, pf: Option<ParsedFeed>): Outcome {
    if pf.Some? && w.dedup.Some? && Prepared(w, pf.value).None? then Panicked
    else if pf.Some? && (w.dedup.None? || !w.upsertOk) then Ended(PollStoreError, Internal)
    else if !w.writeOk then Ended(PollStoreError, Internal)
    else Ended(if pf.Some? then PollSuccess else PollNotModified, Internal)
  }

  /** What resolveFeed finds behind a URL. */
  datatype Resolved = Broke | NoFeed(reason: Reason) | Found(url: string, feed: ParsedFeed)

  function Resolution(canon: string -> string, w: World, url: string): Resolved {
    if w.page.FetchPanicked? then Broke
    else if w.page.FetchFailed? then NoFeed(w.page.reason)
    else if w.page.response.status != 200 || w.page.response.bodyEmpty then NoFeed(Internal)
    else match w.pageParse
      case ParsePanicked => Broke
      case Parsed(feed) => Found(ResolvedUrl(canon, Heard(url, w.page.response)), feed)
      case ParseFailed => Discovery(canon, w)
  }

  /** The first feed that the page links to. */
  function Discovery(canon: string -> string, w: World): Resolved {
    if w.discover.DiscoverPanicked? then Broke
    else if w.discover.urls == [] then NoFeed(Internal)
    else if w.linked.FetchPanicked? then Broke
    else if w.linked.FetchFailed? || w.linked.response.status != 200 then NoFeed(Internal)
    else match w.linkedParse
      case ParsePanicked => Broke
      case ParseFailed => NoFeed(Internal)
      case Parsed(feed) => Found(ResolvedUrl(canon, Heard(w.discover.urls[0], w.linked.response)), feed)
  }

  /** A duplicate row removed counts as a success; one that cannot be, or a URL that
      cannot be stored, as a store error. */
  function ResolveVerdict(canon: string -> string, w: World, url: string): Outcome {
    match Resolution(canon, w, url)
    case Broke => Panicked
    case NoFeed(reason) => Ended(PollFetchError, reason)
    case Found(found, feed) =>
      if found == url || w.move.SetOk? then RecordVerdict(w, Some(feed))
      else if w.move.SetConflict? && w.dropOk then Ended(PollSuccess, Internal)
      else Ended(PollStoreError, Internal)
  }

  function AdoptedUrl(w: World, r: FetchResponse, url: string): string {
    if r.permanent && r.finalUrl != "" && w.adopt.SetOk? then r.finalUrl else url
  }

  /** A healthy feed's page of HTML is a parse error; only a feed that already failed
      is looked for again behind its page. */
  function ContentVerdict(canon: string -> string, w: World, r: FetchResponse, url: string, errors: nat): Outcome {
    match w.parse
    case ParsePanicked => Panicked
    case Parsed(feed) => RecordVerdict(w, Some(feed))
    case ParseFailed => if r.html && errors > 0 then Recovered(ResolveVerdict(canon, w, url)) else Ended(PollParseError, ParseReason)
  }

  function BodyVerdict(canon: string -> string, w: World, r: FetchResponse, url: string, errors: nat): Outcome {
    ContentVerdict(canon, w, r, AdoptedUrl(w, r, url), errors)
  }

  function PollVerdict(canon: string -> string, w: World, url: string, errors: nat): Outcome {
    match w.fetch
    case FetchPanicked => Panicked
    case FetchFailed(reason, canceled) => if canceled then Silent else Ended(PollFetchError, reason)
    case Fetched(r) =>
      if r.notModified then RecordVerdict(w, None)
      else if r.status != 200 then Ended(PollHTTPError, ClassifyStatus(r.status))
      else BodyVerdict(canon, w, r, url, errors)
  }

  /** A recovered panic is a result like any other. */
  function Recovered(o: Outcome): Outcome {
    if o.Panicked? then Ended(PollPanic, Internal) else o
  }

  // ---- reading the counters back -------------------------------------------

  function Results(ms: seq<Metric>): seq<PollResult> {
    if ms == [] then [] else (if ms[0].PollDone? then [ms[0].result] else []) + Results(ms[1..])
  }

  function Reasons(ms: seq<Metric>): seq<Reason> {
    if ms == [] then [] else (if ms[0].ErrorSeen? then [ms[0].reason] else []) + Reasons(ms[1..])
  }

  function Durations(ms: seq<Metric>): nat {
    if ms == [] then 0 else (if ms[0].PollDuration? then 1 else 0) + Durations(ms[1..])
  }

  /** What one attempt may add to the metrics: a result with its duration, and an
      error exactly beside a bad result; or, cancelled by the shutdown, nothing. */
  predicate OnceEach(ms: seq<Metric>, cancelled: bool, o: Outcome) {
    if cancelled then Results(ms) == [] && Reasons(ms) == [] && Durations(ms) == 0
    else
      && o.Ended? && Results(ms) == [o.result] && Durations(ms) == 1
      && Reasons(ms) == if IsGood(o.result) then [] else [o.reason]
  }

  predicate Cancelled(w: World) {
    w.fetch.FetchFailed? && w.fetch.canceled
  }

  lemma CountedOnce(o: Outcome)
    requires o.Ended?
    ensures OnceEach(Counted(o) + [PollDuration], false, o)
  {
    var ms := Counted(o) + [PollDuration];
    var last := [PollDuration];
    assert last[1..] == [];
    assert Results(last) == [] && Reasons(last) == [] && Durations(last) == 1;
    if IsGood(o.result) {
      assert ms[1..] == last;
    } else {
      var error := [ErrorSeen(o.reason)] + last;
      assert error[1..] == last;
      assert Results(error) == [] && Reasons(error) == [o.reason] && Durations(error) == 1;
      assert ms == [PollDone(o.result)] + error;
      assert ms[1..] == error;
    }
  }

  /** One attempt's traces: counters, and its single ending unless it panicked. */
  predicate Concluded(writeOk: bool, o: Outcome, err: bool, ending: Ending, start: int) {
    !o.Panicked? ==> Finishes(writeOk, ending, err, start)
  }

  /** The in-memory feed, which the pipeline changes in place. Times in nanoseconds. */
  class MemFeed {
    const userId: Id
    const id: Id
    const createdAt: int
    const disabled: bool
    var url: string
    var siteUrl: string
    var title: string
    var description: string
    var etag: string
    var lastModified: string
    var checkedAt: Option<int>
    var nextCheckAt: int
    var errorCount: nat
    var lastError: string
    var updatedAt: int
    var ttl: int

    /** feedFromRow. */
    constructor (id: Id, f: Feed)
      requires f.poll.errorCount >= 0
      ensures this.id == id && userId == f.userId && url == f.feedUrl
      ensures etag == f.poll.etag && lastModified == f.poll.lastModified && errorCount == f.poll.errorCount
      ensures siteUrl == f.poll.siteUrl && title == f.poll.title && description == f.poll.description
      ensures disabled == f.poll.disabled && lastError == f.poll.lastError && ttl == f.poll.ttl * S.SECOND
      ensures createdAt == f.createdAt * S.SECOND && nextCheckAt == f.poll.nextCheckAt * S.SECOND && updatedAt == f.poll.updatedAt * S.SECOND
      ensures checkedAt == match f.poll.checkedAt case None => None case Some(t) => Some(t * S.SECOND)
    {
      this.id, userId, createdAt, disabled := id, f.userId, f.createdAt * S.SECOND, f.poll.disabled;
      url, siteUrl, title, description := f.feedUrl, f.poll.siteUrl, f.poll.title, f.poll.description;
      etag, lastModified := f.poll.etag, f.poll.lastModified;
      checkedAt := if f.poll.checkedAt.Some? then Some(f.poll.checkedAt.value * S.SECOND) else None;
      nextCheckAt, updatedAt := f.poll.nextCheckAt * S.SECOND, f.poll.updatedAt * S.SECOND;
      errorCount, lastError, ttl := f.poll.errorCount, f.poll.lastError, f.poll.ttl * S.SECOND;
    }

    /** UpdateFeed's parameters: times cut to seconds, a TTL of zero stored as none. */
    function Columns(): PollState
      reads this
    {
      PollState(siteUrl, title, description, etag, lastModified, disabled,
                if checkedAt.Some? then Some(S.ToUnix(checkedAt.value)) else None,
                S.ToUnix(nextCheckAt), errorCount, lastError,
                S.ToUnix(updatedAt), if ttl <= 0 then 0 else S.ToUnix(ttl))
    }

    method MarkFailed(now: int, msg: string, next: int)
      modifies this
      ensures errorCount == old(errorCount) + 1 && nextCheckAt == next
      ensures lastError == msg && checkedAt == Some(now) && updatedAt == now
      ensures url == old(url) && etag == old(etag) && lastModified == old(lastModified)
      ensures unchanged(`title, `siteUrl, `description, `ttl)
    {
      errorCount := errorCount + 1;
      lastError := msg;
      checkedAt := Some(now);
      updatedAt := now;
      nextCheckAt := next;
    }

    /** The feed-owned texts a parsed feed brings, where they are not blank. */
    method Refresh(trim: string -> string, pf: ParsedFeed)
      modifies this`title, this`siteUrl, this`description, this`ttl
      ensures ttl == pf.ttl
      ensures title == (if trim(pf.title) != "" then pf.title else old(title))
      ensures siteUrl == (if trim(pf.siteUrl) != "" then pf.siteUrl else old(siteUrl))
      ensures description == (if trim(pf.description) != "" then pf.description else old(description))
    {
      title := if trim(pf.title) != "" then pf.title else title;
      siteUrl := if trim(pf.siteUrl) != "" then pf.siteUrl else siteUrl;
      description := if trim(pf.description) != "" then pf.description else description;
      ttl := pf.ttl;
    }

    /** A success: a title that is blank only where the URL is, the validators the response brought,
        and no errors counted. */
    method MarkSucceeded(trim: string -> string, r: FetchResponse, now: int, next: int)
      modifies this
      ensures url == old(url) && errorCount == 0 && nextCheckAt == next && lastError == ""
      ensures checkedAt == Some(now) && updatedAt == now && unchanged(`siteUrl, `description, `ttl)
      ensures etag == (if r.etag != "" then r.etag else old(etag))
      ensures lastModified == (if r.lastModified != "" then r.lastModified else old(lastModified))
      ensures title == FeedTitle(trim, old(title), url)
    {
      title := FeedTitle(trim, title, url);
      if r.etag != "" {
        etag := r.etag;
      }
      if r.lastModified != "" {
        lastModified := r.lastModified;
      }
      errorCount, lastError := 0, "";
      checkedAt, updatedAt, nextCheckAt := Some(now), now, next;
    }

    ghost function AsPoll(heard: Option<Response>): Poll
      reads this
    {
      Poll(userId, id, url, etag, lastModified, heard)
    }
  }

  /** The columns of a row that a parsed feed may change. */
  datatype Texts = Texts(title: string, siteUrl: string, description: string, ttl: int)

  /** The row shows what it showed before, but for what the parsed feed brings and is not
      blank; a title that would be blank is the URL. */
  predicate Brings(trim: string -> string, pf: Option<ParsedFeed>, was: Texts, url: string, row: PollState) {
    var said := if pf.Some? && trim(pf.value.title) != "" then pf.value.title else was.title;
    && row.title == (if trim(said) != "" then trim(said) else url)
    && row.siteUrl == (if pf.Some? && trim(pf.value.siteUrl) != "" then pf.value.siteUrl else was.siteUrl)
    && row.description == (if pf.Some? && trim(pf.value.description) != "" then pf.value.description else was.description)
    && Lasts(if pf.Some? then pf.value.ttl else was.ttl, row.ttl)
  }

  predicate Keeps(was: Texts, row: PollState) {
    row.title == was.title && row.siteUrl == was.siteUrl && row.description == was.description && Lasts(was.ttl, row.ttl)
  }

  /** A time to live of nanoseconds as stored: whole seconds, none if not positive. */
  predicate Lasts(ttl: int, seconds: int) {
    if ttl <= 0 then seconds == 0 else seconds * S.SECOND <= ttl < (seconds + 1) * S.SECOND
  }

  /** What a write-back says about the feed: a success what the parsed feed brings and no
      error, a failure what was there; both when the poll was made. */
  predicate Told(trim: string -> string, pf: Option<ParsedFeed>, was: Texts, disabled: bool, url: string, ending: Ending) {
    ending.Wrote? ==>
      && ending.row.disabled == disabled
      && ending.row.checkedAt == Some(ending.row.updatedAt)
      && ending.row.updatedAt * S.SECOND <= ending.reading < (ending.row.updatedAt + 1) * S.SECOND
      && if ending.row.errorCount == 0 then Brings(trim, pf, was, url, ending.row) && ending.row.lastError == ""
         else Keeps(was, ending.row)
  }

  /** A failure's write does not look at the parsed feed. */
  lemma ToldAnyway(trim: string -> string, pf: Option<ParsedFeed>, pf': Option<ParsedFeed>, was: Texts, disabled: bool, url: string, ending: Ending)
    requires Told(trim, pf, was, disabled, url, ending) && (ending.Wrote? ==> ending.row.errorCount != 0)
    ensures Told(trim, pf', was, disabled, url, ending)
  {
  }

  /** A success after the parsed feed's texts were taken over. */
  lemma ToldRefreshed(trim: string -> string, pf: ParsedFeed, was: Texts, now: Texts, disabled: bool, url: string, ending: Ending)
    requires Told(trim, None, now, disabled, url, ending) && (ending.Wrote? ==> ending.row.errorCount == 0) && now.ttl == pf.ttl
    requires now.title == (if trim(pf.title) != "" then pf.title else was.title)
    requires now.siteUrl == (if trim(pf.siteUrl) != "" then pf.siteUrl else was.siteUrl)
    requires now.description == (if trim(pf.description) != "" then pf.description else was.description)
    ensures Told(trim, Some(pf), was, disabled, url, ending)
  {
  }

  /** The feed that the poll of `url` parsed, if any: none for a 304. */
  function Brought(canon: string -> string, w: World, url: string): Option<ParsedFeed> {
    if !w.fetch.Fetched? || w.fetch.response.notModified then None
    else Contents(canon, w, AdoptedUrl(w, w.fetch.response, url))
  }

  function Contents(canon: string -> string, w: World, url: string): Option<ParsedFeed> {
    if w.parse.Parsed? then Some(w.parse.feed) else Behind(canon, w, url)
  }

  function Behind(canon: string -> string, w: World, url: string): Option<ParsedFeed> {
    match Resolution(canon, w, url)
    case Found(_, feed) => Some(feed)
    case _ => None
  }

  /** `url` is where the feed behind `asked` was found: the end of an all-permanent
      redirect of the page, or of the first feed it links to, else the URL asked for. */
  predicate EndsAt(canon: string -> string, w: World, asked: string, url: string) {
    if w.page.Fetched? && w.pageParse.Parsed? then
      url == canon(if w.page.response.permanent && w.page.response.finalUrl != "" then w.page.response.finalUrl else asked)
    else
      && w.linked.Fetched? && w.discover.Discovered? && w.discover.urls != []
      && url == canon(if w.linked.response.permanent && w.linked.response.finalUrl != "" then w.linked.response.finalUrl
                      else w.discover.urls[0])
  }

  /** The URL that a poll of `asked` leaves the feed with: the end of an all-permanent
      redirect that the store accepts, for a 304 or 200; for a page that a feed was found
      behind, where that was found from there; else the URL asked for. */
  predicate PolledAt(canon: string -> string, w: World, asked: string, good: bool, url: string) {
    w.fetch.Fetched? ==>
      var r := w.fetch.response;
      var adopted := if r.permanent && r.finalUrl != "" && w.adopt.SetOk? then r.finalUrl else asked;
      if !r.notModified && r.status != 200 then url == asked
      else if r.notModified || w.parse.Parsed? then url == adopted
      else good ==> EndsAt(canon, w, adopted, url)
  }

  /** The result and the reason of an answer that is no 200, by its number. */
  predicate Refused(status: int, o: Outcome) {
    o == Ended(PollHTTPError, if status == 429 then RateLimited else if 500 <= status then HTTP5xx
                              else if 400 <= status then HTTP4xx else Internal)
  }

  /** A good result leaves no errors counted, unless it dropped the row; an error that
      was stored counts one more; a write-back that failed may follow either. And the
      row written is the one in memory. */
  predicate Charged(before: nat, after: nat, outcome: Outcome, ending: Ending) {
    && (ending.Wrote? ==> ending.row.errorCount == after)
    && if outcome.Ended? && IsGood(outcome.result) then
         after == if ending.Dropped? then before else 0
       else
         ending.Wrote? && (after == before + 1 || (after == 0 && !ending.ok && outcome.Ended? && outcome.result.PollStoreError?))
  }

  /** feedTitle: the text to show, never blank where there is a URL. */
  function FeedTitle(trim: string -> string, title: string, url: string): string {
    if trim(title) != "" then trim(title) else url
  }

  lemma TitleNeverBlank(trim: string -> string, title: string, url: string)
    requires forall s :: trim(trim(s)) == trim(s)
    ensures trim(FeedTitle(trim, title, url)) == "" <==> trim(title) == "" && trim(url) == ""
  {
    assert trim(trim(title)) == trim(title);
  }

  class Service {
    const cfg: Config
    const world: World
    const me: nat
    var ticks: nat
    var emitted: seq<Metric>
    var endings: seq<Ending>
    ghost var origin: Poll
    ghost var heard: Option<Response>
    ghost var trace: seq<Event>  // the events performed
    ghost var states: seq<Poll>  // the in-memory feed before, between and after them
    ghost var careful: bool  // the poll began healthy or without validators

    constructor (cfg: Config, world: World, me: nat)
      ensures this.cfg == cfg && this.world == world && this.me == me
      ensures emitted == [] && endings == [] && ticks == 0
    {
      this.cfg, this.world, this.me := cfg, world, me;
      ticks, emitted, endings, trace, heard := 0, [], [], [], None;
      origin, states, careful := Poll(0, 0, "", "", "", None), [Poll(0, 0, "", "", "", None)], true;
    }

    /** The events performed so far are this poll's own, carry no validators to
        another URL if it began carefully, and lead to its in-memory feed. */
    ghost predicate Tracks(f: MemFeed)
      reads this, f
    {
      Legal() && states[|trace|] == f.AsPoll(heard)
    }

    ghost predicate Legal()
      reads this
    {
      && Path(cfg.canon, me, states, trace) && states[0] == origin
      && (careful ==> CleanPath(cfg.canon, states, trace))
    }

    /** The row written carries the validators in memory, which the store then has. */
    ghost predicate Stored(f: MemFeed, ending: Ending)
      reads this, f
    {
      ending.Wrote? ==> ending.row.etag == f.etag && ending.row.lastModified == f.lastModified && (ending.ok ==> Tracks(f))
    }

    ghost method Perform(ev: Event)
      requires Legal() && Enabled(cfg.canon, states[|trace|], ev) && ev.p == me
      requires careful && ev.PollResolve? ==> states[|trace|].etag == "" && states[|trace|].lastModified == ""
      modifies this`trace, this`states
      ensures Legal() && trace == old(trace) + [ev]
      ensures states[|trace|] == Local(cfg.canon, old(states[|trace|]), ev)
    {
      states := states + [Local(cfg.canon, states[|trace|], ev)];
      trace := trace + [ev];
    }

    method Now() returns (t: int)
      modifies this`ticks
      ensures t == world.clock(old(ticks)) && ticks == old(ticks) + 1
    {
      t := world.clock(ticks);
      ticks := ticks + 1;
    }

    method Hear(f: MemFeed, url: string, r: FetchResponse)
      requires Tracks(f)
      modifies this`heard, this`trace, this`states
      ensures Tracks(f) && heard == Some(Heard(url, r))
    {
      heard := Some(Heard(url, r));
      Perform(PollHear(me, Heard(url, r)));
    }

    // ---- recording the result ----------------------------------------------

    /** PollReschedule's time, and so never before the ideal backoff where the shift of
        the interval cannot leave 64 bits. */
    predicate Waits(now: int, next: int, errorCount: nat, retryAfter: int) {
      && next == S.PollReschedule(now, cfg.reschedule, errorCount, retryAfter, cfg.jitter)
      && (cfg.reschedule.interval <= S.TWO_TO_48 ==> next >= now + S.Ideal(cfg.reschedule, errorCount))
    }

    method RetryAt(now: int, errorCount: nat, retryAfter: int) returns (next: int)
      requires WellConfigured(cfg) && 0 < errorCount
      ensures now < next <= now + LongestBackoff(cfg)
      ensures Waits(now, next, errorCount, retryAfter)
    {
      S.RetryDelayBounds(cfg.reschedule, errorCount, retryAfter, cfg.jitter);
      next := S.PollReschedule(now, cfg.reschedule, errorCount, retryAfter, cfg.jitter);
    }

    /** The state half of recordErrorEmit: count, back off, write. */
    method WriteError(f: MemFeed, now: int, msg: string, retryAfter: int) returns (err: bool, ending: Ending)
      requires Tracks(f) && WellConfigured(cfg)
      modifies this`endings, this`trace, this`states, f
      ensures Legal() && f.errorCount == old(f.errorCount) + 1 && f.url == old(f.url) && f.lastError == msg
      ensures endings == old(endings) + [ending] && ending == Wrote(now, f.nextCheckAt, f.Columns(), !err) && err == !world.writeOk
      ensures trace == old(trace) + (if err then [] else [PollFail(me, ending.row)])
      ensures now < f.nextCheckAt <= now + LongestBackoff(cfg) && Waits(now, f.nextCheckAt, f.errorCount, retryAfter)
      ensures ending.row.lastError == msg
      ensures Told(cfg.trim, None, Texts(old(f.title), old(f.siteUrl), old(f.description), old(f.ttl)), f.disabled, f.url, ending) && Stored(f, ending)
    {
      var next := RetryAt(now, f.errorCount + 1, retryAfter);
      f.MarkFailed(now, msg, next);
      if world.writeOk {
        Perform(PollFail(me, f.Columns()));
      }
      err, ending := Persist(f, now);
    }

    /** recordErrorEmit: the write first, then the counters unless suppressed. */
    method RecordErrorEmit(f: MemFeed, now: int, msg: string, retryAfter: int, result: PollResult, reason: Reason, emit: bool)
      returns (err: bool, outcome: Outcome, ending: Ending)
      requires Tracks(f) && WellConfigured(cfg) && !IsGood(result)
      modifies this`emitted, this`endings, this`trace, this`states, f
      ensures Legal() && f.errorCount == old(f.errorCount) + 1 && f.url == old(f.url)
      ensures outcome == (if emit then Ended(result, reason) else Silent)
      ensures emitted == old(emitted) + Counted(outcome)
      ensures endings == old(endings) + [ending] && ending == Wrote(now, f.nextCheckAt, f.Columns(), !err)
      ensures Finishes(world.writeOk, ending, err, now) && Landed(cfg, me, trace, outcome, ending)
      ensures trace == old(trace) + (if err then [] else [PollFail(me, ending.row)])
      ensures Waits(now, f.nextCheckAt, f.errorCount, retryAfter)
      ensures ending.row.lastError == msg
      ensures Told(cfg.trim, None, Texts(old(f.title), old(f.siteUrl), old(f.description), old(f.ttl)), f.disabled, f.url, ending) && Stored(f, ending)
    {
      err, ending := WriteError(f, now, msg, retryAfter);
      outcome := CountError(result, reason, emit);
    }

    /** Both counters, or neither for the shutdown. */
    method CountError(result: PollResult, reason: Reason, emit: bool) returns (outcome: Outcome)
      requires !IsGood(result)
      modifies this`emitted
      ensures outcome == (if emit then Ended(result, reason) else Silent)
      ensures emitted == old(emitted) + Counted(outcome)
    {
      outcome := Silent;
      if emit {
        FeedPollDone(result);
        ErrorObserved(reason);
        outcome := Ended(result, reason);
      }
    }

    /** The UpdateFeed call. */
    method Persist(f: MemFeed, now: int) returns (err: bool, ending: Ending)
      modifies this`endings
      ensures ending == Wrote(now, f.nextCheckAt, f.Columns(), !err) && err == !world.writeOk
      ensures endings == old(endings) + [ending]
    {
      err := !world.writeOk;
      ending := Wrote(now, f.nextCheckAt, f.Columns(), !err);
      endings := endings + [ending];
    }

    method FeedPollDone(result: PollResult)
      modifies this`emitted
      ensures emitted == old(emitted) + [PollDone(result)]
    {
      emitted := emitted + [PollDone(result)];
    }

    method ErrorObserved(reason: Reason)
      modifies this`emitted
      ensures emitted == old(emitted) + [ErrorSeen(reason)]
    {
      emitted := emitted + [ErrorSeen(reason)];
    }

    method MinCheck(now: int) returns (next: int)
      requires WellConfigured(cfg)
      ensures next == now + cfg.schedule.minInterval + cfg.jitter(cfg.schedule.minInterval)
      ensures now + cfg.schedule.minInterval <= next <= now + LongestInterval(cfg)
    {
      var d := cfg.schedule.minInterval;
      next := now + d + cfg.jitter(d);
    }

    method NextCheck(f: MemFeed, now: int) returns (next: int)
      requires WellConfigured(cfg)
      ensures now + cfg.schedule.minInterval <= next <= now + LongestInterval(cfg)
      ensures next == now + if now - f.createdAt < S.WEEK || world.weekly.None?
                            then cfg.schedule.minInterval + cfg.jitter(cfg.schedule.minInterval)
                            else S.AdaptiveInterval(world.weekly.value, cfg.schedule, f.ttl, cfg.jitter)
    {
      if now - f.createdAt < S.WEEK || world.weekly.None? {
        next := MinCheck(now);
      } else {
        S.AdaptiveBounds(world.weekly.value, cfg.schedule, f.ttl, cfg.jitter);
        next := now + S.AdaptiveInterval(world.weekly.value, cfg.schedule, f.ttl, cfg.jitter);
      }
    }

    /** ingest: look up, drop what is tombstoned or unchanged, sanitise, upsert. */
    method Ingest(f: MemFeed, pf: ParsedFeed) returns (panicked: bool, err: bool)
      requires Tracks(f)
      modifies this`trace, this`states
      ensures Tracks(f)
      ensures panicked <==> world.dedup.Some? && Prepared(world, pf).None?
      ensures !panicked ==> (err <==> world.dedup.None? || !world.upsertOk)
      ensures trace == old(trace) + (if panicked || err then [] else [PollIngest(me, Prepared(world, pf).value)])
    {
      if world.dedup.None? {
        return false, true;
      }
      var batch := Prepare(world.sanitise, world.dedup.value, pf.entries);
      if batch.None? {
        return true, false;
      }
      if world.upsertOk {
        Perform(PollIngest(me, batch.value));
      }
      return false, !world.upsertOk;
    }

    /** The loop of ingest over the parsed items; None when the sanitiser panics. */
    static method Prepare(sanitise: NewEntry -> Option<NewEntry>, lookup: Lookup, items: seq<NewEntry>)
      returns (prepared: Option<seq<NewEntry>>)
      ensures prepared == Sanitised(sanitise, I.Filter(lookup.existing, lookup.tombstoned, items))
    {
      var batch := [];
      for k := 0 to |items|
        invariant Sanitised(sanitise, I.Filter(lookup.existing, lookup.tombstoned, items[..k])) == Some(batch)
      {
        var n := items[k];
        SanitisedStep(sanitise, lookup, items, k);
        if I.Keeps(lookup.existing, lookup.tombstoned, n) {
          var clean := sanitise(n);
          if clean.None? {
            SanitiserStops(sanitise, lookup, items, k + 1);
            return None;
          }
          batch := batch + [clean.value];
        }
      }
      assert items[..|items|] == items;
      return Some(batch);
    }

    /** recordSuccess; `pf` is None for a 304. */
    method RecordSuccess(f: MemFeed, now: int, r: FetchResponse, pf: Option<ParsedFeed>)
      returns (err: bool, outcome: Outcome, ending: Ending)
      requires Tracks(f) && WellConfigured(cfg)
      requires heard.Some? && Covers(cfg.canon, heard.value, f.url)
      requires r.etag == heard.value.etag && r.lastModified == heard.value.lastModified
      modifies this`emitted, this`endings, this`trace, this`states, f
      ensures outcome == RecordVerdict(world, pf) && (outcome.Panicked? ==> Tracks(f) && f.errorCount == old(f.errorCount))
      ensures Legal() && f.url == old(f.url)
      ensures emitted == old(emitted) + Counted(outcome)
      ensures endings == old(endings) + (if outcome.Panicked? then [] else [ending])
      ensures Concluded(world.writeOk, outcome, err, ending, now)
      ensures !outcome.Panicked? ==> Landed(cfg, me, trace, outcome, ending)
      ensures outcome.Ended? && IsGood(outcome.result) ==>
                && !err && ending.Wrote?
                && trace == old(trace)
                          + (if pf.Some? then [PollIngest(me, Prepared(world, pf.value).value)] else [])
                          + [PollSucceed(me, ending.row)]
                && f.errorCount == 0
                && now + cfg.schedule.minInterval <= f.nextCheckAt
                   <= now + LongestInterval(cfg)
      ensures !outcome.Panicked? ==> Charged(old(f.errorCount), f.errorCount, outcome, ending)
      ensures outcome.Panicked? ==> unchanged(f`title, f`siteUrl, f`description, f`ttl)
      ensures !outcome.Panicked? ==> Told(cfg.trim, pf, Texts(old(f.title), old(f.siteUrl), old(f.description), old(f.ttl)), f.disabled, f.url, ending) && Stored(f, ending)
    {
      hide Told, Stored;
      ghost var was := Texts(f.title, f.siteUrl, f.description, f.ttl);
      if pf.Some? {
        var panicked, failed := Ingest(f, pf.value);
        if panicked {
          return false, Panicked, Dropped;
        }
        if failed {
          err, outcome, ending := RecordErrorEmit(f, now, "ingest", 0, PollStoreError, Internal, true);
          ToldAnyway(cfg.trim, None, pf, was, f.disabled, f.url, ending);
          return;
        }
        f.Refresh(cfg.trim, pf.value);
      }
      assert states[|trace|] == f.AsPoll(heard);
      ghost var texts := Texts(f.title, f.siteUrl, f.description, f.ttl);
      err, outcome, ending := RecordOk(f, now, r, pf.Some?);
      if pf.Some? {
        ToldRefreshed(cfg.trim, pf.value, was, texts, f.disabled, f.url, ending);
      }
    }

    /** The state half of a success: reset, reschedule, write back. */
    method WriteOk(f: MemFeed, now: int, r: FetchResponse) returns (err: bool, ending: Ending)
      requires Tracks(f) && WellConfigured(cfg)
      requires heard.Some? && Covers(cfg.canon, heard.value, f.url)
      requires r.etag == heard.value.etag && r.lastModified == heard.value.lastModified
      modifies this`endings, this`trace, this`states, f
      ensures Legal() && f.url == old(f.url) && f.errorCount == 0
      ensures f.title == FeedTitle(cfg.trim, old(f.title), f.url)
      ensures endings == old(endings) + [ending] && ending == Wrote(now, f.nextCheckAt, f.Columns(), !err) && err == !world.writeOk
      ensures trace == old(trace) + (if err then [] else [PollSucceed(me, ending.row)])
      ensures now + cfg.schedule.minInterval <= f.nextCheckAt <= now + LongestInterval(cfg)
      ensures Told(cfg.trim, None, Texts(old(f.title), old(f.siteUrl), old(f.description), old(f.ttl)), f.disabled, f.url, ending) && Stored(f, ending)
      ensures f.etag == (if r.etag != "" then r.etag else old(f.etag))
      ensures f.lastModified == (if r.lastModified != "" then r.lastModified else old(f.lastModified))
    {
      var next := NextCheck(f, now);
      f.MarkSucceeded(cfg.trim, r, now, next);
      err, ending := Persist(f, now);
      if !err {
        Perform(PollSucceed(me, f.Columns()));
      }
    }

    /** The rest of recordSuccess: the write, then the counters it calls for. */
    method RecordOk(f: MemFeed, now: int, r: FetchResponse, parsed: bool)
      returns (err: bool, outcome: Outcome, ending: Ending)
      requires Tracks(f) && WellConfigured(cfg)
      requires heard.Some? && Covers(cfg.canon, heard.value, f.url)
      requires r.etag == heard.value.etag && r.lastModified == heard.value.lastModified
      modifies this`emitted, this`endings, this`trace, this`states, f
      ensures Legal() && f.url == old(f.url) && f.errorCount == 0
      ensures outcome == Ended(if err then PollStoreError else if parsed then PollSuccess else PollNotModified, Internal)
      ensures f.title == FeedTitle(cfg.trim, old(f.title), f.url)
      ensures emitted == old(emitted) + Counted(outcome) && endings == old(endings) + [ending]
      ensures ending == Wrote(now, f.nextCheckAt, f.Columns(), !err)
      ensures Finishes(world.writeOk, ending, err, now) && Landed(cfg, me, trace, outcome, ending)
      ensures trace == old(trace) + (if err then [] else [PollSucceed(me, ending.row)])
      ensures now + cfg.schedule.minInterval <= f.nextCheckAt <= now + LongestInterval(cfg)
      ensures Told(cfg.trim, None, Texts(old(f.title), old(f.siteUrl), old(f.description), old(f.ttl)), f.disabled, f.url, ending) && Stored(f, ending)
    {
      err, ending := WriteOk(f, now, r);
      outcome := CountSuccess(err, parsed);
    }

    /** A store error is counted here too, not through recordError: it charges nothing. */
    method CountSuccess(err: bool, parsed: bool) returns (outcome: Outcome)
      modifies this`emitted
      ensures outcome == Ended(if err then PollStoreError else if parsed then PollSuccess else PollNotModified, Internal)
      ensures emitted == old(emitted) + Counted(outcome)
    {
      if err {
        FeedPollDone(PollStoreError);
        ErrorObserved(Internal);
        outcome := Ended(PollStoreError, Internal);
      } else if parsed {
        FeedPollDone(PollSuccess);
        outcome := Ended(PollSuccess, Internal);
      } else {
        FeedPollDone(PollNotModified);
        outcome := Ended(PollNotModified, Internal);
      }
    }

    // ---- redirects and discovery -------------------------------------------

    method AdoptPermanentRedirect(f: MemFeed, r: FetchResponse)
      requires Tracks(f) && heard == Some(Heard(f.url, r))
      modifies this`trace, this`states, this`ticks, f`url, f`etag, f`lastModified
      ensures Tracks(f) && Covers(cfg.canon, heard.value, f.url) && ticks >= old(ticks)
      ensures f.url == if r.permanent && r.finalUrl != "" && world.adopt.SetOk? then r.finalUrl else old(f.url)
      ensures if f.url != old(f.url) then f.etag == "" && f.lastModified == ""
              else f.etag == old(f.etag) && f.lastModified == old(f.lastModified)
    {
      if !r.permanent || r.finalUrl == "" || r.finalUrl == f.url {
        return;
      }
      var now := Now();
      if !world.adopt.SetOk? {
        return;
      }
      Perform(PollAdopt(me, S.ToUnix(now)));
      f.url := r.finalUrl;
      f.etag := "";
      f.lastModified := "";
    }

    /** resolveFeed: the URL itself if it is a feed, else the first feed its page
        links to. */
    method ResolveFeed(f: MemFeed) returns (panicked: bool, failed: Option<Reason>, url: string, pf: ParsedFeed, r: FetchResponse)
      requires Tracks(f)
      modifies this`heard, this`trace, this`states
      ensures Tracks(f)
      ensures Resolution(cfg.canon, world, f.url)
              == if panicked then Broke else if failed.Some? then NoFeed(failed.value) else Found(url, pf)
      ensures !panicked && failed.None? ==>
                && heard.Some? && url == ResolvedUrl(cfg.canon, heard.value)
                && r.etag == heard.value.etag && r.lastModified == heard.value.lastModified
      ensures !panicked && failed.None? ==> EndsAt(cfg.canon, world, f.url, url)
    {
      url, pf, r, failed := "", ParsedFeed("", "", "", 0, []), FetchResponse(0, false, true, false, "", "", 0, "", false), None;
      panicked := world.page.FetchPanicked?;
      if panicked {
        return;
      }
      if world.page.FetchFailed? {
        failed := Some(world.page.reason);
        return;
      }
      r := world.page.response;
      Hear(f, f.url, r);
      if r.status != 200 || r.bodyEmpty {
        failed := Some(Internal);
        return;
      }
      if world.pageParse.ParsePanicked? {
        panicked := true;
        return;
      }
      if world.pageParse.Parsed? {
        url, pf := cfg.canon(CanonicalUrl(Heard(f.url, r))), world.pageParse.feed;
        return;
      }
      if world.discover.DiscoverPanicked? {
        panicked := true;
        return;
      }
      if world.discover.urls == [] {
        failed := Some(Internal);
        return;
      }
      if world.linked.FetchPanicked? {
        panicked := true;
        return;
      }
      if world.linked.FetchFailed? {
        failed := Some(Internal);
        return;
      }
      var first := world.discover.urls[0];
      r := world.linked.response;
      Hear(f, first, r);
      if r.status != 200 {
        failed := Some(Internal);
        return;
      }
      if world.linkedParse.ParsePanicked? {
        panicked := true;
        return;
      }
      if world.linkedParse.ParseFailed? {
        failed := Some(Internal);
        return;
      }
      url, pf := cfg.canon(CanonicalUrl(Heard(first, r))), world.linkedParse.feed;
    }

    /** The row is a duplicate of another subscription: gone, and counted a success. */
    method DropDuplicate() returns (outcome: Outcome)
      requires Legal()
      modifies this`emitted, this`endings, this`trace, this`states
      ensures Legal() && trace == old(trace) + [PollDrop(me)] && endings == old(endings) + [Dropped]
      ensures outcome == Ended(PollSuccess, Internal) && emitted == old(emitted) + Counted(outcome)
    {
      Perform(PollDrop(me));
      endings := endings + [Dropped];
      FeedPollDone(PollSuccess);
      outcome := Ended(PollSuccess, Internal);
    }

    /** SetFeedURL to the resolved feed, or the removal of this row as a duplicate of
        the one that has it; `done` when the attempt ended here. */
    method MoveTo(f: MemFeed, url: string) returns (done: bool, err: bool, outcome: Outcome, ending: Ending)
      requires Tracks(f) && WellConfigured(cfg) && Steady(world.clock)
      requires heard.Some? && url == ResolvedUrl(cfg.canon, heard.value) && url != f.url
      requires careful ==> f.etag == "" && f.lastModified == ""
      modifies this`emitted, this`endings, this`trace, this`states, this`ticks, f
      ensures Legal() && ticks >= old(ticks)
      ensures done ==> outcome.Ended? && emitted == old(emitted) + Counted(outcome) && endings == old(endings) + [ending]
                       && Finishes(world.writeOk, ending, err, world.clock(old(ticks))) && Charged(old(f.errorCount), f.errorCount, outcome, ending)
                       && Landed(cfg, me, trace, outcome, ending)
                       && outcome == Ended(if ending.Dropped? then PollSuccess else PollStoreError, Internal)
                       && (ending.Dropped? <==> world.move.SetConflict? && world.dropOk)
      ensures done <==> !world.move.SetOk?
      ensures !done ==> Tracks(f) && f.url == url && emitted == old(emitted) && endings == old(endings)
                        && f.errorCount == old(f.errorCount) && unchanged(f`title, f`siteUrl, f`description, f`ttl)
      ensures done && ending.Wrote? ==> ending.row.errorCount != 0
      ensures done ==> Told(cfg.trim, None, Texts(old(f.title), old(f.siteUrl), old(f.description), old(f.ttl)), f.disabled, f.url, ending) && Stored(f, ending)
    {
      var at := Now();
      ending, err, outcome := Dropped, false, Silent;
      if world.move.SetOk? {
        Perform(PollResolve(me, S.ToUnix(at)));
        f.url := url;
        return false, false, Silent, Dropped;
      }
      done := true;
      if world.move.SetConflict? && world.dropOk {
        outcome := DropDuplicate();
      } else {
        var now := Now();
        err, outcome, ending := RecordErrorEmit(f, now, "already subscribed to this feed", 0, PollStoreError, Internal, true);
      }
    }

    /** The resolved feed becomes this row's, and its items are ingested. */
    method Settle(f: MemFeed, url: string, pf: ParsedFeed, r: FetchResponse) returns (err: bool, outcome: Outcome, ending: Ending)
      requires Tracks(f) && WellConfigured(cfg) && Steady(world.clock)
      requires heard.Some? && url == ResolvedUrl(cfg.canon, heard.value)
      requires r.etag == heard.value.etag && r.lastModified == heard.value.lastModified
      requires careful ==> f.etag == "" && f.lastModified == ""
      modifies this`emitted, this`endings, this`trace, this`states, this`ticks, f
      ensures Legal() && ticks >= old(ticks)
      ensures outcome == if url == old(f.url) || world.move.SetOk? then RecordVerdict(world, Some(pf))
                         else Ended(if world.move.SetConflict? && world.dropOk then PollSuccess else PollStoreError, Internal)
      ensures outcome.Panicked? ==> Tracks(f) && f.errorCount == old(f.errorCount)
      ensures emitted == old(emitted) + Counted(outcome)
      ensures endings == old(endings) + (if outcome.Panicked? then [] else [ending])
      ensures Concluded(world.writeOk, outcome, err, ending, world.clock(old(ticks)))
      ensures !outcome.Panicked? ==> Landed(cfg, me, trace, outcome, ending)
      ensures !outcome.Panicked? ==> Charged(old(f.errorCount), f.errorCount, outcome, ending)
      ensures outcome.Panicked? ==> unchanged(f`title, f`siteUrl, f`description, f`ttl)
      ensures !outcome.Panicked? ==> Told(cfg.trim, Some(pf), Texts(old(f.title), old(f.siteUrl), old(f.description), old(f.ttl)), f.disabled, f.url, ending) && Stored(f, ending)
      ensures outcome.Ended? && IsGood(outcome.result) && ending.Wrote? ==> f.url == url
    {
      hide Told, Stored;
      ghost var was := Texts(f.title, f.siteUrl, f.description, f.ttl);
      if url != f.url {
        var done;
        done, err, outcome, ending := MoveTo(f, url);
        if done {
          ToldAnyway(cfg.trim, None, Some(pf), was, f.disabled, f.url, ending);
          return;
        }
      }
      var now := Now();
      err, outcome, ending := RecordSuccess(f, now, r, Some(pf));
    }

    /** resolveAndIngest without its recover. */
    method ResolveUnguarded(f: MemFeed) returns (err: bool, outcome: Outcome, ending: Ending)
      requires Tracks(f) && WellConfigured(cfg) && Steady(world.clock)
      requires careful ==> f.etag == "" && f.lastModified == ""
      modifies this`emitted, this`endings, this`trace, this`states, this`heard, this`ticks, f
      ensures Legal() && ticks >= old(ticks) && outcome == ResolveVerdict(cfg.canon, world, old(f.url))
      ensures outcome.Panicked? ==> Tracks(f) && f.errorCount == old(f.errorCount)
      ensures emitted == old(emitted) + Counted(outcome)
      ensures endings == old(endings) + (if outcome.Panicked? then [] else [ending])
      ensures Concluded(world.writeOk, outcome, err, ending, world.clock(old(ticks)))
      ensures !outcome.Panicked? ==> Landed(cfg, me, trace, outcome, ending)
      ensures !outcome.Panicked? ==> Charged(old(f.errorCount), f.errorCount, outcome, ending)
      ensures outcome.Panicked? ==> unchanged(f`title, f`siteUrl, f`description, f`ttl)
      ensures !outcome.Panicked? ==> Told(cfg.trim, Behind(cfg.canon, world, old(f.url)), Texts(old(f.title), old(f.siteUrl), old(f.description), old(f.ttl)), f.disabled, f.url, ending) && Stored(f, ending)
      ensures outcome.Ended? && IsGood(outcome.result) && ending.Wrote? ==> EndsAt(cfg.canon, world, old(f.url), f.url)
    {
      hide Told, Stored;
      ghost var was := Texts(f.title, f.siteUrl, f.description, f.ttl);
      ghost var asked := f.url;
      var panicked, failed, url, pf, r := ResolveFeed(f);
      if panicked {
        return false, Panicked, Dropped;
      }
      if failed.Some? {
        var now := Now();
        err, outcome, ending := RecordErrorEmit(f, now, "resolve", 0, PollFetchError, failed.value, true);
        ToldAnyway(cfg.trim, None, Behind(cfg.canon, world, asked), was, f.disabled, f.url, ending);
        return;
      }
      err, outcome, ending := Settle(f, url, pf, r);
    }

    /** resolveAndIngest: a panic becomes a recorded error. */
    method Resolve(f: MemFeed) returns (err: bool, outcome: Outcome, ending: Ending)
      requires Tracks(f) && WellConfigured(cfg) && Steady(world.clock)
      requires careful ==> f.etag == "" && f.lastModified == ""
      modifies this`emitted, this`endings, this`trace, this`states, this`heard, this`ticks, f
      ensures Legal() && ticks >= old(ticks)
      ensures outcome == Recovered(ResolveVerdict(cfg.canon, world, old(f.url)))
      ensures emitted == old(emitted) + Counted(outcome) && endings == old(endings) + [ending]
      ensures Landed(cfg, me, trace, outcome, ending)
      ensures Finishes(world.writeOk, ending, err, world.clock(old(ticks))) && Charged(old(f.errorCount), f.errorCount, outcome, ending)
      ensures Told(cfg.trim, Behind(cfg.canon, world, old(f.url)), Texts(old(f.title), old(f.siteUrl), old(f.description), old(f.ttl)), f.disabled, f.url, ending) && Stored(f, ending)
      ensures outcome.Ended? && IsGood(outcome.result) && ending.Wrote? ==> EndsAt(cfg.canon, world, old(f.url), f.url)
    {
      hide Told, Stored;
      ghost var was := Texts(f.title, f.siteUrl, f.description, f.ttl);
      ghost var asked := f.url;
      err, outcome, ending := ResolveUnguarded(f);
      if outcome.Panicked? {
        err, outcome, ending := RecordPanic(f);
        ToldAnyway(cfg.trim, None, Behind(cfg.canon, world, asked), was, f.disabled, f.url, ending);
      }
    }

    method RecordPanic(f: MemFeed) returns (err: bool, outcome: Outcome, ending: Ending)
      requires Tracks(f) && WellConfigured(cfg)
      modifies this`emitted, this`endings, this`trace, this`states, this`ticks, f
      ensures Legal() && ticks >= old(ticks) && outcome == Ended(PollPanic, Internal)
      ensures emitted == old(emitted) + Counted(outcome) && endings == old(endings) + [ending]
      ensures Landed(cfg, me, trace, outcome, ending)
      ensures Finishes(world.writeOk, ending, err, world.clock(old(ticks))) && Charged(old(f.errorCount), f.errorCount, outcome, ending)
      ensures f.url == old(f.url)
      ensures Told(cfg.trim, None, Texts(old(f.title), old(f.siteUrl), old(f.description), old(f.ttl)), f.disabled, f.url, ending) && Stored(f, ending)
    {
      hide Told, Stored;
      var now := Now();
      err, outcome, ending := RecordErrorEmit(f, now, "panic", 0, PollPanic, Internal, true);
    }

    // ---- entry points ------------------------------------------------------

    /** ObserveFeedPoll, deferred by both entry points. */
    method ObserveFeedPoll(outcome: Outcome) returns (ghost added: seq<Metric>)
      requires outcome.Ended?
      modifies this`emitted
      ensures emitted == old(emitted) + [PollDuration] && added == Counted(outcome) + [PollDuration] && OnceEach(added, false, outcome)
    {
      emitted := emitted + [PollDuration];
      added := Counted(outcome) + [PollDuration];
      CountedOnce(outcome);
    }

    /** ResolveAndIngest without its duration. */
    method ResolveTimed(f: MemFeed) returns (err: bool, outcome: Outcome, ending: Ending)
      requires WellConfigured(cfg) && Steady(world.clock)
      modifies this, f
      ensures Legal() && origin == old(f.AsPoll(None))
      ensures careful <==> old(f.etag) == "" && old(f.lastModified) == ""
      ensures outcome == Recovered(ResolveVerdict(cfg.canon, world, old(f.url)))
      ensures emitted == old(emitted) + Counted(outcome)
      ensures endings == old(endings) + [ending] && Finishes(world.writeOk, ending, err, world.clock(old(ticks)))
      ensures Landed(cfg, me, trace, outcome, ending)
      ensures Charged(old(f.errorCount), f.errorCount, outcome, ending)
      ensures Told(cfg.trim, Behind(cfg.canon, world, old(f.url)), Texts(old(f.title), old(f.siteUrl), old(f.description), old(f.ttl)), f.disabled, f.url, ending) && Stored(f, ending)
      ensures outcome.Ended? && IsGood(outcome.result) && ending.Wrote? ==> EndsAt(cfg.canon, world, old(f.url), f.url)
    {
      hide Told, Stored;
      Begin(f, f.etag == "" && f.lastModified == "");
      var start := Now();
      assert start <= world.clock(ticks) && f.url == old(f.url) && f.errorCount == old(f.errorCount);
      err, outcome, ending := Resolve(f);
    }

    /** ResolveAndIngest, as a subscription starts it: one result and one duration,
        for every world. */
    method ResolveAndIngest(f: MemFeed) returns (err: bool, outcome: Outcome, ending: Ending, ghost added: seq<Metric>)
      requires WellConfigured(cfg) && Steady(world.clock)
      modifies this, f
      ensures Legal() && origin == old(f.AsPoll(None))
      ensures careful <==> old(f.etag) == "" && old(f.lastModified) == ""
      ensures outcome == Recovered(ResolveVerdict(cfg.canon, world, old(f.url)))
      ensures emitted == old(emitted) + added && OnceEach(added, false, outcome)
      ensures endings == old(endings) + [ending] && Finishes(world.writeOk, ending, err, world.clock(old(ticks)))
      ensures Landed(cfg, me, trace, outcome, ending)
      ensures Charged(old(f.errorCount), f.errorCount, outcome, ending)
      ensures Told(cfg.trim, Behind(cfg.canon, world, old(f.url)), Texts(old(f.title), old(f.siteUrl), old(f.description), old(f.ttl)), f.disabled, f.url, ending) && Stored(f, ending)
      ensures outcome.Ended? && IsGood(outcome.result) && ending.Wrote? ==> EndsAt(cfg.canon, world, old(f.url), f.url)
    {
      hide Told;
      ghost var url := f.url;
      err, outcome, ending := ResolveTimed(f);
      ResolveNeverSilent(cfg.canon, world, url);
      added := ObserveFeedPoll(outcome);
    }

    ghost method Begin(f: MemFeed, care: bool)
      modifies this`origin, this`states, this`heard, this`trace, this`careful
      ensures Tracks(f) && origin == f.AsPoll(None) && careful == care && heard == None
    {
      origin, states, heard, trace, careful := f.AsPoll(None), [f.AsPoll(None)], None, [], care;
    }

    /** Not a feed: look behind the page if the feed already failed, else an error. */
    method PollUnparsed(f: MemFeed, start: int, r: FetchResponse) returns (err: bool, outcome: Outcome, ending: Ending)
      requires Tracks(f) && WellConfigured(cfg) && Steady(world.clock)
      requires careful && f.errorCount > 0 ==> f.etag == "" && f.lastModified == ""
      modifies this`emitted, this`endings, this`trace, this`states, this`heard, this`ticks, f
      ensures Legal() && ticks >= old(ticks)
      ensures outcome == if r.html && old(f.errorCount) > 0 then Recovered(ResolveVerdict(cfg.canon, world, old(f.url)))
                         else Ended(PollParseError, ParseReason)
      ensures emitted == old(emitted) + Counted(outcome) && endings == old(endings) + [ending]
      ensures Finishes(world.writeOk, ending, err, S.Min(start, world.clock(old(ticks))))
      ensures Landed(cfg, me, trace, outcome, ending) && Charged(old(f.errorCount), f.errorCount, outcome, ending)
      ensures outcome.Ended? && IsGood(outcome.result) && ending.Wrote? ==> EndsAt(cfg.canon, world, old(f.url), f.url)
      ensures Told(cfg.trim, Behind(cfg.canon, world, old(f.url)), Texts(old(f.title), old(f.siteUrl), old(f.description), old(f.ttl)), f.disabled, f.url, ending) && Stored(f, ending)
    {
      hide Told, Stored;
      ghost var was := Texts(f.title, f.siteUrl, f.description, f.ttl);
      ghost var asked := f.url;
      if r.html && f.errorCount > 0 {
        err, outcome, ending := Resolve(f);
      } else {
        err, outcome, ending := RecordErrorEmit(f, start, "parse", 0, PollParseError, ParseReason, true);
        ToldAnyway(cfg.trim, None, Behind(cfg.canon, world, asked), was, f.disabled, f.url, ending);
      }
    }

    /** The body of a 200: ingest, rediscover or record. */
    method PollContents(f: MemFeed, start: int, r: FetchResponse) returns (err: bool, outcome: Outcome, ending: Ending)
      requires Tracks(f) && WellConfigured(cfg) && Steady(world.clock) && heard.Some? && Covers(cfg.canon, heard.value, f.url)
      requires r.etag == heard.value.etag && r.lastModified == heard.value.lastModified
      requires careful ==> f.errorCount == 0 || (f.etag == "" && f.lastModified == "")
      modifies this`emitted, this`endings, this`trace, this`states, this`heard, this`ticks, f
      ensures Legal() && ticks >= old(ticks)
      ensures outcome.Panicked? ==> Tracks(f) && f.errorCount == old(f.errorCount)
      ensures emitted == old(emitted) + Counted(outcome)
      ensures endings == old(endings) + (if outcome.Panicked? then [] else [ending])
      ensures Concluded(world.writeOk, outcome, err, ending, S.Min(start, world.clock(old(ticks))))
      ensures !outcome.Panicked? ==> Landed(cfg, me, trace, outcome, ending)
      ensures !outcome.Panicked? ==> Charged(old(f.errorCount), f.errorCount, outcome, ending)
      ensures if world.parse.Parsed? then f.url == old(f.url)
              else outcome.Ended? && IsGood(outcome.result) && ending.Wrote? ==> EndsAt(cfg.canon, world, old(f.url), f.url)
      ensures outcome.Panicked? ==> unchanged(f`title, f`siteUrl, f`description, f`ttl)
      ensures !outcome.Panicked? ==> Told(cfg.trim, Contents(cfg.canon, world, old(f.url)), Texts(old(f.title), old(f.siteUrl), old(f.description), old(f.ttl)), f.disabled, f.url, ending) && Stored(f, ending)
      ensures outcome == ContentVerdict(cfg.canon, world, r, old(f.url), old(f.errorCount))
    {
      hide Told, Stored, Landed, Charged, EndsAt, Resolution, RecordVerdict;
      match world.parse {
        case ParsePanicked =>
          return false, Panicked, Dropped;
        case ParseFailed =>
          err, outcome, ending := PollUnparsed(f, start, r);
        case Parsed(pf) =>
          err, outcome, ending := RecordSuccess(f, start, r, Some(pf));
      }
    }

    /** What follows a 200: adopt, parse, then ingest, rediscover or record. */
    method PollBody(f: MemFeed, start: int, r: FetchResponse) returns (err: bool, outcome: Outcome, ending: Ending)
      requires Tracks(f) && WellConfigured(cfg) && Steady(world.clock) && heard == Some(Heard(f.url, r))
      requires world.fetch == Fetched(r) && !r.notModified && r.status == 200
      requires careful ==> f.errorCount == 0 || (f.etag == "" && f.lastModified == "")
      modifies this`emitted, this`endings, this`trace, this`states, this`heard, this`ticks, f
      ensures Legal() && ticks >= old(ticks)
      ensures outcome.Panicked? ==> Tracks(f) && f.errorCount == old(f.errorCount)
      ensures emitted == old(emitted) + Counted(outcome)
      ensures endings == old(endings) + (if outcome.Panicked? then [] else [ending])
      ensures Concluded(world.writeOk, outcome, err, ending, S.Min(start, world.clock(old(ticks))))
      ensures !outcome.Panicked? ==> Landed(cfg, me, trace, outcome, ending)
      ensures !outcome.Panicked? ==> Charged(old(f.errorCount), f.errorCount, outcome, ending)
      ensures PolledAt(cfg.canon, world, old(f.url), outcome.Ended? && IsGood(outcome.result) && ending.Wrote?, f.url)
      ensures outcome.Panicked? ==> unchanged(f`title, f`siteUrl, f`description, f`ttl)
      ensures !outcome.Panicked? ==> Told(cfg.trim, Brought(cfg.canon, world, old(f.url)), Texts(old(f.title), old(f.siteUrl), old(f.description), old(f.ttl)), f.disabled, f.url, ending) && Stored(f, ending)
      ensures outcome == BodyVerdict(cfg.canon, world, r, old(f.url), old(f.errorCount))
    {
      hide Told, Stored, Landed, Charged, EndsAt, Contents, ContentVerdict;
      AdoptPermanentRedirect(f, r);
      err, outcome, ending := PollContents(f, start, r);
    }

    /** An answer that is no 200; only a 429 or 5xx may ask for time. */
    method RecordStatus(f: MemFeed, start: int, r: FetchResponse) returns (err: bool, outcome: Outcome, ending: Ending)
      requires Tracks(f) && WellConfigured(cfg) && r.status != 200
      modifies this`emitted, this`endings, this`trace, this`states, f
      ensures Legal() && f.url == old(f.url)
      ensures outcome == Ended(PollHTTPError, ClassifyStatus(r.status)) && Refused(r.status, outcome)
      ensures emitted == old(emitted) + Counted(outcome) && endings == old(endings) + [ending]
      ensures ending.Wrote? && ending.row.errorCount != 0 && Charged(old(f.errorCount), f.errorCount, outcome, ending)
      ensures Finishes(world.writeOk, ending, err, start) && Landed(cfg, me, trace, outcome, ending)
      ensures Waits(start, ending.next, f.errorCount, if r.status == 429 || 500 <= r.status then r.retryAfter else 0)
      ensures Told(cfg.trim, None, Texts(old(f.title), old(f.siteUrl), old(f.description), old(f.ttl)), f.disabled, f.url, ending) && Stored(f, ending)
    {
      hide Told, Stored, Finishes, Landed;
      var reason := ClassifyStatus(r.status);
      var retryAfter := if reason.RateLimited? || reason.HTTP5xx? then r.retryAfter else 0;
      err, outcome, ending := RecordErrorEmit(f, start, "http", retryAfter, PollHTTPError, reason, true);
    }

    /** What follows an answer of the server. */
    method PollAnswer(f: MemFeed, start: int, r: FetchResponse) returns (err: bool, outcome: Outcome, ending: Ending)
      requires Tracks(f) && WellConfigured(cfg) && Steady(world.clock) && world.fetch == Fetched(r)
      requires careful ==> f.errorCount == 0 || (f.etag == "" && f.lastModified == "")
      modifies this`emitted, this`endings, this`trace, this`states, this`heard, this`ticks, f
      ensures Legal() && ticks >= old(ticks)
      ensures outcome.Panicked? ==> Tracks(f) && f.errorCount == old(f.errorCount)
      ensures emitted == old(emitted) + Counted(outcome)
      ensures endings == old(endings) + (if outcome.Panicked? then [] else [ending])
      ensures Concluded(world.writeOk, outcome, err, ending, S.Min(start, world.clock(old(ticks))))
      ensures !outcome.Panicked? ==> Landed(cfg, me, trace, outcome, ending)
      ensures !outcome.Panicked? ==> Charged(old(f.errorCount), f.errorCount, outcome, ending)
      ensures PolledAt(cfg.canon, world, old(f.url), outcome.Ended? && IsGood(outcome.result) && ending.Wrote?, f.url)
      ensures !r.notModified && r.status != 200 ==>
                && Refused(r.status, outcome) && ending.Wrote?
                && Waits(start, ending.next, f.errorCount, if r.status == 429 || 500 <= r.status then r.retryAfter else 0)
      ensures outcome.Panicked? ==> unchanged(f`title, f`siteUrl, f`description, f`ttl)
      ensures !outcome.Panicked? ==> Told(cfg.trim, Brought(cfg.canon, world, old(f.url)), Texts(old(f.title), old(f.siteUrl), old(f.description), old(f.ttl)), f.disabled, f.url, ending) && Stored(f, ending)
      ensures outcome == PollVerdict(cfg.canon, world, old(f.url), old(f.errorCount))
    {
      hide Told, Stored, Landed, Charged, Waits, BodyVerdict, Resolution;
      ghost var was := Texts(f.title, f.siteUrl, f.description, f.ttl);
      ghost var asked := f.url;
      Hear(f, f.url, r);
      if r.notModified {
        AdoptPermanentRedirect(f, r);
        err, outcome, ending := RecordSuccess(f, start, r, None);
      } else if r.status != 200 {
        err, outcome, ending := RecordStatus(f, start, r);
        ToldAnyway(cfg.trim, None, Brought(cfg.canon, world, asked), was, f.disabled, f.url, ending);
      } else {
        err, outcome, ending := PollBody(f, start, r);
      }
    }

    /** PollFeed without its recover and duration. */
    method PollUnguarded(f: MemFeed, start: int) returns (err: bool, outcome: Outcome, ending: Ending)
      requires Tracks(f) && WellConfigured(cfg) && Steady(world.clock)
      requires careful ==> f.errorCount == 0 || (f.etag == "" && f.lastModified == "")
      modifies this`emitted, this`endings, this`trace, this`states, this`heard, this`ticks, f
      ensures Legal() && ticks >= old(ticks)
      ensures outcome.Panicked? ==> Tracks(f) && f.errorCount == old(f.errorCount)
      ensures emitted == old(emitted) + Counted(outcome)
      ensures endings == old(endings) + (if outcome.Panicked? then [] else [ending])
      ensures Concluded(world.writeOk, outcome, err, ending, S.Min(start, world.clock(old(ticks))))
      ensures !outcome.Panicked? ==> Landed(cfg, me, trace, outcome, ending)
      ensures !outcome.Panicked? ==> Charged(old(f.errorCount), f.errorCount, outcome, ending)
      ensures PolledAt(cfg.canon, world, old(f.url), outcome.Ended? && IsGood(outcome.result) && ending.Wrote?, f.url)
      ensures outcome.Panicked? ==> unchanged(f`title, f`siteUrl, f`description, f`ttl)
      ensures !outcome.Panicked? ==> Told(cfg.trim, Brought(cfg.canon, world, old(f.url)), Texts(old(f.title), old(f.siteUrl), old(f.description), old(f.ttl)), f.disabled, f.url, ending) && Stored(f, ending)
      ensures outcome == PollVerdict(cfg.canon, world, old(f.url), old(f.errorCount))
    {
      hide Told, Stored;
      ghost var was := Texts(f.title, f.siteUrl, f.description, f.ttl);
      ghost var asked := f.url;
      match world.fetch {
        case FetchPanicked =>
          return false, Panicked, Dropped;
        case FetchFailed(reason, canceled) =>
          err, outcome, ending := RecordErrorEmit(f, start, "fetch", 0, PollFetchError, reason, !canceled);
          ToldAnyway(cfg.trim, None, Brought(cfg.canon, world, asked), was, f.disabled, f.url, ending);
        case Fetched(r) =>
          err, outcome, ending := PollAnswer(f, start, r);
      }
    }

    /** PollFeed's recover: a panic becomes a recorded error. */
    method PollRecovered(f: MemFeed, start: int) returns (err: bool, outcome: Outcome, ending: Ending)
      requires Tracks(f) && WellConfigured(cfg) && Steady(world.clock)
      requires careful ==> f.errorCount == 0 || (f.etag == "" && f.lastModified == "")
      modifies this`emitted, this`endings, this`trace, this`states, this`heard, this`ticks, f
      ensures Legal() && Landed(cfg, me, trace, outcome, ending)
      ensures emitted == old(emitted) + Counted(outcome) && endings == old(endings) + [ending]
      ensures Finishes(world.writeOk, ending, err, S.Min(start, world.clock(old(ticks)))) && Charged(old(f.errorCount), f.errorCount, outcome, ending)
      ensures PolledAt(cfg.canon, world, old(f.url), outcome.Ended? && IsGood(outcome.result) && ending.Wrote?, f.url)
      ensures Told(cfg.trim, Brought(cfg.canon, world, old(f.url)), Texts(old(f.title), old(f.siteUrl), old(f.description), old(f.ttl)), f.disabled, f.url, ending) && Stored(f, ending)
      ensures outcome == Recovered(PollVerdict(cfg.canon, world, old(f.url), old(f.errorCount)))
    {
      hide Told, Stored;
      ghost var was := Texts(f.title, f.siteUrl, f.description, f.ttl);
      ghost var asked := f.url;
      err, outcome, ending := PollUnguarded(f, start);
      if outcome.Panicked? {
        err, outcome, ending := RecordPanic(f);
        ToldAnyway(cfg.trim, None, Brought(cfg.canon, world, asked), was, f.disabled, f.url, ending);
      }
    }

    /** PollFeed without its duration. */
    method PollTimed(f: MemFeed) returns (err: bool, outcome: Outcome, ending: Ending)
      requires WellConfigured(cfg) && Steady(world.clock)
      modifies this, f
      ensures Legal() && origin == old(f.AsPoll(None))
      ensures careful <==> old(f.errorCount) == 0 || (old(f.etag) == "" && old(f.lastModified) == "")
      ensures emitted == old(emitted) + Counted(outcome)
      ensures endings == old(endings) + [ending] && Finishes(world.writeOk, ending, err, world.clock(old(ticks)))
      ensures Landed(cfg, me, trace, outcome, ending)
      ensures Charged(old(f.errorCount), f.errorCount, outcome, ending)
      ensures PolledAt(cfg.canon, world, old(f.url), outcome.Ended? && IsGood(outcome.result) && ending.Wrote?, f.url)
      ensures Told(cfg.trim, Brought(cfg.canon, world, old(f.url)), Texts(old(f.title), old(f.siteUrl), old(f.description), old(f.ttl)), f.disabled, f.url, ending) && Stored(f, ending)
      ensures outcome == Recovered(PollVerdict(cfg.canon, world, old(f.url), old(f.errorCount)))
    {
      hide Told, Stored;
      Begin(f, f.errorCount == 0 || (f.etag == "" && f.lastModified == ""));
      var start := Now();
      assert start <= world.clock(ticks) && f.url == old(f.url) && f.errorCount == old(f.errorCount);
      err, outcome, ending := PollRecovered(f, start);
    }

    /** PollFeed. For every world, panics included: exactly one result and one
        duration, or neither when the shutdown cancelled the fetch; an error exactly
        when the result is bad; and the run ends with the row dropped, a store error
        returned, or a next check strictly after the poll's own clock reading. */
    method PollFeed(f: MemFeed) returns (err: bool, outcome: Outcome, ending: Ending, ghost added: seq<Metric>)
      requires WellConfigured(cfg) && Steady(world.clock)
      modifies this, f
      ensures Legal() && origin == old(f.AsPoll(None))
      ensures careful <==> old(f.errorCount) == 0 || (old(f.etag) == "" && old(f.lastModified) == "")
      ensures emitted == old(emitted) + added && OnceEach(added, Cancelled(world), outcome)
      ensures endings == old(endings) + [ending] && Finishes(world.writeOk, ending, err, world.clock(old(ticks)))
      ensures Landed(cfg, me, trace, outcome, ending)
      ensures Charged(old(f.errorCount), f.errorCount, outcome, ending)
      ensures PolledAt(cfg.canon, world, old(f.url), outcome.Ended? && IsGood(outcome.result) && ending.Wrote?, f.url)
      ensures Told(cfg.trim, Brought(cfg.canon, world, old(f.url)), Texts(old(f.title), old(f.siteUrl), old(f.description), old(f.ttl)), f.disabled, f.url, ending) && Stored(f, ending)
      ensures outcome == Recovered(PollVerdict(cfg.canon, world, old(f.url), old(f.errorCount)))
    {
      hide Told;
      ghost var url, errors := f.url, f.errorCount;
      err, outcome, ending := PollTimed(f);
      SilentIffCancelled(cfg.canon, world, url, errors);
      added := [];
      if !outcome.Silent? {
        added := ObserveFeedPoll(outcome);
      }
    }
  }

  /** The verdict on an answer that is neither a 304 nor a 200, by its number. */
  lemma StatusDecides(canon: string -> string, w: World, url: string, errors: nat)
    requires w.fetch.Fetched? && !w.fetch.response.notModified && w.fetch.response.status != 200
    ensures Refused(w.fetch.response.status, Recovered(PollVerdict(canon, w, url, errors)))
  {
  }

  /** The event stores the row that the service wrote, whole, where the feed is still at
      the poll's URL. */
  lemma EventIsTheWrite(sys: Shared.Config, s: System, me: nat, row: PollState)
    requires me in s.polls && Owns(s.db, s.polls[me].userId, s.polls[me].feedId)
    requires s.db.feeds[s.polls[me].feedId].feedUrl == s.polls[me].url
    ensures var x := s.polls[me]; var stored := s.db.(feeds := s.db.feeds[x.feedId := s.db.feeds[x.feedId].(poll := row)]);
            && (row.etag == x.etag && row.lastModified == x.lastModified ==> Step(sys, s, PollFail(me, row)).db == stored)
            && (x.heard.Some? && Covers(sys.canon, x.heard.value, x.url)
                && row.etag == (if x.heard.value.etag != "" then x.heard.value.etag else x.etag)
                && row.lastModified == (if x.heard.value.lastModified != "" then x.heard.value.lastModified else x.lastModified)
                ==> Step(sys, s, PollSucceed(me, row)).db == stored)
  {
  }

  lemma ResolveNeverSilent(canon: string -> string, w: World, url: string)
    ensures Recovered(ResolveVerdict(canon, w, url)).Ended?
  {
  }

  lemma SilentIffCancelled(canon: string -> string, w: World, url: string, errors: nat)
    ensures var o := Recovered(PollVerdict(canon, w, url, errors)); (o.Silent? <==> Cancelled(w)) && !o.Panicked?
  {
  }

  lemma SanitisedStep(sanitise: NewEntry -> Option<NewEntry>, l: Lookup, entries: seq<NewEntry>, k: nat)
    requires k < |entries|
    ensures var before := Sanitised(sanitise, I.Filter(l.existing, l.tombstoned, entries[..k]));
            var after := Sanitised(sanitise, I.Filter(l.existing, l.tombstoned, entries[..k + 1]));
            if !I.Keeps(l.existing, l.tombstoned, entries[k]) then after == before
            else after == if before.Some? && sanitise(entries[k]).Some? then Some(before.value + [sanitise(entries[k]).value]) else None
  {
    var kept := I.Filter(l.existing, l.tombstoned, entries[..k]);
    assert entries[..k + 1][..k] == entries[..k];
    var longer := kept + [entries[k]];
    assert longer[..|longer| - 1] == kept && longer[|longer| - 1] == entries[k];
    if I.Keeps(l.existing, l.tombstoned, entries[k]) {
      assert I.Filter(l.existing, l.tombstoned, entries[..k + 1]) == longer;
    } else {
      assert I.Filter(l.existing, l.tombstoned, entries[..k + 1]) == kept;
    }
  }

  /** Once the sanitiser panics on a kept item, the whole batch panics. */
  lemma {:induction false} SanitiserStops(sanitise: NewEntry -> Option<NewEntry>, l: Lookup, entries: seq<NewEntry>, k: nat)
    requires k <= |entries|
    requires Sanitised(sanitise, I.Filter(l.existing, l.tombstoned, entries[..k])).None?
    ensures Sanitised(sanitise, I.Filter(l.existing, l.tombstoned, entries)).None?
    decreases |entries| - k
  {
    if k == |entries| {
      assert entries[..k] == entries;
    } else {
      SanitisedStep(sanitise, l, entries, k);
      SanitiserStops(sanitise, l, entries, k + 1);
    }
  }
}
