/** The scrape pipeline: fetch the article, extract, sanitise, persist, or record a
    failure. Every attempt writes the entry once and is counted once. */
module Scraping {
  import opened Rows
  import opened System
  import Sql
  import S = Schedule

  datatype ScrapeResult = ScrapeSuccess | ScrapeFetchError | ScrapeHTTPError | ScrapeExtractError | ScrapeRetried | ScrapeFailed

  datatype Reason = FetchReason(kind: string) | HTTP4xx | HTTP5xx | RateLimited | ParseReason | Internal

  datatype Metric = ScrapeDone(result: ScrapeResult) | ScrapeDuration | ErrorSeen(reason: Reason)

  datatype PageResponse = PageResponse(status: int, html: bool, retryAfter: int)

  datatype PageResult = PagePanicked | PageFailed(reason: Reason, canceled: bool) | Page(response: PageResponse)

  /** Extracting and sanitising: a panic, an error or nothing left, or an article. */
  datatype ArticleResult = ArticlePanicked | NoArticle | Article(safe: string)

  datatype World = World(clock: nat -> int, page: PageResult, article: ArticleResult, saveOk: bool, writeOk: bool)

  datatype ScrapeConfig = ScrapeConfig(maxAttempts: nat, baseBackoff: int, maxBackoff: int, jitter: int -> int)

  ghost predicate WellConfigured(cfg: ScrapeConfig) {
    && 0 < cfg.maxAttempts && 0 < cfg.baseBackoff < S.TWO_TO_63 && 0 < cfg.maxBackoff <= S.TWO_TO_62
    && S.Jitters(cfg.jitter)
  }

  datatype Outcome = Panicked | Silent | Ended(result: ScrapeResult, reason: Reason)

  function Counted(o: Outcome): seq<Metric> {
    if o.Ended? then [ScrapeDone(o.result)] + (if o.result.ScrapeSuccess? then [] else [ErrorSeen(o.reason)]) else []
  }

  function ClassifyStatus(status: int): Reason {
    if status == 429 then RateLimited else if status >= 500 then HTTP5xx else if status >= 400 then HTTP4xx else Internal
  }

  // ---- reading the counters back -------------------------------------------

  function Results(ms: seq<Metric>): seq<ScrapeResult> {
    if ms == [] then [] else (if ms[0].ScrapeDone? then [ms[0].result] else []) + Results(ms[1..])
  }

  function Reasons(ms: seq<Metric>): seq<Reason> {
    if ms == [] then [] else (if ms[0].ErrorSeen? then [ms[0].reason] else []) + Reasons(ms[1..])
  }

  function Durations(ms: seq<Metric>): nat {
    if ms == [] then 0 else (if ms[0].ScrapeDuration? then 1 else 0) + Durations(ms[1..])
  }

  /** What one attempt may add to the metrics: a result with its duration, and an
      error exactly beside anything but a success; or, cancelled, nothing. */
  predicate OnceEach(ms: seq<Metric>, cancelled: bool, o: Outcome) {
    if cancelled then Results(ms) == [] && Reasons(ms) == [] && Durations(ms) == 0
    else
      && o.Ended? && Results(ms) == [o.result] && Durations(ms) == 1
      && Reasons(ms) == if o.result.ScrapeSuccess? then [] else [o.reason]
  }

  lemma CountedOnce(o: Outcome)
    requires o.Ended?
    ensures OnceEach(Counted(o) + [ScrapeDuration], false, o)
  {
    var ms := Counted(o) + [ScrapeDuration];
    var last := [ScrapeDuration];
    assert last[1..] == [];
    assert Results(last) == [] && Reasons(last) == [] && Durations(last) == 1;
    if o.result.ScrapeSuccess? {
      assert ms[1..] == last;
    } else {
      var error := [ErrorSeen(o.reason)] + last;
      assert error[1..] == last;
      assert Results(error) == [] && Reasons(error) == [o.reason] && Durations(error) == 1;
      assert ms == [ScrapeDone(o.result)] + error;
      assert ms[1..] == error;
    }
  }

  predicate IsTransient(w: World) {
    w.page.Page? && w.page.response.status != 200 && ClassifyStatus(w.page.response.status) in {RateLimited, HTTP5xx}
  }

  /** ExtractBackoff without jitter: base * 2^(attempt-1), at most the cap. */
  function IdealBackoff(cfg: ScrapeConfig, attempt: nat): int
    requires 0 < attempt
  {
    S.Min(cfg.baseBackoff * S.Pow2(attempt - 1), cfg.maxBackoff)
  }

  /** How long a transient failure waits: the base or a longer Retry-After, capped. */
  function TransientWait(cfg: ScrapeConfig, retryAfter: int): int {
    S.Min(S.Max(cfg.baseBackoff, retryAfter), cfg.maxBackoff)
  }

  /** A host that asks for time gets it up to the cap, and never less than the base. */
  lemma TransientWaitHonours(cfg: ScrapeConfig, retryAfter: int)
    requires 0 < cfg.baseBackoff && 0 < cfg.maxBackoff
    ensures var wait := TransientWait(cfg, retryAfter);
            && 0 < wait <= cfg.maxBackoff
            && (cfg.baseBackoff <= cfg.maxBackoff ==> wait >= cfg.baseBackoff)
            && (wait < retryAfter <==> cfg.maxBackoff < retryAfter)
  {
  }

  /** Which result and reason the world's answers are counted under. */
  predicate Attributed(w: World, o: Outcome) {
    match w.page
    case PagePanicked => o == Ended(ScrapeFailed, Internal)
    case PageFailed(reason, canceled) => o == if canceled then Silent else Ended(ScrapeFetchError, reason)
    case Page(r) =>
      if IsTransient(w) then o == Ended(ScrapeRetried, ClassifyStatus(r.status))
      else if r.status != 200 then o == Ended(ScrapeHTTPError, ClassifyStatus(r.status))
      else if !r.html then o == Ended(ScrapeExtractError, ParseReason)
      else match w.article
        case ArticlePanicked => o == Ended(ScrapeFailed, Internal)
        case NoArticle => o == Ended(ScrapeExtractError, ParseReason)
        case Article(_) => o == if w.saveOk then Ended(ScrapeSuccess, Internal) else Ended(ScrapeFailed, Internal)
  }

  predicate Saves(w: World) {
    w.page.Page? && w.page.response.status == 200 && w.page.response.html && w.article.Article? && w.saveOk
  }

  /** The columns of a counted failure: one attempt more, terminal at the cap, else due
      no earlier than the backoff asks. */
  predicate Charges(cfg: ScrapeConfig, attempts: nat, started: int, x: Extraction) {
    && x == FailedExtraction(cfg.maxAttempts, attempts, NextOf(x), x.error)
    && (attempts + 1 < cfg.maxAttempts ==> NextOf(x) >= S.ToUnix(started + IdealBackoff(cfg, attempts + 1)))
  }

  /** The columns of a 429 or 5xx: the same attempts, due after the transient wait. */
  predicate Defers(cfg: ScrapeConfig, attempts: nat, started: int, retryAfter: int, x: Extraction) {
    x == Extraction(ExtractPending, attempts, Some(NextOf(x)), x.error) && NextOf(x) >= S.ToUnix(started + TransientWait(cfg, retryAfter))
  }

  function NextOf(x: Extraction): int {
    if x.nextAt.Some? then x.nextAt.value else 0
  }

  /** What the attempt writes: the article, or the extraction columns once; and the one
      event it thereby performs in the shared system, none if that write failed. */
  ghost predicate Performed(w: World, cfg: ScrapeConfig, me: nat, attempts: nat, started: int,
                            writes: seq<Extraction>, trace: seq<Event>, err: bool) {
    if Saves(w) then !err && writes == [] && trace == [ScrapeSave(me, w.article.safe)]
    else
      && |writes| == 1 && err == !w.writeOk
      && if IsTransient(w) then
           && Defers(cfg, attempts, started, w.page.response.retryAfter, writes[0])
           && trace == if err then [] else [ScrapeRetry(me, NextOf(writes[0]), writes[0].error)]
         else
           && Charges(cfg, attempts, started, writes[0])
           && trace == if err then [] else [ScrapeFail(me, NextOf(writes[0]), writes[0].error)]
  }

  /** What an answer that is no 200 leads to, by its number: a 429 or 5xx is tried again
      and charges nothing, anything else is a failed attempt. */
  predicate ByStatus(status: int, attempts: nat, o: Outcome, writes: seq<Extraction>) {
    |writes| == 1
    && if status == 429 || 500 <= status then
         && o == Ended(ScrapeRetried, if status == 429 then RateLimited else HTTP5xx)
         && writes[0].state.ExtractPending? && writes[0].attempts == attempts
       else
         && o == Ended(ScrapeHTTPError, if 400 <= status < 500 then HTTP4xx else Internal)
         && writes[0].attempts == attempts + 1
  }

  /** The event does to the row exactly what the service wrote. */
  lemma EventIsTheWrite(sys: Config, s: System, me: nat, x: Extraction)
    requires me in s.scrapes && s.scrapes[me].attempts >= 0
    ensures x == FailedExtraction(sys.max, s.scrapes[me].attempts, NextOf(x), x.error) ==>
              Step(sys, s, ScrapeFail(me, NextOf(x), x.error)).db == Sql.UpdateExtractState(s.db, s.scrapes[me].entryId, x)
    ensures x == Extraction(ExtractPending, s.scrapes[me].attempts, Some(NextOf(x)), x.error) ==>
              Step(sys, s, ScrapeRetry(me, NextOf(x), x.error)).db == Sql.UpdateExtractState(s.db, s.scrapes[me].entryId, x)
  {
  }

  ghost predicate Steady(clock: nat -> int) {
    forall i, j | i <= j :: clock(i) <= clock(j)
  }

  class Service {
    const cfg: ScrapeConfig
    const world: World
    const me: nat
    var ticks: nat
    var emitted: seq<Metric>
    var writes: seq<Extraction>  // the UpdateExtractState calls
    ghost var trace: seq<Event>  // the events performed

    constructor (cfg: ScrapeConfig, world: World, me: nat)
      ensures this.cfg == cfg && this.world == world && this.me == me
      ensures emitted == [] && writes == [] && trace == []
    {
      this.cfg, this.world, this.me := cfg, world, me;
      ticks, emitted, writes, trace := 0, [], [], [];
    }

    method Now() returns (t: int)
      modifies this`ticks
      ensures t == world.clock(old(ticks)) && ticks == old(ticks) + 1
    {
      t := world.clock(ticks);
      ticks := ticks + 1;
    }

    method CountResult(result: ScrapeResult)
      modifies this`emitted
      ensures emitted == old(emitted) + [ScrapeDone(result)]
    {
      emitted := emitted + [ScrapeDone(result)];
    }

    method ErrorObserved(reason: Reason)
      modifies this`emitted
      ensures emitted == old(emitted) + [ErrorSeen(reason)]
    {
      emitted := emitted + [ErrorSeen(reason)];
    }

    method Backoff(attempt: nat) returns (d: int)
      requires WellConfigured(cfg) && 0 < attempt
      ensures IdealBackoff(cfg, attempt) <= d <= cfg.maxBackoff + cfg.maxBackoff / 4
    {
      d := S.ExtractBackoff(cfg.baseBackoff, cfg.maxBackoff, attempt, cfg.jitter);
      S.DoublingIsIdeal(cfg.baseBackoff, cfg.maxBackoff, attempt - 1);
      S.Growing(cfg.baseBackoff, attempt - 1);
      var c := IdealBackoff(cfg, attempt);
      assert 0 <= cfg.jitter(c) <= c / 4;
      S.WrapInRange(c + cfg.jitter(c));
    }

    /** failEmit: one more attempt; terminal at the cap, else retried with backoff. */
    method FailEmit(attempts: nat, msg: string, result: ScrapeResult, reason: Reason, emit: bool)
      returns (err: bool, outcome: Outcome)
      requires WellConfigured(cfg) && Steady(world.clock) && trace == [] && writes == [] && !result.ScrapeSuccess?
      modifies this
      ensures err == !world.writeOk
      ensures outcome == (if emit then Ended(result, reason) else Silent) && emitted == old(emitted) + Counted(outcome)
      ensures |writes| == 1 && Charges(cfg, attempts, world.clock(old(ticks)), writes[0]) && writes[0].error == msg
      ensures trace == if err then [] else [ScrapeFail(me, NextOf(writes[0]), writes[0].error)]
    {
      var x;
      if attempts + 1 >= cfg.maxAttempts {
        x := Extraction(ExtractFailed, attempts + 1, None, msg);
      } else {
        var now := Now();
        var d := Backoff(attempts + 1);
        x := Extraction(ExtractPending, attempts + 1, Some(S.ToUnix(now + d)), msg);
      }
      writes := writes + [x];
      err := !world.writeOk;
      if !err {
        trace := trace + [ScrapeFail(me, NextOf(x), msg)];
      }
      outcome := Silent;
      if emit {
        CountResult(result);
        ErrorObserved(reason);
        outcome := Ended(result, reason);
      }
    }

    /** retryLater: reschedule without charging an attempt. */
    method RetryLater(attempts: nat, msg: string, retryAfter: int, reason: Reason) returns (err: bool, outcome: Outcome)
      requires trace == [] && writes == []
      modifies this
      ensures err == !world.writeOk
      ensures outcome == Ended(ScrapeRetried, reason) && emitted == old(emitted) + Counted(outcome)
      ensures |writes| == 1 && Defers(cfg, attempts, world.clock(old(ticks)), retryAfter, writes[0]) && writes[0].error == msg
      ensures trace == if err then [] else [ScrapeRetry(me, NextOf(writes[0]), msg)]
    {
      var now := Now();
      var next := S.ToUnix(now + S.Min(S.Max(cfg.baseBackoff, retryAfter), cfg.maxBackoff));
      writes := writes + [Extraction(ExtractPending, attempts, Some(next), msg)];
      err := !world.writeOk;
      if !err {
        trace := trace + [ScrapeRetry(me, next, msg)];
      }
      CountResult(ScrapeRetried);
      ErrorObserved(reason);
      outcome := Ended(ScrapeRetried, reason);
    }

    /** ScrapeEntry without its recover and duration. */
    method ScrapeUnguarded(attempts: nat) returns (err: bool, outcome: Outcome)
      requires WellConfigured(cfg) && Steady(world.clock) && trace == [] && writes == []
      modifies this
      ensures emitted == old(emitted) + Counted(outcome)
      ensures outcome.Panicked? ==> trace == [] && writes == [] && ticks == old(ticks)
      ensures if outcome.Panicked?
              then world.page.PagePanicked? || (world.page.Page? && world.page.response.status == 200
                                                && world.page.response.html && world.article.ArticlePanicked?)
              else Attributed(world, outcome)
                   && Performed(world, cfg, me, attempts, world.clock(old(ticks)), writes, trace, err)
      ensures world.page.Page? && world.page.response.status != 200 ==> ByStatus(world.page.response.status, attempts, outcome, writes)
    {
      if world.page.PagePanicked? {
        return false, Panicked;
      }
      if world.page.PageFailed? {
        err, outcome := FailEmit(attempts, "fetch", ScrapeFetchError, world.page.reason, !world.page.canceled);
        return;
      }
      var r := world.page.response;
      if r.status != 200 {
        var reason := ClassifyStatus(r.status);
        if reason.RateLimited? || reason.HTTP5xx? {
          err, outcome := RetryLater(attempts, "status", r.retryAfter, reason);
        } else {
          err, outcome := FailEmit(attempts, "status", ScrapeHTTPError, reason, true);
        }
        return;
      }
      if !r.html {
        err, outcome := FailEmit(attempts, "content-type", ScrapeExtractError, ParseReason, true);
        return;
      }
      match world.article {
        case ArticlePanicked =>
          return false, Panicked;
        case NoArticle =>
          err, outcome := FailEmit(attempts, "extract", ScrapeExtractError, ParseReason, true);
        case Article(safe) =>
          if !world.saveOk {
            err, outcome := FailEmit(attempts, "persist", ScrapeFailed, Internal, true);
            return;
          }
          trace := trace + [ScrapeSave(me, safe)];
          CountResult(ScrapeSuccess);
          err, outcome := false, Ended(ScrapeSuccess, Internal);
      }
    }

    method ObserveArticleScrape(outcome: Outcome) returns (ghost added: seq<Metric>)
      requires outcome.Ended?
      modifies this`emitted
      ensures emitted == old(emitted) + [ScrapeDuration] && added == Counted(outcome) + [ScrapeDuration] && OnceEach(added, false, outcome)
    {
      emitted := emitted + [ScrapeDuration];
      added := Counted(outcome) + [ScrapeDuration];
      CountedOnce(outcome);
    }

    /** ScrapeEntry. For every world, panics included: one result and one duration, or
        neither when the shutdown cancelled the fetch; an error exactly when it did
        not succeed; and one write, which charges an attempt unless it saved the
        article or the host answered 429 or 5xx. */
    method ScrapeEntry(attempts: nat) returns (err: bool, outcome: Outcome, ghost added: seq<Metric>)
      requires WellConfigured(cfg) && Steady(world.clock)
      modifies this
      ensures Attributed(world, outcome)
      ensures emitted == old(emitted) + added && OnceEach(added, world.page.PageFailed? && world.page.canceled, outcome)
      ensures Performed(world, cfg, me, attempts, world.clock(old(ticks) + 1), writes, trace, err)
      ensures world.page.Page? && world.page.response.status != 200 ==> ByStatus(world.page.response.status, attempts, outcome, writes)
    {
      trace, writes := [], [];
      var start := Now();
      err, outcome := ScrapeUnguarded(attempts);
      if outcome.Panicked? {
        err, outcome := FailEmit(attempts, "panic", ScrapeFailed, Internal, true);
      }
      added := [];
      if !outcome.Silent? {
        added := ObserveArticleScrape(outcome);
      }
    }
  }
}
