/** Conditional-GET validators: a stored ETag or Last-Modified was served for the
    row's current feed_url, under any interleaving of edits, redirect adoptions and
    stale write-backs, as long as no resolve repoints a poll that carries some. */
module Validators {
  import opened Rows
  import opened Sql
  import opened System
  import opened Safety

  ghost predicate ETagServed(canon: string -> string, history: set<Response>, url: string, etag: string) {
    etag == "" || exists r | r in history :: r.etag == etag && Covers(canon, r, url)
  }

  ghost predicate LastModifiedServed(canon: string -> string, history: set<Response>, url: string, lm: string) {
    lm == "" || exists r | r in history :: r.lastModified == lm && Covers(canon, r, url)
  }

  ghost predicate Faithful(canon: string -> string, history: set<Response>, url: string, etag: string, lm: string) {
    ETagServed(canon, history, url, etag) && LastModifiedServed(canon, history, url, lm)
  }

  ghost predicate RowsFaithful(cfg: Config, s: System) {
    forall i | i in s.db.feeds ::
      Faithful(cfg.canon, s.history, s.db.feeds[i].feedUrl, s.db.feeds[i].poll.etag, s.db.feeds[i].poll.lastModified)
  }

  ghost predicate PollFaithful(cfg: Config, history: set<Response>, p: Poll) {
    && Faithful(cfg.canon, history, p.url, p.etag, p.lastModified)
    && (p.heard.Some? ==> p.heard.value in history)
  }

  ghost predicate AllFaithful(cfg: Config, s: System) {
    RowsFaithful(cfg, s) && forall p | p in s.polls :: PollFaithful(cfg, s.history, s.polls[p])
  }

  /** Validators move with a poll from one URL to another safely when there are none,
      or when the two are the same URL but for normalisation. */
  predicate CarriesSafely(canon: string -> string, p: Poll, url: string) {
    (p.etag == "" && p.lastModified == "") || canon(p.url) == url
  }

  /** A resolve that would change the poll's URL carries nothing over. */
  predicate ResolvesClean(cfg: Config, s: System, ev: Event) {
    ev.PollResolve? && ev.p in s.polls && s.polls[ev.p].heard.Some?
    ==> CarriesSafely(cfg.canon, s.polls[ev.p], ResolvedUrl(cfg.canon, s.polls[ev.p].heard.value))
  }

  ghost predicate RunResolvesClean(cfg: Config, s: System, evs: seq<Event>) {
    forall k | 0 <= k < |evs| :: ResolvesClean(cfg, Run(cfg, s, evs[..k]), evs[k])
  }

  // ---- single steps --------------------------------------------------------

  lemma HistoryGrows(canon: string -> string, h: set<Response>, h': set<Response>, url: string, etag: string, lm: string)
    requires h <= h' && Faithful(canon, h, url, etag, lm)
    ensures Faithful(canon, h', url, etag, lm)
  {
  }

  lemma RecordedFaithful(cfg: Config, history: set<Response>, p: Poll)
    requires PollFaithful(cfg, history, p) && p.heard.Some? && Covers(cfg.canon, p.heard.value, p.url)
    ensures PollFaithful(cfg, history, Recorded(p, p.heard.value))
  {
  }

  lemma ResolvedCovers(cfg: Config, r: Response)
    requires GoodConfig(cfg)
    ensures Covers(cfg.canon, r, ResolvedUrl(cfg.canon, r))
  {
  }

  /** The write-back's compare-and-swap: only a row still at the poll's URL takes
      the poll's validators. */
  lemma WriteBackFaithful(cfg: Config, s: System, p: Poll, written: PollState)
    requires RowsFaithful(cfg, s) && PollFaithful(cfg, s.history, p)
    ensures RowsFaithful(cfg, s.(db := WriteBack(s.db, p, written)))
  {
  }

  lemma SetFeedURLFaithful(cfg: Config, s: System, u: Id, id: Id, url: string, now: int)
    requires RowsFaithful(cfg, s)
    ensures RowsFaithful(cfg, s.(db := SetFeedURL(s.db, u, id, url, now).0))
  {
  }

  lemma HearFaithful(cfg: Config, s: System, p: nat, r: Response)
    requires AllFaithful(cfg, s) && p in s.polls
    ensures AllFaithful(cfg, PollStep(cfg, s, PollHear(p, r)))
  {
    var s' := PollStep(cfg, s, PollHear(p, r));
    forall i | i in s.db.feeds
      ensures Faithful(cfg.canon, s'.history, s.db.feeds[i].feedUrl, s.db.feeds[i].poll.etag, s.db.feeds[i].poll.lastModified)
    {
      HistoryGrows(cfg.canon, s.history, s'.history, s.db.feeds[i].feedUrl, s.db.feeds[i].poll.etag, s.db.feeds[i].poll.lastModified);
    }
    forall q | q in s'.polls ensures PollFaithful(cfg, s'.history, s'.polls[q]) {
      HistoryGrows(cfg.canon, s.history, s'.history, s.polls[q].url, s.polls[q].etag, s.polls[q].lastModified);
    }
  }

  /** A poll's copy of a faithful row is faithful. */
  lemma ReadFaithful(cfg: Config, s: System, p: nat, u: Id, id: Id)
    requires AllFaithful(cfg, s)
    ensures AllFaithful(cfg, PollStep(cfg, s, PollRead(p, u, id)))
  {
  }

  lemma SameUrlFaithful(canon: string -> string, h: set<Response>, url: string, url': string, etag: string, lm: string)
    requires canon(url) == canon(url') && Faithful(canon, h, url, etag, lm)
    ensures Faithful(canon, h, url', etag, lm)
  {
    assert forall r :: Covers(canon, r, url) ==> Covers(canon, r, url');
  }

  /** What a resolve does, when it carries no validators to another URL. */
  lemma ResolveFaithful(cfg: Config, s: System, p: nat, now: int)
    requires GoodConfig(cfg) && AllFaithful(cfg, s) && ResolvesClean(cfg, s, PollResolve(p, now)) && p in s.polls && s.polls[p].heard.Some?
    ensures AllFaithful(cfg, PollStep(cfg, s, PollResolve(p, now)))
  {
    var f, url := s.polls[p], ResolvedUrl(cfg.canon, s.polls[p].heard.value);
    if cfg.canon(f.url) == url {
      SameUrlFaithful(cfg.canon, s.history, f.url, url, f.etag, f.lastModified);
    }
    SetFeedURLFaithful(cfg, s, s.polls[p].userId, s.polls[p].feedId, ResolvedUrl(cfg.canon, s.polls[p].heard.value), now);
  }

  lemma AdoptFaithful(cfg: Config, s: System, p: nat, now: int)
    requires AllFaithful(cfg, s) && p in s.polls && Adopts(s.polls[p])
    ensures AllFaithful(cfg, PollStep(cfg, s, PollAdopt(p, now)))
  {
    SetFeedURLFaithful(cfg, s, s.polls[p].userId, s.polls[p].feedId, s.polls[p].heard.value.finalUrl, now);
  }

  lemma PollStepFaithful(cfg: Config, s: System, ev: Event)
    requires GoodConfig(cfg) && AllFaithful(cfg, s) && ResolvesClean(cfg, s, ev) && IsPollEvent(ev)
    ensures AllFaithful(cfg, PollStep(cfg, s, ev))
  {
    match ev
    case PollRead(p, u, id) => ReadFaithful(cfg, s, p, u, id);
    case PollHear(p, r) =>
      if p in s.polls { HearFaithful(cfg, s, p, r); }
    case PollAdopt(p, now) =>
      if p in s.polls && Adopts(s.polls[p]) { AdoptFaithful(cfg, s, p, now); }
    case PollResolve(p, now) =>
      if p in s.polls && s.polls[p].heard.Some? { ResolveFaithful(cfg, s, p, now); }
    case PollIngest(p, batch) =>
      if p in s.polls && s.polls[p].feedId in s.db.feeds {
        UpsertAllKeepsIdentity(cfg.plain, s.db, s.polls[p].feedId, s.db.feeds[s.polls[p].feedId].fullContent, batch);
      }
    case PollSucceed(p, w) =>
      if p in s.polls && s.polls[p].heard.Some? && Covers(cfg.canon, s.polls[p].heard.value, s.polls[p].url) {
        RecordedFaithful(cfg, s.history, s.polls[p]);
        WriteBackFaithful(cfg, s, Recorded(s.polls[p], s.polls[p].heard.value), w);
      }
    case PollFail(p, w) =>
      if p in s.polls { WriteBackFaithful(cfg, s, s.polls[p], w); }
    case _ =>
  }

  lemma StepFaithful(cfg: Config, s: System, ev: Event)
    requires GoodConfig(cfg) && AllFaithful(cfg, s) && ResolvesClean(cfg, s, ev)
    ensures AllFaithful(cfg, Step(cfg, s, ev))
  {
    hide PollStep, ScrapeStep;
    if IsPollEvent(ev) {
      PollStepFaithful(cfg, s, ev);
    } else if IsScrapeEvent(ev) {
      ScrapeStepKeepsFeeds(cfg, s, ev);
    } else if ev.EditURL? {
      SetFeedURLFaithful(cfg, s, ev.userId, ev.feedId, ev.url, ev.now);
    } else {
      UserStepKeepsUrls(cfg, s, ev);
    }
  }

  lemma ScrapeStepKeepsFeeds(cfg: Config, s: System, ev: Event)
    ensures var s' := ScrapeStep(cfg, s, ev); s'.db.feeds == s.db.feeds && s'.polls == s.polls && s'.history == s.history
  {
  }

  /** But for a URL edit, users bring in rows without validators, and leave the URL and
      the validators of the others alone. */
  lemma UserStepKeepsUrls(cfg: Config, s: System, ev: Event)
    requires !ev.EditURL?
    ensures var s' := UserStep(cfg, s, ev); s'.polls == s.polls && s'.history == s.history
    ensures forall i | i in UserStep(cfg, s, ev).db.feeds :: UserStepKeepsUrl(s.db, UserStep(cfg, s, ev).db.feeds[i], i)
  {
  }

  predicate UserStepKeepsUrl(db: Db, f: Feed, i: Id) {
    || (f.poll.etag == "" && f.poll.lastModified == "")
    || (i in db.feeds && f.feedUrl == db.feeds[i].feedUrl && f.poll == db.feeds[i].poll)
  }

  /** Main theorem on validators, over every run whose resolves are clean. */
  lemma {:induction false} RunFaithful(cfg: Config, s: System, evs: seq<Event>)
    requires GoodConfig(cfg) && AllFaithful(cfg, s) && RunResolvesClean(cfg, s, evs)
    ensures AllFaithful(cfg, Run(cfg, s, evs))
  {
    if evs != [] {
      var front := evs[..|evs| - 1];
      forall k | 0 <= k < |front| ensures ResolvesClean(cfg, Run(cfg, s, front[..k]), front[k]) {
        assert front[..k] == evs[..k];
      }
      RunFaithful(cfg, s, front);
      StepFaithful(cfg, Run(cfg, s, front), evs[|evs| - 1]);
    }
  }

  // ---- the resolve that carries validators over ----------------------------

  /** The poll after a successful resolve to `r`'s feed and recordSuccess. */
  function AfterResolve(cfg: Config, p: Poll, r: Response): Poll {
    Recorded(p.(url := ResolvedUrl(cfg.canon, r), heard := Some(r)), r)
  }

  /** resolveAndIngest keeps the in-memory validators of the old URL (unlike
      adoptPermanentRedirect). What it writes back is faithful to the new URL, for every
      past that made the poll faithful and every response of the new feed, exactly
      when the poll carries no validators or the URL only lacked normalisation. */
  lemma ResolveFaithfulIff(cfg: Config, p: Poll, url: string)
    requires GoodConfig(cfg) && cfg.canon(url) == url
    ensures (forall history, r | Faithful(cfg.canon, history, p.url, p.etag, p.lastModified) && ResolvedUrl(cfg.canon, r) == url
               :: Faithful(cfg.canon, history + {r}, url, AfterResolve(cfg, p, r).etag, AfterResolve(cfg, p, r).lastModified))
            <==> CarriesSafely(cfg.canon, p, url)
  {
    if CarriesSafely(cfg.canon, p, url) {
      forall history, r | Faithful(cfg.canon, history, p.url, p.etag, p.lastModified) && ResolvedUrl(cfg.canon, r) == url
        ensures Faithful(cfg.canon, history + {r}, url, AfterResolve(cfg, p, r).etag, AfterResolve(cfg, p, r).lastModified)
      {
        CarriedFaithful(cfg, history, p, r);
      }
    } else {
      var own := Response(p.url, p.url, false, p.etag, p.lastModified);
      var silent := Response(url, url, false, "", "");
      assert Covers(cfg.canon, own, p.url) && Faithful(cfg.canon, {own}, p.url, p.etag, p.lastModified);
      assert ResolvedUrl(cfg.canon, silent) == url;
      var after := AfterResolve(cfg, p, silent);
      assert after.etag == p.etag && after.lastModified == p.lastModified;
      assert !Faithful(cfg.canon, {own} + {silent}, url, after.etag, after.lastModified);
    }
  }

  lemma CarriedFaithful(cfg: Config, history: set<Response>, p: Poll, r: Response)
    requires GoodConfig(cfg) && Faithful(cfg.canon, history, p.url, p.etag, p.lastModified)
    requires CarriesSafely(cfg.canon, p, ResolvedUrl(cfg.canon, r))
    ensures var after := AfterResolve(cfg, p, r);
            Faithful(cfg.canon, history + {r}, ResolvedUrl(cfg.canon, r), after.etag, after.lastModified)
  {
    var url := ResolvedUrl(cfg.canon, r);
    if cfg.canon(p.url) == url {
      SameUrlFaithful(cfg.canon, history, p.url, url, p.etag, p.lastModified);
    }
    HistoryGrows(cfg.canon, history, history + {r}, url, p.etag, p.lastModified);
    ResolvedCovers(cfg, r);
    assert r in history + {r};
  }

  lemma RunSnoc(cfg: Config, s: System, evs: seq<Event>, ev: Event)
    ensures Run(cfg, s, evs + [ev]) == Step(cfg, Run(cfg, s, evs), ev)
  {
    assert (evs + [ev])[..|evs + [ev]| - 1] == evs;
  }

  lemma {:induction false} RunAppend(cfg: Config, s: System, a: seq<Event>, b: seq<Event>)
    ensures Run(cfg, s, a + b) == Run(cfg, Run(cfg, s, a), b)
  {
    hide Step;
    if b == [] {
      assert a + b == a;
    } else {
      RunAppend(cfg, s, a, b[..|b| - 1]);
      assert (a + b)[..|a + b| - 1] == a + b[..|b| - 1];
    }
  }

  /** A validator the poll carries that `r` does not replace and `url` never served. */
  ghost predicate CarriesUnserved(canon: string -> string, history: set<Response>, f: Poll, r: Response, url: string) {
    || (r.etag == "" && !ETagServed(canon, history, url, f.etag))
    || (r.lastModified == "" && !LastModifiedServed(canon, history, url, f.lastModified))
  }

  /** Wherever a poll carries a validator into a resolve to an unserved, untaken URL
      whose response has none, the row ends up with one that its URL never served. */
  lemma ResolveLeaks(cfg: Config, s: System, p: nat, r: Response, now: int, batch: seq<NewEntry>, written: PollState)
    requires GoodConfig(cfg) && p in s.polls
    requires var f := s.polls[p]; var url := ResolvedUrl(cfg.canon, r);
             && Owns(s.db, f.userId, f.feedId) && !UrlTaken(s.db, f.userId, url, f.feedId)
             && url != f.url && CarriesUnserved(cfg.canon, s.history, f, r, url)
    ensures !RowsFaithful(cfg, Run(cfg, s, [PollHear(p, r), PollResolve(p, now), PollIngest(p, batch), PollSucceed(p, written)]))
  {
    FourSteps(cfg, s, PollHear(p, r), PollResolve(p, now), PollIngest(p, batch), PollSucceed(p, written));
    var s1 := Step(cfg, s, PollHear(p, r));
    var f, url := s.polls[p], ResolvedUrl(cfg.canon, r);
    assert forall q | q in s1.history :: q in s.history || q == r;
    LeakAfterHearing(cfg, s1, p, r, now, batch, written);
  }

  lemma TwoSteps(cfg: Config, s: System, a: Event, b: Event)
    ensures Run(cfg, s, [a, b]) == Step(cfg, Step(cfg, s, a), b)
  {
    RunSnoc(cfg, s, [], a);
    RunSnoc(cfg, s, [a], b);
    assert [] + [a] == [a] && [a] + [b] == [a, b];
  }

  lemma ThreeSteps(cfg: Config, s: System, a: Event, b: Event, c: Event)
    ensures Run(cfg, s, [a, b, c]) == Step(cfg, Step(cfg, Step(cfg, s, a), b), c)
  {
    TwoSteps(cfg, s, a, b);
    RunSnoc(cfg, s, [a, b], c);
    assert [a, b] + [c] == [a, b, c];
  }

  lemma FourSteps(cfg: Config, s: System, a: Event, b: Event, c: Event, d: Event)
    ensures Run(cfg, s, [a, b, c, d]) == Step(cfg, Step(cfg, Step(cfg, Step(cfg, s, a), b), c), d)
  {
    ThreeSteps(cfg, s, a, b, c);
    RunSnoc(cfg, s, [a, b, c], d);
    assert [a, b, c] + [d] == [a, b, c, d];
  }

  /** Ingesting leaves feeds, polls and history alone. */
  lemma IngestKeepsFeeds(cfg: Config, s: System, p: nat, batch: seq<NewEntry>)
    requires p in s.polls
    ensures var s' := Step(cfg, s, PollIngest(p, batch)); s'.db.feeds == s.db.feeds && s'.polls == s.polls && s'.history == s.history
  {
    if s.polls[p].feedId in s.db.feeds {
      UpsertAllKeepsIdentity(cfg.plain, s.db, s.polls[p].feedId, s.db.feeds[s.polls[p].feedId].fullContent, batch);
    }
  }

  lemma LeakAfterHearing(cfg: Config, s: System, p: nat, r: Response, now: int, batch: seq<NewEntry>, written: PollState)
    requires GoodConfig(cfg) && p in s.polls && s.polls[p].heard == Some(r)
    requires var f := s.polls[p]; var url := ResolvedUrl(cfg.canon, r);
             && Owns(s.db, f.userId, f.feedId) && !UrlTaken(s.db, f.userId, url, f.feedId)
             && url != f.url && CarriesUnserved(cfg.canon, s.history, f, r, url)
    ensures !RowsFaithful(cfg, Step(cfg, Step(cfg, Step(cfg, s, PollResolve(p, now)), PollIngest(p, batch)), PollSucceed(p, written)))
  {
    var f := s.polls[p];
    var url := ResolvedUrl(cfg.canon, r);
    var s1 := Step(cfg, s, PollResolve(p, now));
    assert s1.polls[p] == f.(url := url) && s1.db.feeds[f.feedId].feedUrl == url;
    IngestKeepsFeeds(cfg, s1, p, batch);
    var s2 := Step(cfg, s1, PollIngest(p, batch));
    var s3 := Step(cfg, s2, PollSucceed(p, written));
    ResolvedCovers(cfg, r);
    WroteBack(cfg, s2, p, written);
    var row := s3.db.feeds[f.feedId];
    assert s3.history == s.history && row.feedUrl == url;
    assert (r.etag == "" ==> row.poll.etag == f.etag) && (r.lastModified == "" ==> row.poll.lastModified == f.lastModified);
    assert !Faithful(cfg.canon, s3.history, row.feedUrl, row.poll.etag, row.poll.lastModified);
  }

  lemma WroteBack(cfg: Config, s: System, p: nat, written: PollState)
    requires p in s.polls && s.polls[p].heard.Some? && Covers(cfg.canon, s.polls[p].heard.value, s.polls[p].url)
    requires var f := s.polls[p]; Owns(s.db, f.userId, f.feedId) && s.db.feeds[f.feedId].feedUrl == f.url
    ensures var f := Recorded(s.polls[p], s.polls[p].heard.value); var s' := Step(cfg, s, PollSucceed(p, written));
            && s'.db.feeds == s.db.feeds[f.feedId := s.db.feeds[f.feedId].(poll := written.(etag := f.etag, lastModified := f.lastModified))]
            && s'.polls == s.polls[p := f] && s'.history == s.history
  {
  }

  // ---- who may change what -------------------------------------------------

  ghost predicate UserColumnsKept(a: Db, b: Db) {
    forall i | i in a.feeds && i in b.feeds ::
      b.feeds[i].(feedUrl := a.feeds[i].feedUrl, poll := a.feeds[i].poll) == a.feeds[i]
  }

  lemma PollStepKeepsUserColumns(cfg: Config, s: System, ev: Event)
    ensures UserColumnsKept(s.db, PollStep(cfg, s, ev).db)
  {
    if ev.PollIngest? && ev.p in s.polls && s.polls[ev.p].feedId in s.db.feeds {
      UpsertAllKeepsIdentity(cfg.plain, s.db, s.polls[ev.p].feedId, s.db.feeds[s.polls[ev.p].feedId].fullContent, ev.batch);
    }
  }

  /** Polls and scrapes never touch a user-owned column: title override, category,
      full-content flag, owner, creation time. */
  lemma BackgroundKeepsUserColumns(cfg: Config, s: System, ev: Event)
    requires IsPollEvent(ev) || IsScrapeEvent(ev)
    ensures UserColumnsKept(s.db, Step(cfg, s, ev).db)
  {
    hide PollStep, ScrapeStep;
    if IsPollEvent(ev) {
      PollStepKeepsUserColumns(cfg, s, ev);
    } else {
      ScrapeStepKeepsFeeds(cfg, s, ev);
    }
  }

  /** A poll still holding another URL cannot write anything into the row, so a
      URL edit survives every write-back of the polls it overtook. */
  lemma StaleWriteBackIsLost(cfg: Config, s: System, ev: Event, p: nat)
    requires (ev.PollSucceed? || ev.PollFail?) && ev.p == p && p in s.polls
    requires s.polls[p].feedId in s.db.feeds && s.db.feeds[s.polls[p].feedId].feedUrl != s.polls[p].url
    ensures Step(cfg, s, ev).db == s.db
  {
  }
}
