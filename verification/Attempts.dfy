/** Whole poll attempts inside runs of everyone: a run whose attempts each resolve
    cleanly keeps every stored validator faithful, and a run of three attempts shows
    what happens when one does not. */
module Attempts {
  import opened Rows
  import opened Sql
  import opened System
  import opened Validators
  import opened Actors
  import P = Polling

  // ---- runs made of clean attempts -----------------------------------------

  /** One attempt of a run: the index of the event that read its feed, and its
      in-memory feeds from there on. Each attempt has a poll id of its own. */
  datatype Attempt = Attempt(start: nat, states: seq<Poll>)

  /** Poll `p` of the run: it reads its feed and then performs a path that the store
      accepts and that resolves cleanly. */
  ghost predicate Takes(cfg: Config, evs: seq<Event>, p: nat, a: Attempt) {
    && a.start < |evs| && evs[a.start].PollRead? && evs[a.start].p == p
    && (forall k | 0 <= k < a.start :: !IsMine(evs[k], p))
    && var s, rest := Run(cfg, Initial(cfg), evs[..a.start + 1]), evs[a.start + 1..];
    && p in s.polls && Path(cfg.canon, p, a.states, Mine(rest, p)) && a.states[0] == s.polls[p]
    && CleanPath(cfg.canon, a.states, Mine(rest, p)) && MineAccepted(cfg, s, rest, p)
  }

  ghost predicate MadeOfAttempts(cfg: Config, evs: seq<Event>, attempts: map<nat, Attempt>) {
    forall k | 0 <= k < |evs| && IsPollEvent(evs[k]) ::
      evs[k].p in attempts && Takes(cfg, evs, evs[k].p, attempts[evs[k].p])
  }

  /** What PollFeed and ResolveAndIngest promise of their trace makes them attempts, if
      they began carefully: on a healthy feed or without validators. */
  lemma CarefulTakes(cfg: Config, evs: seq<Event>, start: nat, svc: P.Service)
    requires svc.Legal() && svc.careful && svc.cfg.canon == cfg.canon
    requires start < |evs| && evs[start].PollRead? && evs[start].p == svc.me && forall k | 0 <= k < start :: !IsMine(evs[k], svc.me)
    requires var s, rest := Run(cfg, Initial(cfg), evs[..start + 1]), evs[start + 1..];
             && svc.me in s.polls && s.polls[svc.me] == svc.origin
             && Mine(rest, svc.me) == svc.trace && MineAccepted(cfg, s, rest, svc.me)
    ensures Takes(cfg, evs, svc.me, Attempt(start, svc.states))
  {
  }

  lemma PrefixParts(evs: seq<Event>, i: nat, k: nat)
    requires i <= k <= |evs|
    ensures evs[..k] == evs[..i] + evs[i..][..k - i]
  {
    hide *;
    var parts := evs[..i] + evs[i..][..k - i];
    assert |parts| == k && forall n | 0 <= n < k :: parts[n] == evs[n];
  }

  /** The same moment of a run, counted from the attempt's read. */
  lemma SameMoment(cfg: Config, evs: seq<Event>, start: nat, k: nat)
    requires start < k < |evs|
    ensures Run(cfg, Initial(cfg), evs[..k]) == Run(cfg, Run(cfg, Initial(cfg), evs[..start + 1]), evs[start + 1..][..k - start - 1])
    ensures evs[start + 1..][k - start - 1] == evs[k]
  {
    hide Step;
    RunAppend(cfg, Initial(cfg), evs[..start + 1], evs[start + 1..][..k - start - 1]);
    PrefixParts(evs, start + 1, k);
  }

  lemma PathResolvesClean(cfg: Config, s: System, rest: seq<Event>, p: nat, states: seq<Poll>, j: nat)
    requires p in s.polls && MineAccepted(cfg, s, rest, p)
    requires Path(cfg.canon, p, states, Mine(rest, p)) && states[0] == s.polls[p] && CleanPath(cfg.canon, states, Mine(rest, p))
    requires j < |rest| && IsMine(rest[j], p)
    ensures ResolvesClean(cfg, Run(cfg, s, rest[..j]), rest[j])
  {
    PollInterleaves(cfg, s, rest, p, states);
  }

  lemma AttemptResolvesClean(cfg: Config, evs: seq<Event>, k: nat, a: Attempt)
    requires k < |evs| && evs[k].PollResolve? && Takes(cfg, evs, evs[k].p, a)
    ensures ResolvesClean(cfg, Run(cfg, Initial(cfg), evs[..k]), evs[k])
  {
    hide Step;
    assert IsMine(evs[k], evs[k].p) && a.start < k;
    SameMoment(cfg, evs, a.start, k);
    PathResolvesClean(cfg, Run(cfg, Initial(cfg), evs[..a.start + 1]), evs[a.start + 1..], evs[k].p, a.states, k - a.start - 1);
  }

  /** Every run of clean attempts, with edits, toggles, deletions and scrapes in
      between and polls as stale as can be, stores only validators that the row's
      current URL served. */
  lemma CleanAttemptsFaithful(cfg: Config, evs: seq<Event>, attempts: map<nat, Attempt>)
    requires GoodConfig(cfg) && MadeOfAttempts(cfg, evs, attempts)
    ensures AllFaithful(cfg, Run(cfg, Initial(cfg), evs))
  {
    forall k | 0 <= k < |evs| ensures ResolvesClean(cfg, Run(cfg, Initial(cfg), evs[..k]), evs[k]) {
      if evs[k].PollResolve? {
        AttemptResolvesClean(cfg, evs, k, attempts[evs[k].p]);
      }
    }
    RunFaithful(cfg, Initial(cfg), evs);
  }

  // ---- three attempts that leak --------------------------------------------

  /** The events of one attempt after its read: a path, whose one write is its last. */
  ghost predicate OneAttempt(canon: string -> string, p: nat, read: Poll, evs: seq<Event>, states: seq<Poll>) {
    && Path(canon, p, states, evs) && states[0] == read && evs != []
    && forall k | 0 <= k < |evs| :: (evs[k].PollSucceed? || evs[k].PollFail? || evs[k].PollDrop?) <==> k == |evs| - 1
  }

  const SERVED := Response("a", "a", false, "x", "")
  const PAGE := Response("a", "a", false, "", "")
  const LINKED := Response("b", "b", false, "", "")

  function Written(errors: int): PollState {
    NewFeed(1, "a", "", None, false, 0, 0).poll.(errorCount := errors)
  }

  /** The subscription's first attempt: a feed at "a" that sends an ETag. */
  function First(): seq<Event> {
    [PollHear(0, SERVED), PollIngest(0, []), PollSucceed(0, Written(0))]
  }

  /** A fetch that fails. */
  function Second(): seq<Event> {
    [PollFail(1, Written(1))]
  }

  /** A page of HTML at "a": fetched again by the resolve, which finds the feed it
      links to, at "b" and without validators. */
  function Third(): seq<Event> {
    [PollHear(2, PAGE), PollHear(2, PAGE), PollHear(2, LINKED), PollResolve(2, 9), PollIngest(2, []), PollSucceed(2, Written(0))]
  }

  function Read(p: nat): Event {
    PollRead(p, 1, 1)
  }

  function Copy(etag: string, heard: Option<Response>): Poll {
    Poll(1, 1, "a", etag, "", heard)
  }

  /** One feed, at "a", with this ETag and error count. */
  ghost predicate Stores(s: System, etag: string, errors: int, history: set<Response>) {
    && s.db.feeds.Keys == {1} && s.history == history
    && s.db.feeds[1].userId == 1 && s.db.feeds[1].feedUrl == "a"
    && s.db.feeds[1].poll.etag == etag && s.db.feeds[1].poll.lastModified == "" && s.db.feeds[1].poll.errorCount == errors
  }

  lemma ReadStores(cfg: Config, s: System, p: nat, etag: string, errors: int, history: set<Response>)
    requires Stores(s, etag, errors, history)
    ensures var s' := Step(cfg, s, Read(p)); Stores(s', etag, errors, history) && p in s'.polls && s'.polls[p] == Copy(etag, None)
  {
  }

  lemma HearStores(cfg: Config, s: System, p: nat, r: Response, etag: string, errors: int, history: set<Response>)
    requires Stores(s, etag, errors, history) && p in s.polls
    ensures var s' := Step(cfg, s, PollHear(p, r));
            Stores(s', etag, errors, history + {r}) && p in s'.polls && s'.polls[p] == s.polls[p].(heard := Some(r))
  {
  }

  lemma FirstHeard(cfg: Config, s: System)
    requires Stores(s, "", 0, {})
    ensures var s' := Run(cfg, s, [Read(0), PollHear(0, SERVED)]);
            Stores(s', "", 0, {SERVED}) && 0 in s'.polls && s'.polls[0] == Copy("", Some(SERVED))
  {
    ReadStores(cfg, s, 0, "", 0, {});
    HearStores(cfg, Step(cfg, s, Read(0)), 0, SERVED, "", 0, {});
    assert {} + {SERVED} == {SERVED};
    TwoSteps(cfg, s, Read(0), PollHear(0, SERVED));
  }

  lemma FirstWrites(cfg: Config, s: System)
    requires Stores(s, "", 0, {SERVED}) && 0 in s.polls && s.polls[0] == Copy("", Some(SERVED))
    ensures Stores(Run(cfg, s, [PollIngest(0, []), PollSucceed(0, Written(0))]), "x", 0, {SERVED})
  {
    IngestKeepsFeeds(cfg, s, 0, []);
    WroteBack(cfg, Step(cfg, s, PollIngest(0, [])), 0, Written(0));
    TwoSteps(cfg, s, PollIngest(0, []), PollSucceed(0, Written(0)));
  }

  lemma FirstParts()
    ensures [Read(0)] + First() == [Read(0), PollHear(0, SERVED)] + [PollIngest(0, []), PollSucceed(0, Written(0))]
  {
  }

  lemma SecondParts()
    ensures [Read(1)] + Second() == [Read(1), PollFail(1, Written(1))]
  {
  }

  lemma ThirdParts()
    ensures [Read(2)] + Third() == [Read(2), PollHear(2, PAGE), PollHear(2, PAGE)]
                                   + [PollHear(2, LINKED), PollResolve(2, 9), PollIngest(2, []), PollSucceed(2, Written(0))]
  {
  }

  lemma FirstStores(cfg: Config, s: System)
    requires Stores(s, "", 0, {})
    ensures Stores(Run(cfg, s, [Read(0)] + First()), "x", 0, {SERVED})
  {
    var heard, writes := [Read(0), PollHear(0, SERVED)], [PollIngest(0, []), PollSucceed(0, Written(0))];
    FirstHeard(cfg, s);
    FirstWrites(cfg, Run(cfg, s, heard));
    RunAppend(cfg, s, heard, writes);
    FirstParts();
  }

  lemma SecondFails(cfg: Config, s: System)
    requires Stores(s, "x", 0, {SERVED}) && 1 in s.polls && s.polls[1] == Copy("x", None)
    ensures Stores(Step(cfg, s, PollFail(1, Written(1))), "x", 1, {SERVED})
  {
  }

  lemma SecondStores(cfg: Config, s: System)
    requires Stores(s, "x", 0, {SERVED})
    ensures Stores(Run(cfg, s, [Read(1)] + Second()), "x", 1, {SERVED})
  {
    hide Step;
    SecondParts();
    TwoSteps(cfg, s, Read(1), PollFail(1, Written(1)));
    ReadStores(cfg, s, 1, "x", 0, {SERVED});
    SecondFails(cfg, Step(cfg, s, Read(1)));
  }

  lemma PageHeard(cfg: Config, s: System)
    requires Stores(s, "x", 1, {SERVED})
    ensures var s' := Run(cfg, s, [Read(2), PollHear(2, PAGE), PollHear(2, PAGE)]);
            Stores(s', "x", 1, {SERVED, PAGE}) && 2 in s'.polls && s'.polls[2] == Copy("x", Some(PAGE))
  {
    var s1 := Step(cfg, s, Read(2));
    var s2 := Step(cfg, s1, PollHear(2, PAGE));
    ReadStores(cfg, s, 2, "x", 1, {SERVED});
    HearStores(cfg, s1, 2, PAGE, "x", 1, {SERVED});
    HearStores(cfg, s2, 2, PAGE, "x", 1, {SERVED} + {PAGE});
    assert {SERVED} + {PAGE} + {PAGE} == {SERVED, PAGE};
    ThreeSteps(cfg, s, Read(2), PollHear(2, PAGE), PollHear(2, PAGE));
  }

  lemma ThirdLeaks(cfg: Config, s: System)
    requires GoodConfig(cfg) && (forall u :: cfg.canon(u) == u) && Stores(s, "x", 1, {SERVED})
    ensures !RowsFaithful(cfg, Run(cfg, s, [Read(2)] + Third()))
  {
    var heard := [Read(2), PollHear(2, PAGE), PollHear(2, PAGE)];
    var leak := [PollHear(2, LINKED), PollResolve(2, 9), PollIngest(2, []), PollSucceed(2, Written(0))];
    PageHeard(cfg, s);
    FoundElsewhere(cfg, Run(cfg, s, heard));
    RunAppend(cfg, s, heard, leak);
    ThirdParts();
  }

  lemma FoundElsewhere(cfg: Config, s: System)
    requires GoodConfig(cfg) && forall u :: cfg.canon(u) == u
    requires Stores(s, "x", 1, {SERVED, PAGE}) && 2 in s.polls && s.polls[2] == Copy("x", Some(PAGE))
    ensures !RowsFaithful(cfg, Run(cfg, s, [PollHear(2, LINKED), PollResolve(2, 9), PollIngest(2, []), PollSucceed(2, Written(0))]))
  {
    assert ResolvedUrl(cfg.canon, LINKED) == "b" && !UrlTaken(s.db, 1, "b", 1);
    assert !ETagServed(cfg.canon, s.history, "b", "x");
    ResolveLeaks(cfg, s, 2, LINKED, 9, [], Written(0));
  }

  /** A run of the code that leaks, from the empty database: three attempts, each with
      one write at its end, the last on a feed that already failed once, which is
      when a page of HTML is looked behind. */
  lemma AttemptsCanLeak(cfg: Config)
    requires 0 < cfg.max && 1 in cfg.users && forall u :: cfg.canon(u) == u
    ensures OneAttempt(cfg.canon, 0, Copy("", None), First(), FirstPath())
    ensures OneAttempt(cfg.canon, 1, Copy("x", None), Second(), [Copy("x", None), Copy("x", None)])
    ensures OneAttempt(cfg.canon, 2, Copy("x", None), Third(), ThirdPath())
    ensures var before := [Subscribe(1, "a", "", None, false, 0, 0)] + ([Read(0)] + First()) + ([Read(1)] + Second());
            && Stores(Run(cfg, Initial(cfg), before), "x", 1, {SERVED})
            && !RowsFaithful(cfg, Run(cfg, Initial(cfg), before + ([Read(2)] + Third())))
  {
    var subscribe := Subscribe(1, "a", "", None, false, 0, 0);
    RunSnoc(cfg, Initial(cfg), [], subscribe);
    assert [] + [subscribe] == [subscribe];
    var s := Run(cfg, Initial(cfg), [subscribe]);
    RunAppend(cfg, Initial(cfg), [subscribe], [Read(0)] + First());
    FirstStores(cfg, s);
    RunAppend(cfg, Initial(cfg), [subscribe] + ([Read(0)] + First()), [Read(1)] + Second());
    SecondStores(cfg, Run(cfg, s, [Read(0)] + First()));
    var before := [subscribe] + ([Read(0)] + First()) + ([Read(1)] + Second());
    RunAppend(cfg, Initial(cfg), before, [Read(2)] + Third());
    ThirdLeaks(cfg, Run(cfg, Initial(cfg), before));
    FirstIsAttempt(cfg.canon);
    SecondIsAttempt(cfg.canon);
    ThirdIsAttempt(cfg.canon);
  }

  function FirstPath(): seq<Poll> {
    [Copy("", None), Copy("", Some(SERVED)), Copy("", Some(SERVED)), Copy("x", Some(SERVED))]
  }

  function ThirdPath(): seq<Poll> {
    var moved := Copy("x", Some(LINKED)).(url := "b");
    [Copy("x", None), Copy("x", Some(PAGE)), Copy("x", Some(PAGE)), Copy("x", Some(LINKED)), moved, moved, moved]
  }

  lemma FirstIsAttempt(canon: string -> string)
    requires forall u :: canon(u) == u
    ensures OneAttempt(canon, 0, Copy("", None), First(), FirstPath())
  {
    assert Covers(canon, SERVED, "a");
  }

  lemma SecondIsAttempt(canon: string -> string)
    ensures OneAttempt(canon, 1, Copy("x", None), Second(), [Copy("x", None), Copy("x", None)])
  {
  }

  lemma ThirdStep(canon: string -> string, k: nat)
    requires k < 6 && forall u :: canon(u) == u
    ensures Enabled(canon, ThirdPath()[k], Third()[k]) && Third()[k].p == 2
    ensures ThirdPath()[k + 1] == Local(canon, ThirdPath()[k], Third()[k])
  {
    assert ResolvedUrl(canon, LINKED) == "b" && Covers(canon, LINKED, "b");
  }

  lemma ThirdIsAttempt(canon: string -> string)
    requires forall u :: canon(u) == u
    ensures OneAttempt(canon, 2, Copy("x", None), Third(), ThirdPath())
  {
    forall k | 0 <= k < 6
      ensures Enabled(canon, ThirdPath()[k], Third()[k]) && Third()[k].p == 2
      ensures ThirdPath()[k + 1] == Local(canon, ThirdPath()[k], Third()[k])
    {
      ThirdStep(canon, k);
    }
  }
}
