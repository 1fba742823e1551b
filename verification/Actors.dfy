/** One poll seen on its own: which events of the shared system it may perform, and
    what each does to its in-memory feed. A pipeline that only performs enabled
    events takes part in the runs of module System, whatever happens in between. */
module Actors {
  import opened Rows
  import opened Sql
  import opened System
  import opened Validators

  predicate IsPollAction(ev: Event) {
    ev.PollHear? || ev.PollAdopt? || ev.PollResolve? || ev.PollDrop? || ev.PollIngest? || ev.PollSucceed? || ev.PollFail?
  }

  predicate Enabled(canon: string -> string, x: Poll, ev: Event) {
    && IsPollAction(ev)
    && (ev.PollAdopt? ==> Adopts(x))
    && (ev.PollResolve? ==> x.heard.Some? && ResolvedUrl(canon, x.heard.value) != x.url)
    && (ev.PollSucceed? ==> x.heard.Some? && Covers(canon, x.heard.value, x.url))
  }

  /** The poll after an enabled event that the store accepted. */
  function Local(canon: string -> string, x: Poll, ev: Event): Poll
    requires Enabled(canon, x, ev)
  {
    match ev
    case PollHear(_, r) => x.(heard := Some(r))
    case PollAdopt(_, _) => x.(url := x.heard.value.finalUrl, etag := "", lastModified := "")
    case PollResolve(_, _) => x.(url := ResolvedUrl(canon, x.heard.value))
    case PollSucceed(_, _) => Recorded(x, x.heard.value)
    case _ => x
  }

  /** `states` are the poll's in-memory feeds before, between and after its events. */
  ghost predicate Path(canon: string -> string, me: nat, states: seq<Poll>, evs: seq<Event>) {
    && |states| == |evs| + 1
    && forall k | 0 <= k < |evs| ::
         Enabled(canon, states[k], evs[k]) && evs[k].p == me && states[k + 1] == Local(canon, states[k], evs[k])
  }

  /** No resolve on the path carries validators to another URL. */
  ghost predicate CleanPath(canon: string -> string, states: seq<Poll>, evs: seq<Event>)
    requires |states| == |evs| + 1
  {
    forall k | 0 <= k < |evs| && evs[k].PollResolve? && states[k].heard.Some? ::
      CarriesSafely(canon, states[k], ResolvedUrl(canon, states[k].heard.value))
  }

  /** An enabled event does in the shared system what it does to the poll alone,
      provided the store accepts the URL it sets. */
  lemma LocalIsStep(cfg: Config, s: System, ev: Event)
    requires IsPollAction(ev) && ev.p in s.polls && Enabled(cfg.canon, s.polls[ev.p], ev)
    requires var x := s.polls[ev.p];
             && (ev.PollAdopt? ==> SetFeedURL(s.db, x.userId, x.feedId, x.heard.value.finalUrl, ev.now).1.Ok?)
             && (ev.PollResolve? ==> SetFeedURL(s.db, x.userId, x.feedId, ResolvedUrl(cfg.canon, x.heard.value), ev.now).1.Ok?)
    ensures Step(cfg, s, ev).polls == s.polls[ev.p := Local(cfg.canon, s.polls[ev.p], ev)]
  {
  }

  /** Events of others leave the poll's in-memory feed alone. */
  lemma OthersDoNotTouch(cfg: Config, s: System, ev: Event, me: nat)
    requires me in s.polls && (IsPollEvent(ev) ==> ev.p != me)
    ensures me in Step(cfg, s, ev).polls && Step(cfg, s, ev).polls[me] == s.polls[me]
  {
  }

  // ---- one poll inside a run -----------------------------------------------

  predicate IsMine(ev: Event, me: nat) {
    IsPollEvent(ev) && ev.p == me
  }

  /** The events of poll `me` in a run of everyone. */
  function Mine(evs: seq<Event>, me: nat): seq<Event> {
    if evs == [] then []
    else Mine(evs[..|evs| - 1], me) + (if IsMine(evs[|evs| - 1], me) then [evs[|evs| - 1]] else [])
  }

  ghost predicate StoreAccepts(cfg: Config, s: System, ev: Event)
    requires IsPollEvent(ev)
  {
    ev.p in s.polls && var x := s.polls[ev.p];
    && (ev.PollAdopt? ==> x.heard.Some? && SetFeedURL(s.db, x.userId, x.feedId, x.heard.value.finalUrl, ev.now).1.Ok?)
    && (ev.PollResolve? ==> x.heard.Some? && SetFeedURL(s.db, x.userId, x.feedId, ResolvedUrl(cfg.canon, x.heard.value), ev.now).1.Ok?)
  }

  ghost predicate MineAccepted(cfg: Config, s: System, evs: seq<Event>, me: nat) {
    forall k | 0 <= k < |evs| && IsMine(evs[k], me) :: StoreAccepts(cfg, Run(cfg, s, evs[..k]), evs[k])
  }

  lemma MineSnoc(evs: seq<Event>, ev: Event, me: nat)
    ensures Mine(evs + [ev], me) == Mine(evs, me) + (if IsMine(ev, me) then [ev] else [])
  {
    assert (evs + [ev])[..|evs + [ev]| - 1] == evs;
  }

  /** Refinement: a poll whose own events form a path from its in-memory feed is,
      inside any run of other polls, scrapes, deletions and edits, where that path
      says; and if the path resolves cleanly, so do its events inside the run. */
  lemma {:induction false} PollInterleaves(cfg: Config, s: System, evs: seq<Event>, me: nat, states: seq<Poll>)
    requires me in s.polls && MineAccepted(cfg, s, evs, me)
    requires Path(cfg.canon, me, states, Mine(evs, me)) && states[0] == s.polls[me]
    ensures me in Run(cfg, s, evs).polls && Run(cfg, s, evs).polls[me] == states[|states| - 1]
    ensures CleanPath(cfg.canon, states, Mine(evs, me)) ==>
              forall k | 0 <= k < |evs| && IsMine(evs[k], me) :: ResolvesClean(cfg, Run(cfg, s, evs[..k]), evs[k])
  {
    if evs != [] {
      var front, ev := evs[..|evs| - 1], evs[|evs| - 1];
      assert evs == front + [ev];
      MineSnoc(front, ev, me);
      forall k | 0 <= k < |front| && IsMine(front[k], me) ensures StoreAccepts(cfg, Run(cfg, s, front[..k]), front[k]) {
        assert front[..k] == evs[..k];
      }
      var own := Mine(front, me);
      var before := states[..|own| + 1];
      assert forall k | 0 <= k < |own| :: Mine(evs, me)[k] == own[k];
      PollInterleaves(cfg, s, front, me, before);
      var mid := Run(cfg, s, front);
      if IsMine(ev, me) {
        assert StoreAccepts(cfg, mid, ev);
        assert Mine(evs, me)[|own|] == ev;
        LocalIsStep(cfg, mid, ev);
      } else {
        OthersDoNotTouch(cfg, mid, ev, me);
      }
      if CleanPath(cfg.canon, states, Mine(evs, me)) {
        forall k | 0 <= k < |evs| && IsMine(evs[k], me)
          ensures ResolvesClean(cfg, Run(cfg, s, evs[..k]), evs[k])
        {
          if k < |front| {
            assert front[..k] == evs[..k] && IsMine(front[k], me);
          }
        }
      }
    }
  }
}
