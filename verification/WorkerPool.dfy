/** The worker pool behind Poller.Run and Scraper.Run: one dispatcher, a fixed number
    of workers, an unbuffered channel between them, and a cancelled context to end. */
module WorkerPool {
  import opened Rows

  /** Where Run's goroutine is: in ListDueFeeds, in dispatch's loop over what is left,
      in the select on context and ticker, in wg.Wait after close, or returned. */
  datatype Dispatcher = Listing | Dispatching(rest: seq<Id>) | Selecting | Closing | Returned

  /** What pollOne defers: the gauge's decrement and, below it, the recovery. */
  datatype Deferred = Decrement | Guard

  /** Where a worker is: blocked in `range jobs`, holding a job it received, inside
      PollFeed, running pollOne's deferred calls (after a return or while a panic
      unwinds), or past its wg.Done. */
  datatype Worker =
    | Ready
    | Handed(job: Id)
    | Polling(job: Id)
    | Unwinding(job: Id, deferred: seq<Deferred>, panicking: bool)
    | Stopped

  datatype State = State(
    dispatcher: Dispatcher, workers: seq<Worker>,
    done: bool,              // ctx.Done is closed
    closed: bool,            // jobs is closed
    crashed: bool,           // sent on or closed a closed channel, or a panic left a goroutine
    inflight: int,           // sum of AddPollInflight's deltas
    handed: multiset<Id>, started: multiset<Id>, ended: multiset<Id>,
    dbErrors: nat, logged: nat)

  datatype Event =
    | Cancel
    | Listed(due: seq<Id>)
    | ListFailed(canceled: bool)
    | Send(w: nat)
    | EndDispatch
    | GiveUp
    | Tick
    | Close
    | Begin(w: nat)
    | PollReturns(w: nat, failed: bool)
    | PollPanics(w: nat)
    | RunDeferred(w: nat)
    | Leave(w: nat)
    | Exit(w: nat)
    | Return

  predicate MovesWorker(e: Event) {
    e.Send? || e.Begin? || e.PollReturns? || e.PollPanics? || e.RunDeferred? || e.Leave? || e.Exit?
  }

  /** Which worker may take this step, the channel being closed or not. */
  predicate CanMove(x: Worker, e: Event, closed: bool)
    requires MovesWorker(e)
  {
    match e
    case Send(_) => x.Ready?
    case Begin(_) => x.Handed?
    case PollReturns(_, _) => x.Polling?
    case PollPanics(_) => x.Polling?
    case RunDeferred(_) => x.Unwinding? && x.deferred != []
    case Leave(_) => x.Unwinding? && x.deferred == []
    case Exit(_) => x.Ready? && closed
  }

  /** What a worker's step does: where it goes, the gauge's delta, what it counts. */
  datatype Effect = Effect(
    worker: Worker, gauge: int,
    handed: multiset<Id>, started: multiset<Id>, ended: multiset<Id>,
    logged: nat, crash: bool)

  function Quiet(x: Worker): Effect {
    Effect(x, 0, multiset{}, multiset{}, multiset{}, 0, false)
  }

  /** `job` is the one on offer, for a worker that receives it. */
  function Move(x: Worker, e: Event, job: Id, closed: bool): Effect
    requires MovesWorker(e) && CanMove(x, e, closed)
  {
    match e
    case Send(_) => Quiet(Handed(job)).(handed := multiset{job})
    case Begin(_) => Quiet(Polling(x.job)).(gauge := 1, started := multiset{x.job})
    case PollReturns(_, failed) => Quiet(Unwinding(x.job, [Decrement, Guard], false)).(logged := if failed then 1 else 0)
    case PollPanics(_) => Quiet(Unwinding(x.job, [Decrement, Guard], true))
    case RunDeferred(_) =>
      (match x.deferred[0]
       case Decrement => Quiet(x.(deferred := x.deferred[1..])).(gauge := -1)
       case Guard => Quiet(x.(deferred := x.deferred[1..], panicking := false)).(logged := if x.panicking then 1 else 0))
    case Leave(_) => if x.panicking then Quiet(x).(crash := true) else Quiet(Ready).(ended := multiset{x.job})
    case Exit(_) => Quiet(Stopped)
  }

  /** What the scheduler may run next. Sending and closing are not asked whether the
      channel is closed: Go would panic, and so does Next below. */
  predicate Enabled(s: State, e: Event) {
    if MovesWorker(e) then
      && e.w < |s.workers| && CanMove(s.workers[e.w], e, s.closed)
      && (e.Send? ==> s.dispatcher.Dispatching? && s.dispatcher.rest != [])
    else
      match e
      case Cancel => !s.done
      case Listed(_) => s.dispatcher.Listing?
      case ListFailed(_) => s.dispatcher.Listing?
      case EndDispatch => s.dispatcher == Dispatching([])
      case GiveUp => s.dispatcher.Dispatching? && s.dispatcher.rest != [] && s.done
      case Tick => s.dispatcher.Selecting?
      case Close => s.dispatcher.Selecting? && s.done
      case Return => s.dispatcher.Closing? && forall w | 0 <= w < |s.workers| :: s.workers[w].Stopped?
  }

  function Offer(s: State): Id {
    if s.dispatcher.Dispatching? && s.dispatcher.rest != [] then s.dispatcher.rest[0] else 0
  }

  function Moved(s: State, w: nat, f: Effect): State
    requires w < |s.workers|
  {
    s.(workers := s.workers[w := f.worker], inflight := s.inflight + f.gauge,
       handed := s.handed + f.handed, started := s.started + f.started, ended := s.ended + f.ended,
       logged := s.logged + f.logged, crashed := s.crashed || f.crash)
  }

  function Next(s: State, e: Event): State {
    if !Enabled(s, e) then s
    else if e.Send? && s.closed then s.(crashed := true)
    else if MovesWorker(e) then
      var s' := Moved(s, e.w, Move(s.workers[e.w], e, Offer(s), s.closed));
      if e.Send? then s'.(dispatcher := Dispatching(s.dispatcher.rest[1..])) else s'
    else
      match e
      case Cancel => s.(done := true)
      case Listed(due) => s.(dispatcher := Dispatching(due))
      case ListFailed(canceled) => s.(dispatcher := Selecting, dbErrors := s.dbErrors + if canceled then 0 else 1)
      case EndDispatch => s.(dispatcher := Selecting)
      case GiveUp => s.(dispatcher := Selecting)
      case Tick => s.(dispatcher := Listing)
      case Close => if s.closed then s.(crashed := true) else s.(dispatcher := Closing, closed := true)
      case Return => s.(dispatcher := Returned)
  }

  function Initial(workers: nat): State {
    State(Listing, seq(workers, _ => Ready), false, false, false, 0, multiset{}, multiset{}, multiset{}, 0, 0)
  }

  function Run(workers: nat, events: seq<Event>): State {
    if events == [] then Initial(workers) else Next(Run(workers, events[..|events| - 1]), events[|events| - 1])
  }

  // ---- what the workers hold -----------------------------------------------

  /** Between AddPollInflight(1) and the deferred AddPollInflight(-1). */
  predicate Gauged(x: Worker) {
    x.Polling? || (x.Unwinding? && Decrement in x.deferred)
  }

  predicate Busy(x: Worker, job: Id) {
    (x.Polling? || x.Unwinding?) && x.job == job
  }

  function Inside(ws: seq<Worker>): nat {
    if ws == [] then 0 else Inside(ws[1..]) + if Gauged(ws[0]) then 1 else 0
  }

  /** How many workers have begun this feed's poll and not yet left pollOne. */
  function BusyWith(ws: seq<Worker>, job: Id): nat {
    if ws == [] then 0 else BusyWith(ws[1..], job) + if Busy(ws[0], job) then 1 else 0
  }

  /** How many workers are in exactly this state. */
  function Count(ws: seq<Worker>, x: Worker): nat {
    if ws == [] then 0 else Count(ws[1..], x) + if ws[0] == x then 1 else 0
  }

  // Moving one worker exchanges its own share of each total.

  lemma {:induction false} InsideMoves(ws: seq<Worker>, w: nat, x: Worker)
    requires w < |ws|
    ensures Inside(ws[w := x]) + (if Gauged(ws[w]) then 1 else 0) == Inside(ws) + (if Gauged(x) then 1 else 0)
  {
    if w == 0 {
      assert ws[w := x][1..] == ws[1..];
    } else {
      InsideMoves(ws[1..], w - 1, x);
      assert ws[w := x][1..] == ws[1..][w - 1 := x];
    }
  }

  lemma {:induction false} CountMoves(ws: seq<Worker>, w: nat, x: Worker, y: Worker)
    requires w < |ws|
    ensures Count(ws[w := x], y) + (if ws[w] == y then 1 else 0) == Count(ws, y) + (if x == y then 1 else 0)
  {
    if w == 0 {
      assert ws[w := x][1..] == ws[1..];
    } else {
      CountMoves(ws[1..], w - 1, x, y);
      assert ws[w := x][1..] == ws[1..][w - 1 := x];
    }
  }

  lemma {:induction false} BusyMoves(ws: seq<Worker>, w: nat, x: Worker, job: Id)
    requires w < |ws|
    ensures BusyWith(ws[w := x], job) + (if Busy(ws[w], job) then 1 else 0) == BusyWith(ws, job) + (if Busy(x, job) then 1 else 0)
  {
    if w == 0 {
      assert ws[w := x][1..] == ws[1..];
    } else {
      BusyMoves(ws[1..], w - 1, x, job);
      assert ws[w := x][1..] == ws[1..][w - 1 := x];
    }
  }

  lemma {:induction false} NobodyBusy(ws: seq<Worker>, job: Id)
    requires forall w | 0 <= w < |ws| :: !Busy(ws[w], job)
    ensures BusyWith(ws, job) == 0
  {
    if ws != [] { NobodyBusy(ws[1..], job); }
  }

  lemma {:induction false} NoneOf(ws: seq<Worker>, y: Worker)
    requires forall w | 0 <= w < |ws| :: ws[w] != y
    ensures Count(ws, y) == 0
  {
    if ws != [] { NoneOf(ws[1..], y); }
  }

  lemma {:induction false} InsideAtMost(ws: seq<Worker>)
    ensures Inside(ws) <= |ws|
  {
    if ws != [] { InsideAtMost(ws[1..]); }
  }

  lemma {:induction false} NobodyInside(ws: seq<Worker>)
    requires forall w | 0 <= w < |ws| :: !Gauged(ws[w])
    ensures Inside(ws) == 0
  {
    if ws != [] { NobodyInside(ws[1..]); }
  }

  // ---- the invariant -------------------------------------------------------

  /** Each time a feed was handed over it waits in a worker, is being polled there, or
      has been polled. */
  ghost predicate Accounted(s: State, job: Id) {
    s.handed[job] == s.started[job] + Count(s.workers, Handed(job)) && s.started[job] == s.ended[job] + BusyWith(s.workers, job)
  }

  /** The deferred calls run in order, and a panic still has its recovery before it. */
  predicate UnwindsSafely(x: Worker) {
    x.Unwinding? ==> x.deferred in {[Decrement, Guard], [Guard], []} && (x.panicking ==> Guard in x.deferred)
  }

  /** Everything of the invariant but the accounts. */
  ghost predicate Shaped(s: State) {
    && !s.crashed
    && (forall w | 0 <= w < |s.workers| :: UnwindsSafely(s.workers[w]))
    && (s.closed <==> s.dispatcher.Closing? || s.dispatcher.Returned?)
    && (s.closed ==> s.done)
    && (forall w | 0 <= w < |s.workers| :: s.workers[w].Stopped? ==> s.closed)
    && (s.dispatcher.Returned? ==> forall w | 0 <= w < |s.workers| :: s.workers[w].Stopped?)
    && s.inflight == Inside(s.workers)
  }

  ghost predicate Sound(s: State) {
    Shaped(s) && forall job :: Accounted(s, job)
  }

  /** One worker's step on its own: the gauge moves as the worker enters and leaves its
      two calls, and a panic is recovered before the worker goes on. */
  lemma MoveKeeps(x: Worker, e: Event, job: Id, closed: bool)
    requires MovesWorker(e) && CanMove(x, e, closed) && UnwindsSafely(x)
    ensures var f := Move(x, e, job, closed);
            && UnwindsSafely(f.worker) && !f.crash && (f.worker.Stopped? ==> closed)
            && f.gauge == (if Gauged(f.worker) then 1 else 0) - (if Gauged(x) then 1 else 0)
  {
  }

  /** And each hand-over moves from waiting to being polled to done. */
  lemma MoveCounts(x: Worker, e: Event, offer: Id, closed: bool, job: Id)
    requires MovesWorker(e) && CanMove(x, e, closed) && UnwindsSafely(x)
    ensures var f := Move(x, e, offer, closed);
            && f.handed[job] + (if x == Handed(job) then 1 else 0) == f.started[job] + (if f.worker == Handed(job) then 1 else 0)
            && f.started[job] + (if Busy(x, job) then 1 else 0) == f.ended[job] + (if Busy(f.worker, job) then 1 else 0)
  {
  }

  lemma MovedAccounts(s: State, w: nat, f: Effect, job: Id)
    requires w < |s.workers| && Accounted(s, job)
    requires f.handed[job] + (if s.workers[w] == Handed(job) then 1 else 0) == f.started[job] + (if f.worker == Handed(job) then 1 else 0)
    requires f.started[job] + (if Busy(s.workers[w], job) then 1 else 0) == f.ended[job] + (if Busy(f.worker, job) then 1 else 0)
    ensures Accounted(Moved(s, w, f), job)
  {
    CountMoves(s.workers, w, f.worker, Handed(job));
    BusyMoves(s.workers, w, f.worker, job);
  }

  lemma StepAccounts(s: State, e: Event, job: Id)
    requires Shaped(s) && Accounted(s, job)
    ensures Accounted(Next(s, e), job)
  {
    if MovesWorker(e) && Enabled(s, e) {
      var x := s.workers[e.w];
      assert UnwindsSafely(x);
      MoveCounts(x, e, Offer(s), s.closed, job);
      MovedAccounts(s, e.w, Move(x, e, Offer(s), s.closed), job);
    }
  }

  lemma MovedKeepsShape(s: State, w: nat, f: Effect)
    requires Shaped(s) && w < |s.workers| && (s.workers[w].Stopped? ==> f.worker.Stopped?)
    requires UnwindsSafely(f.worker) && !f.crash && (f.worker.Stopped? ==> s.closed)
    requires f.gauge == (if Gauged(f.worker) then 1 else 0) - (if Gauged(s.workers[w]) then 1 else 0)
    ensures Shaped(Moved(s, w, f))
  {
    InsideMoves(s.workers, w, f.worker);
  }

  lemma StepKeepsShape(s: State, e: Event)
    requires Shaped(s)
    ensures Shaped(Next(s, e)) && |Next(s, e).workers| == |s.workers|
  {
    if MovesWorker(e) && Enabled(s, e) {
      var x := s.workers[e.w];
      assert UnwindsSafely(x);
      MoveKeeps(x, e, Offer(s), s.closed);
      MovedKeepsShape(s, e.w, Move(x, e, Offer(s), s.closed));
    }
  }

  lemma StepKeepsSound(s: State, e: Event)
    requires Sound(s)
    ensures Sound(Next(s, e)) && |Next(s, e).workers| == |s.workers|
  {
    StepKeepsShape(s, e);
    forall job ensures Accounted(Next(s, e), job) {
      assert Accounted(s, job);
      StepAccounts(s, e, job);
    }
  }

  lemma {:induction false} RunIsSound(workers: nat, events: seq<Event>)
    ensures Sound(Run(workers, events)) && |Run(workers, events).workers| == workers
  {
    if events == [] {
      var ws := Initial(workers).workers;
      NobodyInside(ws);
      forall job ensures Accounted(Initial(workers), job) {
        NoneOf(ws, Handed(job));
        NobodyBusy(ws, job);
      }
    } else {
      RunIsSound(workers, events[..|events| - 1]);
      StepKeepsSound(Run(workers, events[..|events| - 1]), events[|events| - 1]);
    }
  }

  /** Main theorem. In every run, under any scheduling, cancellation and panics:
      nothing is sent on the closed channel and no panic leaves a goroutine; the
      in-flight gauge is the number of workers between its two calls, at most the
      pool; what was handed over and not yet polled is exactly what the workers hold;
      and once Run has returned all workers have stopped, the gauge is back at 0 and
      each hand-over was polled exactly once. */
  lemma EveryRun(workers: nat, events: seq<Event>)
    ensures var s := Run(workers, events);
            && !s.crashed
            && s.inflight == Inside(s.workers) <= workers
            && (forall job :: Accounted(s, job))
            && (s.dispatcher.Returned? ==> s.inflight == 0 && (forall job :: s.handed[job] == s.started[job] == s.ended[job])
                                           && forall w | 0 <= w < |s.workers| :: s.workers[w].Stopped?)
  {
    var s := Run(workers, events);
    RunIsSound(workers, events);
    SoundMeans(s);
  }

  lemma SoundMeans(s: State)
    requires Sound(s)
    ensures s.inflight <= |s.workers|
    ensures s.dispatcher.Returned? ==> s.inflight == 0 && forall job :: s.handed[job] == s.started[job] == s.ended[job]
  {
    InsideAtMost(s.workers);
    if s.dispatcher.Returned? {
      NobodyInside(s.workers);
      forall job ensures s.handed[job] == s.started[job] == s.ended[job] {
        assert Accounted(s, job);
        NoneOf(s.workers, Handed(job));
        NobodyBusy(s.workers, job);
      }
    }
  }

  // ---- a dispatch ----------------------------------------------------------

  function JobOf(x: Worker): seq<Id> {
    if x.Handed? then [x.job] else []
  }

  /** The feeds that workers received after the first `from` events, in order. */
  function Received(workers: nat, events: seq<Event>, from: nat): seq<Id> {
    if |events| <= from then []
    else
      var front, e, ws := events[..|events| - 1], events[|events| - 1], Run(workers, events).workers;
      Received(workers, front, from) + (if e.Send? && Enabled(Run(workers, front), e) && e.w < |ws| then JobOf(ws[e.w]) else [])
  }

  function Left(s: State): seq<Id> {
    if s.dispatcher.Dispatching? then s.dispatcher.rest else []
  }

  /** From the first `from` events on, the dispatch has not ended. */
  ghost predicate StillDispatching(workers: nat, events: seq<Event>, from: nat) {
    forall k | from <= k <= |events| :: Run(workers, events[..k]).dispatcher.Dispatching?
  }

  /** A run in which this list was due after `before`, and whose dispatch still goes on. */
  ghost predicate Dispatches(workers: nat, before: seq<Event>, due: seq<Id>, after: seq<Event>) {
    && Run(workers, before).dispatcher.Listing?
    && StillDispatching(workers, before + [Listed(due)] + after, |before| + 1)
  }

  lemma ReceivedLast(workers: nat, events: seq<Event>, from: nat)
    requires from < |events|
    ensures var front, e := events[..|events| - 1], events[|events| - 1]; var s, s' := Run(workers, front), Run(workers, events);
            && s' == Next(s, e)
            && Received(workers, events, from) == Received(workers, front, from)
                 + (if e.Send? && Enabled(s, e) && e.w < |s'.workers| then JobOf(s'.workers[e.w]) else [])
  {
  }

  /** One step of a dispatch that goes on hands over the first feed of what is left, or
      none; and what was handed over grows by just that. */
  lemma DispatchStep(s: State, e: Event)
    requires Sound(s) && s.dispatcher.Dispatching? && Next(s, e).dispatcher.Dispatching?
    ensures var s' := Next(s, e); var got := if e.Send? && Enabled(s, e) && e.w < |s'.workers| then JobOf(s'.workers[e.w]) else [];
            got + Left(s') == Left(s) && s'.handed == s.handed + multiset(got)
  {
  }

  lemma DispatchFront(workers: nat, before: seq<Event>, due: seq<Id>, after: seq<Event>)
    requires Dispatches(workers, before, due, after)
    ensures Run(workers, before + [Listed(due)] + after).dispatcher.Dispatching?
    ensures after != [] ==> Dispatches(workers, before, due, after[..|after| - 1])
  {
    var events, from := before + [Listed(due)] + after, |before| + 1;
    assert events[..|events|] == events;
    if after != [] {
      var was := before + [Listed(due)] + after[..|after| - 1];
      forall k | from <= k <= |was| ensures Run(workers, was[..k]).dispatcher.Dispatching? {
        assert was[..k] == events[..k];
      }
    }
  }

  /** At every moment of a dispatch: what workers received so far, followed by what is
      left, is the list that was due, in its order. */
  lemma {:induction false} DispatchInOrder(workers: nat, before: seq<Event>, due: seq<Id>, after: seq<Event>)
    requires Dispatches(workers, before, due, after)
    ensures var events := before + [Listed(due)] + after; var got := Received(workers, events, |before| + 1);
            && got + Left(Run(workers, events)) == due
            && Run(workers, events).handed == Run(workers, before).handed + multiset(got)
    decreases |after|
  {
    hide Next, Enabled, Sound, Dispatches, Left, JobOf, Run;
    var events, from := before + [Listed(due)] + after, |before| + 1;
    DispatchFront(workers, before, due, after);
    if after == [] {
      assert events == before + [Listed(due)];
      DispatchBegins(workers, before, due);
    } else {
      var front := after[..|after| - 1];
      var was := before + [Listed(due)] + front;
      assert events[..|events| - 1] == was;
      DispatchInOrder(workers, before, due, front);
      DispatchFront(workers, before, due, front);
      RunIsSound(workers, was);
      ReceivedLast(workers, events, from);
      var s, e := Run(workers, was), events[|events| - 1];
      var s' := Run(workers, events);
      DispatchStep(s, e);
      HandedOn(Received(workers, was, from), if e.Send? && Enabled(s, e) && e.w < |s'.workers| then JobOf(s'.workers[e.w]) else [],
               Left(s), Left(s'), due, Run(workers, before).handed);
    }
  }

  lemma HandedOn(got: seq<Id>, more: seq<Id>, rest: seq<Id>, rest': seq<Id>, due: seq<Id>, handed: multiset<Id>)
    requires got + rest == due && more + rest' == rest
    ensures (got + more) + rest' == due && handed + multiset(got) + multiset(more) == handed + multiset(got + more)
  {
    assert (got + more) + rest' == got + (more + rest');
  }

  lemma DispatchBegins(workers: nat, before: seq<Event>, due: seq<Id>)
    requires Dispatches(workers, before, due, [])
    ensures var s := Run(workers, before + [Listed(due)]); Left(s) == due && s.handed == Run(workers, before).handed
  {
    Extend(workers, before, Listed(due));
  }

  /** A dispatch that is not cut short by the cancellation hands over the whole list, each
      feed as often as it is listed; one that is, hands over the front of it. */
  lemma DispatchEnds(workers: nat, before: seq<Event>, due: seq<Id>, after: seq<Event>, e: Event)
    requires Dispatches(workers, before, due, after)
    ensures var events := before + [Listed(due)] + after; var s, got := Run(workers, events), Received(workers, events, |before| + 1);
            !Next(s, e).dispatcher.Dispatching? ==>
              && s.handed == Run(workers, before).handed + multiset(got)
              && ((e == EndDispatch && got == due) || (e == GiveUp && s.done && got < due))
  {
    var events := before + [Listed(due)] + after;
    DispatchInOrder(workers, before, due, after);
    DispatchFront(workers, before, due, after);
    RunIsSound(workers, events);
  }

  // ---- what is logged ------------------------------------------------------

  /** A panic that its recovery has not logged yet. */
  predicate Unlogged(x: Worker) {
    x.Unwinding? && x.panicking
  }

  function Pending(ws: seq<Worker>): nat {
    if ws == [] then 0 else Pending(ws[1..]) + if Unlogged(ws[0]) then 1 else 0
  }

  lemma {:induction false} PendingMoves(ws: seq<Worker>, w: nat, x: Worker)
    requires w < |ws|
    ensures Pending(ws[w := x]) + (if Unlogged(ws[w]) then 1 else 0) == Pending(ws) + (if Unlogged(x) then 1 else 0)
  {
    if w == 0 {
      assert ws[w := x][1..] == ws[1..];
    } else {
      PendingMoves(ws[1..], w - 1, x);
      assert ws[w := x][1..] == ws[1..][w - 1 := x];
    }
  }

  lemma {:induction false} NonePending(ws: seq<Worker>)
    requires forall w | 0 <= w < |ws| :: !Unlogged(ws[w])
    ensures Pending(ws) == 0
  {
    if ws != [] { NonePending(ws[1..]); }
  }

  /** How many polls of the run failed or panicked. */
  function FailedPolls(workers: nat, events: seq<Event>): nat {
    if events == [] then 0
    else
      var front, e := events[..|events| - 1], events[|events| - 1];
      FailedPolls(workers, front) + if ((e.PollReturns? && e.failed) || e.PollPanics?) && Enabled(Run(workers, front), e) then 1 else 0
  }

  /** How many times the list of due feeds failed, but for the shutdown. */
  function FailedLists(workers: nat, events: seq<Event>): nat {
    if events == [] then 0
    else
      var front, e := events[..|events| - 1], events[|events| - 1];
      FailedLists(workers, front) + if e.ListFailed? && !e.canceled && Enabled(Run(workers, front), e) then 1 else 0
  }

  lemma StepLogs(s: State, e: Event)
    requires Sound(s)
    ensures var s' := Next(s, e);
            s'.logged + Pending(s'.workers) == s.logged + Pending(s.workers)
              + if ((e.PollReturns? && e.failed) || e.PollPanics?) && Enabled(s, e) then 1 else 0
  {
    if Enabled(s, e) && MovesWorker(e) {
      var x := s.workers[e.w];
      assert UnwindsSafely(x);
      PendingMoves(s.workers, e.w, Move(x, e, Offer(s), s.closed).worker);
    }
  }

  /** Each failed or panicked poll is logged once, a panic when it is recovered; each
      failed list is counted once, but for the one that the shutdown cancels. */
  lemma {:induction false} FailuresAreLogged(workers: nat, events: seq<Event>)
    ensures var s := Run(workers, events);
            s.logged + Pending(s.workers) == FailedPolls(workers, events) && s.dbErrors == FailedLists(workers, events)
  {
    if events == [] {
      NonePending(Initial(workers).workers);
    } else {
      FailuresAreLogged(workers, events[..|events| - 1]);
      RunIsSound(workers, events[..|events| - 1]);
      StepLogs(Run(workers, events[..|events| - 1]), events[|events| - 1]);
    }
  }

  // ---- shutting down -------------------------------------------------------

  function Steps(x: Worker): nat {
    match x case Handed(_) => 6 case Polling(_) => 5 case Unwinding(_, deferred, _) => 2 + |deferred| case Ready => 1 case Stopped => 0
  }

  function Remaining(ws: seq<Worker>): nat {
    if ws == [] then 0 else Steps(ws[0]) + Remaining(ws[1..])
  }

  function Fuel(s: State): nat {
    Remaining(s.workers) + if s.dispatcher.Returned? then 0 else 1
  }

  lemma {:induction false} RemainingMoves(ws: seq<Worker>, w: nat, x: Worker)
    requires w < |ws|
    ensures Remaining(ws[w := x]) + Steps(ws[w]) == Remaining(ws) + Steps(x)
  {
    if w == 0 {
      assert ws[w := x][1..] == ws[1..];
    } else {
      RemainingMoves(ws[1..], w - 1, x);
      assert ws[w := x][1..] == ws[1..][w - 1 := x];
    }
  }

  lemma {:induction false} RemainingAtMost(ws: seq<Worker>)
    requires forall w | 0 <= w < |ws| :: UnwindsSafely(ws[w])
    ensures Remaining(ws) <= 6 * |ws|
  {
    if ws != [] { RemainingAtMost(ws[1..]); }
  }

  /** What a worker that has not stopped can do once the channel is closed. */
  function WorkerStep(x: Worker, w: nat): Event {
    match x
    case Handed(_) => Begin(w)
    case Polling(_) => PollReturns(w, false)
    case Unwinding(_, deferred, _) => if deferred == [] then Leave(w) else RunDeferred(w)
    case _ => Exit(w)
  }

  /** After close every possible step brings Run nearer to its return, and until then
      some step is always possible: wg.Wait never hangs. */
  lemma ShutdownProgresses(workers: nat, events: seq<Event>, e: Event)
    requires Run(workers, events).closed
    ensures var s := Run(workers, events);
            && (Enabled(s, e) ==> Fuel(Next(s, e)) < Fuel(s) <= 6 * workers + 1)
            && (!s.dispatcher.Returned? ==> exists step :: Enabled(s, step))
  {
    var s := Run(workers, events);
    RunIsSound(workers, events);
    RemainingAtMost(s.workers);
    if Enabled(s, e) && MovesWorker(e) {
      RemainingMoves(s.workers, e.w, Next(s, e).workers[e.w]);
    }
    if !s.dispatcher.Returned? {
      if w: nat :| w < |s.workers| && !s.workers[w].Stopped? {
        assert Enabled(s, WorkerStep(s.workers[w], w));
      } else {
        assert Enabled(s, Return);
      }
    }
  }

  predicate Is(s: State, dispatcher: Dispatcher, first: Worker, second: Worker) {
    s.dispatcher == dispatcher && |s.workers| == 2 && s.workers[0] == first && s.workers[1] == second && !s.closed
  }

  /** Some run of a pool of two gets here. */
  ghost predicate Reachable(dispatcher: Dispatcher, first: Worker, second: Worker) {
    exists events :: Is(Run(2, events), dispatcher, first, second)
  }

  lemma Then(d: Dispatcher, x: Worker, y: Worker, e: Event, d': Dispatcher, x': Worker, y': Worker)
    requires Reachable(d, x, y)
    requires forall s | Is(s, d, x, y) :: Is(Next(s, e), d', x', y')
    ensures Reachable(d', x', y')
  {
    var events :| Is(Run(2, events), d, x, y);
    assert Is(Next(Run(2, events), e), d', x', y');
    Extend(2, events, e);
    assert Is(Run(2, events + [e]), d', x', y');
  }

  lemma Started()
    ensures Reachable(Listing, Ready, Ready)
  {
    assert Is(Run(2, []), Listing, Ready, Ready);
  }

  lemma PolledOnce(feed: Id)
    ensures Reachable(Dispatching([]), Polling(feed), Ready)
  {
    Started();
    Then(Listing, Ready, Ready, Listed([feed]), Dispatching([feed]), Ready, Ready);
    ReceivedOnce(feed);
  }

  lemma ReceivedOnce(feed: Id)
    requires Reachable(Dispatching([feed]), Ready, Ready)
    ensures Reachable(Dispatching([]), Polling(feed), Ready)
  {
    Then(Dispatching([feed]), Ready, Ready, Send(0), Dispatching([]), Handed(feed), Ready);
    Then(Dispatching([]), Handed(feed), Ready, Begin(0), Dispatching([]), Polling(feed), Ready);
  }

  lemma ListedAgain(feed: Id)
    requires Reachable(Dispatching([]), Polling(feed), Ready)
    ensures Reachable(Dispatching([feed]), Polling(feed), Ready)
  {
    Then(Dispatching([]), Polling(feed), Ready, EndDispatch, Selecting, Polling(feed), Ready);
    Then(Selecting, Polling(feed), Ready, Tick, Listing, Polling(feed), Ready);
    Then(Listing, Polling(feed), Ready, Listed([feed]), Dispatching([feed]), Polling(feed), Ready);
  }

  /** Nothing keeps one feed from two workers: a tick lists it again while its poll
      still runs. The stale snapshots of the other modules come from here. */
  lemma SameFeedTwice(feed: Id)
    ensures Reachable(Dispatching([]), Polling(feed), Polling(feed))
  {
    PolledOnce(feed);
    ListedAgain(feed);
    Then(Dispatching([feed]), Polling(feed), Ready, Send(1), Dispatching([]), Polling(feed), Handed(feed));
    Then(Dispatching([]), Polling(feed), Handed(feed), Begin(1), Dispatching([]), Polling(feed), Polling(feed));
  }

  lemma Extend(workers: nat, events: seq<Event>, e: Event)
    ensures Run(workers, events + [e]) == Next(Run(workers, events), e)
  {
    assert (events + [e])[..|events|] == events;
  }
}
