/** The per-host limiter of the fetcher: a reference-counted semaphore whose map
    entry is created by the first fetch of a host and evicted by the last. */
module HostLimiter {
  import opened Rows

  /** Waiting for a token, holding one, or past `<-s.ch` but not yet unreferenced. */
  datatype Phase = Waiting | Holding | Drained

  datatype Ticket = Ticket(key: string, phase: Phase)

  /** The atomic steps of the fetches in flight, in any order: entering takes the
      lock once, a token is one channel operation, leaving takes the lock again. */
  datatype Step = Enter(f: nat, key: string) | Take(f: nat) | Cancel(f: nat) | Drain(f: nat) | Unref(f: nat)

  function Referencing(flight: map<nat, Ticket>, key: string): set<nat> {
    set f | f in flight && flight[f].key == key
  }

  function Holders(flight: map<nat, Ticket>, key: string): set<nat> {
    set f | f in flight && flight[f].key == key && flight[f].phase.Holding?
  }

  function Refs(flight: map<nat, Ticket>, key: string): nat {
    |Referencing(flight, key)|
  }

  function Held(flight: map<nat, Ticket>, key: string): nat {
    |Holders(flight, key)|
  }

  predicate Enabled(cap: nat, flight: map<nat, Ticket>, step: Step) {
    match step
    case Enter(f, _) => f !in flight
    case Take(f) => f in flight && flight[f].phase.Waiting? && Held(flight, flight[f].key) < cap
    case Cancel(f) => f in flight && flight[f].phase.Waiting?
    case Drain(f) => f in flight && flight[f].phase.Holding?
    case Unref(f) => f in flight && flight[f].phase.Drained?
  }

  /** The ideal limiter: nothing is ever created or evicted, a token is free exactly
      when fewer than `cap` fetches of that host hold one. */
  function Next(cap: nat, flight: map<nat, Ticket>, step: Step): map<nat, Ticket> {
    if !Enabled(cap, flight, step) then flight else
    match step
    case Enter(f, key) => flight[f := Ticket(key, Waiting)]
    case Take(f) => flight[f := flight[f].(phase := Holding)]
    case Cancel(f) => flight - {f}
    case Drain(f) => flight[f := flight[f].(phase := Drained)]
    case Unref(f) => flight - {f}
  }

  function RunFrom(cap: nat, flight: map<nat, Ticket>, steps: seq<Step>): map<nat, Ticket> {
    if steps == [] then flight else Next(cap, RunFrom(cap, flight, steps[..|steps| - 1]), steps[|steps| - 1])
  }

  /** Other fetches leave a fetch's ticket alone. */
  lemma {:induction false} OthersKeepTicket(cap: nat, flight: map<nat, Ticket>, steps: seq<Step>, f: nat)
    requires f in flight && forall step | step in steps :: step.f != f
    ensures f in RunFrom(cap, flight, steps) && RunFrom(cap, flight, steps)[f] == flight[f]
  {
    if steps != [] {
      OthersKeepTicket(cap, flight, steps[..|steps| - 1], f);
      assert steps[|steps| - 1] in steps;
    }
  }

  /** In front of each of these steps the fetch had to wait: a full host, or another
      fetch queued before it. */
  ghost predicate HadToWait(cap: nat, flight: map<nat, Ticket>, steps: seq<Step>, ahead: nat -> bool, key: string) {
    forall k | 0 <= k < |steps| :: ahead(k) || Held(RunFrom(cap, flight, steps[..k]), key) >= cap
  }

  /** One step more, seen from its front. */
  lemma WaitedOnceMore(cap: nat, flight: map<nat, Ticket>, steps: seq<Step>, i: nat, ahead: nat -> bool, key: string)
    requires i < |steps| && HadToWait(cap, flight, steps[..i], ahead, key)
    requires ahead(i) || Held(RunFrom(cap, flight, steps[..i]), key) >= cap
    ensures HadToWait(cap, flight, steps[..i + 1], ahead, key)
    ensures RunFrom(cap, flight, steps[..i + 1]) == Next(cap, RunFrom(cap, flight, steps[..i]), steps[i])
  {
    assert steps[..i + 1][..i] == steps[..i];
    forall k | 0 <= k < i + 1 ensures ahead(k) || Held(RunFrom(cap, flight, steps[..i + 1][..k]), key) >= cap {
      assert steps[..i + 1][..k] == steps[..k];
      assert k < i ==> steps[..i][..k] == steps[..k];
    }
  }

  lemma Without(a: set<nat>, b: set<nat>, f: nat)
    requires forall g | g != f :: g in a <==> g in b
    ensures |a| - (if f in a then 1 else 0) == |b| - (if f in b then 1 else 0)
  {
    assert a - {f} == b - {f};
    assert f in a ==> a == (a - {f}) + {f};
    assert f !in a ==> a == a - {f};
    assert f in b ==> b == (b - {f}) + {f};
    assert f !in b ==> b == b - {f};
  }

  /** How one fetch's change moves the counts: only those of its host, by what the
      fetch now adds and what it added before. */
  lemma Recount(was: map<nat, Ticket>, now: map<nat, Ticket>, f: nat, key: string)
    requires (f in was ==> was[f].key == key) && (f in now ==> now[f].key == key)
    requires forall g | g != f :: (g in was <==> g in now) && (g in was ==> was[g] == now[g])
    ensures Refs(now, key) - (if f in now then 1 else 0) == Refs(was, key) - (if f in was then 1 else 0)
    ensures Held(now, key) - (if f in now && now[f].phase.Holding? then 1 else 0)
         == Held(was, key) - (if f in was && was[f].phase.Holding? then 1 else 0)
    ensures forall k | k != key :: Refs(now, k) == Refs(was, k) && Held(now, k) == Held(was, k)
  {
    Without(Referencing(now, key), Referencing(was, key), f);
    Without(Holders(now, key), Holders(was, key), f);
    forall k | k != key ensures Refs(now, k) == Refs(was, k) && Held(now, k) == Held(was, k) {
      assert Referencing(now, k) == Referencing(was, k) && Holders(now, k) == Holders(was, k);
    }
  }

  lemma HoldsOne(flight: map<nat, Ticket>, f: nat)
    requires f in flight && flight[f].phase.Holding?
    ensures Held(flight, flight[f].key) > 0
  {
    assert f in Holders(flight, flight[f].key);
  }

  lemma NoneLeft(flight: map<nat, Ticket>, key: string)
    requires Refs(flight, key) == 0
    ensures forall g | g in flight :: flight[g].key != key
  {
    forall g | g in flight ensures flight[g].key != key {
      assert flight[g].key == key ==> g in Referencing(flight, key);
    }
  }

  lemma NoneInFlight(key: string)
    ensures Refs(map[], key) == 0 && Held(map[], key) == 0
  {
    assert Referencing(map[], key) == {} && Holders(map[], key) == {};
  }

  /** After any run, at most HostConcurrency fetches of one host hold a token. */
  lemma {:induction false} HoldersWithinCap(cap: nat, steps: seq<Step>, key: string)
    ensures Held(RunFrom(cap, map[], steps), key) <= cap
  {
    if steps == [] {
      NoneInFlight(key);
    } else {
      var was, step := RunFrom(cap, map[], steps[..|steps| - 1]), steps[|steps| - 1];
      HoldersWithinCap(cap, steps[..|steps| - 1], key);
      if Enabled(cap, was, step) {
        var host := if step.Enter? then step.key else was[step.f].key;
        Recount(was, Next(cap, was, step), step.f, host);
      }
    }
  }

  // ---- the code: a map of channels -----------------------------------------

  class HostSem {
    var tokens: nat  // len(ch)
    var refs: int

    ghost const key: string  // the entry it was made for, so two entries never share one

    constructor (ghost key: string)
      ensures tokens == 0 && refs == 0 && this.key == key
    {
      this.key, tokens, refs := key, 0, 0;
    }
  }

  class Client {
    const cap: nat  // cfg.HostConcurrency
    var sems: map<string, HostSem>
    /** The fetches in flight and the hostSem pointer each of them captured. */
    var flight: map<nat, Ticket>
    var captured: map<nat, HostSem>
    /** Every hostSem ever made, evicted ones too. */
    ghost var repr: set<HostSem>

    constructor (hostConcurrency: nat)
      ensures Valid() && cap == hostConcurrency && flight == map[] && fresh(repr)
    {
      cap, sems, flight, captured, repr := hostConcurrency, map[], map[], map[], {};
    }

    /** Every live reference to a host points to the one mapped hostSem; its refs are
        the fetches in flight for the host and its channel is as long as the holders
        are many. */
    ghost predicate Balanced()
      reads this, repr
    {
      && captured.Keys == flight.Keys
      && (forall k | k in sems :: sems[k] in repr)
      && (forall k | k in sems :: sems[k].key == k)
      && (forall f | f in flight :: flight[f].key in sems && captured[f] == sems[flight[f].key])
      && (forall k {:trigger Counted(k)} | k in sems :: Counted(k))
    }

    ghost predicate Counted(k: string)
      requires k in sems && sems[k] in repr
      reads this, repr
    {
      sems[k].refs == Refs(flight, k) && sems[k].tokens == Held(flight, k) <= cap
    }

    /** And no entry outlives its fetches. */
    ghost predicate Valid()
      reads this, repr
    {
      Balanced() && forall k | k in sems :: sems[k].refs > 0
    }

    /** The map is empty when nothing is in flight. */
    lemma IdleIsEmpty()
      requires Valid() && flight == map[]
      ensures sems == map[]
    {
      forall k ensures k !in sems {
        NoneInFlight(k);
        assert k in sems ==> Counted(k);
      }
    }

    lemma AbsentIsUncounted(key: string)
      requires Balanced() && key !in sems
      ensures Refs(flight, key) == 0 && Held(flight, key) == 0
    {
      assert Referencing(flight, key) == {} && Holders(flight, key) == {};
    }

    /** The host's entry, made if this fetch is its first. */
    method Lookup(key: string) returns (s: HostSem)
      requires Valid()
      modifies this`sems, this`repr
      ensures Balanced() && key in sems && sems[key] == s && fresh(repr - old(repr)) && old(repr) <= repr
      ensures forall k | k in sems && k != key :: sems[k].refs > 0
      ensures flight == old(flight) && captured == old(captured)
    {
      if key in sems {
        s := sems[key];
      } else {
        AbsentIsUncounted(key);
        s := new HostSem(key);
        sems, repr := sems[key := s], repr + {s};
        forall k | k in sems ensures Counted(k) {
          assert k != key ==> old(Counted(k));
        }
      }
    }

    /** The entry counts one more reference. */
    method Reference(f: nat, key: string, s: HostSem)
      requires Balanced() && f !in flight && key in sems && s == sems[key] && forall k | k in sems && k != key :: sems[k].refs > 0
      modifies this`flight, this`captured, s`refs
      ensures Valid() && flight == old(flight)[f := Ticket(key, Waiting)]
    {
      ghost var was := flight;
      assert Counted(key);
      s.refs := s.refs + 1;
      flight, captured := flight[f := Ticket(key, Waiting)], captured[f := s];
      Recount(was, flight, f, key);
      forall k | k in sems ensures Counted(k) {
        assert old(Counted(k));
      }
    }

    /** Under the lock: find or create the entry, count the reference. */
    method Enter(f: nat, key: string)
      requires Valid() && f !in flight
      modifies this, repr
      ensures Valid() && flight == old(flight)[f := Ticket(key, Waiting)]
      ensures fresh(repr - old(repr))
    {
      var s := Lookup(key);
      Reference(f, key, s);
    }

    /** The channel accepts a token while it is not full. */
    method Take(f: nat)
      requires Valid() && f in flight && flight[f].phase.Waiting?
      requires captured[f].tokens < cap
      modifies this, repr
      ensures Valid() && sems == old(sems) && repr == old(repr)
      ensures flight == old(flight)[f := Ticket(old(flight)[f].key, Holding)]
    {
      ghost var was := flight;
      var s := captured[f];
      s.tokens := s.tokens + 1;
      flight := flight[f := flight[f].(phase := Holding)];
      Recount(was, flight, f, flight[f].key);
      forall k | k in sems ensures Counted(k) {
        assert old(Counted(k));
      }
    }

    /** The release takes a token out: a holder never blocks here, its own is there. */
    method Drain(f: nat)
      requires Valid() && f in flight && flight[f].phase.Holding?
      modifies this, repr
      ensures Valid() && sems == old(sems) && repr == old(repr) && flight == old(flight)[f := Ticket(old(flight)[f].key, Drained)]
    {
      ghost var was := flight;
      var s := captured[f];
      HoldsOne(was, f);
      assert Counted(flight[f].key);
      s.tokens := s.tokens - 1;
      flight := flight[f := flight[f].(phase := Drained)];
      Recount(was, flight, f, flight[f].key);
      forall k | k in sems ensures Counted(k) {
        assert old(Counted(k));
      }
    }

    /** The entry counts one reference less. */
    method Unreference(f: nat, s: HostSem)
      requires Valid() && f in flight && s == captured[f] && !flight[f].phase.Holding?
      modifies this`flight, this`captured, s`refs
      ensures Balanced() && flight == old(flight) - {f}
      ensures forall k | k in sems && k != old(flight)[f].key :: sems[k].refs > 0
    {
      ghost var was := flight;
      var key := flight[f].key;
      s.refs := s.refs - 1;
      flight, captured := flight - {f}, captured - {f};
      Recount(was, flight, f, key);
      forall k | k in sems ensures Counted(k) {
        assert old(Counted(k));
      }
    }

    /** The entry goes with its last reference. */
    method Evict(key: string)
      requires Balanced() && key in sems && forall k | k in sems && k != key :: sems[k].refs > 0
      modifies this`sems
      ensures Valid() && sems == if old(sems[key].refs) == 0 then old(sems) - {key} else old(sems)
    {
      if sems[key].refs == 0 {
        assert Counted(key);
        NoneLeft(flight, key);
        sems := sems - {key};
        forall k | k in sems ensures Counted(k) {
          assert old(Counted(k));
        }
      }
    }

    /** unref, after the release or when the context ends the wait: the entry that is
        evicted is the one this fetch captured. */
    method Unref(f: nat)
      requires Valid() && f in flight && !flight[f].phase.Holding?
      modifies this, repr
      ensures Valid() && repr == old(repr) && flight == old(flight) - {f}
      ensures sems == old(sems) || (sems == old(sems) - {old(flight)[f].key} && old(sems[flight[f].key] == captured[f]))
    {
      var key := flight[f].key;
      Unreference(f, captured[f]);
      Evict(key);
    }

    /** One step of any fetch, skipped when it cannot happen: the code's map of
        channels does exactly what the ideal limiter does. */
    method Perform(step: Step)
      requires Valid()
      modifies this, repr
      ensures Valid() && flight == Next(cap, old(flight), step)
      ensures fresh(repr - old(repr))
    {
      match step
      case Enter(f, key) =>
        if f !in flight { Enter(f, key); }
      case Take(f) =>
        if f in flight && flight[f].phase.Waiting? {
          assert Counted(flight[f].key);
          if captured[f].tokens < cap { Take(f); }
        }
      case Cancel(f) =>
        if f in flight && flight[f].phase.Waiting? { Unref(f); }
      case Drain(f) =>
        if f in flight && flight[f].phase.Holding? { Drain(f); }
      case Unref(f) =>
        if f in flight && flight[f].phase.Drained? { Unref(f); }
    }

    /** Every interleaving, from a new client: the code refines the ideal limiter, so
        no host ever has more than `cap` holders, and idle means an empty map. */
    method RunAll(steps: seq<Step>)
      requires Valid() && flight == map[]
      modifies this, repr
      ensures Valid() && flight == RunFrom(cap, map[], steps)
      ensures forall key :: Held(flight, key) <= cap
      ensures flight == map[] ==> sems == map[]
    {
      for i := 0 to |steps|
        invariant Valid() && flight == RunFrom(cap, map[], steps[..i])
        invariant fresh(repr - old(repr))
      {
        assert steps[..i + 1][..i] == steps[..i];
        Perform(steps[i]);
      }
      assert steps[..|steps|] == steps;
      forall key ensures Held(flight, key) <= cap {
        HoldersWithinCap(cap, steps, key);
      }
      if flight == map[] {
        IdleIsEmpty();
      }
    }

    /** acquire: a full channel waits while other fetches take the steps of `meanwhile`,
        and gives up when the context ends, which is when these run out. `ahead` says
        when a free token goes to a fetch that queued before this one, and `done` is the
        select taking the context's branch although a token is free. */
    method Acquire(f: nat, key: string, meanwhile: seq<Step>, ahead: nat -> bool, done: bool) returns (granted: bool, ghost waited: nat)
      requires Valid() && f !in flight && forall step | step in meanwhile :: step.f != f
      modifies this, repr
      ensures Valid() && fresh(repr - old(repr)) && waited <= |meanwhile|
      ensures var entered := old(flight)[f := Ticket(key, Waiting)];
              var there := RunFrom(cap, entered, meanwhile[..waited]);
              && HadToWait(cap, entered, meanwhile[..waited], ahead, key)
              && flight == (if granted then there[f := Ticket(key, Holding)] else there - {f})
              && (granted ==> Held(there, key) < cap)
              && (!granted ==> waited == |meanwhile| && (done || ahead(waited) || Held(there, key) >= cap))
    {
      ghost var entered := flight[f := Ticket(key, Waiting)];
      Enter(f, key);
      granted, waited := Await(f, key, meanwhile, ahead, done, entered);
      if granted {
        assert Counted(key);
        Take(f);
      } else {
        Unref(f);
      }
    }

    /** Whether the channel is full, which it is when the host's holders are at the cap. */
    method IsFull(f: nat) returns (full: bool)
      requires Valid() && f in flight
      ensures full == (Held(flight, flight[f].key) >= cap)
    {
      assert Counted(flight[f].key);
      full := captured[f].tokens >= cap;
    }

    /** One step of another fetch while this one waits. */
    method StandBy(f: nat, step: Step) returns (full: bool)
      requires Valid() && f in flight && step.f != f
      modifies this, repr
      ensures Valid() && fresh(repr - old(repr)) && flight == Next(cap, old(flight), step)
      ensures f in flight && flight[f] == old(flight[f])
      ensures full == (Held(flight, flight[f].key) >= cap)
    {
      ghost var before := flight;
      Perform(step);
      assert [step][..0] == [] && [step][0] == step;
      OthersKeepTicket(cap, before, [step], f);
      full := IsFull(f);
    }

    /** The select of acquire. */
    method Await(f: nat, key: string, meanwhile: seq<Step>, ahead: nat -> bool, done: bool, ghost entered: map<nat, Ticket>)
      returns (granted: bool, ghost waited: nat)
      requires Valid() && f in flight && flight[f] == Ticket(key, Waiting) && flight == entered
      requires forall step | step in meanwhile :: step.f != f
      modifies this, repr
      ensures Valid() && fresh(repr - old(repr)) && waited <= |meanwhile|
      ensures f in flight && flight[f] == Ticket(key, Waiting) && flight == RunFrom(cap, entered, meanwhile[..waited])
      ensures HadToWait(cap, entered, meanwhile[..waited], ahead, key)
      ensures granted ==> Held(flight, key) < cap
      ensures !granted ==> waited == |meanwhile| && (done || ahead(waited) || Held(flight, key) >= cap)
    {
      var i := 0;
      assert meanwhile[..0] == [];
      var full := IsFull(f);
      while i < |meanwhile| && (full || ahead(i))
        invariant i <= |meanwhile| && Valid() && fresh(repr - old(repr))
        invariant f in flight && flight[f] == Ticket(key, Waiting) && flight == RunFrom(cap, entered, meanwhile[..i])
        invariant full == (Held(flight, key) >= cap)
        invariant HadToWait(cap, entered, meanwhile[..i], ahead, key)
      {
        WaitedOnceMore(cap, entered, meanwhile, i, ahead, key);
        full := StandBy(f, meanwhile[i]);
        i := i + 1;
      }
      granted, waited := !full && !ahead(i) && !(done && i == |meanwhile|), i;
    }

    /** The release function that acquire returns. */
    method Release(f: nat)
      requires Valid() && f in flight && flight[f].phase.Holding?
      modifies this, repr
      ensures Valid() && repr == old(repr) && flight == old(flight) - {f}
    {
      Drain(f);
      Unref(f);
    }

    /** Fetch: whatever the request, the wait, the status and the body do, the token and
        the reference are given back; only the others' steps remain. */
    method Fetch(f: nat, key: Option<string>, meanwhile: seq<Step>, ahead: nat -> bool, done: bool, result: Exchange, maxBytes: int)
      returns (r: Option<int>, ghost granted: bool, ghost waited: nat)
      requires Valid() && f !in flight && forall step | step in meanwhile :: step.f != f
      modifies this, repr
      ensures Valid() && waited <= |meanwhile|
      ensures flight == if key.None? then old(flight)
                        else RunFrom(cap, old(flight)[f := Ticket(key.value, Waiting)], meanwhile[..waited]) - {f}
      ensures r == if granted && Readable(result, maxBytes) then Some(result.status) else None
      ensures granted ==> key.Some? && Held(RunFrom(cap, old(flight)[f := Ticket(key.value, Waiting)], meanwhile[..waited]), key.value) < cap
      ensures !granted && key.Some? ==> waited == |meanwhile|
    {
      granted, waited := false, 0;
      if key.None? { return None, false, 0; }
      var token;
      token, waited := Acquire(f, key.value, meanwhile, ahead, done);
      granted := token;
      if !token { return None, false, waited; }
      r := None;
      if result.Answered? {
        if result.status != 200 {
          r := Some(result.status);
        } else if result.body.Some? && result.body.value <= maxBytes {
          r := Some(200);
        }
      }
      Release(f);
    }

    /** FetchStream: an error leaves nothing behind, a success holds the token until
        the body is closed. */
    method FetchStream(f: nat, key: Option<string>, meanwhile: seq<Step>, ahead: nat -> bool, done: bool, result: Exchange)
      returns (body: Body?, ghost granted: bool, ghost waited: nat)
      requires Valid() && f !in flight && forall step | step in meanwhile :: step.f != f
      modifies this, repr
      ensures Valid() && fresh(repr - old(repr)) && waited <= |meanwhile|
      ensures body != null <==> granted && result.Answered?
      ensures body != null ==> fresh(body) && !body.fired && body.f == f
      ensures granted ==> key.Some?
      ensures key.None? ==> flight == old(flight)
      ensures key.Some? ==>
                var there := RunFrom(cap, old(flight)[f := Ticket(key.value, Waiting)], meanwhile[..waited]);
                && flight == (if body != null then there[f := Ticket(key.value, Holding)] else there - {f})
                && (granted ==> Held(there, key.value) < cap) && (!granted ==> waited == |meanwhile|)
    {
      body, granted, waited := null, false, 0;
      if key.None? { return; }
      var token;
      token, waited := Acquire(f, key.value, meanwhile, ahead, done);
      granted := token;
      if !token { return; }
      if result.Answered? {
        body := new Body(f);
      } else {
        Release(f);
      }
    }
  }

  /** What the transport did: no request could be made or sent, or a status with a
      readable body of some length or an unreadable one. */
  datatype Exchange = Unsent | Answered(status: int, body: Option<int>)

  /** Only a 200 needs its body read, whole and within the limit. */
  predicate Readable(x: Exchange, maxBytes: int) {
    x.Answered? && (x.status == 200 ==> x.body.Some? && x.body.value <= maxBytes)
  }

  /** releaseReadCloser: `fired` is the state of its sync.Once. */
  class Body {
    const f: nat
    var fired: bool

    constructor (f: nat)
      ensures this.f == f && !fired
    {
      this.f, fired := f, false;
    }

    /** The first Close gives the token back, any further one changes nothing. */
    method Close(c: Client)
      requires c.Valid() && !fired ==> f in c.flight && c.flight[f].phase.Holding?
      requires c.Valid()
      modifies this, c, c.repr
      ensures c.Valid() && fired
      ensures c.flight == if old(fired) then old(c.flight) else old(c.flight) - {f}
    {
      if !fired {
        fired := true;
        c.Release(f);
      }
    }
  }
}
