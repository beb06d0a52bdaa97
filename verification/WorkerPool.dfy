/** The thread pool: the monitor of its task queue, and worker threads that test the running flag,
    take a task, run it, and test again until the pool is stopped. */
module WorkerPool {
  import opened Common
  import opened Monitors

  /** Where a worker is: about to test the flag, past the test and in take, running what it took, or
      out of its loop. */
  datatype Where = Testing | Taking | Working | Gone

  datatype Pool = Pool(m: State, at: map<Tid, Where>)

  /** A step under the lock of the queue, the test of the flag (without the lock), and the end of a
      task. */
  datatype Event = Do(a: Action) | Test(t: Tid) | Finish(t: Tid)

  function Start(workers: set<Tid>, maxQueueSize: nat): Pool {
    Pool(Init(maxQueueSize > 0, maxQueueSize), map t | t in workers :: Testing)
  }

  /** Only a worker past its test takes; a worker puts tasks only while it runs one. */
  predicate Able(s: Pool, e: Event) {
    match e
    case Do(Put(p, x, woken)) => Enabled(s.m, e.a) && (p in s.at ==> s.at[p] == Working)
    case Do(Take(t, freed)) => Enabled(s.m, e.a) && t in s.at && s.at[t] == Taking
    case Do(a) => Enabled(s.m, a)
    case Test(t) => t in s.at && s.at[t] == Testing
    case Finish(t) => t in s.at && s.at[t] == Working && Outside(s.m, t)
  }

  /** Where a worker is after a pass of take: it waits, or comes back with a task or without one. */
  function Behind(m: State): Where {
    if m.queue != [] then Working else if m.running then Taking else Testing
  }

  function Step(s: Pool, e: Event): Pool
    requires Able(s, e)
  {
    match e
    case Do(Take(t, freed)) => Pool(Next(s.m, e.a), s.at[t := Behind(s.m)])
    case Do(a) => Pool(Next(s.m, a), s.at)
    case Test(t) => s.(at := s.at[t := if s.m.running then Taking else Gone])
    case Finish(t) => s.(at := s.at[t := Testing])
  }

  function Run(s: Pool, events: seq<Event>): Pool {
    if events == [] then s
    else
      var r, e := Run(s, events[..|events| - 1]), events[|events| - 1];
      if Able(r, e) then Step(r, e) else r
  }

  lemma RunOne(s: Pool, events: seq<Event>, e: Event)
    ensures Run(s, events + [e]) == if Able(Run(s, events), e) then Step(Run(s, events), e) else Run(s, events)
  {
    assert (events + [e])[..|events|] == events;
  }

  lemma {:induction false} RunMore(s: Pool, a: seq<Event>, b: seq<Event>)
    ensures Run(s, a + b) == Run(Run(s, a), b)
    decreases |b|
  {
    if b == [] {
      assert a + b == a;
    } else {
      RunMore(s, a, b[..|b| - 1]);
      assert (a + b)[..|a + b| - 1] == a + b[..|b| - 1];
    }
  }

  // ------------------------------------------------------ the pool's monitor

  /** The steps under the lock that a run really makes. */
  function Calls(s: Pool, events: seq<Event>): seq<Action> {
    if events == [] then []
    else
      var before, e := events[..|events| - 1], events[|events| - 1];
      Calls(s, before) + if e.Do? && Able(Run(s, before), e) then [e.a] else []
  }

  /** Every run of the pool is a run of the monitor, so what holds of the monitor's runs (order,
      conservation, no lost wakeup) holds of the pool. */
  lemma {:induction false} PoolRunsMonitor(s: Pool, events: seq<Event>)
    ensures Run(s, events).m == After(s.m, Calls(s, events))
    decreases |events|
  {
    if events != [] {
      var before, e := events[..|events| - 1], events[|events| - 1];
      PoolRunsMonitor(s, before);
      var done := Calls(s, before);
      if e.Do? && Able(Run(s, before), e) {
        assert (done + [e.a])[..|done|] == done;
      } else {
        assert done + [] == done;
      }
    }
  }

  // -------------------------------------------------------------- invariant

  predicate InPut(m: State, p: Tid) {
    p in m.puttersWaiting || p in m.puttersSignalled
  }

  /** Who waits for tasks is past its test; a worker that waits for a place is running a task. */
  ghost predicate WhereOk(s: Pool) {
    && (forall t :: t in s.m.takersWaiting || t in s.m.takersSignalled ==> t in s.at && s.at[t] == Taking)
    && (forall p :: InPut(s.m, p) && p in s.at ==> s.at[p] == Working)
  }

  ghost predicate PoolInv(s: Pool) {
    Inv(s.m) && s.m.bounded && s.m.cap > 0 && WhereOk(s)
  }

  lemma WhereStep(s: Pool, e: Event)
    requires Inv(s.m) && WhereOk(s) && Able(s, e)
    ensures WhereOk(Step(s, e))
  {
    match e
    case Do(Put(p, x, woken)) => WherePut(s, p, x, woken);
    case Do(Take(t, freed)) => WhereTake(s, t, freed);
    case _ =>
  }

  lemma WherePut(s: Pool, p: Tid, x: Task, woken: Option<Tid>)
    requires WhereOk(s) && Able(s, Do(Put(p, x, woken)))
    ensures WhereOk(Step(s, Do(Put(p, x, woken))))
  {
  }

  lemma WhereTake(s: Pool, t: Tid, freed: Option<Tid>)
    requires Inv(s.m) && WhereOk(s) && Able(s, Do(Take(t, freed)))
    ensures WhereOk(Step(s, Do(Take(t, freed))))
  {
    var m' := Next(s.m, Take(t, freed));
    assert forall q :: InPut(m', q) <==> InPut(s.m, q);
    assert t !in m'.takersSignalled && (t in m'.takersWaiting ==> Behind(s.m) == Taking);
    assert forall u :: u != t ==> (u in m'.takersWaiting <==> u in s.m.takersWaiting);
  }

  lemma PoolStepKeeps(s: Pool, e: Event)
    requires PoolInv(s) && Able(s, e)
    ensures PoolInv(Step(s, e))
  {
    WhereStep(s, e);
    if e.Do? {
      StepKeeps(s.m, e.a);
    }
  }

  lemma {:induction false} PoolRunKeeps(s: Pool, events: seq<Event>)
    requires PoolInv(s)
    ensures PoolInv(Run(s, events))
    decreases |events|
  {
    if events != [] {
      var before := events[..|events| - 1];
      PoolRunKeeps(s, before);
      if Able(Run(s, before), events[|events| - 1]) {
        PoolStepKeeps(Run(s, before), events[|events| - 1]);
      }
    }
  }

  // ------------------------------------------------------------- after stop

  /** The workers past their test. */
  function Takers(s: Pool): set<Tid> {
    set t | t in s.at && s.at[t] == Taking
  }

  /** How many tasks can still be put once the pool is stopped: free places now, and one for each
      worker that has yet to come back from take. */
  function Places(s: Pool): int {
    s.m.cap - |s.m.queue| + |Takers(s)|
  }

  /** The producers of `ps` that have been in run all the time. */
  function Still(s: Pool, events: seq<Event>, ps: set<Tid>): set<Tid> {
    if events == [] then ps
    else set p | p in Still(s, events[..|events| - 1], ps) && InPut(Run(s, events).m, p)
  }

  lemma TakersStep(s: Pool, e: Event)
    requires PoolInv(s) && !s.m.running && Able(s, e)
    ensures !Step(s, e).m.running
    ensures Takers(Step(s, e)) == if e.Do? && e.a.Take? then Takers(s) - {e.a.t} else Takers(s)
    ensures e.Do? && e.a.Take? ==> e.a.t in Takers(s)
  {
  }

  /** A task accepted uses up a place; nothing makes places once the pool is stopped. */
  lemma PlacesStep(s: Pool, e: Event)
    requires PoolInv(s) && !s.m.running && Able(s, e)
    ensures var s' := Step(s, e);
      && Places(s') + |s'.m.accepted| <= Places(s) + |s.m.accepted|
      && |s.m.accepted| <= |s'.m.accepted|
  {
    TakersStep(s, e);
    if e.Do? {
      QueueStep(s.m, e.a);
      if e.a.Take? {
        SetMove(Takers(s), e.a.t);
      }
    }
  }

  /** A put fills a place and counts as accepted; a take frees at most one. */
  lemma QueueStep(m: State, a: Action)
    requires Enabled(m, a)
    ensures var m' := Next(m, a);
      && m'.cap == m.cap
      && |m'.accepted| - |m.accepted| == (if a.Put? && !IsFull(m) then 1 else 0)
      && |m'.queue| - |m.queue| ==
           (if a.Put? && !IsFull(m) then 1 else if a.Take? && m.queue != [] then -1 else 0)
  {
  }

  /** A producer leaves run only by having its task accepted, one at a time. */
  lemma LeavesByPut(s: Pool, e: Event)
    requires PoolInv(s) && Able(s, e)
    ensures var s' := Step(s, e);
      && (forall p :: InPut(s.m, p) && !InPut(s'.m, p) ==> e.Do? && e.a.Put? && e.a.p == p)
      && (forall p :: InPut(s.m, p) && !InPut(s'.m, p) ==> |s'.m.accepted| == |s.m.accepted| + 1)
  {
  }

  lemma {:induction false} StillAtLeast(s: Pool, events: seq<Event>, ps: set<Tid>)
    requires PoolInv(s) && !s.m.running && forall p :: p in ps ==> InPut(s.m, p)
    ensures var r := Run(s, events);
      && PoolInv(r) && !r.m.running
      && |ps| - |Still(s, events, ps)| <= |r.m.accepted| - |s.m.accepted| <= Places(s) - Places(r)
      && Still(s, events, ps) <= ps && forall p :: p in Still(s, events, ps) ==> InPut(r.m, p)
    decreases |events|
  {
    if events != [] {
      var before, e := events[..|events| - 1], events[|events| - 1];
      StillAtLeast(s, before, ps);
      StillStep(Run(s, before), Run(s, events), e, Still(s, before, ps), Still(s, events, ps));
    }
  }

  lemma StillStep(r: Pool, r': Pool, e: Event, was: set<Tid>, now: set<Tid>)
    requires PoolInv(r) && !r.m.running && r' == (if Able(r, e) then Step(r, e) else r)
    requires forall p :: p in was ==> InPut(r.m, p)
    requires now == set p | p in was && InPut(r'.m, p)
    ensures PoolInv(r') && !r'.m.running
    ensures |was| - |now| <= |r'.m.accepted| - |r.m.accepted| <= Places(r) - Places(r')
  {
    if Able(r, e) {
      PoolStepKeeps(r, e);
      TakersStep(r, e);
      PlacesStep(r, e);
      LeavesByPut(r, e);
      if now != was {
        assert e.Do? && e.a.Put?;
        assert now == was - {e.a.p};
        SetMove(was, e.a.p);
      }
    } else {
      assert now == was;
    }
  }

  // ------------------------------------------------- getting places after all

  /** A waiting producer, woken, puts its task when there is a place. */
  lemma PutsNow(s: Pool, p: Tid) returns (events: seq<Event>)
    requires PoolInv(s) && !s.m.running && InPut(s.m, p) && !IsFull(s.m)
    ensures var r := Run(s, events);
      && PoolInv(r) && !r.m.running && !InPut(r.m, p) && Places(r) == Places(s) - 1
      && forall q :: q != p ==> (InPut(r.m, q) <==> InPut(s.m, q))
  {
    var wake := if p in s.m.puttersWaiting then [Do(SpuriousPutter(p))] else [];
    var s1 := Run(s, wake);
    Woken(s, p, wake);
    var put := Do(Put(p, s1.m.puttersSignalled[p], None));
    events := wake + [put];
    RunOne(s, wake, put);
    PoolStepKeeps(s1, put);
    TakersStep(s1, put);
  }

  lemma Woken(s: Pool, p: Tid, wake: seq<Event>)
    requires PoolInv(s) && !s.m.running && InPut(s.m, p)
    requires wake == if p in s.m.puttersWaiting then [Do(SpuriousPutter(p))] else []
    ensures var s1 := Run(s, wake);
      && PoolInv(s1) && !s1.m.running && p in s1.m.puttersSignalled && Places(s1) == Places(s)
      && s1.m.queue == s.m.queue && s1.m.cap == s.m.cap
      && forall q :: InPut(s1.m, q) <==> InPut(s.m, q)
  {
    if p in s.m.puttersWaiting {
      RunOne(s, [], Do(SpuriousPutter(p)));
      assert [] + [Do(SpuriousPutter(p))] == wake;
      PoolStepKeeps(s, Do(SpuriousPutter(p)));
      TakersStep(s, Do(SpuriousPutter(p)));
    }
  }

  lemma Picked(waiting: set<Tid>) returns (woken: Option<Tid>)
    ensures Picks(waiting, woken)
  {
    if waiting == {} {
      woken := None;
    } else {
      var p := SomeTid(waiting);
      woken := Some(p);
    }
  }

  lemma SomeTid(a: set<Tid>) returns (t: Tid)
    requires a != {}
    ensures t in a
  {
    t := SomeMember(a);
  }

  /** A worker still in take makes a place in a full queue. */
  lemma TakesNow(s: Pool) returns (events: seq<Event>)
    requires PoolInv(s) && !s.m.running && IsFull(s.m) && Takers(s) != {}
    ensures var r := Run(s, events);
      && PoolInv(r) && !r.m.running && !IsFull(r.m) && Places(r) == Places(s)
      && forall q :: InPut(r.m, q) <==> InPut(s.m, q)
  {
    var t := SomeTid(Takers(s));
    var freed := Picked(s.m.puttersWaiting.Keys);
    var take := Do(Take(t, freed));
    events := [take];
    RunOne(s, [], take);
    assert [] + [take] == events;
    PoolStepKeeps(s, take);
    TakersStep(s, take);
    SetMove(Takers(s), t);
  }

  // ------------------------------------------------------------ main results

  lemma StillFewer(s: Pool, events: seq<Event>, ps: set<Tid>, more: seq<Event>)
    requires PoolInv(s) && !s.m.running && forall p :: p in ps ==> InPut(s.m, p)
    ensures Still(s, events + more, ps) == Still(Run(s, events), more, Still(s, events, ps))
    decreases |more|
  {
    if more == [] {
      assert events + more == events;
    } else {
      var front := more[..|more| - 1];
      StillFewer(s, events, ps, front);
      assert (events + more)[..|events + more| - 1] == events + front;
      RunMore(s, events, more);
    }
  }

  lemma {:induction false} StillMonotone(s: Pool, events: seq<Event>, ps: set<Tid>, qs: set<Tid>)
    requires ps <= qs
    ensures Still(s, events, ps) <= Still(s, events, qs)
    decreases |events|
  {
    if events != [] {
      StillMonotone(s, events[..|events| - 1], ps, qs);
    }
  }

  /** What is left to do when `events` have let the producers outside `rest` go. */
  lemma GoOn(s: Pool, events: seq<Event>, ps: set<Tid>, rest: set<Tid>, more: seq<Event>)
    requires PoolInv(s) && !s.m.running && forall p :: p in ps ==> InPut(s.m, p)
    requires forall p :: p in ps && p !in rest ==> !InPut(Run(s, events).m, p)
    requires Still(Run(s, events), more, rest) == {}
    ensures Still(s, events + more, ps) == {}
  {
    StillAtLeast(s, events, ps);
    StillFewer(s, events, ps, more);
    StillMonotone(Run(s, events), more, Still(s, events, ps), rest);
  }

  /** A schedule by which all of `ps` get their places. */
  lemma AllGetPlaces(s: Pool, ps: set<Tid>) returns (events: seq<Event>)
    requires PoolInv(s) && !s.m.running && (forall p :: p in ps ==> InPut(s.m, p)) && |ps| <= Places(s)
    ensures Still(s, events, ps) == {}
    decreases |ps|, IsFull(s.m)
  {
    if ps == {} {
      return [];
    }
    if IsFull(s.m) {
      var first := TakesNow(s);
      var more := AllGetPlaces(Run(s, first), ps);
      GoOn(s, first, ps, ps, more);
      return first + more;
    }
    var p := SomeTid(ps);
    SetMove(ps, p);
    var first := PutsNow(s, p);
    var more := AllGetPlaces(Run(s, first), ps - {p});
    GoOn(s, first, ps, ps - {p}, more);
    return first + more;
  }

  lemma PoolStarts(workers: set<Tid>, maxQueueSize: nat)
    requires maxQueueSize > 0
    ensures PoolInv(Start(workers, maxQueueSize))
  {
  }

  ghost predicate CanAllLeave(s: Pool, ps: set<Tid>) {
    exists events :: Still(s, events, ps) == {}
  }

  /** After stop, any set of the producers that are waiting in run can still all get their places
      exactly when it is no larger than the free places and the workers past their test together;
      what the other producers take away, they take from that number. */
  lemma PlacesAfterStop(workers: set<Tid>, maxQueueSize: nat, events: seq<Event>, ps: set<Tid>)
    requires maxQueueSize > 0 && !Run(Start(workers, maxQueueSize), events).m.running
    requires forall p :: p in ps ==> InPut(Run(Start(workers, maxQueueSize), events).m, p)
    ensures var s := Run(Start(workers, maxQueueSize), events);
      CanAllLeave(s, ps) <==> |ps| <= s.m.cap - |s.m.queue| + |Takers(s)|
  {
    PoolStarts(workers, maxQueueSize);
    PoolRunKeeps(Start(workers, maxQueueSize), events);
    var s := Run(Start(workers, maxQueueSize), events);
    if |ps| <= Places(s) {
      var more := AllGetPlaces(s, ps);
    } else {
      forall more ensures Still(s, more, ps) != {} {
        StillAtLeast(s, more, ps);
        PoolRunKeeps(s, more);
      }
    }
  }

  lemma OnlyMember(a: set<Tid>, p: Tid)
    requires a <= {p} && |a| >= 1
    ensures p in a
  {
    var q := SomeTid(a);
  }

  /** In particular one producer is stranded for good exactly when the queue is full and no worker is
      past its test. */
  lemma StrandedExactly(workers: set<Tid>, maxQueueSize: nat, events: seq<Event>, p: Tid)
    requires maxQueueSize > 0 && !Run(Start(workers, maxQueueSize), events).m.running
    requires InPut(Run(Start(workers, maxQueueSize), events).m, p)
    ensures var s := Run(Start(workers, maxQueueSize), events);
      (forall more :: InPut(Run(s, more).m, p)) <==> IsFull(s.m) && Takers(s) == {}
  {
    PoolStarts(workers, maxQueueSize);
    PoolRunKeeps(Start(workers, maxQueueSize), events);
    var s := Run(Start(workers, maxQueueSize), events);
    if IsFull(s.m) && Takers(s) == {} {
      forall more ensures InPut(Run(s, more).m, p) {
        StillAtLeast(s, more, {p});
        PoolRunKeeps(s, more);
        OnlyMember(Still(s, more, {p}), p);
      }
    } else if IsFull(s.m) {
      var take := TakesNow(s);
      var put := PutsNow(Run(s, take), p);
      RunMore(s, take, put);
      assert !InPut(Run(s, take + put).m, p);
    } else {
      var put := PutsNow(s, p);
      assert !InPut(Run(s, put).m, p);
    }
  }

  predicate NoSpurious(events: seq<Event>) {
    forall i :: 0 <= i < |events| ==> events[i].Do? ==> !events[i].a.SpuriousPutter?
  }

  /** Without a worker past its test, and without wakeups that nobody asked for, a producer asleep
      stays asleep. */
  lemma {:induction false} StaysAsleep(s: Pool, more: seq<Event>, p: Tid)
    requires PoolInv(s) && !s.m.running && Takers(s) == {} && p in s.m.puttersWaiting && NoSpurious(more)
    ensures var r := Run(s, more);
      PoolInv(r) && !r.m.running && Takers(r) == {} && p in r.m.puttersWaiting
    decreases |more|
  {
    if more != [] {
      var before, e := more[..|more| - 1], more[|more| - 1];
      assert forall i :: 0 <= i < |before| ==> before[i] == more[i];
      StaysAsleep(s, before, p);
      if Able(Run(s, before), e) {
        PoolStepKeeps(Run(s, before), e);
        TakersStep(Run(s, before), e);
      }
    }
  }

  lemma PutSignalled(s: Pool, q: Tid)
    requires PoolInv(s) && !s.m.running && q in s.m.puttersSignalled && !IsFull(s.m)
    ensures var e := Do(Put(q, s.m.puttersSignalled[q], None));
      && Able(s, e)
      && var r := Step(s, e);
      PoolInv(r) && !r.m.running && Takers(r) == Takers(s) && !InPut(r.m, q) && r.m.queue != []
      && r.m.puttersWaiting == s.m.puttersWaiting
  {
    var e := Do(Put(q, s.m.puttersSignalled[q], None));
    PoolStepKeeps(s, e);
    TakersStep(s, e);
  }

  /** A take by a worker past its test, with something in the queue, may wake the producer `p`, which
      then puts. */
  lemma TakeThenPut(s: Pool, p: Tid, t: Tid)
    requires PoolInv(s) && !s.m.running && p in s.m.puttersWaiting && t in Takers(s) && s.m.queue != []
    ensures var take := Do(Take(t, Some(p)));
      && Able(s, take)
      && var r := Step(s, take);
      p in r.m.puttersSignalled
      && var put := Do(Put(p, r.m.puttersSignalled[p], None));
      Able(r, put) && !InPut(Step(r, put).m, p)
  {
    var take := Do(Take(t, Some(p)));
    PoolStepKeeps(s, take);
    TakersStep(s, take);
    PutSignalled(Step(s, take), p);
  }

  /** A schedule by which a producer asleep gets its place without unasked-for wakeups. */
  lemma GetsUp(s: Pool, p: Tid) returns (more: seq<Event>)
    requires PoolInv(s) && !s.m.running && p in s.m.puttersWaiting && Takers(s) != {}
    ensures NoSpurious(more) && !InPut(Run(s, more).m, p)
  {
    var t := SomeTid(Takers(s));
    var first: seq<Event> := [];
    if s.m.queue == [] {
      assert |s.m.puttersSignalled.Keys| == |s.m.puttersSignalled|;
      var q := SomeMember(s.m.puttersSignalled.Keys);
      first := [Do(Put(q, s.m.puttersSignalled[q], None))];
      PutSignalled(s, q);
      RunOne(s, [], first[0]);
      assert [] + [first[0]] == first;
    }
    var r := Run(s, first);
    TakeThenPut(r, p, t);
    var take := Do(Take(t, Some(p)));
    RunOne(s, first, take);
    var put := Do(Put(p, Step(r, take).m.puttersSignalled[p], None));
    RunOne(s, first + [take], put);
    more := first + [take] + [put];
  }

  ghost predicate CanGetUp(s: Pool, p: Tid) {
    exists more :: NoSpurious(more) && !InPut(Run(s, more).m, p)
  }

  /** After stop, a producer asleep in run still gets its place, without wakeups that nobody asked
      for, exactly when some worker is past its test. */
  lemma SleeperWakesExactly(workers: set<Tid>, maxQueueSize: nat, events: seq<Event>, p: Tid)
    requires maxQueueSize > 0 && !Run(Start(workers, maxQueueSize), events).m.running
    requires p in Run(Start(workers, maxQueueSize), events).m.puttersWaiting
    ensures var s := Run(Start(workers, maxQueueSize), events);
      CanGetUp(s, p) <==> Takers(s) != {}
  {
    PoolStarts(workers, maxQueueSize);
    PoolRunKeeps(Start(workers, maxQueueSize), events);
    var s := Run(Start(workers, maxQueueSize), events);
    if Takers(s) != {} {
      var more := GetsUp(s, p);
    } else {
      forall more | NoSpurious(more) ensures InPut(Run(s, more).m, p) {
        StaysAsleep(s, more, p);
      }
    }
  }

  /** A run that strands: the one worker of a pool for one task leaves at its test, while a second task
      waits for the place of the first. */
  function StrandingRun(w: Tid, p: Tid, x: Task, y: Task): seq<Event> {
    [Do(Put(p, x, None)), Do(Put(p, y, None)), Do(Stop), Test(w)]
  }

  lemma StopStrands(w: Tid, p: Tid, x: Task, y: Task)
    requires w != p
    ensures var s := Run(Start({w}, 1), StrandingRun(w, p, x, y));
      && !s.m.running && s.m.puttersWaiting == map[p := y]
      && forall more :: InPut(Run(s, more).m, p)
  {
    var s0 := Start({w}, 1);
    var a, b, c, d := Do(Put(p, x, None)), Do(Put(p, y, None)), Do(Stop), Test(w);
    RunOne(s0, [], a);
    RunOne(s0, [a], b);
    RunOne(s0, [a, b], c);
    RunOne(s0, [a, b, c], d);
    assert [] + [a] == [a] && [a] + [b] == [a, b] && [a, b] + [c] == [a, b, c];
    assert [a, b, c] + [d] == StrandingRun(w, p, x, y);
    var s := Run(s0, StrandingRun(w, p, x, y));
    assert s.m.queue == [x] && s.at == map[w := Gone];
    StrandedExactly({w}, 1, StrandingRun(w, p, x, y), p);
  }

  // -------------------------------------------------------------- the object

  class ThreadPool {
    const maxQueueSize: nat
    var queue: seq<Task>
    var running: bool
    ghost var takersWaiting: set<Tid>
    ghost var takersSignalled: set<Tid>
    ghost var puttersWaiting: map<Tid, Task>
    ghost var puttersSignalled: map<Tid, Task>
    ghost var accepted: seq<Task>
    ghost var taken: seq<Task>
    ghost var at: map<Tid, Where>

    ghost function Monitor(): State
      reads this
    {
      State(maxQueueSize > 0, maxQueueSize, running, queue, takersWaiting, takersSignalled,
            puttersWaiting, puttersSignalled, accepted, taken)
    }

    ghost function View(): Pool
      reads this
    {
      Pool(Monitor(), at)
    }

    /** A pool that has been started with its workers. */
    constructor (maxQueueSize: nat, ghost workers: set<Tid>)
      ensures View() == Start(workers, maxQueueSize)
    {
      this.maxQueueSize, queue, running := maxQueueSize, [], true;
      takersWaiting, takersSignalled, puttersWaiting, puttersSignalled := {}, {}, map[], map[];
      accepted, taken := [], [];
      at := map t | t in workers :: Testing;
    }

    /** One pass of run's loop, in a pool that has worker threads. */
    method RunPass(p: Tid, task: Task, ghost woken: Option<Tid>) returns (done: bool)
      requires Able(View(), Do(Put(p, task, woken)))
      modifies this
      ensures View() == Step(old(View()), Do(Put(p, task, woken)))
      ensures done <==> maxQueueSize == 0 || |old(queue)| < maxQueueSize
    {
      puttersSignalled := puttersSignalled - {p};
      if maxQueueSize > 0 && |queue| >= maxQueueSize {
        puttersWaiting := puttersWaiting[p := task];
        return false;
      }
      queue := queue + [task];
      accepted := accepted + [task];
      if woken.Some? {
        takersWaiting, takersSignalled := takersWaiting - {woken.value}, takersSignalled + {woken.value};
      }
      return true;
    }

    /** One pass of take's loop: waits, or returns a task, or after stop returns nothing. */
    method TakePass(t: Tid, ghost freed: Option<Tid>) returns (waits: bool, task: Option<Task>)
      requires Able(View(), Do(Take(t, freed)))
      modifies this
      ensures View() == Step(old(View()), Do(Take(t, freed)))
      ensures waits <==> old(queue) == [] && running
      ensures task == if old(queue) == [] then None else Some(old(queue)[0])
    {
      at := at[t := Behind(Monitor())];
      takersSignalled := takersSignalled - {t};
      if |queue| == 0 && running {
        takersWaiting := takersWaiting + {t};
        return true, None;
      }
      task := None;
      if |queue| != 0 {
        task := Some(queue[0]);
        taken := taken + [queue[0]];
        queue := queue[1..];
        if maxQueueSize > 0 {
          if freed.Some? && freed.value in puttersWaiting {
            puttersSignalled := puttersSignalled[freed.value := puttersWaiting[freed.value]];
            puttersWaiting := puttersWaiting - {freed.value};
          }
        }
      }
      waits := false;
    }

    /** The test at the head of a worker's loop. */
    method TestRunning(t: Tid) returns (goesOn: bool)
      requires Able(View(), Test(t))
      modifies this
      ensures View() == Step(old(View()), Test(t)) && goesOn == running
    {
      goesOn := running;
      at := at[t := if running then Taking else Gone];
    }

    method StopPool()
      modifies this
      ensures View() == Step(old(View()), Do(Stop))
    {
      running := false;
      takersSignalled := takersSignalled + takersWaiting;
      takersWaiting := {};
    }
  }
}
