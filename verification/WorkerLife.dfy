/** The workers of a pool that has not been stopped: none leaves, and work in the queue finds a worker. */
module WorkerLife {
  import opened Common
  import opened Monitors
  import opened WorkerPool

  /** The workers are the ones the pool was started with, and only stop makes one leave. */
  ghost predicate Live(s: Pool, workers: set<Tid>) {
    && Inv(s.m) && WhereOk(s) && s.at.Keys == workers
    && (s.m.running ==> forall t :: t in s.at ==> s.at[t] != Gone)
  }

  lemma StaysRunning(m: State, a: Action)
    requires Enabled(m, a) && Next(m, a).running
    ensures m.running
  {
  }

  /** A step moves a worker out of the loop only when the pool has been stopped. */
  lemma NoneLeaves(s: Pool, e: Event)
    requires Able(s, e)
    ensures Step(s, e).at.Keys == s.at.Keys
    ensures s.m.running ==> forall t :: t in s.at && s.at[t] != Gone ==> Step(s, e).at[t] != Gone
  {
  }

  lemma MonitorStep(s: Pool, e: Event)
    requires Inv(s.m) && Able(s, e)
    ensures Inv(Step(s, e).m) && (Step(s, e).m.running ==> s.m.running)
  {
    if e.Do? {
      StepKeeps(s.m, e.a);
      if Next(s.m, e.a).running {
        StaysRunning(s.m, e.a);
      }
    }
  }

  lemma LiveStep(s: Pool, e: Event, workers: set<Tid>)
    requires Live(s, workers) && Able(s, e)
    ensures Live(Step(s, e), workers)
  {
    WhereStep(s, e);
    NoneLeaves(s, e);
    MonitorStep(s, e);
  }

  lemma {:induction false} LiveRun(workers: set<Tid>, maxQueueSize: nat, events: seq<Event>)
    ensures Live(Run(Start(workers, maxQueueSize), events), workers)
    decreases |events|
  {
    if events != [] {
      var before, e := events[..|events| - 1], events[|events| - 1];
      LiveRun(workers, maxQueueSize, before);
      if Able(Run(Start(workers, maxQueueSize), before), e) {
        LiveStep(Run(Start(workers, maxQueueSize), before), e, workers);
      }
    }
  }

  /** Until the pool is stopped, every worker it was started with is still in its loop. */
  lemma {:induction false} WorkersStay(workers: set<Tid>, maxQueueSize: nat, events: seq<Event>, t: Tid)
    requires t in workers && Run(Start(workers, maxQueueSize), events).m.running
    ensures var s := Run(Start(workers, maxQueueSize), events);
      t in s.at && s.at[t] != Gone
  {
    LiveRun(workers, maxQueueSize, events);
  }

  /** A worker about to test the flag of a running pool goes on to take. */
  lemma TestThenTake(s: Pool, workers: set<Tid>, t: Tid)
    requires Live(s, workers) && s.m.running && t in s.at && s.at[t] == Testing
    ensures Able(s, Test(t)) && Step(s, Test(t)).m == s.m && Outside(s.m, t)
    ensures Live(Step(s, Test(t)), workers) && Step(s, Test(t)).at[t] == Taking
  {
    LiveStep(s, Test(t), workers);
  }

  /** A worker in take that is awake takes the first task and runs it. */
  lemma AwakeTakes(s: Pool, workers: set<Tid>, t: Tid) returns (take: Event)
    requires Live(s, workers) && s.m.queue != [] && t in s.at && s.at[t] == Taking && t !in s.m.takersWaiting
    ensures take.Do? && Able(s, take)
    ensures var r := Step(s, take);
      r.m.taken == s.m.taken + [s.m.queue[0]] && r.m.queue == s.m.queue[1..] && r.at == s.at[t := Working]
  {
    var freed := Picked(s.m.puttersWaiting.Keys);
    take := Do(Take(t, freed));
  }

  /** Of workers in take, one is awake when there is a task. */
  lemma SomeoneAwake(s: Pool, workers: set<Tid>, t: Tid) returns (u: Tid)
    requires Live(s, workers) && s.m.queue != [] && t in s.at && s.at[t] == Taking
    ensures u in s.at && s.at[u] == Taking && u !in s.m.takersWaiting
  {
    u := t;
    if t in s.m.takersWaiting {
      u := SomeMember(s.m.takersSignalled);
    }
  }

  /** While the pool runs and not every worker is at work, the first task in the queue can be taken by a
      worker in at most two steps, without a wakeup that nobody asked for: it waits for nothing else. */
  lemma TaskFindsWorker(workers: set<Tid>, maxQueueSize: nat, events: seq<Event>, t: Tid)
    returns (u: Tid, more: seq<Event>)
    requires var s := Run(Start(workers, maxQueueSize), events);
      s.m.running && s.m.queue != [] && t in workers && t in s.at && s.at[t] != Working
    ensures var s, r := Run(Start(workers, maxQueueSize), events), Run(Start(workers, maxQueueSize), events + more);
      && |more| <= 2 && NoSpurious(more)
      && u in workers && u in r.at && r.at[u] == Working
      && r.m.taken == s.m.taken + [s.m.queue[0]] && r.m.queue == s.m.queue[1..]
  {
    LiveRun(workers, maxQueueSize, events);
    var start, s := Start(workers, maxQueueSize), Run(Start(workers, maxQueueSize), events);
    var take: Event;
    if s.at[t] == Testing {
      TestThenTake(s, workers, t);
      take := AwakeTakes(Step(s, Test(t)), workers, t);
      u, more := t, [Test(t)] + [take];
      RunOne(start, events, Test(t));
      RunOne(start, events + [Test(t)], take);
      assert events + more == events + [Test(t)] + [take];
    } else {
      u := SomeoneAwake(s, workers, t);
      take := AwakeTakes(s, workers, u);
      more := [take];
      RunOne(start, events, take);
    }
  }
}
