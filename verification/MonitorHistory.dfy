/** The queue of the monitor against the calls alone: what was put in and what came out are read off the
    passes of put and take that were made, not off what the steps recorded. */
module MonitorHistory {
  import opened Common
  import opened Monitors

  /** The tasks of the passes of put that found a place: fewer tasks in the queue than it may hold. */
  function PutIn(start: State, acts: seq<Action>): seq<Task> {
    if acts == [] then []
    else
      var before, a := acts[..|acts| - 1], acts[|acts| - 1];
      var s := After(start, before);
      PutIn(start, before) +
      if a.Put? && Enabled(s, a) && (!start.bounded || |s.queue| < start.cap) then [a.x] else []
  }

  /** How many passes of take found something. */
  function TakenOut(start: State, acts: seq<Action>): nat {
    if acts == [] then 0
    else
      var before, a := acts[..|acts| - 1], acts[|acts| - 1];
      var s := After(start, before);
      TakenOut(start, before) + if a.Take? && Enabled(s, a) && |s.queue| > 0 then 1 else 0
  }

  lemma StepAdds(s: State, a: Action)
    requires Enabled(s, a)
    ensures var s' := Next(s, a);
      && s'.accepted == s.accepted + (if a.Put? && !IsFull(s) then [a.x] else [])
      && |s'.taken| == |s.taken| + (if a.Take? && s.queue != [] then 1 else 0)
      && (s'.running <==> s.running && !a.Stop?)
  {
  }

  lemma {:induction false} RecordIsHistory(start: State, acts: seq<Action>)
    requires start.accepted == [] && start.taken == []
    ensures var s := After(start, acts);
      s.accepted == PutIn(start, acts) && |s.taken| == TakenOut(start, acts)
    ensures After(start, acts).running <==> start.running && Stop !in acts
    decreases |acts|
  {
    if acts != [] {
      var before, a := acts[..|acts| - 1], acts[|acts| - 1];
      RecordIsHistory(start, before);
      CapStays(start, before);
      assert acts == before + [a];
      if Enabled(After(start, before), a) {
        StepAdds(After(start, before), a);
      }
    }
  }

  /** First in, first out: after any run the queue is what was put in, in order, without as many of the
      first as were taken out; those went to the takers in the same order. It holds no more than it may, and
      stop is remembered. */
  lemma QueueIsHistory(bounded: bool, cap: nat, acts: seq<Action>)
    ensures var start := Init(bounded, cap);
      var s, all, k := After(start, acts), PutIn(start, acts), TakenOut(start, acts);
      && k <= |all| && s.queue == all[k..] && s.taken == all[..k]
      && (bounded ==> |all| - k <= cap)
      && (s.running <==> Stop !in acts)
  {
    RecordIsHistory(Init(bounded, cap), acts);
    FirstInFirstOut(bounded, cap, acts);
    CapStays(Init(bounded, cap), acts);
  }
}
