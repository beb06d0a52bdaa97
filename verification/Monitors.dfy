/** The monitor that the bounded blocking queue and the thread pool's task queue share.  Condition
    variables are explicit sets of waiting threads and of threads that have been woken but
    have not got the lock back. */
module Monitors {
  import opened Common

  type Tid = nat
  type Task = nat

  /** `bounded` and `cap` give the capacity; `running` is the pool's flag and stays true in
      the blocking queue.  `accepted` and `taken` are the whole history. */
  datatype State = State(
    bounded: bool,
    cap: nat,
    running: bool,
    queue: seq<Task>,
    takersWaiting: set<Tid>,
    takersSignalled: set<Tid>,
    puttersWaiting: map<Tid, Task>,
    puttersSignalled: map<Tid, Task>,
    accepted: seq<Task>,
    taken: seq<Task>)

  /** The steps made under the lock: a pass of the loop in put or run, a pass of the loop in
      take, a wakeup without a notification, and stop.  `woken` is the thread that
      pthread_cond_signal picks. */
  datatype Action =
    | Put(p: Tid, x: Task, woken: Option<Tid>)
    | Take(t: Tid, freed: Option<Tid>)
    | SpuriousTaker(st: Tid)
    | SpuriousPutter(sp: Tid)
    | Stop

  function Init(bounded: bool, cap: nat): State {
    State(bounded, cap, true, [], {}, {}, map[], map[], [], [])
  }

  predicate IsFull(s: State) {
    s.bounded && |s.queue| >= s.cap
  }

  predicate Picks(waiting: set<Tid>, woken: Option<Tid>) {
    if waiting == {} then woken.None? else woken.Some? && woken.value in waiting
  }

  predicate Outside(s: State, t: Tid) {
    t !in s.takersWaiting && t !in s.takersSignalled && t !in s.puttersWaiting && t !in s.puttersSignalled
  }

  predicate Enabled(s: State, a: Action) {
    match a
    case Put(p, x, woken) =>
      && (Outside(s, p) || (p in s.puttersSignalled && s.puttersSignalled[p] == x))
      && (!IsFull(s) ==> Picks(s.takersWaiting, woken))
    case Take(t, freed) =>
      && (Outside(s, t) || t in s.takersSignalled)
      && (s.queue != [] && s.bounded ==> Picks(s.puttersWaiting.Keys, freed))
    case SpuriousTaker(t) => t in s.takersWaiting
    case SpuriousPutter(p) => p in s.puttersWaiting
    case Stop => true
  }

  function WakeTaker(s: State, woken: Option<Tid>): State {
    if woken.None? then s
    else s.(takersWaiting := s.takersWaiting - {woken.value}, takersSignalled := s.takersSignalled + {woken.value})
  }

  function WakePutter(s: State, woken: Option<Tid>): State {
    if woken.None? || woken.value !in s.puttersWaiting then s
    else s.(puttersWaiting := s.puttersWaiting - {woken.value},
            puttersSignalled := s.puttersSignalled[woken.value := s.puttersWaiting[woken.value]])
  }

  function Next(s: State, a: Action): State
    requires Enabled(s, a)
  {
    match a
    case Put(p, x, woken) =>
      var s1 := s.(puttersSignalled := s.puttersSignalled - {p});
      if IsFull(s) then s1.(puttersWaiting := s1.puttersWaiting[p := x])
      else WakeTaker(s1.(queue := s1.queue + [x], accepted := s1.accepted + [x]), woken)
    case Take(t, freed) =>
      var s1 := s.(takersSignalled := s.takersSignalled - {t});
      if s.queue != [] then
        var s2 := s1.(queue := s1.queue[1..], taken := s1.taken + [s1.queue[0]]);
        if s.bounded then WakePutter(s2, freed) else s2
      else if s.running then s1.(takersWaiting := s1.takersWaiting + {t})
      else s1
    case SpuriousTaker(t) => WakeTaker(s, Some(t))
    case SpuriousPutter(p) => WakePutter(s, Some(p))
    case Stop => s.(running := false, takersWaiting := {}, takersSignalled := s.takersSignalled + s.takersWaiting)
  }

  function After(s: State, acts: seq<Action>): (r: State) {
    if acts == [] then s
    else
      var t := After(s, acts[..|acts| - 1]);
      if Enabled(t, acts[|acts| - 1]) then Next(t, acts[|acts| - 1]) else t
  }

  // -------------------------------------------------------------- invariants

  /** Conservation and order, the bound, and no lost wakeup on either condition: while a
      thread waits for items, at least as many woken takers as items are on their way, and
      dually for free places. */
  ghost predicate Inv(s: State) {
    && s.accepted == s.taken + s.queue
    && (s.bounded ==> |s.queue| <= s.cap)
    && s.takersWaiting !! s.takersSignalled
    && s.puttersWaiting.Keys !! s.puttersSignalled.Keys
    && (s.takersWaiting != {} ==> s.running && |s.takersSignalled| >= |s.queue|)
    && (s.puttersWaiting != map[] ==> s.bounded && |s.puttersSignalled| >= s.cap - |s.queue|)
  }

  lemma SetMove(a: set<Tid>, t: Tid)
    ensures t in a ==> |a - {t}| == |a| - 1
    ensures t !in a ==> |a - {t}| == |a| && |a + {t}| == |a| + 1
  {
    if t !in a {
      assert a - {t} == a;
    }
  }

  lemma MapMove(m: map<Tid, Task>, t: Tid, x: Task)
    ensures |m - {t}| == if t in m then |m| - 1 else |m|
    ensures |m[t := x]| == if t in m then |m| else |m| + 1
  {
    assert (m - {t}).Keys == m.Keys - {t};
    assert m[t := x].Keys == m.Keys + {t};
    SetMove(m.Keys, t);
    assert |m.Keys| == |m| && |(m - {t}).Keys| == |m - {t}| && |m[t := x].Keys| == |m[t := x]|;
  }

  lemma PutKeeps(s: State, p: Tid, x: Task, woken: Option<Tid>)
    requires Inv(s) && Enabled(s, Put(p, x, woken))
    ensures Inv(Next(s, Put(p, x, woken)))
  {
    MapMove(s.puttersSignalled, p, x);
    if woken.Some? {
      SetMove(s.takersSignalled, woken.value);
    }
  }

  lemma TakeKeeps(s: State, t: Tid, freed: Option<Tid>)
    requires Inv(s) && Enabled(s, Take(t, freed))
    ensures Inv(Next(s, Take(t, freed)))
  {
    SetMove(s.takersSignalled, t);
    if s.queue != [] {
      var s2 := Popped(s, t);
      PopKeeps(s, t);
      if s.bounded {
        FreeKeeps(s2, freed);
      }
    }
  }

  function Popped(s: State, t: Tid): State
    requires s.queue != []
  {
    s.(takersSignalled := s.takersSignalled - {t}, queue := s.queue[1..], taken := s.taken + [s.queue[0]])
  }

  /** Everything but the promise to waiting putters, who have not heard of the free place yet. */
  ghost predicate InvButOne(s: State) {
    && s.accepted == s.taken + s.queue
    && (s.bounded ==> |s.queue| < s.cap)
    && s.takersWaiting !! s.takersSignalled
    && s.puttersWaiting.Keys !! s.puttersSignalled.Keys
    && (s.takersWaiting != {} ==> s.running && |s.takersSignalled| >= |s.queue|)
    && (s.puttersWaiting != map[] ==> s.bounded && |s.puttersSignalled| + 1 >= s.cap - |s.queue|)
  }

  lemma PopKeeps(s: State, t: Tid)
    requires Inv(s) && s.queue != [] && t !in s.takersWaiting
    ensures InvButOne(Popped(s, t)) && (!s.bounded ==> Inv(Popped(s, t)))
  {
    SetMove(s.takersSignalled, t);
    assert s.taken + s.queue == (s.taken + [s.queue[0]]) + s.queue[1..];
  }

  lemma FreeKeeps(s: State, freed: Option<Tid>)
    requires InvButOne(s) && s.bounded && Picks(s.puttersWaiting.Keys, freed)
    ensures Inv(WakePutter(s, freed))
  {
    if freed.Some? {
      MapMove(s.puttersSignalled, freed.value, s.puttersWaiting[freed.value]);
    } else {
      assert s.puttersWaiting == map[];
    }
  }

  lemma StepKeeps(s: State, a: Action)
    requires Inv(s) && Enabled(s, a)
    ensures Inv(Next(s, a))
  {
    match a
    case Put(p, x, woken) => PutKeeps(s, p, x, woken);
    case Take(t, freed) => TakeKeeps(s, t, freed);
    case SpuriousTaker(t) => SetMove(s.takersSignalled, t);
    case SpuriousPutter(p) => MapMove(s.puttersSignalled, p, s.puttersWaiting[p]);
    case Stop =>
  }

  lemma {:induction false} RunKeeps(s: State, acts: seq<Action>)
    requires Inv(s)
    ensures Inv(After(s, acts))
  {
    if acts != [] {
      RunKeeps(s, acts[..|acts| - 1]);
      var t := After(s, acts[..|acts| - 1]);
      if Enabled(t, acts[|acts| - 1]) {
        StepKeeps(t, acts[|acts| - 1]);
      }
    }
  }

  // ------------------------------------------------------------ main results

  /** First in, first out: tasks are taken in the order of acceptance, each at most once,
      and the queue never exceeds its bound. */
  lemma FirstInFirstOut(bounded: bool, cap: nat, acts: seq<Action>)
    ensures var s := After(Init(bounded, cap), acts);
      s.taken <= s.accepted && s.accepted[|s.taken|..] == s.queue && (s.bounded ==> |s.queue| <= s.cap)
  {
    RunKeeps(Init(bounded, cap), acts);
  }

  lemma NoMembers(a: set<Tid>)
    requires forall x :: x !in a
    ensures |a| == 0
  {
    assert forall x :: x in a <==> x in {};
    assert a == {};
  }

  lemma SomeMember(a: set<Tid>) returns (t: Tid)
    requires |a| > 0
    ensures t in a
  {
    if forall x :: x !in a {
      NoMembers(a);
    }
    t :| t in a;
  }

  /** No taker sleeps beside available work: as long as one waits and the queue is not empty,
      some woken taker is about to get an item. */
  lemma NoTakerLeftBehind(bounded: bool, cap: nat, acts: seq<Action>) returns (t: Tid)
    requires After(Init(bounded, cap), acts).takersWaiting != {} && After(Init(bounded, cap), acts).queue != []
    ensures var s := After(Init(bounded, cap), acts);
      && t in s.takersSignalled
      && forall f :: Enabled(s, Take(t, f)) ==> Next(s, Take(t, f)).taken == s.taken + [s.queue[0]]
  {
    RunKeeps(Init(bounded, cap), acts);
    t := SomeMember(After(Init(bounded, cap), acts).takersSignalled);
  }

  /** No putter sleeps beside a free place. */
  lemma NoPutterLeftBehind(bounded: bool, cap: nat, acts: seq<Action>) returns (p: Tid)
    requires After(Init(bounded, cap), acts).puttersWaiting != map[] && !IsFull(After(Init(bounded, cap), acts))
    ensures var s := After(Init(bounded, cap), acts);
      && p in s.puttersSignalled
      && forall w :: Enabled(s, Put(p, s.puttersSignalled[p], w)) ==>
           Next(s, Put(p, s.puttersSignalled[p], w)).accepted == s.accepted + [s.puttersSignalled[p]]
  {
    RunKeeps(Init(bounded, cap), acts);
    var s := After(Init(bounded, cap), acts);
    assert |s.puttersSignalled.Keys| == |s.puttersSignalled|;
    p := SomeMember(s.puttersSignalled.Keys);
  }

  /** Takers and putters never all wait for each other, unless the capacity is zero. */
  lemma NeverAllWait(bounded: bool, cap: nat, acts: seq<Action>)
    requires cap > 0
    ensures var s := After(Init(bounded, cap), acts);
      s.cap == cap &&
      !(s.takersWaiting != {} && s.puttersWaiting != map[] && s.takersSignalled == {} && s.puttersSignalled == map[])
  {
    RunKeeps(Init(bounded, cap), acts);
    CapStays(Init(bounded, cap), acts);
    var s := After(Init(bounded, cap), acts);
    if s.takersSignalled == {} && s.puttersSignalled == map[] {
      assert |s.takersSignalled| == 0 && |s.puttersSignalled| == 0;
    }
  }

  lemma {:induction false} CapStays(s: State, acts: seq<Action>)
    ensures After(s, acts).cap == s.cap && After(s, acts).bounded == s.bounded
  {
    if acts != [] {
      CapStays(s, acts[..|acts| - 1]);
    }
  }

  // ------------------------------------------------------------- the objects

  class BoundedBlockingQueue {
    const capacity: nat
    var queue: seq<Task>
    ghost var takersWaiting: set<Tid>
    ghost var takersSignalled: set<Tid>
    ghost var puttersWaiting: map<Tid, Task>
    ghost var puttersSignalled: map<Tid, Task>
    ghost var accepted: seq<Task>
    ghost var taken: seq<Task>

    ghost function View(): State
      reads this
    {
      State(true, capacity, true, queue, takersWaiting, takersSignalled, puttersWaiting, puttersSignalled,
            accepted, taken)
    }

    constructor (maxSize: nat)
      ensures View() == Init(true, maxSize)
    {
      capacity, queue := maxSize, [];
      takersWaiting, takersSignalled, puttersWaiting, puttersSignalled := {}, {}, map[], map[];
      accepted, taken := [], [];
    }

    /** One pass of put's loop: waits if there is no place, and otherwise adds the item. */
    method PutPass(p: Tid, x: Task, ghost woken: Option<Tid>) returns (done: bool)
      requires Enabled(View(), Put(p, x, woken))
      modifies this
      ensures View() == Next(old(View()), Put(p, x, woken)) && (done <==> |old(queue)| < capacity)
    {
      puttersSignalled := puttersSignalled - {p};
      if |queue| >= capacity {
        puttersWaiting := puttersWaiting[p := x];
        return false;
      }
      queue := queue + [x];
      accepted := accepted + [x];
      if woken.Some? {
        takersWaiting, takersSignalled := takersWaiting - {woken.value}, takersSignalled + {woken.value};
      }
      return true;
    }

    /** One pass of take's loop: waits if there is nothing, and otherwise takes the first item. */
    method TakePass(t: Tid, ghost freed: Option<Tid>) returns (front: Option<Task>)
      requires Enabled(View(), Take(t, freed))
      modifies this
      ensures View() == Next(old(View()), Take(t, freed))
      ensures front == if old(queue) == [] then None else Some(old(queue)[0])
    {
      takersSignalled := takersSignalled - {t};
      if |queue| == 0 {
        takersWaiting := takersWaiting + {t};
        return None;
      }
      front := Some(queue[0]);
      taken := taken + [queue[0]];
      queue := queue[1..];
      if freed.Some? && freed.value in puttersWaiting {
        puttersSignalled := puttersSignalled[freed.value := puttersWaiting[freed.value]];
        puttersWaiting := puttersWaiting - {freed.value};
      }
    }
  }
}
