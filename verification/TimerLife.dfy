/** The life of one timer along a run: it waits for its insertion, is queued, is taken when it is due,
    and at the end of the batch is queued again or deleted. */
module TimerLife {
  import opened Common
  import opened TimerQueue

  /** Timer `p` is queued, with these fields. */
  ghost predicate Held(s: State, p: Ptr, timer: Timer) {
    Queued(s, p) && s.heap[p] == timer
  }

  /** Timer `p` is in the running batch, with these fields. */
  ghost predicate Taken(s: State, p: Ptr, timer: Timer) {
    s.callingExpiredTimers && InBatch(s.batch, p) && p in s.heap && s.heap[p] == timer
  }

  // ----------------------------------------------------- the end of a batch

  /** What reset leaves of timer `p`, which had these fields: whether it is still to be reset is told by
      `rest`; `restart` says that it repeats and is not cancelled. */
  ghost predicate ResetSo(s: State, rest: seq<Entry>, p: Ptr, timer: Timer, restart: bool) {
    if InBatch(rest, p) then
      && p in s.heap && s.heap[p] == timer
      && (restart <==> timer.repeat && TimerId(p, timer.sequence) !in s.cancelingTimers)
    else if restart then Held(s, p, timer.(expiration := s.now + timer.delta))
    else p !in s.heap
  }

  lemma NotInQueue(s: State, rest: seq<Entry>)
    requires Resetting(s, rest) && rest != []
    ensures Loose(s, rest[0].timer)
  {
    forall e | e in s.timers ensures e.timer != rest[0].timer {
      QueuedEntry(s, e);
    }
  }

  /** Timer `q` is in neither index, as every timer is that is about to be reset. */
  ghost predicate Loose(s: State, q: Ptr) {
    && IndexesAgree(s) && LowArmed(s) && s.now > 0
    && q in s.heap && forall e :: e in s.timers ==> e.timer != q
  }

  lemma Restarts(s: State, q: Ptr, p: Ptr)
    requires Loose(s, q)
    ensures var r := Insert(Restarted(s, q), q);
      && Held(r, q, s.heap[q].(expiration := s.now + s.heap[q].delta))
      && (q != p ==> (Queued(r, p) <==> Queued(s, p)))
  {
    RestartIndexes(s, q);
  }

  /** Resetting one timer leaves another one as it was. */
  lemma OtherStays(s: State, e: Entry, p: Ptr)
    requires Loose(s, e.timer) && e.timer != p
    ensures var r := ResetOne(s, e);
      && (p in r.heap <==> p in s.heap) && (p in s.heap ==> r.heap[p] == s.heap[p])
      && (Queued(r, p) <==> Queued(s, p))
  {
    var q := e.timer;
    if s.heap[q].repeat && IdOf(s, q) !in s.cancelingTimers {
      Restarts(s, q, p);
      assert ResetOne(s, e) == Insert(Restarted(s, q), q);
    } else {
      DeleteAgree(s, q);
    }
  }

  lemma OwnReset(s: State, e: Entry)
    requires Loose(s, e.timer)
    ensures var p := e.timer; var r := ResetOne(s, e);
      && r.now == s.now && r.cancelingTimers == s.cancelingTimers
      && if s.heap[p].repeat && TimerId(p, s.heap[p].sequence) !in s.cancelingTimers
         then Held(r, p, s.heap[p].(expiration := s.now + s.heap[p].delta)) else p !in r.heap
  {
    var p := e.timer;
    if s.heap[p].repeat && IdOf(s, p) !in s.cancelingTimers {
      Restarts(s, p, p);
      assert ResetOne(s, e) == Insert(Restarted(s, p), p);
    }
  }

  lemma ResetOneSo(s: State, rest: seq<Entry>, p: Ptr, timer: Timer, restart: bool)
    requires Resetting(s, rest) && rest != [] && ResetSo(s, rest, p, timer, restart)
    ensures ResetSo(ResetOne(s, rest[0]), rest[1..], p, timer, restart)
    ensures ResetOne(s, rest[0]).now == s.now && ResetOne(s, rest[0]).cancelingTimers == s.cancelingTimers
  {
    InBatchRest(rest);
    NotInQueue(s, rest);
    OwnReset(s, rest[0]);
    if rest[0].timer == p {
      OnlyOnce(s, rest);
    } else {
      OtherStays(s, rest[0], p);
    }
  }

  lemma OnlyOnce(s: State, rest: seq<Entry>)
    requires BatchOk(s, rest) && rest != []
    ensures !InBatch(rest[1..], rest[0].timer)
  {
    var tail := rest[1..];
    forall i | 0 <= i < |tail| ensures tail[i].timer != rest[0].timer {
      assert tail[i] == rest[i + 1];
    }
  }

  lemma {:induction false} ResetAllSo(s: State, batch: seq<Entry>, p: Ptr, timer: Timer, restart: bool, n: nat)
    requires Resetting(s, batch) && n <= |batch| && ResetSo(s, batch, p, timer, restart)
    ensures ResetSo(ResetAll(s, batch[..n]), batch[n..], p, timer, restart)
    ensures ResetAll(s, batch[..n]).now == s.now && ResetAll(s, batch[..n]).cancelingTimers == s.cancelingTimers
  {
    if n > 0 {
      ResetAllSo(s, batch, p, timer, restart, n - 1);
      ResetAllKeeps(s, batch, n - 1);
      assert batch[..n][..n - 1] == batch[..n - 1];
      ResetOneSo(ResetAll(s, batch[..n - 1]), batch[n - 1..], p, timer, restart);
      assert batch[n - 1..][1..] == batch[n..];
    } else {
      assert batch[0..] == batch;
    }
  }

  /** At the end of a batch each of its timers that repeats and was not cancelled from a callback is
      queued again, for its interval after the time of the batch and otherwise as it was; every other
      timer of the batch is gone. */
  lemma EndReadExactly(acts: seq<Action>, t: int, i: nat)
    requires After(acts).Some? && Enabled(After(acts).value, EndRead(t)) && i < |After(acts).value.batch|
    ensures var s := After(acts).value; var r, p := Next(s, EndRead(t)), s.batch[i].timer;
      && p in s.heap
      && if s.heap[p].repeat && TimerId(p, s.heap[p].sequence) !in s.cancelingTimers
         then Held(r, p, Timer(s.now + s.heap[p].delta, true, s.heap[p].delta, s.heap[p].sequence))
         else p !in r.heap
  {
    RunKeeps(acts);
    var s := After(acts).value;
    BatchReset(s, s.batch[i].timer, t);
  }

  lemma BatchReset(s: State, p: Ptr, t: int)
    requires Inv(s) && Enabled(s, EndRead(t)) && InBatch(s.batch, p)
    ensures p in s.heap
    ensures var r, timer := Next(s, EndRead(t)), s.heap[p];
      if timer.repeat && TimerId(p, timer.sequence) !in s.cancelingTimers
      then Held(r, p, timer.(expiration := s.now + timer.delta)) else p !in r.heap
  {
    var s0 := s.(callingExpiredTimers := false, batch := [], ran := 0);
    var restart := s.heap[p].repeat && TimerId(p, s.heap[p].sequence) !in s.cancelingTimers;
    HandingOver(s, s0);
    ResetAllSo(s0, s.batch, p, s.heap[p], restart, |s.batch|);
    assert s.batch[..|s.batch|] == s.batch && s.batch[|s.batch|..] == [];
  }

  /** A timer outside the batch is as it was. */
  lemma {:induction false} ResetOutside(s: State, batch: seq<Entry>, p: Ptr, timer: Timer, n: nat)
    requires Resetting(s, batch) && n <= |batch| && !InBatch(batch, p) && Held(s, p, timer)
    ensures Held(ResetAll(s, batch[..n]), p, timer)
  {
    if n > 0 {
      ResetOutside(s, batch, p, timer, n - 1);
      ResetAllKeeps(s, batch, n - 1);
      assert batch[..n][..n - 1] == batch[..n - 1] && batch[n - 1..][0] == batch[n - 1];
      assert batch[n - 1].timer != p;
      NotInQueue(ResetAll(s, batch[..n - 1]), batch[n - 1..]);
      OtherStays(ResetAll(s, batch[..n - 1]), batch[n - 1], p);
    } else {
      assert batch[..0] == [];
    }
  }

  // ------------------------------------------------------------- every step

  lemma WaitingStays(s: State, a: Action, p: Ptr, timer: Timer)
    requires Inv(s) && Enabled(s, a) && Waiting(s, p, timer) && !(a.AddTimerInLoop? && a.q == p)
    ensures Waiting(Next(s, a), p, timer)
  {
    match a
    case CancelInLoop(id) =>
      assert !Queued(s, p);
    case EndRead(t) =>
      EndReadLeaves(s, p, timer, t);
    case _ =>
  }

  /** Inserted, the timer is queued. */
  lemma InsertedHeld(s: State, p: Ptr, timer: Timer, t: int)
    requires Inv(s) && Waiting(s, p, timer)
    ensures Enabled(s, AddTimerInLoop(p, t)) && Held(Next(s, AddTimerInLoop(p, t)), p, timer)
  {
    assert !Queued(s, p);
    AddTimerIndexes(s, p, t);
  }

  /** The step neither cancels the timer nor is a batch at or after its time. */
  predicate Spares(a: Action, p: Ptr, timer: Timer) {
    a != CancelInLoop(TimerId(p, timer.sequence)) && (a.BeginRead? ==> a.readAt < timer.expiration)
  }

  lemma HeldStays(s: State, a: Action, p: Ptr, timer: Timer)
    requires Inv(s) && Enabled(s, a) && Held(s, p, timer) && Spares(a, p, timer)
    ensures Held(Next(s, a), p, timer)
  {
    match a
    case NewTimer(q, when, repeat, delta) =>
      ExtendIndexes(s, Next(s, a), q);
    case AddTimerInLoop(q, t) =>
      assert !Queued(s, q);
      AddTimerIndexes(s, q, t);
    case CancelInLoop(id) =>
      if id in s.activeTimers {
        CancelIndexes(s, id);
      }
    case BeginRead(now) =>
      TakePlaces(s, now);
    case RunTimer =>
    case EndRead(t) =>
      HeldAtEnd(s, p, timer, t);
  }

  lemma HeldAtEnd(s: State, p: Ptr, timer: Timer, t: int)
    requires Inv(s) && Enabled(s, EndRead(t)) && Held(s, p, timer)
    ensures Held(Next(s, EndRead(t)), p, timer)
  {
    var s0 := s.(callingExpiredTimers := false, batch := [], ran := 0);
    HandingOver(s, s0);
    ResetOutside(s0, s.batch, p, timer, |s.batch|);
    assert s.batch[..|s.batch|] == s.batch;
  }

  /** A batch at or after its time takes the timer, and it is not among the cancelled ones. */
  lemma HeldTaken(s: State, p: Ptr, timer: Timer, now: int)
    requires Inv(s) && Held(s, p, timer) && Enabled(s, BeginRead(now)) && timer.expiration <= now
    ensures var r := Next(s, BeginRead(now));
      Taken(r, p, timer) && r.now == now && TimerId(p, timer.sequence) !in r.cancelingTimers
  {
    TakePlaces(s, now);
  }

  /** While the batch runs the timer stays in it, and is cancelled only by its own id. */
  lemma TakenStays(s: State, a: Action, p: Ptr, timer: Timer)
    requires Inv(s) && Enabled(s, a) && Taken(s, p, timer) && !a.EndRead?
    ensures var r := Next(s, a); var id := TimerId(p, timer.sequence);
      && Taken(r, p, timer) && r.now == s.now
      && (a != CancelInLoop(id) && id !in s.cancelingTimers ==> id !in r.cancelingTimers)
  {
    if a.CancelInLoop? {
      assert !Queued(s, p);
    }
  }

  // --------------------------------------------------------- over every run

  ghost predicate AllSpare(more: seq<Action>, p: Ptr, timer: Timer) {
    forall i :: 0 <= i < |more| ==> Spares(more[i], p, timer)
  }

  lemma {:induction false} WaitingOnward(s: State, more: seq<Action>, p: Ptr, timer: Timer)
    requires Inv(s) && Waiting(s, p, timer) && Onward(s, more).Some?
    requires forall i :: 0 <= i < |more| ==> !(more[i].AddTimerInLoop? && more[i].q == p)
    ensures Inv(Onward(s, more).value) && Waiting(Onward(s, more).value, p, timer)
    decreases |more|
  {
    if more != [] {
      var front := more[..|more| - 1];
      WaitingOnward(s, front, p, timer);
      StepKeeps(Onward(s, front).value, more[|more| - 1]);
      WaitingStays(Onward(s, front).value, more[|more| - 1], p, timer);
    }
  }

  lemma {:induction false} HeldOnward(s: State, more: seq<Action>, p: Ptr, timer: Timer)
    requires Inv(s) && Held(s, p, timer) && Onward(s, more).Some? && AllSpare(more, p, timer)
    ensures Inv(Onward(s, more).value) && Held(Onward(s, more).value, p, timer)
    decreases |more|
  {
    if more != [] {
      var front := more[..|more| - 1];
      HeldOnward(s, front, p, timer);
      StepKeeps(Onward(s, front).value, more[|more| - 1]);
      HeldStays(Onward(s, front).value, more[|more| - 1], p, timer);
    }
  }

  /** The callbacks of a batch, none of which cancels the timer. */
  ghost predicate Callbacks(more: seq<Action>, p: Ptr, timer: Timer) {
    forall i :: 0 <= i < |more| ==> !more[i].EndRead? && more[i] != CancelInLoop(TimerId(p, timer.sequence))
  }

  lemma {:induction false} TakenOnward(s: State, more: seq<Action>, p: Ptr, timer: Timer)
    requires Inv(s) && Taken(s, p, timer) && TimerId(p, timer.sequence) !in s.cancelingTimers
    requires Onward(s, more).Some? && Callbacks(more, p, timer)
    ensures var r := Onward(s, more).value;
      && Inv(r) && Taken(r, p, timer) && r.now == s.now && TimerId(p, timer.sequence) !in r.cancelingTimers
    decreases |more|
  {
    if more != [] {
      var front := more[..|more| - 1];
      TakenOnward(s, front, p, timer);
      StepKeeps(Onward(s, front).value, more[|more| - 1]);
      TakenStays(Onward(s, front).value, more[|more| - 1], p, timer);
    }
  }

  /** What is asked for is queued: from the call that creates a timer to the step that inserts it nothing
      changes it, and then it is queued for the time asked for. */
  lemma AskedIsQueued(acts: seq<Action>, p: Ptr, when: int, repeat: bool, delta: nat, more: seq<Action>, t: int)
    requires After(acts).Some? && Enabled(After(acts).value, NewTimer(p, when, repeat, delta))
    requires Onward(Next(After(acts).value, NewTimer(p, when, repeat, delta)), more).Some?
    requires forall i :: 0 <= i < |more| ==> !(more[i].AddTimerInLoop? && more[i].q == p)
    ensures var s := After(acts).value;
      var r := Onward(Next(s, NewTimer(p, when, repeat, delta)), more).value;
      && Enabled(r, AddTimerInLoop(p, t))
      && Held(Next(r, AddTimerInLoop(p, t)), p, Timer(when, repeat, delta, s.numCreated + 1))
  {
    RunKeeps(acts);
    var s := After(acts).value;
    var timer := Timer(when, repeat, delta, s.numCreated + 1);
    NewTimerKeeps(s, p, when, repeat, delta);
    var s1 := Next(s, NewTimer(p, when, repeat, delta));
    WaitingOnward(s1, more, p, timer);
    InsertedHeld(Onward(s1, more).value, p, timer, t);
  }

  lemma HeldIsTaken(s: State, p: Ptr, timer: Timer, more: seq<Action>, now: int)
    requires Inv(s) && Held(s, p, timer) && AllSpare(more, p, timer) && Onward(s, more).Some?
    requires Enabled(Onward(s, more).value, BeginRead(now)) && timer.expiration <= now
    ensures Taken(Next(Onward(s, more).value, BeginRead(now)), p, timer)
  {
    HeldOnward(s, more, p, timer);
    HeldTaken(Onward(s, more).value, p, timer, now);
  }

  /** What is queued is taken: as long as it is not cancelled, the first batch at or after its time takes
      the timer, and it has the fields it was queued with. */
  lemma QueuedIsTaken(acts: seq<Action>, p: Ptr, more: seq<Action>, now: int)
    requires After(acts).Some? && Queued(After(acts).value, p)
    requires AllSpare(more, p, After(acts).value.heap[p]) && Onward(After(acts).value, more).Some?
    requires Enabled(Onward(After(acts).value, more).value, BeginRead(now))
    requires After(acts).value.heap[p].expiration <= now
    ensures var s := After(acts).value;
      Taken(Next(Onward(s, more).value, BeginRead(now)), p, s.heap[p])
  {
    RunKeeps(acts);
    var s := After(acts).value;
    HeldIsTaken(s, p, s.heap[p], more, now);
  }

  lemma QueuedAgain(s: State, p: Ptr, now: int, more: seq<Action>, t: int)
    requires Inv(s) && Queued(s, p) && s.heap[p].repeat
    requires Enabled(s, BeginRead(now)) && s.heap[p].expiration <= now && Callbacks(more, p, s.heap[p])
    requires Onward(Next(s, BeginRead(now)), more).Some?
    requires Enabled(Onward(Next(s, BeginRead(now)), more).value, EndRead(t))
    ensures var r := Next(Onward(Next(s, BeginRead(now)), more).value, EndRead(t));
      Inv(r) && Held(r, p, s.heap[p].(expiration := now + s.heap[p].delta))
  {
    BeginReadKeeps(s, now);
    HeldTaken(s, p, s.heap[p], now);
    TakenOnward(Next(s, BeginRead(now)), more, p, s.heap[p]);
    var u := Onward(Next(s, BeginRead(now)), more).value;
    BatchReset(u, p, t);
    EndReadKeeps(u, t);
  }

  /** What repeats is queued again: a repeating timer that a batch takes, and that no callback of the
      batch cancels, is queued at its end, for its interval after the time of the batch. */
  lemma RepeatingIsQueuedAgain(acts: seq<Action>, p: Ptr, now: int, more: seq<Action>, t: int)
    requires After(acts).Some? && Queued(After(acts).value, p) && After(acts).value.heap[p].repeat
    requires Enabled(After(acts).value, BeginRead(now)) && After(acts).value.heap[p].expiration <= now
    requires Callbacks(more, p, After(acts).value.heap[p])
    requires Onward(Next(After(acts).value, BeginRead(now)), more).Some?
    requires Enabled(Onward(Next(After(acts).value, BeginRead(now)), more).value, EndRead(t))
    ensures var s := After(acts).value; var timer := s.heap[p];
      Held(Next(Onward(Next(s, BeginRead(now)), more).value, EndRead(t)), p,
           Timer(now + timer.delta, true, timer.delta, timer.sequence))
  {
    RunKeeps(acts);
    QueuedAgain(After(acts).value, p, now, more, t);
  }

  /** And so it is taken again: `r` is the state after such a batch; the first batch at or after the new
      time takes the timer, unless it is cancelled. */
  lemma RepeatingIsTakenAgain(acts: seq<Action>, p: Ptr, now: int, more: seq<Action>, t: int, r: State,
                              rest: seq<Action>, later: int)
    requires After(acts).Some? && Queued(After(acts).value, p) && After(acts).value.heap[p].repeat
    requires Enabled(After(acts).value, BeginRead(now)) && After(acts).value.heap[p].expiration <= now
    requires Callbacks(more, p, After(acts).value.heap[p])
    requires Onward(Next(After(acts).value, BeginRead(now)), more).Some?
    requires Enabled(Onward(Next(After(acts).value, BeginRead(now)), more).value, EndRead(t))
    requires r == Next(Onward(Next(After(acts).value, BeginRead(now)), more).value, EndRead(t))
    requires Onward(r, rest).Some? && Enabled(Onward(r, rest).value, BeginRead(later))
    requires var timer := After(acts).value.heap[p]; var again := timer.(expiration := now + timer.delta);
      AllSpare(rest, p, again) && again.expiration <= later
    ensures var timer := After(acts).value.heap[p];
      Taken(Next(Onward(r, rest).value, BeginRead(later)), p, timer.(expiration := now + timer.delta))
  {
    RunKeeps(acts);
    var timer := After(acts).value.heap[p];
    QueuedAgain(After(acts).value, p, now, more, t);
    HeldIsTaken(r, p, timer.(expiration := now + timer.delta), rest, later);
  }

  // --------------------------------------------------------------- the alarm

  /** The descriptor is set only for what is then the first expiration: when a timer that expires before
      all others is inserted, and at the end of a batch that leaves timers in the queue. */
  lemma AlarmIsForFirst(s: State, a: Action)
    requires Inv(s) && Enabled(s, a)
    ensures var r := Next(s, a);
      match a
      case AddTimerInLoop(p, t) =>
        r.armed == if forall e :: e in s.timers ==> s.heap[p].expiration < e.when
                   then Some(Alarm(s.heap[p].expiration, t)) else s.armed
      case EndRead(t) =>
        (r.timers != [] && r.timers[0].when > 0 ==> r.armed == Some(Alarm(r.timers[0].when, t)))
      case BeginRead(_) => r.armed == None
      case _ => r.armed == s.armed
  {
    if a.AddTimerInLoop? && s.timers != [] {
      FirstIsLeast(s.timers);
      assert s.timers[0] in s.timers;
    }
  }

  lemma FirstIsLeast(s: seq<Entry>)
    requires Sorted(s) && s != []
    ensures forall e :: e in s ==> s[0].when <= e.when
  {
    forall e | e in s ensures s[0].when <= e.when {
      var i :| 0 <= i < |s| && s[i] == e;
      assert i > 0 ==> Less(s[0], s[i]);
    }
  }
}
