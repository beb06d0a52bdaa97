/** What was taken and what fired along the runs of a timer queue, and what becomes of the ids given
    out. */
module TimerHistory {
  import opened Common
  import opened TimerQueue

  function TimersOf(s: State, es: seq<Entry>): (r: seq<Timer>)
    ensures |r| == |es|
  {
    seq(|es|, i requires 0 <= i < |es| =>
      if es[i].timer in s.heap then s.heap[es[i].timer] else Timer(0, false, 0, 0))
  }

  /** What one step takes, and what it runs. */
  function TakenBy(s: State, a: Action): seq<Timer>
    requires Enabled(s, a)
  {
    if a.BeginRead? then TimersOf(Next(s, a), Next(s, a).batch) else []
  }

  function FiredBy(s: State, a: Action): seq<Timer>
    requires Enabled(s, a)
  {
    if a.RunTimer? then TimersOf(s, [s.batch[s.ran]]) else []
  }

  /** The timers that the batches of a run have taken, in order. */
  function Taken(acts: seq<Action>): seq<Timer> {
    if acts == [] then []
    else
      var before, a := acts[..|acts| - 1], acts[|acts| - 1];
      Taken(before) + if After(acts).Some? then TakenBy(After(before).value, a) else []
  }

  /** The timers whose callbacks have been run, in order. */
  function Fired(acts: seq<Action>): seq<Timer> {
    if acts == [] then []
    else
      var before, a := acts[..|acts| - 1], acts[|acts| - 1];
      Fired(before) + if After(acts).Some? then FiredBy(After(before).value, a) else []
  }

  /** The part of the running batch that has not fired. */
  function Left(s: State): seq<Timer>
    requires s.ran <= |s.batch|
  {
    TimersOf(s, s.batch[s.ran..])
  }

  /** A step that neither takes nor runs leaves the timers of the batch as they are. */
  lemma BatchStays(s: State, a: Action)
    requires Inv(s) && Enabled(s, a) && (a.NewTimer? || a.AddTimerInLoop? || a.CancelInLoop?)
    ensures var t := Next(s, a); t.batch == s.batch && t.ran == s.ran && Left(t) == Left(s)
    ensures Next(s, a).callingExpiredTimers == s.callingExpiredTimers
  {
    var t := Next(s, a);
    if a.CancelInLoop? && a.id in s.activeTimers {
      assert Queued(s, a.id.timer);
    }
    forall i | 0 <= i < |s.batch|
      ensures s.batch[i].timer in t.heap && t.heap[s.batch[i].timer] == s.heap[s.batch[i].timer] {
      assert s.batch[i].timer in s.heap;
    }
  }

  lemma RunLeft(s: State)
    requires Inv(s) && Enabled(s, RunTimer)
    ensures Left(s) == TimersOf(s, [s.batch[s.ran]]) + Left(Next(s, RunTimer))
  {
    assert s.batch[s.ran..] == [s.batch[s.ran]] + s.batch[s.ran + 1..];
  }

  lemma EndLeft(s: State, t: int)
    requires Inv(s) && Enabled(s, EndRead(t))
    ensures Left(s) == [] && Next(s, EndRead(t)).batch == []
  {
    EndReadEnds(s, t);
    EndReadKeeps(s, t);
  }

  /** What was left, and what a step takes, is what it runs, and what is left then. */
  lemma LeftStep(s: State, a: Action)
    requires Inv(s) && Enabled(s, a)
    ensures Inv(Next(s, a)) && Left(s) + TakenBy(s, a) == FiredBy(s, a) + Left(Next(s, a))
  {
    StepKeeps(s, a);
    match a
    case BeginRead(now) =>
      assert Left(s) == [] && Next(s, a).batch[0..] == Next(s, a).batch;
    case RunTimer =>
      RunLeft(s);
    case EndRead(t) =>
      EndLeft(s, t);
    case _ =>
      BatchStays(s, a);
  }

  lemma Regroup(fired: seq<Timer>, left: seq<Timer>, took: seq<Timer>, ran: seq<Timer>, rest: seq<Timer>)
    requires left + took == ran + rest
    ensures fired + left + took == fired + ran + rest
  {
    assert fired + left + took == fired + (left + took);
  }

  /** On every run, the timers taken are those that have fired, in that order, followed by those of the
      running batch that are still to fire: each timer taken fires once, and nothing else fires. */
  lemma {:induction false} TakenThenFired(acts: seq<Action>)
    requires After(acts).Some?
    ensures var s := After(acts).value;
      && s.ran <= |s.batch| && Taken(acts) == Fired(acts) + Left(s)
      && (!s.callingExpiredTimers ==> Fired(acts) == Taken(acts))
    decreases |acts|
  {
    RunKeeps(acts);
    if acts != [] {
      var before, a := acts[..|acts| - 1], acts[|acts| - 1];
      var s := After(before).value;
      RunKeeps(before);
      TakenThenFired(before);
      LeftStep(s, a);
      Regroup(Fired(before), Left(s), TakenBy(s, a), FiredBy(s, a), Left(Next(s, a)));
    }
    if !After(acts).value.callingExpiredTimers {
      NothingLeft(After(acts).value);
    }
  }

  lemma NothingLeft(s: State)
    requires Inv(s) && !s.callingExpiredTimers
    ensures Left(s) == []
  {
  }

  // -------------------------------------------------------- one-shot timers

  /** A timer that was taken: if it still exists it repeats or not as before, and if it does not repeat it
      is in the running batch. */
  ghost predicate TakenOk(s: State, t: Timer) {
    && t.sequence <= s.numCreated
    && forall p {:trigger s.heap[p]} :: p in s.heap && s.heap[p].sequence == t.sequence ==>
         s.heap[p].repeat == t.repeat && (!t.repeat ==> InBatch(s.batch, p))
  }

  /** The timers with one sequence number are of one kind, and while they are reset the one-shot ones are
      in what is left of the batch. */
  ghost predicate Finishing(s: State, rest: seq<Entry>, t: Timer) {
    && t.sequence <= s.numCreated
    && forall p {:trigger s.heap[p]} :: p in s.heap && s.heap[p].sequence == t.sequence ==>
         s.heap[p].repeat == t.repeat && (!t.repeat ==> InBatch(rest, p))
  }

  lemma FinishingStep(s: State, rest: seq<Entry>, t: Timer)
    requires Resetting(s, rest) && rest != [] && Finishing(s, rest, t)
    ensures Finishing(ResetOne(s, rest[0]), rest[1..], t)
  {
    InBatchRest(rest);
  }

  lemma {:induction false} ResetFinishes(s: State, batch: seq<Entry>, t: Timer, n: nat)
    requires Resetting(s, batch) && n <= |batch| && Finishing(s, batch, t)
    ensures Finishing(ResetAll(s, batch[..n]), batch[n..], t)
  {
    if n > 0 {
      ResetFinishes(s, batch, t, n - 1);
      ResetAllKeeps(s, batch, n - 1);
      assert batch[..n][..n - 1] == batch[..n - 1];
      FinishingStep(ResetAll(s, batch[..n - 1]), batch[n - 1..], t);
      assert batch[n - 1..][1..] == batch[n..];
    } else {
      assert batch[0..] == batch;
    }
  }

  lemma EndReadTaken(s: State, t: Timer, u: int)
    requires Inv(s) && TakenOk(s, t) && Enabled(s, EndRead(u))
    ensures TakenOk(Next(s, EndRead(u)), t)
  {
    var s0 := s.(callingExpiredTimers := false, batch := [], ran := 0);
    HandingOver(s, s0);
    ResetFinishes(s0, s.batch, t, |s.batch|);
    assert s.batch[..|s.batch|] == s.batch && s.batch[|s.batch|..] == [];
    EndLeft(s, u);
  }

  lemma BeginReadTaken(s: State, t: Timer, now: int)
    requires Inv(s) && TakenOk(s, t) && Enabled(s, BeginRead(now))
    ensures TakenOk(Next(s, BeginRead(now)), t)
  {
    assert s.batch == [];
  }

  lemma StepTaken(s: State, t: Timer, a: Action)
    requires Inv(s) && TakenOk(s, t) && Enabled(s, a)
    ensures TakenOk(Next(s, a), t)
  {
    match a
    case BeginRead(now) => BeginReadTaken(s, t, now);
    case EndRead(u) => EndReadTaken(s, t, u);
    case _ =>
  }

  /** Two timers of a batch are different ones. */
  lemma BatchDistinct(s: State, i: nat, j: nat)
    requires Inv(s) && i < j < |s.batch|
    ensures TimersOf(s, s.batch)[i].sequence != TimersOf(s, s.batch)[j].sequence
  {
    assert s.batch[i].timer in s.heap && s.batch[j].timer in s.heap;
  }

  /** What a batch takes was not taken before, unless it repeats. */
  lemma NotTakenTwice(s: State, t: Timer, now: int, i: nat)
    requires Inv(s) && TakenOk(s, t) && Enabled(s, BeginRead(now)) && i < |Next(s, BeginRead(now)).batch|
    ensures var r := Next(s, BeginRead(now)); var b := TimersOf(r, r.batch)[i];
      b.sequence == t.sequence ==> b.repeat && t.repeat
  {
    var r := Next(s, BeginRead(now));
    BeginReadKeeps(s, now);
    assert r.batch[i].timer in r.heap;
    assert s.batch == [];
  }

  ghost predicate AllTakenOk(s: State, taken: seq<Timer>) {
    forall i :: 0 <= i < |taken| ==> TakenOk(s, taken[i])
  }

  /** Only repeating timers are there twice. */
  ghost predicate OnceOnly(taken: seq<Timer>) {
    forall i, j :: 0 <= i < j < |taken| && taken[i].sequence == taken[j].sequence ==>
      taken[i].repeat && taken[j].repeat
  }

  lemma BatchTaken(s: State, i: nat)
    requires Inv(s) && i < |s.batch|
    ensures TakenOk(s, TimersOf(s, s.batch)[i])
  {
    var p := s.batch[i].timer;
    assert p in s.heap && InBatch(s.batch, p);
  }

  lemma TakeOnce(s: State, taken: seq<Timer>, now: int)
    requires Inv(s) && AllTakenOk(s, taken) && OnceOnly(taken) && Enabled(s, BeginRead(now))
    ensures var r := Next(s, BeginRead(now)); OnceOnly(taken + TimersOf(r, r.batch))
  {
    var r := Next(s, BeginRead(now));
    var more := TimersOf(r, r.batch);
    BeginReadKeeps(s, now);
    forall i, j | 0 <= i < j < |more| ensures more[i].sequence != more[j].sequence {
      BatchDistinct(r, i, j);
    }
    forall i, j | 0 <= i < |taken| && 0 <= j < |more| && taken[i].sequence == more[j].sequence
      ensures taken[i].repeat && more[j].repeat {
      NotTakenTwice(s, taken[i], now, j);
    }
    JoinOnce(taken, more);
  }

  lemma JoinOnce(taken: seq<Timer>, more: seq<Timer>)
    requires OnceOnly(taken) && forall i, j :: 0 <= i < j < |more| ==> more[i].sequence != more[j].sequence
    requires forall i, j :: 0 <= i < |taken| && 0 <= j < |more| && taken[i].sequence == more[j].sequence ==>
      taken[i].repeat && more[j].repeat
    ensures OnceOnly(taken + more)
  {
  }

  lemma TakenStep(s: State, taken: seq<Timer>, a: Action)
    requires Inv(s) && AllTakenOk(s, taken) && Enabled(s, a)
    ensures AllTakenOk(Next(s, a), taken)
  {
    forall i | 0 <= i < |taken| ensures TakenOk(Next(s, a), taken[i]) {
      StepTaken(s, taken[i], a);
    }
  }

  lemma {:induction false} TakenKeeps(acts: seq<Action>)
    requires After(acts).Some?
    ensures AllTakenOk(After(acts).value, Taken(acts)) && OnceOnly(Taken(acts))
    decreases |acts|
  {
    if acts != [] {
      var before, a := acts[..|acts| - 1], acts[|acts| - 1];
      var s, r := After(before).value, After(acts).value;
      RunKeeps(before);
      RunKeeps(acts);
      TakenKeeps(before);
      TakenStep(s, Taken(before), a);
      if a.BeginRead? {
        TakeOnce(s, Taken(before), a.readAt);
        forall i | 0 <= i < |r.batch| ensures TakenOk(r, TimersOf(r, r.batch)[i]) {
          BatchTaken(r, i);
        }
      }
    }
  }

  /** On every run, a timer that does not repeat fires at most once. */
  lemma OneShotFiresOnce(acts: seq<Action>, i: nat, j: nat)
    requires After(acts).Some? && i < j < |Fired(acts)| && Fired(acts)[i].sequence == Fired(acts)[j].sequence
    ensures Fired(acts)[i].repeat && Fired(acts)[j].repeat
  {
    TakenThenFired(acts);
    TakenKeeps(acts);
    assert Fired(acts)[i] == Taken(acts)[i] && Fired(acts)[j] == Taken(acts)[j];
  }

  // ----------------------------------------------------- cancelled timers

  lemma {:induction false} OnwardAfter(acts: seq<Action>, more: seq<Action>)
    requires After(acts).Some?
    ensures After(acts + more) == Onward(After(acts).value, more)
    decreases |more|
  {
    if more == [] {
      assert acts + more == acts;
    } else {
      OnwardAfter(acts, more[..|more| - 1]);
      assert (acts + more)[..|acts + more| - 1] == acts + more[..|more| - 1];
    }
  }

  lemma {:induction false} TakenGrows(acts: seq<Action>, more: seq<Action>)
    ensures Taken(acts) <= Taken(acts + more) && Fired(acts) <= Fired(acts + more)
    decreases |more|
  {
    if more == [] {
      assert acts + more == acts;
    } else {
      TakenGrows(acts, more[..|more| - 1]);
      assert (acts + more)[..|acts + more| - 1] == acts + more[..|more| - 1];
    }
  }

  ghost predicate NoneOf(taken: seq<Timer>, from: nat, sequence: nat) {
    forall i :: from <= i < |taken| ==> taken[i].sequence != sequence
  }

  lemma OneMore(acts: seq<Action>, a: Action)
    requires After(acts).Some? && Enabled(After(acts).value, a)
    ensures After(acts + [a]) == Some(Next(After(acts).value, a))
    ensures Taken(acts + [a]) == Taken(acts) + TakenBy(After(acts).value, a)
  {
    assert (acts + [a])[..|acts|] == acts;
  }

  lemma NoneMore(taken: seq<Timer>, took: seq<Timer>, from: nat, sequence: nat)
    requires NoneOf(taken, from, sequence) && NoneOf(took, 0, sequence)
    ensures NoneOf(taken + took, from, sequence)
  {
  }

  /** No batch takes a dead timer, from the time it is dead on. */
  lemma {:induction false} DeadNeverTaken(acts: seq<Action>, more: seq<Action>, id: TimerId)
    requires After(acts).Some? && Dead(After(acts).value, id) && After(acts + more).Some?
    ensures Dead(After(acts + more).value, id) && NoneOf(Taken(acts + more), |Taken(acts)|, id.sequence)
    decreases |more|
  {
    if more == [] {
      assert acts + more == acts;
    } else {
      var front, a := more[..|more| - 1], more[|more| - 1];
      assert (acts + more)[..|acts + more| - 1] == acts + front && acts + more == (acts + front) + [a];
      DeadNeverTaken(acts, front, id);
      RunKeeps(acts + front);
      DeadStep(After(acts + front).value, id, a);
      OneMore(acts + front, a);
      NoneMore(Taken(acts + front), TakenBy(After(acts + front).value, a), |Taken(acts)|, id.sequence);
    }
  }

  lemma DeadStep(s: State, id: TimerId, a: Action)
    requires Inv(s) && Dead(s, id) && Enabled(s, a)
    ensures Dead(Next(s, a), id) && NoneOf(TakenBy(s, a), 0, id.sequence)
  {
    DeadStays(s, id, a);
    if a.BeginRead? {
      forall i | 0 <= i < |Next(s, a).batch| ensures TakenBy(s, a)[i].sequence != id.sequence {
        DeadNotTaken(s, id, a.readAt, i);
      }
    }
  }

  /** The timer is in the running batch, and its turn has not come. */
  ghost predicate StillToFire(s: State, id: TimerId)
    requires s.ran <= |s.batch|
  {
    exists k :: 0 <= k < |Left(s)| && Left(s)[k].sequence == id.sequence
  }

  ghost predicate FiresFrom(fired: seq<Timer>, from: nat, id: TimerId) {
    exists m :: from <= m < |fired| && fired[m].sequence == id.sequence
  }

  /** A timer cancelled after its insertion fires again, by the time that no batch is running, exactly when
      the running batch holds it and its turn in it has not come: from there cancelling does not take it. */
  lemma CancelledFiresExactly(acts: seq<Action>, id: TimerId, more: seq<Action>)
    requires After(acts).Some? && GivenOut(After(acts).value, id)
    requires var s := After(acts).value;
      id.timer in s.inFlight && id.timer in s.heap ==> s.heap[id.timer].sequence != id.sequence
    requires var r := After(acts + [CancelInLoop(id)] + more); r.Some? && !r.value.callingExpiredTimers
    ensures var s := After(acts).value;
      && s.ran <= |s.batch|
      && (FiresFrom(Fired(acts + [CancelInLoop(id)] + more), |Fired(acts)|, id) <==> StillToFire(s, id))
  {
    var s, c := After(acts).value, CancelInLoop(id);
    var now, all := acts + [c], acts + [c] + more;
    RunKeeps(acts);
    assert now[..|acts|] == acts;
    CancelWorks(s, id);
    DeadNeverTaken(now, more, id);
    TakenThenFired(acts);
    TakenThenFired(all);
    TakenGrows(now, more);
    assert Taken(now) == Taken(acts) + [];
    LeftFires(Taken(all), Fired(acts), Left(s), id);
  }

  /** When all that was taken has fired, and nothing taken later is the timer. */
  lemma LeftFires(all: seq<Timer>, fired: seq<Timer>, left: seq<Timer>, id: TimerId)
    requires fired + left <= all && NoneOf(all, |fired + left|, id.sequence)
    ensures FiresFrom(all, |fired|, id) <==> exists k :: 0 <= k < |left| && left[k].sequence == id.sequence
  {
    forall k | 0 <= k < |left| ensures all[|fired| + k] == left[k] {
      assert (fired + left)[|fired| + k] == left[k];
    }
    if FiresFrom(all, |fired|, id) {
      var m :| |fired| <= m < |all| && all[m].sequence == id.sequence;
      assert left[m - |fired|].sequence == id.sequence;
    }
  }

  // ------------------------------------------------- ids that are read late

  /** The timer with this number is where it was created, or has been deleted. */
  ghost predicate HereOrGone(s: State, p: Ptr, n: nat) {
    n in s.deleted || (p in s.heap && s.heap[p].sequence == n)
  }

  lemma ResetOneKeepsPlace(s: State, e: Entry, p: Ptr, n: nat)
    requires HereOrGone(s, p, n)
    ensures HereOrGone(ResetOne(s, e), p, n)
  {
    if e.timer in s.heap {
      var d := s.deleted + [s.heap[e.timer].sequence];
      assert d[|s.deleted|] == s.heap[e.timer].sequence && forall x :: x in s.deleted ==> x in d;
    }
  }

  lemma {:induction false} ResetAllKeepsPlace(s: State, es: seq<Entry>, p: Ptr, n: nat)
    requires HereOrGone(s, p, n)
    ensures HereOrGone(ResetAll(s, es), p, n)
    decreases |es|
  {
    if es != [] {
      ResetAllKeepsPlace(s, es[..|es| - 1], p, n);
      ResetOneKeepsPlace(ResetAll(s, es[..|es| - 1]), es[|es| - 1], p, n);
    }
  }

  lemma StepKeepsPlace(s: State, a: Action, p: Ptr, n: nat)
    requires Enabled(s, a) && HereOrGone(s, p, n)
    ensures HereOrGone(Next(s, a), p, n)
  {
    match a
    case CancelInLoop(id) =>
      if id in s.activeTimers && id.timer in s.heap {
        var d := s.deleted + [s.heap[id.timer].sequence];
        assert d[|s.deleted|] == s.heap[id.timer].sequence && forall x :: x in s.deleted ==> x in d;
      }
    case EndRead(t) =>
      ResetAllKeepsPlace(s.(callingExpiredTimers := false, batch := [], ran := 0), s.batch, p, n);
    case _ =>
  }

  lemma {:induction false} RunKeepsPlace(s: State, more: seq<Action>, p: Ptr, n: nat)
    requires HereOrGone(s, p, n) && Onward(s, more).Some?
    ensures HereOrGone(Onward(s, more).value, p, n)
    decreases |more|
  {
    if more != [] {
      RunKeepsPlace(s, more[..|more| - 1], p, n);
      StepKeepsPlace(Onward(s, more[..|more| - 1]).value, more[|more| - 1], p, n);
    }
  }

  /** What addTimer returns is read from the timer after it was queued to the loop: whatever has happened
      since, it is the timer's id exactly when the timer has not been deleted meanwhile. */
  lemma IdReadExactly(acts: seq<Action>, p: Ptr, when: int, repeat: bool, delta: nat, more: seq<Action>)
    requires After(acts + [NewTimer(p, when, repeat, delta)] + more).Some? && After(acts).Some?
    requires Enabled(After(acts).value, NewTimer(p, when, repeat, delta))
    ensures var r := After(acts + [NewTimer(p, when, repeat, delta)] + more).value;
      var n := After(acts).value.numCreated + 1;
      p in r.heap && IdOf(r, p) == TimerId(p, n) <==> n !in r.deleted
  {
    var a := NewTimer(p, when, repeat, delta);
    var now, s := acts + [a], After(acts).value;
    OneMore(acts, a);
    assert HereOrGone(Next(s, a), p, s.numCreated + 1);
    OnwardAfter(now, more);
    RunKeepsPlace(Next(s, a), more, p, s.numCreated + 1);
    RunKeeps(now + more);
  }

  /** A run in which it is too late: a timer that has expired already is inserted, fires and is deleted
      before the caller reads its number. */
  lemma IdReadTooLate(p: Ptr) returns (acts: seq<Action>)
    ensures |acts| > 0 && acts[0] == NewTimer(p, 1, false, 0)
    ensures After(acts).Some? && p !in After(acts).value.heap && 1 in After(acts).value.deleted
  {
    var s2 := InsertedAlone(p);
    acts := [NewTimer(p, 1, false, 0)] + [AddTimerInLoop(p, 1)];
    OneMore(acts, BeginRead(1));
    acts := acts + [BeginRead(1)];
    assert s2.timers[..1] == s2.timers;
    OneMore(acts, RunTimer);
    acts := acts + [RunTimer];
    OneMore(acts, EndRead(1));
    var s4 := After(acts).value;
    DeletedAlone(s4.(callingExpiredTimers := false, batch := [], ran := 0), Entry(1, p));
    acts := acts + [EndRead(1)];
  }

  lemma InsertedAlone(p: Ptr) returns (s: State)
    ensures var acts := [NewTimer(p, 1, false, 0)] + [AddTimerInLoop(p, 1)];
      After(acts) == Some(s) && s.timers == [Entry(1, p)] && s.heap == map[p := Timer(1, false, 0, 1)]
      && !s.callingExpiredTimers && s.deleted == []
  {
    var a, b := NewTimer(p, 1, false, 0), AddTimerInLoop(p, 1);
    OneMore([], a);
    assert [] + [a] == [a];
    OneMore([a], b);
    s := After([a] + [b]).value;
    assert Next(Init(), a).heap == map[p := Timer(1, false, 0, 1)];
  }

  lemma DeletedAlone(s: State, e: Entry)
    requires e.timer in s.heap && !s.heap[e.timer].repeat && s.heap[e.timer].sequence == 1
    ensures var r := ResetAll(s, [e]); e.timer !in r.heap && 1 in r.deleted
  {
    assert [e][..0] == [];
    assert ResetAll(s, [e]) == Delete(s, e.timer);
    assert (s.deleted + [1])[|s.deleted|] == 1;
  }
}
