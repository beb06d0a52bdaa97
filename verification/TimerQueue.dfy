/** The timer queue: two redundant indexes over heap-allocated timers, a batch of expired
    timers whose callbacks may add and cancel timers, and the timer descriptor. */
module TimerQueue {
  import opened Common

  /** An address; addresses are reused after a timer is deleted, sequence numbers never are. */
  type Ptr = nat

  datatype Timer = Timer(expiration: int, repeat: bool, delta: nat, sequence: nat)
  datatype Entry = Entry(when: int, timer: Ptr)
  datatype TimerId = TimerId(timer: Ptr, sequence: nat)

  /** The timer descriptor was last set for time `request` when the clock showed `at`. */
  datatype Alarm = Alarm(request: int, at: int)

  // ---------------------------------------------------------- the ordered set

  predicate Less(a: Entry, b: Entry) {
    a.when < b.when || (a.when == b.when && a.timer < b.timer)
  }

  ghost predicate Sorted(s: seq<Entry>) {
    forall i, j :: 0 <= i < j < |s| ==> Less(s[i], s[j])
  }

  function InsertSorted(s: seq<Entry>, e: Entry): (r: seq<Entry>)
  {
    if s == [] || Less(e, s[0]) then [e] + s
    else if e == s[0] then s
    else [s[0]] + InsertSorted(s[1..], e)
  }

  function EraseEntry(s: seq<Entry>, e: Entry): (r: seq<Entry>)
  {
    if s == [] then [] else if s[0] == e then s[1..] else [s[0]] + EraseEntry(s[1..], e)
  }

  /** How many leading entries expire at or before `now`. */
  function ExpiredCount(s: seq<Entry>, now: int): (n: nat)
    ensures n <= |s|
  {
    if s == [] || s[0].when > now then 0 else 1 + ExpiredCount(s[1..], now)
  }

  lemma {:induction false} InsertSortedIs(s: seq<Entry>, e: Entry)
    requires Sorted(s)
    ensures Sorted(InsertSorted(s, e))
    ensures forall x :: x in InsertSorted(s, e) <==> x in s || x == e
    ensures e !in s ==> |InsertSorted(s, e)| == |s| + 1
    ensures InsertSorted(s, e)[0] == if s == [] || Less(e, s[0]) then e else s[0]
  {
    if !(s == [] || Less(e, s[0]) || e == s[0]) {
      InsertSortedIs(s[1..], e);
      assert s == [s[0]] + s[1..];
    }
  }

  lemma {:induction false} EraseEntryIs(s: seq<Entry>, e: Entry)
    requires Sorted(s)
    ensures Sorted(EraseEntry(s, e))
    ensures forall x :: x in EraseEntry(s, e) <==> x in s && x != e
    ensures |EraseEntry(s, e)| == if e in s then |s| - 1 else |s|
    ensures EraseEntry(s, e) != [] ==> s[0].when <= EraseEntry(s, e)[0].when
  {
    if s != [] {
      assert s == [s[0]] + s[1..];
      if s[0] != e {
        EraseEntryIs(s[1..], e);
      }
    }
  }

  /** The expired entries are exactly the leading ones. */
  lemma {:induction false} ExpiredCountIs(s: seq<Entry>, now: int)
    requires Sorted(s)
    ensures forall i :: 0 <= i < |s| ==> (i < ExpiredCount(s, now) <==> s[i].when <= now)
  {
    if s != [] {
      if s[0].when <= now {
        ExpiredCountIs(s[1..], now);
        forall i | 0 <= i < |s| ensures i < ExpiredCount(s, now) <==> s[i].when <= now {
          if i > 0 {
            assert s[i] == s[1..][i - 1];
          }
        }
      } else {
        forall i | 0 <= i < |s| ensures s[i].when > now {}
      }
    }
  }

  // ------------------------------------------------------------------ state

  datatype State = State(
    timers: seq<Entry>,
    activeTimers: set<TimerId>,
    callingExpiredTimers: bool,
    cancelingTimers: set<TimerId>,
    heap: map<Ptr, Timer>,
    numCreated: nat,
    armed: Option<Alarm>,
    inFlight: set<Ptr>,
    batch: seq<Entry>,
    ran: nat,
    now: int,
    deleted: seq<nat>)

  /** The atomic steps: creating a timer (on any thread), and the loop thread's functions.
      `t` is the clock when the descriptor may be set. */
  datatype Action =
    | NewTimer(p: Ptr, when: int, repeat: bool, delta: nat)
    | AddTimerInLoop(q: Ptr, t: int)
    | CancelInLoop(id: TimerId)
    | BeginRead(readAt: int)
    | RunTimer
    | EndRead(u: int)

  function Init(): State {
    State([], {}, false, {}, map[], 0, None, {}, [], 0, 0, [])
  }

  function IdOf(s: State, p: Ptr): TimerId
    requires p in s.heap
  {
    TimerId(p, s.heap[p].sequence)
  }

  predicate Enabled(s: State, a: Action) {
    match a
    case NewTimer(p, _, _, _) => p !in s.heap
    case AddTimerInLoop(p, _) => p in s.inFlight && p in s.heap
    case CancelInLoop(_) => true
    case BeginRead(now) => !s.callingExpiredTimers && now > 0
    case RunTimer => s.callingExpiredTimers && s.ran < |s.batch|
    case EndRead(_) => s.callingExpiredTimers && s.ran == |s.batch|
  }

  function Insert(s: State, p: Ptr): State
    requires p in s.heap
  {
    s.(timers := InsertSorted(s.timers, Entry(s.heap[p].expiration, p)),
       activeTimers := s.activeTimers + {IdOf(s, p)})
  }

  function Delete(s: State, p: Ptr): State
    requires p in s.heap
  {
    s.(heap := s.heap - {p}, deleted := s.deleted + [s.heap[p].sequence])
  }

  function IdsOf(s: State, es: seq<Entry>): set<TimerId> {
    set i | 0 <= i < |es| && es[i].timer in s.heap :: IdOf(s, es[i].timer)
  }

  /** What reset does with one timer of the batch. */
  function ResetOne(s: State, e: Entry): State {
    if e.timer !in s.heap then s
    else
      var timer := s.heap[e.timer];
      if timer.repeat && IdOf(s, e.timer) !in s.cancelingTimers then
        Insert(s.(heap := s.heap[e.timer := timer.(expiration := s.now + timer.delta)]), e.timer)
      else Delete(s, e.timer)
  }

  function ResetAll(s: State, expired: seq<Entry>): State {
    if expired == [] then s else ResetOne(ResetAll(s, expired[..|expired| - 1]), expired[|expired| - 1])
  }

  function Next(s: State, a: Action): State
    requires Enabled(s, a)
  {
    match a
    case NewTimer(p, when, repeat, delta) =>
      s.(heap := s.heap[p := Timer(when, repeat, delta, s.numCreated + 1)],
         numCreated := s.numCreated + 1, inFlight := s.inFlight + {p})
    case AddTimerInLoop(p, t) =>
      var when := s.heap[p].expiration;
      var s1 := Insert(s.(inFlight := s.inFlight - {p}), p);
      if s.timers == [] || when < s.timers[0].when then s1.(armed := Some(Alarm(when, t))) else s1
    case CancelInLoop(id) =>
      if id in s.activeTimers && id.timer in s.heap then
        Delete(s.(timers := EraseEntry(s.timers, Entry(s.heap[id.timer].expiration, id.timer)),
                  activeTimers := s.activeTimers - {id}), id.timer)
      else if s.callingExpiredTimers then s.(cancelingTimers := s.cancelingTimers + {id})
      else s
    case BeginRead(now) =>
      var n := ExpiredCount(s.timers, now);
      s.(batch := s.timers[..n], timers := s.timers[n..], ran := 0, now := now, armed := None,
         activeTimers := s.activeTimers - IdsOf(s, s.timers[..n]),
         callingExpiredTimers := true, cancelingTimers := {})
    case RunTimer => s.(ran := s.ran + 1)
    case EndRead(t) =>
      var s1 := ResetAll(s.(callingExpiredTimers := false, batch := [], ran := 0), s.batch);
      if s1.timers != [] && s1.timers[0].when > 0
      then s1.(armed := Some(Alarm(s1.timers[0].when, t))) else s1
  }

  // -------------------------------------------------------------- invariants

  ghost predicate Queued(s: State, p: Ptr) {
    p in s.heap && Entry(s.heap[p].expiration, p) in s.timers
  }

  ghost predicate InBatch(batch: seq<Entry>, p: Ptr) {
    exists i :: 0 <= i < |batch| && batch[i].timer == p
  }

  /** The two indexes hold the same timers, keyed by their current expiration. */
  ghost predicate IndexesAgree(s: State) {
    && Sorted(s.timers)
    && |s.timers| == |s.activeTimers|
    && (forall e :: e in s.timers ==>
          e.timer in s.heap && s.heap[e.timer].expiration == e.when && IdOf(s, e.timer) in s.activeTimers)
    && (forall id :: id in s.activeTimers ==> Queued(s, id.timer) && IdOf(s, id.timer) == id)
  }

  /** `batch` lists allocated timers that are not queued, each once. */
  ghost predicate BatchOk(s: State, batch: seq<Entry>) {
    && (forall i :: 0 <= i < |batch| ==> batch[i].timer in s.heap && !Queued(s, batch[i].timer))
    && (forall i, j :: 0 <= i < j < |batch| ==> batch[i].timer != batch[j].timer)
  }

  ghost predicate Home(s: State, batch: seq<Entry>, p: Ptr) {
    p in s.inFlight || Queued(s, p) || InBatch(batch, p)
  }

  /** Each allocated timer is in exactly one place: queued, in the batch, or about to be inserted. */
  ghost predicate Placed(s: State, batch: seq<Entry>) {
    && (forall p :: p in s.inFlight ==> p in s.heap && !Queued(s, p) && !InBatch(batch, p))
    && (forall p {:trigger Home(s, batch, p)} :: p in s.heap ==> Home(s, batch, p))
  }

  /** Every sequence number up to the last one given out belongs to one allocated timer or
      has been deleted, once. */
  ghost predicate Accounted(s: State) {
    && (forall p :: p in s.heap ==> 1 <= s.heap[p].sequence <= s.numCreated && s.heap[p].sequence !in s.deleted)
    && (forall p, q :: p in s.heap && q in s.heap && p != q ==> s.heap[p].sequence != s.heap[q].sequence)
    && (forall i :: 0 <= i < |s.deleted| ==> 1 <= s.deleted[i] <= s.numCreated)
    && (forall i, j :: 0 <= i < j < |s.deleted| ==> s.deleted[i] != s.deleted[j])
    && |s.heap| + |s.deleted| == s.numCreated
  }

  /** The descriptor is set for a time no later than the first expiration; while a batch
      runs, this matters only for expirations that the batch did not take. */
  ghost predicate ArmedOk(s: State) {
    s.timers != [] && (s.callingExpiredTimers ==> s.timers[0].when <= s.now) ==>
      s.armed.Some? && s.armed.value.request <= s.timers[0].when
  }

  ghost predicate Inv(s: State) {
    && IndexesAgree(s) && BatchOk(s, s.batch) && Placed(s, s.batch) && Accounted(s) && ArmedOk(s)
    && s.ran <= |s.batch| && (!s.callingExpiredTimers ==> s.batch == [])
    && (s.callingExpiredTimers ==> s.now > 0)
  }

  // --------------------------------------------------------------- each step

  /** Inserting an allocated timer that is not queued keeps the indexes in step. */
  lemma InsertKeeps(s: State, p: Ptr)
    requires IndexesAgree(s) && p in s.heap && !Queued(s, p)
    requires forall e :: e in s.timers ==> e.timer != p
    ensures IndexesAgree(Insert(s, p))
    ensures forall q :: Queued(Insert(s, p), q) <==> Queued(s, q) || q == p
    ensures var e := Entry(s.heap[p].expiration, p);
      Insert(s, p).timers[0] == if s.timers == [] || Less(e, s.timers[0]) then e else s.timers[0]
  {
    var e := Entry(s.heap[p].expiration, p);
    InsertSortedIs(s.timers, e);
    assert IdOf(s, p) !in s.activeTimers;
  }

  lemma QueuedEntry(s: State, e: Entry)
    requires IndexesAgree(s) && e in s.timers
    ensures Queued(s, e.timer) && e == Entry(s.heap[e.timer].expiration, e.timer)
  {
  }

  /** `t` has the timers of `s` and maybe one more, which is not queued. */
  ghost predicate Extends(s: State, t: State, p: Ptr) {
    && p !in s.heap && t.heap.Keys == s.heap.Keys + {p} && (forall q :: q in s.heap ==> t.heap[q] == s.heap[q])
    && t.timers == s.timers && t.activeTimers == s.activeTimers
  }

  lemma ExtendIndexes(s: State, t: State, p: Ptr)
    requires IndexesAgree(s) && Extends(s, t, p)
    ensures IndexesAgree(t) && forall q :: Queued(t, q) <==> Queued(s, q)
  {
    forall e | e in s.timers ensures e.timer != p {
      QueuedEntry(s, e);
    }
  }

  lemma NewTimerKeeps(s: State, p: Ptr, when: int, repeat: bool, delta: nat)
    requires Inv(s) && Enabled(s, NewTimer(p, when, repeat, delta))
    ensures Inv(Next(s, NewTimer(p, when, repeat, delta)))
  {
    var t := Next(s, NewTimer(p, when, repeat, delta));
    ExtendIndexes(s, t, p);
    NewTimerPlaced(s, t, p);
    NewTimerAccounted(s, p, when, repeat, delta);
  }

  lemma NewTimerPlaced(s: State, t: State, p: Ptr)
    requires Placed(s, s.batch) && p !in s.heap && t.heap.Keys == s.heap.Keys + {p} && t.batch == s.batch
    requires t.inFlight == s.inFlight + {p} && !Queued(t, p) && !InBatch(s.batch, p)
    requires forall q :: Queued(t, q) <==> Queued(s, q)
    ensures Placed(t, t.batch)
  {
    forall q | q in t.heap ensures Home(t, t.batch, q) {
      assert q != p ==> Home(s, s.batch, q);
    }
  }

  lemma NewTimerAccounted(s: State, p: Ptr, when: int, repeat: bool, delta: nat)
    requires Accounted(s) && Enabled(s, NewTimer(p, when, repeat, delta))
    ensures Accounted(Next(s, NewTimer(p, when, repeat, delta)))
  {
    var t := Next(s, NewTimer(p, when, repeat, delta));
    assert |t.heap| == |s.heap| + 1;
  }

  lemma AddTimerKeeps(s: State, p: Ptr, t: int)
    requires Inv(s) && Enabled(s, AddTimerInLoop(p, t))
    ensures Inv(Next(s, AddTimerInLoop(p, t)))
  {
    assert !Queued(s, p);
    AddTimerIndexes(s, p, t);
    AddTimerPlaced(s, p, t);
  }

  lemma AddTimerPlaced(s: State, p: Ptr, t: int)
    requires BatchOk(s, s.batch) && Placed(s, s.batch) && Accounted(s) && Enabled(s, AddTimerInLoop(p, t))
    requires forall q :: Queued(Next(s, AddTimerInLoop(p, t)), q) <==> Queued(s, q) || q == p
    ensures var s2 := Next(s, AddTimerInLoop(p, t));
      BatchOk(s2, s2.batch) && Placed(s2, s2.batch) && Accounted(s2)
  {
    var s2 := Next(s, AddTimerInLoop(p, t));
    Moved(s, s2, s.batch, p);
    SameAccounts(s, s2);
  }

  lemma SameAccounts(s: State, t: State)
    requires Accounted(s) && t.heap == s.heap && t.numCreated == s.numCreated && t.deleted == s.deleted
    ensures Accounted(t)
  {
  }

  /** Timer `p` has moved from being in flight into the queue. */
  lemma Moved(s: State, t: State, batch: seq<Entry>, p: Ptr)
    requires BatchOk(s, batch) && Placed(s, batch) && p in s.inFlight
    requires t.heap == s.heap && t.inFlight == s.inFlight - {p}
    requires forall q :: Queued(t, q) <==> Queued(s, q) || q == p
    ensures BatchOk(t, batch) && Placed(t, batch)
  {
    forall q | q in t.heap ensures Home(t, batch, q) {
      assert Home(s, batch, q);
    }
    forall i | 0 <= i < |batch| ensures batch[i].timer != p {
      assert InBatch(batch, batch[i].timer);
    }
  }

  /** Timer `p` was queued and has been deleted. */
  lemma Gone(s: State, t: State, batch: seq<Entry>, p: Ptr)
    requires BatchOk(s, batch) && Placed(s, batch) && Queued(s, p)
    requires t.heap == s.heap - {p} && t.inFlight == s.inFlight
    requires forall q :: Queued(t, q) <==> Queued(s, q) && q != p
    ensures BatchOk(t, batch) && Placed(t, batch)
  {
    forall q | q in t.heap ensures Home(t, batch, q) {
      assert Home(s, batch, q);
    }
    forall i | 0 <= i < |batch| ensures batch[i].timer != p && batch[i].timer in t.heap {}
  }

  lemma AddTimerIndexes(s: State, p: Ptr, t: int)
    requires Enabled(s, AddTimerInLoop(p, t)) && IndexesAgree(s) && ArmedOk(s) && !Queued(s, p)
    ensures var s2 := Next(s, AddTimerInLoop(p, t));
      IndexesAgree(s2) && ArmedOk(s2) && forall q :: Queued(s2, q) <==> Queued(s, q) || q == p
  {
    var s0 := s.(inFlight := s.inFlight - {p});
    var s2 := Next(s, AddTimerInLoop(p, t));
    forall e | e in s.timers ensures e.timer != p {
      QueuedEntry(s, e);
    }
    InsertKeeps(s0, p);
    forall q ensures Queued(s2, q) <==> Queued(Insert(s0, p), q) {}
    forall q ensures Queued(s0, q) <==> Queued(s, q) {}
  }

  /** Deleting a timer that is in no index. */
  lemma DeleteAccounted(s: State, p: Ptr)
    requires Accounted(s) && p in s.heap
    ensures Accounted(Delete(s, p))
  {
    RemoveCount(s.heap, p);
    var d, n := s.deleted, s.heap[p].sequence;
    forall i | 0 <= i < |d| ensures d[i] != n {
      assert d[i] in d;
    }
  }

  lemma RemoveCount(h: map<Ptr, Timer>, p: Ptr)
    requires p in h
    ensures |h - {p}| == |h| - 1
  {
    assert h.Keys == (h - {p}).Keys + {p};
  }

  lemma CancelKeeps(s: State, id: TimerId)
    requires Inv(s)
    ensures Inv(Next(s, CancelInLoop(id)))
  {
    if id in s.activeTimers {
      CancelActiveKeeps(s, id);
    } else {
      var t := Next(s, CancelInLoop(id));
      forall q | q in t.heap ensures Home(t, t.batch, q) {
        assert Home(s, s.batch, q);
      }
    }
  }

  lemma CancelActiveKeeps(s: State, id: TimerId)
    requires Inv(s) && id in s.activeTimers
    ensures Inv(Next(s, CancelInLoop(id)))
  {
    var t := Next(s, CancelInLoop(id));
    CancelIndexes(s, id);
    DeleteAccounted(s, id.timer);
    assert Accounted(t);
    Gone(s, t, s.batch, id.timer);
  }

  lemma CancelIndexes(s: State, id: TimerId)
    requires IndexesAgree(s) && ArmedOk(s) && id in s.activeTimers
    ensures var t := Next(s, CancelInLoop(id));
      IndexesAgree(t) && ArmedOk(t) && forall q :: Queued(t, q) <==> Queued(s, q) && q != id.timer
  {
    var e := Entry(s.heap[id.timer].expiration, id.timer);
    EraseEntryIs(s.timers, e);
    assert e in s.timers;
  }

  // ------------------------------------------------------- taking the batch

  lemma QueuedUnique(s: State, i: int, j: int)
    requires IndexesAgree(s) && 0 <= i < j < |s.timers|
    ensures s.timers[i].timer != s.timers[j].timer
  {
    assert Less(s.timers[i], s.timers[j]);
    QueuedEntry(s, s.timers[i]);
    QueuedEntry(s, s.timers[j]);
  }

  lemma IdsSnoc(s: State, es: seq<Entry>, n: nat)
    requires n < |es| && es[n].timer in s.heap
    ensures IdsOf(s, es[..n + 1]) == IdsOf(s, es[..n]) + {IdOf(s, es[n].timer)}
  {
    var a, b := es[..n], es[..n + 1];
    assert forall i :: 0 <= i < n ==> a[i] == b[i];
    assert b[n] == es[n];
  }

  lemma {:induction false} IdsCount(s: State, n: nat)
    requires IndexesAgree(s) && n <= |s.timers|
    ensures |IdsOf(s, s.timers[..n])| == n && IdsOf(s, s.timers[..n]) <= s.activeTimers
    decreases n
  {
    if n == 0 {
      NoIds(s, s.timers[..0]);
    } else {
      IdsCount(s, n - 1);
      NewId(s, n - 1);
      IdsSnoc(s, s.timers, n - 1);
      AddOne(IdsOf(s, s.timers[..n - 1]), IdOf(s, s.timers[n - 1].timer), s.activeTimers);
    }
  }

  lemma NoIds(s: State, es: seq<Entry>)
    requires |es| == 0
    ensures IdsOf(s, es) == {}
  {
  }

  lemma AddOne(a: set<TimerId>, x: TimerId, all: set<TimerId>)
    requires x !in a && a <= all && x in all
    ensures |a + {x}| == |a| + 1 && a + {x} <= all
  {
  }

  lemma NewId(s: State, n: nat)
    requires IndexesAgree(s) && n < |s.timers|
    ensures s.timers[n].timer in s.heap && IdOf(s, s.timers[n].timer) !in IdsOf(s, s.timers[..n])
    ensures IdOf(s, s.timers[n].timer) in s.activeTimers
  {
    assert s.timers[n] in s.timers;
    forall i | 0 <= i < n ensures s.timers[i].timer != s.timers[n].timer {
      QueuedUnique(s, i, n);
    }
  }

  /** getExpired takes exactly the queued timers that expire at or before `now`. */
  lemma TakePlaces(s: State, now: int)
    requires IndexesAgree(s) && Enabled(s, BeginRead(now))
    ensures var t := Next(s, BeginRead(now));
      && (forall p :: Queued(t, p) <==> Queued(s, p) && s.heap[p].expiration > now)
      && (forall p :: InBatch(t.batch, p) <==> Queued(s, p) && s.heap[p].expiration <= now)
  {
    var t := Next(s, BeginRead(now));
    forall p ensures InBatch(t.batch, p) <==> Queued(s, p) && s.heap[p].expiration <= now {
      TakenIs(s, now, p);
    }
    forall p ensures Queued(t, p) <==> Queued(s, p) && s.heap[p].expiration > now {
      if p in s.heap {
        KeptIs(s, now, p);
      }
    }
  }

  lemma TakeBatch(s: State, now: int)
    requires IndexesAgree(s) && Enabled(s, BeginRead(now))
    ensures var t := Next(s, BeginRead(now)); BatchOk(t, t.batch)
  {
    var n := ExpiredCount(s.timers, now);
    var t := Next(s, BeginRead(now));
    TakePlaces(s, now);
    forall i, j | 0 <= i < j < n ensures t.batch[i].timer != t.batch[j].timer {
      QueuedUnique(s, i, j);
    }
    forall i | 0 <= i < n ensures t.batch[i].timer in s.heap && !Queued(t, t.batch[i].timer) {
      assert InBatch(t.batch, t.batch[i].timer);
    }
  }

  lemma TakeIndexes(s: State, now: int)
    requires IndexesAgree(s) && Enabled(s, BeginRead(now))
    ensures IndexesAgree(Next(s, BeginRead(now)))
  {
    var n := ExpiredCount(s.timers, now);
    var t := Next(s, BeginRead(now));
    IdsCount(s, n);
    forall e | e in t.timers ensures e in s.timers && IdOf(t, e.timer) in t.activeTimers {
      KeptActive(s, now, e);
    }
    forall id | id in t.activeTimers ensures Queued(t, id.timer) && IdOf(t, id.timer) == id {
      ActiveKept(s, now, id);
    }
  }

  lemma KeptActive(s: State, now: int, e: Entry)
    requires IndexesAgree(s) && Enabled(s, BeginRead(now)) && e in Next(s, BeginRead(now)).timers
    ensures e in s.timers && e.timer in s.heap && IdOf(s, e.timer) in Next(s, BeginRead(now)).activeTimers
  {
    var n := ExpiredCount(s.timers, now);
    var j :| n <= j < |s.timers| && s.timers[j] == e;
    QueuedEntry(s, e);
    forall i | 0 <= i < n ensures s.timers[i].timer != e.timer {
      QueuedUnique(s, i, j);
    }
  }

  lemma ActiveKept(s: State, now: int, id: TimerId)
    requires IndexesAgree(s) && Enabled(s, BeginRead(now)) && id in Next(s, BeginRead(now)).activeTimers
    ensures Queued(Next(s, BeginRead(now)), id.timer) && IdOf(s, id.timer) == id
  {
    var n := ExpiredCount(s.timers, now);
    var e := Entry(s.heap[id.timer].expiration, id.timer);
    KeptIs(s, now, id.timer);
    TakenIs(s, now, id.timer);
  }

  lemma TakenIs(s: State, now: int, p: Ptr)
    requires IndexesAgree(s)
    ensures InBatch(s.timers[..ExpiredCount(s.timers, now)], p) <==> Queued(s, p) && s.heap[p].expiration <= now
  {
    var n := ExpiredCount(s.timers, now);
    ExpiredCountIs(s.timers, now);
    if Queued(s, p) && s.heap[p].expiration <= now {
      var i :| 0 <= i < |s.timers| && s.timers[i] == Entry(s.heap[p].expiration, p);
      assert s.timers[..n][i].timer == p;
    }
    if InBatch(s.timers[..n], p) {
      var i :| 0 <= i < n && s.timers[..n][i].timer == p;
      QueuedEntry(s, s.timers[i]);
    }
  }

  lemma KeptIs(s: State, now: int, p: Ptr)
    requires IndexesAgree(s) && p in s.heap
    ensures var e := Entry(s.heap[p].expiration, p);
      e in s.timers[ExpiredCount(s.timers, now)..] <==> e in s.timers && e.when > now
  {
    ExpiredCountIs(s.timers, now);
  }

  lemma BeginReadKeeps(s: State, now: int)
    requires Inv(s) && Enabled(s, BeginRead(now))
    ensures Inv(Next(s, BeginRead(now)))
  {
    var t := Next(s, BeginRead(now));
    TakeIndexes(s, now);
    TakeBatch(s, now);
    TakePlaces(s, now);
    SameAccounts(s, t);
    ExpiredCountIs(s.timers, now);
    forall p | p in t.heap ensures Home(t, t.batch, p) {
      assert Home(s, [], p);
    }
  }

  // ------------------------------------------------------ putting it back

  /** The timers with times before the epoch are covered by the alarm. */
  ghost predicate LowArmed(s: State) {
    s.timers != [] && s.timers[0].when <= 0 ==> s.armed.Some? && s.armed.value.request <= s.timers[0].when
  }

  /** Everything that holds while reset works through its list; `rest` is still to do. */
  ghost predicate Resetting(s: State, rest: seq<Entry>) {
    && IndexesAgree(s) && BatchOk(s, rest) && Placed(s, rest) && Accounted(s) && LowArmed(s) && s.now > 0
  }

  lemma ResetOneKeeps(s: State, rest: seq<Entry>)
    requires Resetting(s, rest) && rest != []
    ensures Resetting(ResetOne(s, rest[0]), rest[1..])
  {
    var p := rest[0].timer;
    assert InBatch(rest, p);
    forall e | e in s.timers ensures e.timer != p {
      QueuedEntry(s, e);
    }
    var timer := s.heap[p];
    if timer.repeat && IdOf(s, p) !in s.cancelingTimers {
      RestartKeeps(s, rest);
      RestartAccounted(s, Insert(Restarted(s, p), p), p);
    } else {
      DeleteKeeps(s, rest);
    }
  }

  function Restarted(s: State, p: Ptr): State
    requires p in s.heap
  {
    s.(heap := s.heap[p := s.heap[p].(expiration := s.now + s.heap[p].delta)])
  }

  lemma RestartKeeps(s: State, rest: seq<Entry>)
    requires IndexesAgree(s) && BatchOk(s, rest) && Placed(s, rest) && LowArmed(s) && s.now > 0 && rest != []
    requires forall e :: e in s.timers ==> e.timer != rest[0].timer
    ensures var t := Insert(Restarted(s, rest[0].timer), rest[0].timer);
      IndexesAgree(t) && BatchOk(t, rest[1..]) && Placed(t, rest[1..]) && LowArmed(t)
  {
    var p := rest[0].timer;
    RestartIndexes(s, p);
    Requeued(s, Insert(Restarted(s, p), p), rest);
  }

  lemma RestartIndexes(s: State, p: Ptr)
    requires IndexesAgree(s) && LowArmed(s) && s.now > 0 && p in s.heap
    requires forall e :: e in s.timers ==> e.timer != p
    ensures var t := Insert(Restarted(s, p), p);
      IndexesAgree(t) && LowArmed(t) && forall q :: Queued(t, q) <==> Queued(s, q) || q == p
  {
    RestartAgree(s, Restarted(s, p), p);
    InsertKeeps(Restarted(s, p), p);
  }

  lemma RestartAgree(s: State, s1: State, p: Ptr)
    requires IndexesAgree(s) && p in s.heap && (forall e :: e in s.timers ==> e.timer != p)
    requires s1.timers == s.timers && s1.activeTimers == s.activeTimers
    requires s1.heap.Keys == s.heap.Keys && (forall q :: q in s.heap && q != p ==> s1.heap[q] == s.heap[q])
    requires s1.heap[p].sequence == s.heap[p].sequence
    ensures IndexesAgree(s1) && !Queued(s1, p) && forall q :: q != p ==> (Queued(s1, q) <==> Queued(s, q))
    ensures !Queued(s, p)
  {
  }

  lemma RestartAccounted(s: State, t: State, p: Ptr)
    requires Accounted(s) && p in s.heap && t.numCreated == s.numCreated && t.deleted == s.deleted
    requires t.heap.Keys == s.heap.Keys && forall q :: q in s.heap ==> t.heap[q].sequence == s.heap[q].sequence
    ensures Accounted(t)
  {
    assert |t.heap| == |t.heap.Keys| == |s.heap.Keys| == |s.heap|;
  }

  /** The first timer of the list has moved into the queue. */
  lemma Requeued(s: State, t: State, rest: seq<Entry>)
    requires BatchOk(s, rest) && Placed(s, rest) && rest != []
    requires t.heap.Keys == s.heap.Keys && t.inFlight == s.inFlight
    requires forall q :: Queued(t, q) <==> Queued(s, q) || q == rest[0].timer
    ensures BatchOk(t, rest[1..]) && Placed(t, rest[1..])
  {
    InBatchRest(rest);
    assert InBatch(rest, rest[0].timer);
    forall q | q in t.heap ensures Home(t, rest[1..], q) {
      assert Home(s, rest, q);
    }
  }

  lemma InBatchRest(rest: seq<Entry>)
    requires rest != []
    ensures forall q :: InBatch(rest, q) <==> q == rest[0].timer || InBatch(rest[1..], q)
  {
    forall q | InBatch(rest, q) && q != rest[0].timer ensures InBatch(rest[1..], q) {
      var i :| 0 <= i < |rest| && rest[i].timer == q;
      assert rest[1..][i - 1].timer == q;
    }
    forall q | InBatch(rest[1..], q) ensures InBatch(rest, q) {
      var i :| 0 <= i < |rest| - 1 && rest[1..][i].timer == q;
      assert rest[i + 1].timer == q;
    }
  }

  lemma DeleteKeeps(s: State, rest: seq<Entry>)
    requires Resetting(s, rest) && rest != []
    requires forall e :: e in s.timers ==> e.timer != rest[0].timer
    ensures Resetting(Delete(s, rest[0].timer), rest[1..])
  {
    var p := rest[0].timer;
    var t := Delete(s, p);
    DeleteAccounted(s, p);
    DeleteAgree(s, p);
    DeletePlaces(s, rest);
  }

  lemma DeleteAgree(s: State, p: Ptr)
    requires IndexesAgree(s) && p in s.heap && forall e :: e in s.timers ==> e.timer != p
    ensures IndexesAgree(Delete(s, p)) && forall q :: Queued(Delete(s, p), q) <==> Queued(s, q)
  {
  }

  lemma DeletePlaces(s: State, rest: seq<Entry>)
    requires BatchOk(s, rest) && Placed(s, rest) && rest != []
    requires forall q :: Queued(Delete(s, rest[0].timer), q) <==> Queued(s, q)
    ensures BatchOk(Delete(s, rest[0].timer), rest[1..]) && Placed(Delete(s, rest[0].timer), rest[1..])
  {
    var t := Delete(s, rest[0].timer);
    InBatchRest(rest);
    assert InBatch(rest, rest[0].timer);
    forall q | q in t.heap ensures Home(t, rest[1..], q) {
      assert Home(s, rest, q);
    }
  }

  lemma {:induction false} ResetAllKeeps(s: State, batch: seq<Entry>, n: nat)
    requires Resetting(s, batch) && n <= |batch|
    ensures Resetting(ResetAll(s, batch[..n]), batch[n..]) && ResetAll(s, batch[..n]).now == s.now
    ensures ResetAll(s, batch[..n]).callingExpiredTimers == s.callingExpiredTimers
    ensures ResetAll(s, batch[..n]).batch == s.batch && ResetAll(s, batch[..n]).ran == s.ran
  {
    if n > 0 {
      ResetAllKeeps(s, batch, n - 1);
      assert batch[..n][..n - 1] == batch[..n - 1];
      ResetOneKeeps(ResetAll(s, batch[..n - 1]), batch[n - 1..]);
      assert batch[n - 1..][1..] == batch[n..];
    } else {
      assert batch[0..] == batch;
    }
  }

  lemma EndReadKeeps(s: State, t: int)
    requires Inv(s) && Enabled(s, EndRead(t))
    ensures Inv(Next(s, EndRead(t)))
  {
    var s0 := s.(callingExpiredTimers := false, batch := [], ran := 0);
    HandingOver(s, s0);
    ResetAllKeeps(s0, s.batch, |s.batch|);
    assert s.batch[..|s.batch|] == s.batch && s.batch[|s.batch|..] == [];
    var s1 := ResetAll(s0, s.batch);
    HandedBack(s1, Next(s, EndRead(t)), t);
  }

  lemma HandedBack(s: State, t: State, u: int)
    requires Resetting(s, []) && !s.callingExpiredTimers && s.batch == [] && s.ran == 0
    requires t == if s.timers != [] && s.timers[0].when > 0 then s.(armed := Some(Alarm(s.timers[0].when, u))) else s
    ensures Inv(t)
  {
    SameAccounts(s, t);
    forall q | q in t.heap ensures Home(t, [], q) {
      assert Home(s, [], q);
    }
  }

  lemma HandingOver(s: State, s0: State)
    requires Inv(s) && s.callingExpiredTimers && s0 == s.(callingExpiredTimers := false, batch := [], ran := 0)
    ensures Resetting(s0, s.batch)
  {
    SameAccounts(s, s0);
    forall q | q in s.heap ensures Home(s0, s.batch, q) {
      assert Home(s, s.batch, q);
    }
  }

  // ------------------------------------------------------------- every run

  lemma StepKeeps(s: State, a: Action)
    requires Inv(s) && Enabled(s, a)
    ensures Inv(Next(s, a))
  {
    match a
    case NewTimer(p, when, repeat, delta) => NewTimerKeeps(s, p, when, repeat, delta);
    case AddTimerInLoop(p, t) => AddTimerKeeps(s, p, t);
    case CancelInLoop(id) => CancelKeeps(s, id);
    case BeginRead(now) => BeginReadKeeps(s, now);
    case RunTimer => RunTimerKeeps(s);
    case EndRead(t) => EndReadKeeps(s, t);
  }

  lemma RunTimerKeeps(s: State)
    requires Inv(s) && Enabled(s, RunTimer)
    ensures Inv(Next(s, RunTimer))
  {
    var t := Next(s, RunTimer);
    forall q | q in t.heap ensures Home(t, t.batch, q) {
      assert Home(s, s.batch, q);
    }
  }

  /** The state after a run of steps, if each one was enabled. */
  function After(acts: seq<Action>): Option<State> {
    if acts == [] then Some(Init())
    else
      var r := After(acts[..|acts| - 1]);
      if r.Some? && Enabled(r.value, acts[|acts| - 1]) then Some(Next(r.value, acts[|acts| - 1])) else None
  }

  lemma {:induction false} RunKeeps(acts: seq<Action>)
    ensures After(acts).Some? ==> Inv(After(acts).value)
  {
    if acts != [] {
      var before := acts[..|acts| - 1];
      RunKeeps(before);
      if After(acts).Some? {
        StepKeeps(After(before).value, acts[|acts| - 1]);
      }
    }
  }

  // -------------------------------------------------------------- the alarm

  /** Seconds and nanoseconds until the descriptor becomes readable. */
  function HowMuchTimeFromNow(when: int, now: int): (r: (int, int))
    ensures 0 <= r.0 && 0 <= r.1 < 1000000000
    ensures r.0 * 1000000000 + r.1 == (if when - now < 100 then 100 else when - now) * 1000
  {
    var microseconds := if when - now < 100 then 100 else when - now;
    (microseconds / 1000000, microseconds % 1000000 * 1000)
  }

  /** When the descriptor becomes readable, in nanoseconds. */
  function DeadlineNs(a: Alarm): int {
    var (sec, nsec) := HowMuchTimeFromNow(a.request, a.at);
    a.at * 1000 + sec * 1000000000 + nsec
  }

  /** Outside the callbacks a nonempty queue has an alarm no later than its first
      expiration, or 100 microseconds after it was set if that is later. */
  lemma NeverOversleeps(acts: seq<Action>)
    requires After(acts).Some? && !After(acts).value.callingExpiredTimers && After(acts).value.timers != []
    ensures var s := After(acts).value;
      && s.armed.Some?
      && (forall e :: e in s.timers ==>
            DeadlineNs(s.armed.value) <=
            1000 * (if e.when < s.armed.value.at + 100 then s.armed.value.at + 100 else e.when))
  {
    RunKeeps(acts);
    var s := After(acts).value;
    forall e | e in s.timers ensures s.timers[0].when <= e.when {
      var i :| 0 <= i < |s.timers| && s.timers[i] == e;
      assert i > 0 ==> Less(s.timers[0], s.timers[i]);
    }
  }

  // ----------------------------------------------------------- cancellation

  /** The timer that `id` was given out for cannot be taken by a later batch: it is gone, or
      it is in the running batch and will be deleted at its end. */
  ghost predicate Dead(s: State, id: TimerId) {
    && id.sequence <= s.numCreated
    && forall p {:trigger s.heap[p]} :: p in s.heap && s.heap[p].sequence == id.sequence ==>
         p == id.timer && p !in s.inFlight && !Queued(s, p) && id in s.cancelingTimers && s.callingExpiredTimers
  }

  /** An id that was given out: its sequence number belongs to its own address only. */
  ghost predicate GivenOut(s: State, id: TimerId) {
    && id.sequence <= s.numCreated
    && forall p {:trigger s.heap[p]} :: p in s.heap && s.heap[p].sequence == id.sequence ==> p == id.timer
  }

  /** Cancelling works exactly when the timer is not waiting for its own insertion. */
  lemma CancelWorks(s: State, id: TimerId)
    requires Inv(s) && GivenOut(s, id)
    ensures Dead(Next(s, CancelInLoop(id)), id) <==> !(id.timer in s.inFlight && IdOf(s, id.timer) == id)
  {
    var p := id.timer;
    if id in s.activeTimers {
      CancelQueued(s, id);
    } else if p in s.heap && s.heap[p].sequence == id.sequence {
      CancelBusy(s, id);
    }
  }

  lemma CancelQueued(s: State, id: TimerId)
    requires Inv(s) && GivenOut(s, id) && id in s.activeTimers
    ensures Dead(Next(s, CancelInLoop(id)), id) && id.timer !in s.inFlight
  {
    CancelIndexes(s, id);
    assert Queued(s, id.timer);
  }

  /** The timer is allocated but not queued: in the batch, or waiting for its insertion. */
  lemma CancelBusy(s: State, id: TimerId)
    requires Inv(s) && GivenOut(s, id) && id !in s.activeTimers
    requires id.timer in s.heap && s.heap[id.timer].sequence == id.sequence
    ensures Dead(Next(s, CancelInLoop(id)), id) <==> id.timer !in s.inFlight
  {
    var p, t := id.timer, Next(s, CancelInLoop(id));
    assert Home(s, s.batch, p);
    if p !in s.inFlight {
      assert Entry(s.heap[p].expiration, p) !in s.timers;
      assert s.callingExpiredTimers;
    } else {
      assert t.heap[p] == s.heap[p];
    }
  }

  lemma DeadStays(s: State, id: TimerId, a: Action)
    requires Inv(s) && Dead(s, id) && Enabled(s, a)
    ensures Dead(Next(s, a), id)
  {
    match a
    case NewTimer(p, when, repeat, delta) =>
      NewTimerDead(s, id, p, when, repeat, delta);
    case AddTimerInLoop(p, t) =>
      AddTimerIndexes(s, p, t);
    case CancelInLoop(other) =>
      if other in s.activeTimers {
        CancelIndexes(s, other);
      }
    case BeginRead(now) =>
      TakePlaces(s, now);
    case RunTimer =>
    case EndRead(t) =>
      EndReadDead(s, id, t);
  }

  lemma NewTimerDead(s: State, id: TimerId, p: Ptr, when: int, repeat: bool, delta: nat)
    requires Inv(s) && Dead(s, id) && Enabled(s, NewTimer(p, when, repeat, delta))
    ensures Dead(Next(s, NewTimer(p, when, repeat, delta)), id)
  {
    ExtendIndexes(s, Next(s, NewTimer(p, when, repeat, delta)), p);
  }

  /** Resetting deletes a dead timer of the batch and brings no dead timer back. */
  ghost predicate Dying(s: State, rest: seq<Entry>, id: TimerId) {
    && id.sequence <= s.numCreated
    && forall p {:trigger s.heap[p]} :: p in s.heap && s.heap[p].sequence == id.sequence ==>
         p == id.timer && InBatch(rest, p) && id in s.cancelingTimers
  }

  lemma DyingStep(s: State, rest: seq<Entry>, id: TimerId)
    requires Resetting(s, rest) && rest != [] && Dying(s, rest, id)
    ensures Dying(ResetOne(s, rest[0]), rest[1..], id)
  {
    InBatchRest(rest);
  }

  lemma {:induction false} ResetAllDead(s: State, batch: seq<Entry>, id: TimerId, n: nat)
    requires Resetting(s, batch) && n <= |batch| && Dying(s, batch, id)
    ensures Dying(ResetAll(s, batch[..n]), batch[n..], id)
  {
    if n > 0 {
      ResetAllDead(s, batch, id, n - 1);
      ResetAllKeeps(s, batch, n - 1);
      assert batch[..n][..n - 1] == batch[..n - 1];
      DyingStep(ResetAll(s, batch[..n - 1]), batch[n - 1..], id);
      assert batch[n - 1..][1..] == batch[n..];
    } else {
      assert batch[0..] == batch;
    }
  }

  /** The next timer of the batch is still allocated when its turn comes. */
  lemma NextReset(s: State, expired: seq<Entry>, i: nat)
    requires Resetting(s, expired) && i < |expired|
    ensures expired[i].timer in ResetAll(s, expired[..i]).heap
    ensures ResetAll(s, expired[..i + 1]) == ResetOne(ResetAll(s, expired[..i]), expired[i])
  {
    ResetAllKeeps(s, expired, i);
    assert expired[i..][0] == expired[i];
    assert expired[..i + 1][..i] == expired[..i];
  }

  lemma EndReadDead(s: State, id: TimerId, t: int)
    requires Inv(s) && Dead(s, id) && Enabled(s, EndRead(t))
    ensures Dead(Next(s, EndRead(t)), id)
  {
    var s0 := s.(callingExpiredTimers := false, batch := [], ran := 0);
    HandingOver(s, s0);
    forall p | p in s.heap && s.heap[p].sequence == id.sequence ensures InBatch(s.batch, p) {
      assert Home(s, s.batch, p);
    }
    ResetAllDead(s0, s.batch, id, |s.batch|);
    assert s.batch[..|s.batch|] == s.batch && s.batch[|s.batch|..] == [];
  }

  /** No later batch takes a dead timer. */
  lemma DeadNotTaken(s: State, id: TimerId, now: int, i: nat)
    requires Inv(s) && Dead(s, id) && Enabled(s, BeginRead(now)) && i < |Next(s, BeginRead(now)).batch|
    ensures var e := Next(s, BeginRead(now)).batch[i]; e.timer in s.heap && s.heap[e.timer].sequence != id.sequence
  {
    TakePlaces(s, now);
    var e := Next(s, BeginRead(now)).batch[i];
    assert InBatch(Next(s, BeginRead(now)).batch, e.timer);
  }

  /** The state that a continuation leads to, if all its steps are possible. */
  function Onward(s: State, more: seq<Action>): Option<State> {
    if more == [] then Some(s)
    else
      var r := Onward(s, more[..|more| - 1]);
      if r.Some? && Enabled(r.value, more[|more| - 1]) then Some(Next(r.value, more[|more| - 1])) else None
  }

  lemma {:induction false} OnwardFirst(s: State, a: Action, more: seq<Action>)
    requires Enabled(s, a)
    ensures Onward(s, [a] + more) == Onward(Next(s, a), more)
    decreases |more|
  {
    if more == [] {
      assert [a] + more == [a] && [a][..0] == [];
    } else {
      OnwardFirst(s, a, more[..|more| - 1]);
      assert ([a] + more)[..|more|] == [a] + more[..|more| - 1];
    }
  }

  lemma OnwardLast(s: State, more: seq<Action>, a: Action)
    requires Onward(s, more).Some? && Enabled(Onward(s, more).value, a)
    ensures Onward(s, more + [a]) == Some(Next(Onward(s, more).value, a))
  {
    assert (more + [a])[..|more|] == more;
  }

  /** Timer `p` waits for its insertion, with what it was created with. */
  predicate Waiting(s: State, p: Ptr, timer: Timer) {
    p in s.inFlight && p in s.heap && s.heap[p] == timer
  }

  lemma {:induction false} ResetLeaves(s: State, batch: seq<Entry>, p: Ptr, timer: Timer)
    requires Waiting(s, p, timer) && !InBatch(batch, p)
    ensures Waiting(ResetAll(s, batch), p, timer)
  {
    if batch != [] {
      var front := batch[..|batch| - 1];
      assert forall i :: 0 <= i < |front| ==> front[i] == batch[i];
      ResetLeaves(s, front, p, timer);
    }
  }

  lemma EndReadLeaves(s: State, p: Ptr, timer: Timer, t: int)
    requires Inv(s) && Waiting(s, p, timer) && Enabled(s, EndRead(t))
    ensures Waiting(Next(s, EndRead(t)), p, timer)
  {
    ResetLeaves(s.(callingExpiredTimers := false, batch := [], ran := 0), s.batch, p, timer);
  }

  /** The running batch, if any, comes to its end without touching a timer that waits. */
  lemma {:induction false} BatchEnds(s: State, p: Ptr, timer: Timer, t: int) returns (more: seq<Action>)
    requires Inv(s) && Waiting(s, p, timer)
    ensures var r := Onward(s, more);
      r.Some? && Inv(r.value) && Waiting(r.value, p, timer) && !r.value.callingExpiredTimers
    decreases s.callingExpiredTimers, |s.batch| - s.ran
  {
    if !s.callingExpiredTimers {
      more := [];
    } else {
      var a := if s.ran < |s.batch| then RunTimer else EndRead(t);
      StepKeeps(s, a);
      if a.EndRead? {
        EndReadLeaves(s, p, timer, t);
        EndReadEnds(s, t);
      }
      var rest := BatchEnds(Next(s, a), p, timer, t);
      OnwardFirst(s, a, rest);
      more := [a] + rest;
    }
  }

  lemma EndReadEnds(s: State, t: int)
    requires Inv(s) && Enabled(s, EndRead(t))
    ensures !Next(s, EndRead(t)).callingExpiredTimers
  {
    var s0 := s.(callingExpiredTimers := false, batch := [], ran := 0);
    HandingOver(s, s0);
    ResetAllKeeps(s0, s.batch, |s.batch|);
    assert s.batch[..|s.batch|] == s.batch;
  }

  lemma CancelLeaves(s: State, id: TimerId, timer: Timer)
    requires Inv(s) && Waiting(s, id.timer, timer)
    ensures Waiting(Next(s, CancelInLoop(id)), id.timer, timer)
  {
    assert !Queued(s, id.timer);
  }

  /** The case that fails, between batches and from a callback of one: the timer is inserted after
      its cancellation, and a later batch takes it. */
  lemma EarlyCancelIsLost(s: State, id: TimerId, t: int, now: int) returns (more: seq<Action>)
    requires Inv(s) && id.timer in s.inFlight && IdOf(s, id.timer) == id
    requires now > 0 && now >= s.heap[id.timer].expiration
    ensures var r := Onward(Next(s, CancelInLoop(id)), more);
      r.Some? && InBatch(r.value.batch, id.timer) && id.timer in r.value.heap && IdOf(r.value, id.timer) == id
  {
    var p, timer := id.timer, s.heap[id.timer];
    CancelKeeps(s, id);
    CancelLeaves(s, id, timer);
    var c := Next(s, CancelInLoop(id));
    var ends := BatchEnds(c, p, timer, t);
    var r := TakenAtLast(Onward(c, ends).value, p, timer, t, now);
    OnwardLast(c, ends, AddTimerInLoop(p, t));
    OnwardLast(c, ends + [AddTimerInLoop(p, t)], BeginRead(now));
    more := ends + [AddTimerInLoop(p, t)] + [BeginRead(now)];
  }

  /** Inserted, and then taken by the next batch. */
  lemma TakenAtLast(s: State, p: Ptr, timer: Timer, t: int, now: int) returns (r: State)
    requires Inv(s) && Waiting(s, p, timer) && !s.callingExpiredTimers && now > 0 && now >= timer.expiration
    ensures Enabled(s, AddTimerInLoop(p, t)) && Enabled(Next(s, AddTimerInLoop(p, t)), BeginRead(now))
    ensures r == Next(Next(s, AddTimerInLoop(p, t)), BeginRead(now))
    ensures InBatch(r.batch, p) && p in r.heap && r.heap[p] == timer
  {
    assert !Queued(s, p);
    AddTimerIndexes(s, p, t);
    TakePlaces(Next(s, AddTimerInLoop(p, t)), now);
    r := Next(Next(s, AddTimerInLoop(p, t)), BeginRead(now));
  }

  lemma {:induction false} DeadForever(s: State, id: TimerId, more: seq<Action>)
    requires Inv(s) && Dead(s, id)
    ensures Onward(s, more).Some? ==> Inv(Onward(s, more).value) && Dead(Onward(s, more).value, id)
    decreases |more|
  {
    if more != [] {
      var before := more[..|more| - 1];
      DeadForever(s, id, before);
      if Onward(s, more).Some? {
        StepKeeps(Onward(s, before).value, more[|more| - 1]);
        DeadStays(Onward(s, before).value, id, more[|more| - 1]);
      }
    }
  }

  /** A timer whose cancellation came after its insertion fires in no batch taken from then on,
      whatever happens in between; in the batch that was running it can have been taken before. */
  lemma CancelledNeverFires(acts: seq<Action>, id: TimerId, more: seq<Action>, now: int, i: nat)
    requires After(acts).Some? && GivenOut(After(acts).value, id)
    requires var s := After(acts).value;
      id.timer in s.inFlight && id.timer in s.heap ==> s.heap[id.timer].sequence != id.sequence
    requires var r := Onward(Next(After(acts).value, CancelInLoop(id)), more);
      r.Some? && Enabled(r.value, BeginRead(now)) && i < |Next(r.value, BeginRead(now)).batch|
    ensures var s := Onward(Next(After(acts).value, CancelInLoop(id)), more).value;
      var e := Next(s, BeginRead(now)).batch[i];
      e.timer in s.heap && s.heap[e.timer].sequence != id.sequence
  {
    RunKeeps(acts);
    var s := After(acts).value;
    CancelWorks(s, id);
    CancelKeeps(s, id);
    var t := Next(s, CancelInLoop(id));
    DeadForever(t, id, more);
    DeadNotTaken(Onward(t, more).value, id, now, i);
  }

  /** An id whose timer no longer exists cancels nothing, now or at the end of the batch,
      even when its address is in use again. */
  lemma StaleCancelsNothing(s: State, id: TimerId)
    requires Inv(s) && (id.timer in s.heap ==> IdOf(s, id.timer) != id)
    ensures var t := Next(s, CancelInLoop(id));
      && t == s.(cancelingTimers := t.cancelingTimers)
      && ResetAll(t, s.batch) == ResetAll(s, s.batch).(cancelingTimers := t.cancelingTimers)
  {
    var t := Next(s, CancelInLoop(id));
    ResetAllStale(s, t.cancelingTimers, s.batch, id);
  }

  lemma {:induction false} ResetAllStale(s: State, c: set<TimerId>, es: seq<Entry>, id: TimerId)
    requires c == s.cancelingTimers || c == s.cancelingTimers + {id}
    requires id.timer in s.heap ==> IdOf(s, id.timer) != id
    ensures ResetAll(s.(cancelingTimers := c), es) == ResetAll(s, es).(cancelingTimers := c)
    ensures ResetAll(s, es).cancelingTimers == s.cancelingTimers
    ensures id.timer in ResetAll(s, es).heap ==> IdOf(ResetAll(s, es), id.timer) != id
  {
    if es != [] {
      ResetAllStale(s, c, es[..|es| - 1], id);
    }
  }

  // -------------------------------------------------------------- the object

  class TimerQueue {
    /** The timers by expiration, and by identity. */
    var timers: seq<Entry>
    var activeTimers: set<TimerId>
    var callingExpiredTimers: bool
    var cancelingTimers: set<TimerId>
    /** The allocated timers and the count of timers ever created. */
    var heap: map<Ptr, Timer>
    var numCreated: nat
    /** What the timer descriptor was last set to. */
    var armed: Option<Alarm>
    /** The vector that handleRead works through. */
    var batch: seq<Entry>
    var ran: nat
    var now: int
    ghost var inFlight: set<Ptr>
    ghost var deleted: seq<nat>

    ghost function View(): State
      reads this
    {
      State(timers, activeTimers, callingExpiredTimers, cancelingTimers, heap, numCreated, armed,
            inFlight, batch, ran, now, deleted)
    }

    constructor ()
      ensures View() == Init()
    {
      timers, activeTimers, callingExpiredTimers, cancelingTimers := [], {}, false, {};
      heap, numCreated, armed, batch, ran, now := map[], 0, None, [], 0, 0;
      inFlight, deleted := {}, [];
    }

    method AddTimer(p: Ptr, when: int, repeat: bool, delta: nat) returns (id: TimerId)
      requires Enabled(View(), NewTimer(p, when, repeat, delta))
      modifies this
      ensures View() == Next(old(View()), NewTimer(p, when, repeat, delta)) && id == IdOf(View(), p)
    {
      numCreated := numCreated + 1;
      heap := heap[p := Timer(when, repeat, delta, numCreated)];
      inFlight := inFlight + {p};
      id := TimerId(p, numCreated);
    }

    method InsertTimer(p: Ptr) returns (earliestChanged: bool)
      requires p in heap
      modifies this`timers, this`activeTimers
      ensures View() == Insert(old(View()), p)
      ensures earliestChanged <==> old(timers) == [] || heap[p].expiration < old(timers[0].when)
    {
      earliestChanged := false;
      var when := heap[p].expiration;
      if timers == [] || when < timers[0].when {
        earliestChanged := true;
      }
      timers := InsertSorted(timers, Entry(when, p));
      activeTimers := activeTimers + {TimerId(p, heap[p].sequence)};
    }

    method DeleteTimer(p: Ptr)
      requires p in heap
      modifies this`heap, this`deleted
      ensures View() == Delete(old(View()), p)
    {
      deleted := deleted + [heap[p].sequence];
      heap := heap - {p};
    }

    method AddInLoop(p: Ptr, clock: int)
      requires Enabled(View(), AddTimerInLoop(p, clock))
      modifies this
      ensures View() == Next(old(View()), AddTimerInLoop(p, clock))
    {
      inFlight := inFlight - {p};
      var earliestChanged := InsertTimer(p);
      if earliestChanged {
        armed := Some(Alarm(heap[p].expiration, clock));
      }
    }

    method Cancel(id: TimerId)
      requires Inv(View())
      modifies this
      ensures View() == Next(old(View()), CancelInLoop(id))
    {
      if id in activeTimers {
        timers := EraseEntry(timers, Entry(heap[id.timer].expiration, id.timer));
        DeleteTimer(id.timer);
        activeTimers := activeTimers - {id};
      } else if callingExpiredTimers {
        cancelingTimers := cancelingTimers + {id};
      }
    }

    /** Moves the expired timers out of both indexes: all of them, in order, and no others. */
    method GetExpired(clock: int) returns (expired: seq<Entry>)
      requires Sorted(timers) && forall e :: e in timers ==> e.timer in heap
      modifies this`timers, this`activeTimers
      ensures expired == old(timers)[..ExpiredCount(old(timers), clock)]
      ensures View() == old(View()).(timers := old(timers)[ExpiredCount(old(timers), clock)..],
                                     activeTimers := old(activeTimers) - IdsOf(old(View()), expired))
      ensures Sorted(expired)
      ensures forall e :: e in old(timers) ==> (e in expired <==> e.when <= clock)
    {
      ghost var s := View();
      var n := ExpiredCount(timers, clock);
      ExpiredCountIs(timers, clock);
      expired := timers[..n];
      timers := timers[n..];
      var i := 0;
      assert IdsOf(s, expired[..0]) == {};
      while i < |expired|
        invariant 0 <= i <= |expired| && timers == s.timers[n..] && heap == s.heap
        invariant activeTimers == s.activeTimers - IdsOf(s, expired[..i])
      {
        assert expired[i] in s.timers;
        IdsSnoc(s, expired, i);
        activeTimers := activeTimers - {TimerId(expired[i].timer, heap[expired[i].timer].sequence)};
        i := i + 1;
      }
      assert expired[..|expired|] == expired;
    }

    /** The part of handleRead before the callbacks. */
    method HandleReadBegin(clock: int)
      requires Sorted(timers) && (forall e :: e in timers ==> e.timer in heap) && Enabled(View(), BeginRead(clock))
      modifies this
      ensures View() == Next(old(View()), BeginRead(clock))
    {
      ghost var s := View();
      var expired := GetExpired(clock);
      assert expired == s.timers[..ExpiredCount(s.timers, clock)];
      batch := expired;
      armed := None;
      now := clock;
      callingExpiredTimers := true;
      cancelingTimers := {};
      ran := 0;
    }

    /** Steps to the next callback. */
    method RunNextTimer() returns (p: Ptr)
      requires Enabled(View(), RunTimer)
      modifies this
      ensures View() == Next(old(View()), RunTimer) && p == old(batch[ran].timer)
    {
      p := batch[ran].timer;
      ran := ran + 1;
    }

    method ResetTimer(e: Entry)
      requires e.timer in heap
      modifies this
      ensures View() == ResetOne(old(View()), e)
    {
      var p := e.timer;
      if heap[p].repeat && TimerId(p, heap[p].sequence) !in cancelingTimers {
        heap := heap[p := heap[p].(expiration := now + heap[p].delta)];
        var _ := InsertTimer(p);
      } else {
        DeleteTimer(p);
      }
    }

    /** Restarts the repeating timers of the batch that were not cancelled, and deletes the rest. */
    method Reset(expired: seq<Entry>, clock: int)
      requires Resetting(View(), expired)
      modifies this
      ensures var s := ResetAll(old(View()), expired);
        View() ==
        if s.timers != [] && s.timers[0].when > 0 then s.(armed := Some(Alarm(s.timers[0].when, clock))) else s
    {
      ghost var s := View();
      var i := 0;
      while i < |expired|
        invariant 0 <= i <= |expired|
        invariant View() == ResetAll(s, expired[..i])
      {
        NextReset(s, expired, i);
        ResetTimer(expired[i]);
        i := i + 1;
      }
      assert expired[..|expired|] == expired;
      if timers != [] && timers[0].when > 0 {
        armed := Some(Alarm(timers[0].when, clock));
      }
    }

    /** The part of handleRead after the callbacks. */
    method HandleReadEnd(clock: int)
      requires Inv(View()) && Enabled(View(), EndRead(clock))
      modifies this
      ensures View() == Next(old(View()), EndRead(clock))
    {
      ghost var s := View();
      var expired := batch;
      callingExpiredTimers, batch, ran := false, [], 0;
      HandingOver(s, View());
      Reset(expired, clock);
    }
  }
}
