/** The centre's idle-connection scan: the list is in order of arrival, and the scan stops at the
    first connection that is young enough. */
module IdleScan {

  const MICROS := 1_000_000

  /** A place in the list. `alive` says whether the weak pointer still leads to a connection; `last`
      is the time of its last receipt in microseconds, which is set when it connects. */
  datatype Conn = Conn(id: nat, alive: bool, connected: bool, last: int)

  /** The list after a scan and the connections told to close, in order. */
  datatype Scan = Scan(list: seq<Conn>, closed: seq<nat>)

  predicate Idle(c: Conn, now: int, idleSeconds: nat) {
    now - c.last > idleSeconds * MICROS
  }

  /** The scan goes no further than a living connection of a proper, young age. */
  predicate Stops(c: Conn, now: int, idleSeconds: nat) {
    c.alive && 0 <= now - c.last <= idleSeconds * MICROS
  }

  /** What the scan does to one place: drops it, closes its connection, or corrects its time. */
  function Handle(c: Conn, now: int, idleSeconds: nat): Scan {
    if !c.alive then Scan([], [])
    else if Idle(c, now, idleSeconds) then
      if c.connected then Scan([c.(connected := false)], [c.id]) else Scan([c], [])
    else if now - c.last < 0 then Scan([c.(last := now)], [])
    else Scan([c], [])
  }

  function Both(a: Scan, b: Scan): Scan {
    Scan(a.list + b.list, a.closed + b.closed)
  }

  /** The scan as it should be: every place is looked at. */
  function FullScan(list: seq<Conn>, now: int, idleSeconds: nat): Scan {
    if list == [] then Scan([], [])
    else Both(Handle(list[0], now, idleSeconds), FullScan(list[1..], now, idleSeconds))
  }

  /** The scan as it is: the first young connection ends it. */
  function EarlyScan(list: seq<Conn>, now: int, idleSeconds: nat): Scan {
    if list == [] then Scan([], [])
    else if Stops(list[0], now, idleSeconds) then Scan(list, [])
    else Both(Handle(list[0], now, idleSeconds), EarlyScan(list[1..], now, idleSeconds))
  }

  /** Nothing to do for this place. */
  predicate Quiet(c: Conn, now: int, idleSeconds: nat) {
    c.alive && now - c.last >= 0 && (Idle(c, now, idleSeconds) ==> !c.connected)
  }

  /** Behind the place where the scan stops there is nothing to do. */
  ghost predicate QuietBehind(list: seq<Conn>, now: int, idleSeconds: nat) {
    forall i, j :: 0 <= i <= j < |list| && Stops(list[i], now, idleSeconds) ==> Quiet(list[j], now, idleSeconds)
  }

  lemma HandleLength(c: Conn, now: int, idleSeconds: nat)
    ensures Handle(c, now, idleSeconds) == Scan([c], []) <==> Quiet(c, now, idleSeconds)
    ensures |Handle(c, now, idleSeconds).list| <= 1
    ensures c.alive ==> |Handle(c, now, idleSeconds).list| == 1
  {
  }

  /** A full scan changes nothing exactly when there is nothing to do anywhere. */
  lemma {:induction false} FullScanQuiet(list: seq<Conn>, now: int, idleSeconds: nat)
    ensures |FullScan(list, now, idleSeconds).list| <= |list|
    ensures FullScan(list, now, idleSeconds) == Scan(list, []) <==>
            forall i :: 0 <= i < |list| ==> Quiet(list[i], now, idleSeconds)
    decreases |list|
  {
    if list != [] {
      var h, f := Handle(list[0], now, idleSeconds), FullScan(list[1..], now, idleSeconds);
      HandleLength(list[0], now, idleSeconds);
      FullScanQuiet(list[1..], now, idleSeconds);
      var tail := list[1..];
      assert list == [list[0]] + tail && forall i :: 0 <= i < |tail| ==> tail[i] == list[i + 1];
      if Both(h, f) == Scan(list, []) {
        assert |h.list| == 1 && |f.list| == |list| - 1;
        assert h.list == (h.list + f.list)[..1] == [list[0]];
        assert f.list == (h.list + f.list)[1..] == list[1..];
        assert h.closed == [] && f.closed == [];
        forall i | 0 <= i < |list| ensures Quiet(list[i], now, idleSeconds) {
          assert i > 0 ==> Quiet(tail[i - 1], now, idleSeconds);
        }
      }
      if forall i :: 0 <= i < |list| ==> Quiet(list[i], now, idleSeconds) {
        forall i | 0 <= i < |tail| ensures Quiet(tail[i], now, idleSeconds) {
          assert Quiet(list[i + 1], now, idleSeconds);
        }
      }
    }
  }

  /** Stopping early is right exactly when there is nothing to do behind the stop. */
  lemma {:induction false} EarlyIsFullExactly(list: seq<Conn>, now: int, idleSeconds: nat)
    ensures EarlyScan(list, now, idleSeconds) == FullScan(list, now, idleSeconds) <==>
            QuietBehind(list, now, idleSeconds)
    decreases |list|
  {
    if list == [] {
    } else if Stops(list[0], now, idleSeconds) {
      FullScanQuiet(list, now, idleSeconds);
      if FullScan(list, now, idleSeconds) != Scan(list, []) {
        var i :| 0 <= i < |list| && !Quiet(list[i], now, idleSeconds);
        assert Stops(list[0], now, idleSeconds) && 0 <= i;
      }
    } else {
      EarlyIsFullExactly(list[1..], now, idleSeconds);
      QuietBehindTail(list, now, idleSeconds);
      var h := Handle(list[0], now, idleSeconds);
      var e, f := EarlyScan(list[1..], now, idleSeconds), FullScan(list[1..], now, idleSeconds);
      if Both(h, e) == Both(h, f) {
        assert e.list == (h.list + e.list)[|h.list|..] && f.list == (h.list + f.list)[|h.list|..];
        assert e.closed == (h.closed + e.closed)[|h.closed|..] && f.closed == (h.closed + f.closed)[|h.closed|..];
      }
    }
  }

  lemma QuietBehindTail(list: seq<Conn>, now: int, idleSeconds: nat)
    requires list != [] && !Stops(list[0], now, idleSeconds)
    ensures QuietBehind(list, now, idleSeconds) <==> QuietBehind(list[1..], now, idleSeconds)
  {
    var tail := list[1..];
    if QuietBehind(tail, now, idleSeconds) {
      forall i, j | 0 <= i <= j < |list| && Stops(list[i], now, idleSeconds)
        ensures Quiet(list[j], now, idleSeconds)
      {
        assert list[i] == tail[i - 1] && list[j] == tail[j - 1];
      }
    }
    if QuietBehind(list, now, idleSeconds) {
      forall i, j | 0 <= i <= j < |tail| && Stops(tail[i], now, idleSeconds)
        ensures Quiet(tail[j], now, idleSeconds)
      {
        assert tail[i] == list[i + 1] && tail[j] == list[j + 1];
      }
    }
  }

  // ------------------------------------------------------------- over runs

  /** The thread of the base loop runs the timer; other threads, or the same one, serve connections. */
  type Tid = nat

  const BASE: Tid := 0

  /** What a thread is about to do, with the time that it has read for it. */
  datatype Task = Arrival(read: int) | Scanning(read: int)

  datatype State = State(now: int, list: seq<Conn>, closed: seq<nat>, busy: map<Tid, Task>)

  /** The clock moves; a thread reads it for a new connection, and then appends the place; a connection
      goes down and its place is erased; the timer reads the clock, and then scans. */
  datatype Action =
    | Clock(to: int)
    | Arrive(t: Tid)
    | Append(thread: Tid, id: nat)
    | Disconnect(at: nat)
    | ReadTimer
    | Timer

  predicate Enabled(s: State, a: Action) {
    match a
    case Clock(_) => true
    case Arrive(t) => t !in s.busy
    case Append(t, _) => t in s.busy && s.busy[t].Arrival?
    case Disconnect(at) => at < |s.list|
    case ReadTimer => BASE !in s.busy
    case Timer => BASE in s.busy && s.busy[BASE].Scanning?
  }

  function Next(s: State, a: Action, idleSeconds: nat): State
    requires Enabled(s, a)
  {
    match a
    case Clock(to) => s.(now := to)
    case Arrive(t) => s.(busy := s.busy[t := Arrival(s.now)])
    case Append(t, id) => s.(list := s.list + [Conn(id, true, true, s.busy[t].read)], busy := s.busy - {t})
    case Disconnect(at) => s.(list := s.list[..at] + s.list[at + 1..])
    case ReadTimer => s.(busy := s.busy[BASE := Scanning(s.now)])
    case Timer =>
      var e := EarlyScan(s.list, s.busy[BASE].read, idleSeconds);
      s.(list := e.list, closed := s.closed + e.closed, busy := s.busy - {BASE})
  }

  function After(start: int, acts: seq<Action>, idleSeconds: nat): State {
    if acts == [] then State(start, [], [], map[])
    else
      var t := After(start, acts[..|acts| - 1], idleSeconds);
      if Enabled(t, acts[|acts| - 1]) then Next(t, acts[|acts| - 1], idleSeconds) else t
  }

  /** The clock never goes back along the run. */
  ghost predicate Forward(start: int, acts: seq<Action>, idleSeconds: nat) {
    forall i :: 0 <= i < |acts| ==> StepForward(start, acts, i, idleSeconds)
  }

  ghost predicate StepForward(start: int, acts: seq<Action>, i: nat, idleSeconds: nat)
    requires i < |acts|
  {
    acts[i].Clock? ==> After(start, acts[..i], idleSeconds).now <= acts[i].to
  }

  /** All connections are served by one thread. */
  ghost predicate ServedBy(acts: seq<Action>, u: Tid) {
    forall i :: 0 <= i < |acts| && acts[i].Arrive? ==> acts[i].t == u
  }

  /** Places are in order of time, none later than `latest`, none dead. */
  ghost predicate InOrder(list: seq<Conn>, latest: int) {
    && (forall i :: 0 <= i < |list| ==> list[i].alive && list[i].last <= latest)
    && (forall i, j :: 0 <= i < j < |list| ==> list[i].last <= list[j].last)
  }

  /** One thread serves the connections: the list is in order, and no later than the time that thread has
      read, nor, when it also runs the timer, than the time of the scan. */
  ghost predicate Orderly(s: State, u: Tid) {
    && InOrder(s.list, s.now)
    && (forall t :: t in s.busy ==> s.busy[t].read <= s.now && (s.busy[t].Arrival? ==> t == u))
    && (u in s.busy ==> InOrder(s.list, s.busy[u].read))
  }

  lemma InOrderIsQuiet(list: seq<Conn>, now: int, idleSeconds: nat)
    requires InOrder(list, now)
    ensures QuietBehind(list, now, idleSeconds)
  {
  }

  /** A scan of a list in order keeps every place; it only sets back times later than its own. */
  lemma {:induction false} ScanKeepsOrder(list: seq<Conn>, latest: int, now: int, idleSeconds: nat)
    requires InOrder(list, latest)
    ensures var e := EarlyScan(list, now, idleSeconds).list;
      && |e| == |list| && InOrder(e, latest)
      && forall i :: 0 <= i < |e| ==> e[i].last == list[i].last || e[i].last == now < list[i].last
    decreases |list|
  {
    if list != [] && !Stops(list[0], now, idleSeconds) {
      var rest := list[1..];
      assert list == [list[0]] + rest && forall i :: 0 <= i < |rest| ==> rest[i] == list[i + 1];
      ScanKeepsOrder(rest, latest, now, idleSeconds);
      HandledInOrder(list, EarlyScan(rest, now, idleSeconds).list, latest, now, idleSeconds);
    }
  }

  lemma HandledInOrder(list: seq<Conn>, e: seq<Conn>, latest: int, now: int, idleSeconds: nat)
    requires InOrder(list, latest) && InOrder(e, latest) && list != [] && |e| == |list| - 1
    requires !Stops(list[0], now, idleSeconds)
    requires forall i :: 0 <= i < |e| ==> e[i].last == list[i + 1].last || e[i].last == now < list[i + 1].last
    ensures var h := Handle(list[0], now, idleSeconds).list; |h| == 1 && InOrder(h + e, latest)
  {
  }

  lemma InOrderSnoc(list: seq<Conn>, c: Conn, latest: int)
    requires InOrder(list, c.last) && c.alive && c.last <= latest
    ensures InOrder(list + [c], latest)
  {
  }

  lemma InOrderErase(list: seq<Conn>, at: nat, latest: int)
    requires InOrder(list, latest) && at < |list|
    ensures InOrder(list[..at] + list[at + 1..], latest)
  {
  }

  lemma ScanOrderly(s: State, u: Tid, idleSeconds: nat)
    requires Orderly(s, u) && Enabled(s, Timer)
    ensures Orderly(Next(s, Timer, idleSeconds), u)
  {
    var m := s.busy[BASE].read;
    ScanKeepsOrder(s.list, s.now, m, idleSeconds);
    if u in s.busy {
      ScanKeepsOrder(s.list, s.busy[u].read, m, idleSeconds);
    }
  }

  lemma StepOrderly(s: State, u: Tid, a: Action, idleSeconds: nat)
    requires Orderly(s, u) && Enabled(s, a) && (a.Arrive? ==> a.t == u) && (a.Clock? ==> s.now <= a.to)
    ensures Orderly(Next(s, a, idleSeconds), u)
  {
    match a
    case Append(t, id) => InOrderSnoc(s.list, Conn(id, true, true, s.busy[t].read), s.now);
    case Disconnect(at) =>
      InOrderErase(s.list, at, s.now);
      if u in s.busy {
        InOrderErase(s.list, at, s.busy[u].read);
      }
    case Timer => ScanOrderly(s, u, idleSeconds);
    case _ =>
  }

  lemma {:induction false} RunOrderly(start: int, acts: seq<Action>, u: Tid, idleSeconds: nat)
    requires Forward(start, acts, idleSeconds) && ServedBy(acts, u)
    ensures Orderly(After(start, acts, idleSeconds), u)
    decreases |acts|
  {
    if acts != [] {
      var n := |acts| - 1;
      var before := acts[..n];
      forall i | 0 <= i < n ensures StepForward(start, before, i, idleSeconds) {
        assert StepForward(start, acts, i, idleSeconds) && before[..i] == acts[..i];
      }
      RunOrderly(start, before, u, idleSeconds);
      assert StepForward(start, acts, n, idleSeconds);
      if Enabled(After(start, before, idleSeconds), acts[n]) {
        StepOrderly(After(start, before, idleSeconds), u, acts[n], idleSeconds);
      }
    }
  }

  // --------------------------------------------------------- main results

  /** While the clock does not go back and the base loop serves the connections itself, the early-exit
      scan does exactly what a full scan would. */
  lemma EarlyScanIsFull(start: int, acts: seq<Action>, idleSeconds: nat)
    requires Forward(start, acts, idleSeconds) && ServedBy(acts, BASE)
    requires Enabled(After(start, acts, idleSeconds), Timer)
    ensures var s := After(start, acts, idleSeconds); var now := s.busy[BASE].read;
      EarlyScan(s.list, now, idleSeconds) == FullScan(s.list, now, idleSeconds)
  {
    RunOrderly(start, acts, BASE, idleSeconds);
    var s := After(start, acts, idleSeconds);
    InOrderIsQuiet(s.list, s.busy[BASE].read, idleSeconds);
    EarlyIsFullExactly(s.list, s.busy[BASE].read, idleSeconds);
  }

  /** A place that came after the scan had read the clock, behind one at which the scan stops. */
  ghost predicate LateBehind(list: seq<Conn>, now: int, idleSeconds: nat) {
    exists i, j :: 0 <= i < j < |list| && Stops(list[i], now, idleSeconds) && list[j].last > now
  }

  /** In a list in order, nothing behind the stop is idle: only late places make a difference. */
  lemma OrderIsEnough(list: seq<Conn>, latest: int, now: int, idleSeconds: nat)
    requires InOrder(list, latest)
    ensures QuietBehind(list, now, idleSeconds) <==> !LateBehind(list, now, idleSeconds)
  {
    if !QuietBehind(list, now, idleSeconds) {
      var i, j :| 0 <= i <= j < |list| && Stops(list[i], now, idleSeconds) && !Quiet(list[j], now, idleSeconds);
      assert i < j && list[i].last <= list[j].last;
    }
    if LateBehind(list, now, idleSeconds) {
      var i, j :| 0 <= i < j < |list| && Stops(list[i], now, idleSeconds) && list[j].last > now;
      assert !Quiet(list[j], now, idleSeconds);
    }
  }

  lemma {:induction false} NoneIdle(list: seq<Conn>, now: int, idleSeconds: nat)
    requires forall i :: 0 <= i < |list| ==> list[i].alive && !Idle(list[i], now, idleSeconds)
    ensures FullScan(list, now, idleSeconds).closed == []
    decreases |list|
  {
    if list != [] {
      NoneIdle(list[1..], now, idleSeconds);
    }
  }

  /** In a list in order, the early-exit scan closes all that is to be closed. */
  lemma {:induction false} OrderCloses(list: seq<Conn>, latest: int, now: int, idleSeconds: nat)
    requires InOrder(list, latest)
    ensures EarlyScan(list, now, idleSeconds).closed == FullScan(list, now, idleSeconds).closed
    decreases |list|
  {
    if list == [] {
    } else if Stops(list[0], now, idleSeconds) {
      NoneIdle(list, now, idleSeconds);
    } else {
      OrderCloses(list[1..], latest, now, idleSeconds);
    }
  }

  /** While the clock does not go back and one thread, whichever, serves the connections, no idle
      connection is hidden; the scans differ exactly when a place came after the scan had read the
      clock, behind its stop. */
  lemma OneThreadHidesNone(start: int, acts: seq<Action>, u: Tid, idleSeconds: nat)
    requires Forward(start, acts, idleSeconds) && ServedBy(acts, u)
    requires Enabled(After(start, acts, idleSeconds), Timer)
    ensures var s := After(start, acts, idleSeconds); var now := s.busy[BASE].read;
      && EarlyScan(s.list, now, idleSeconds).closed == FullScan(s.list, now, idleSeconds).closed
      && (EarlyScan(s.list, now, idleSeconds) == FullScan(s.list, now, idleSeconds) <==>
          !LateBehind(s.list, now, idleSeconds))
  {
    RunOrderly(start, acts, u, idleSeconds);
    var s := After(start, acts, idleSeconds);
    OrderCloses(s.list, s.now, s.busy[BASE].read, idleSeconds);
    OrderIsEnough(s.list, s.now, s.busy[BASE].read, idleSeconds);
    EarlyIsFullExactly(s.list, s.busy[BASE].read, idleSeconds);
  }

  // --------------------------------------------------- runs where one hides

  lemma OneMore(start: int, acts: seq<Action>, a: Action, idleSeconds: nat)
    ensures var t := After(start, acts, idleSeconds);
      After(start, acts + [a], idleSeconds) == if Enabled(t, a) then Next(t, a, idleSeconds) else t
  {
    assert (acts + [a])[..|acts|] == acts;
  }

  /** An idle connection that a full scan would close and the early-exit scan does not reach. */
  ghost predicate Hides(s: State, idleSeconds: nat) {
    && Enabled(s, Timer)
    && var now := s.busy[BASE].read;
    EarlyScan(s.list, now, idleSeconds).closed == [] && FullScan(s.list, now, idleSeconds).closed == [2]
  }

  lemma TwoPlaces(one: Conn, two: Conn, now: int, idleSeconds: nat)
    requires Stops(one, now, idleSeconds) && one.connected && two.alive && two.connected && Idle(two, now, idleSeconds)
    ensures EarlyScan([one, two], now, idleSeconds).closed == []
    ensures FullScan([one, two], now, idleSeconds).closed == [two.id]
  {
    assert [one, two][1..] == [two] && [two][1..] == [];
    assert FullScan([two], now, idleSeconds).closed == [two.id] + [];
  }

  lemma ForwardMore(start: int, acts: seq<Action>, a: Action, idleSeconds: nat)
    requires Forward(start, acts, idleSeconds)
    requires a.Clock? ==> After(start, acts, idleSeconds).now <= a.to
    ensures Forward(start, acts + [a], idleSeconds)
  {
    var more := acts + [a];
    forall i | 0 <= i < |more| ensures StepForward(start, more, i, idleSeconds) {
      if i < |acts| {
        assert StepForward(start, acts, i, idleSeconds) && more[..i] == acts[..i];
      } else {
        assert more[..i] == acts;
      }
    }
  }

  /** One more step, of a clock that goes forward. */
  lemma Grown(start: int, acts: seq<Action>, a: Action, idleSeconds: nat) returns (more: seq<Action>)
    requires Forward(start, acts, idleSeconds) && Enabled(After(start, acts, idleSeconds), a)
    requires a.Clock? ==> After(start, acts, idleSeconds).now <= a.to
    ensures Forward(start, more, idleSeconds)
    ensures After(start, more, idleSeconds) == Next(After(start, acts, idleSeconds), a, idleSeconds)
  {
    more := acts + [a];
    OneMore(start, acts, a, idleSeconds);
    ForwardMore(start, acts, a, idleSeconds);
  }

  /** With two threads that serve connections, which is the default, one can be overtaken between its
      reading of the clock and its append: then, though the clock never goes back, an idle connection
      hides behind a young one. */
  lemma TwoThreadsHide(idleSeconds: nat) returns (acts: seq<Action>)
    requires idleSeconds >= 1
    ensures Forward(0, acts, idleSeconds) && Hides(After(0, acts, idleSeconds), idleSeconds)
  {
    acts := Grown(0, [], Arrive(1), idleSeconds);
    acts := Grown(0, acts, Clock(MICROS), idleSeconds);
    acts := Grown(0, acts, Arrive(2), idleSeconds);
    acts := Grown(0, acts, Append(2, 1), idleSeconds);
    acts := Grown(0, acts, Append(1, 2), idleSeconds);
    var one, two := Conn(1, true, true, MICROS), Conn(2, true, true, 0);
    assert [] + [one] + [two] == [one, two];
    acts := Grown(0, acts, Clock(idleSeconds * MICROS + 1), idleSeconds);
    acts := Grown(0, acts, ReadTimer, idleSeconds);
    TwoPlaces(one, two, idleSeconds * MICROS + 1, idleSeconds);
  }

  /** One more step, where the base loop serves the connections. */
  lemma Served(start: int, acts: seq<Action>, a: Action, idleSeconds: nat) returns (more: seq<Action>)
    requires ServedBy(acts, BASE) && (a.Arrive? ==> a.t == BASE) && Enabled(After(start, acts, idleSeconds), a)
    ensures ServedBy(more, BASE)
    ensures After(start, more, idleSeconds) == Next(After(start, acts, idleSeconds), a, idleSeconds)
  {
    more := acts + [a];
    OneMore(start, acts, a, idleSeconds);
  }

  /** With one thread it takes a clock that goes back. */
  lemma BackwardClockHides(idleSeconds: nat) returns (acts: seq<Action>)
    requires idleSeconds >= 1
    ensures ServedBy(acts, BASE) && Hides(After(0, acts, idleSeconds), idleSeconds)
  {
    acts := Served(0, [], Clock(MICROS), idleSeconds);
    acts := Served(0, acts, Arrive(BASE), idleSeconds);
    acts := Served(0, acts, Append(BASE, 1), idleSeconds);
    var one, two := Conn(1, true, true, MICROS), Conn(2, true, true, 0);
    assert After(0, acts, idleSeconds).list == [one];
    acts := Served(0, acts, Clock(0), idleSeconds);
    acts := Served(0, acts, Arrive(BASE), idleSeconds);
    acts := Served(0, acts, Append(BASE, 2), idleSeconds);
    assert After(0, acts, idleSeconds).list == [one, two];
    acts := Served(0, acts, Clock(idleSeconds * MICROS + 1), idleSeconds);
    acts := Served(0, acts, ReadTimer, idleSeconds);
    TwoPlaces(one, two, idleSeconds * MICROS + 1, idleSeconds);
  }

  // -------------------------------------------------------------- the code

  class UCenter {
    const idleSeconds: nat
    var connectionList: seq<Conn>
    var closed: seq<nat>

    constructor (idleSeconds: nat)
      ensures this.idleSeconds == idleSeconds && connectionList == [] && closed == []
    {
      this.idleSeconds := idleSeconds;
      connectionList, closed := [], [];
    }

    method OnTimer(now: int)
      modifies this`connectionList, this`closed
      ensures var e := EarlyScan(old(connectionList), now, idleSeconds);
        connectionList == e.list && closed == old(closed) + e.closed
    {
      var i := 0;
      ghost var whole := EarlyScan(connectionList, now, idleSeconds);
      ghost var done, rest, before := Scan([], []), connectionList, closed;
      while i < |connectionList|
        invariant i == |done.list| && connectionList == done.list + rest && closed == before + done.closed
        invariant whole == Both(done, EarlyScan(rest, now, idleSeconds))
        decreases |rest|
      {
        var conn := connectionList[i];
        assert conn == rest[0];
        if conn.alive && 0 <= now - conn.last <= idleSeconds * MICROS {
          break;
        }
        Regroup(done, Handle(conn, now, idleSeconds), EarlyScan(rest[1..], now, idleSeconds));
        ghost var next := Both(done, Handle(conn, now, idleSeconds));
        i := Visit(i, now);
        done, rest := next, rest[1..];
      }
      assert EarlyScan(rest, now, idleSeconds) == Scan(rest, []);
    }

    /** Deals with one place and moves on. */
    method Visit(i: nat, now: int) returns (j: nat)
      requires i < |connectionList| && !Stops(connectionList[i], now, idleSeconds)
      modifies this`connectionList, this`closed
      ensures var h := Handle(old(connectionList)[i], now, idleSeconds);
        && connectionList == old(connectionList)[..i] + h.list + old(connectionList)[i + 1..]
        && closed == old(closed) + h.closed && j == i + |h.list|
    {
      var conn := connectionList[i];
      j := i + 1;
      if conn.alive {
        var age := now - conn.last;
        if age > idleSeconds * MICROS {
          if conn.connected {
            connectionList := connectionList[i := conn.(connected := false)];
            closed := closed + [conn.id];
          }
        } else if age < 0 {
          connectionList := connectionList[i := conn.(last := now)];
        }
      } else {
        connectionList := connectionList[..i] + connectionList[i + 1..];
        j := i;
      }
    }
  }

  lemma Regroup(a: Scan, b: Scan, c: Scan)
    ensures Both(a, Both(b, c)) == Both(Both(a, b), c)
  {
    assert a.list + (b.list + c.list) == (a.list + b.list) + c.list;
    assert a.closed + (b.closed + c.closed) == (a.closed + b.closed) + c.closed;
  }
}
