/** What the scan for idle connections does to the connections, said of each place by itself. */
module IdleEffects {
  import opened IdleScan

  /** Connected, and silent for longer than allowed. */
  predicate ToClose(c: Conn, now: int, idleSeconds: nat) {
    c.alive && c.connected && now - c.last > idleSeconds * 1_000_000
  }

  /** The connections to close, in the order of their places. */
  function IdsToClose(list: seq<Conn>, now: int, idleSeconds: nat): seq<nat> {
    if list == [] then []
    else
      var front, c := list[..|list| - 1], list[|list| - 1];
      IdsToClose(front, now, idleSeconds) + if ToClose(c, now, idleSeconds) then [c.id] else []
  }

  /** A place after the scan: shut if it was to be closed, and with no time in the future. */
  function Scanned(c: Conn, now: int, idleSeconds: nat): Conn {
    c.(connected := c.connected && !ToClose(c, now, idleSeconds), last := if c.last > now then now else c.last)
  }

  lemma {:induction false} IdsFirst(list: seq<Conn>, now: int, idleSeconds: nat)
    requires list != []
    ensures IdsToClose(list, now, idleSeconds) ==
            (if ToClose(list[0], now, idleSeconds) then [list[0].id] else []) + IdsToClose(list[1..], now, idleSeconds)
    decreases |list|
  {
    var front := list[..|list| - 1];
    if front != [] {
      IdsFirst(front, now, idleSeconds);
      assert list[1..][..|list| - 2] == front[1..];
    }
  }

  /** Looking at every place closes exactly the ones to be closed, in their order. */
  lemma {:induction false} FullScanCloses(list: seq<Conn>, now: int, idleSeconds: nat)
    ensures FullScan(list, now, idleSeconds).closed == IdsToClose(list, now, idleSeconds)
    decreases |list|
  {
    if list != [] {
      FullScanCloses(list[1..], now, idleSeconds);
      IdsFirst(list, now, idleSeconds);
    }
  }

  /** And leaves a list of living connections as it should be, place by place. */
  lemma {:induction false} FullScanLeaves(list: seq<Conn>, now: int, idleSeconds: nat)
    requires forall i :: 0 <= i < |list| ==> list[i].alive
    ensures var after := FullScan(list, now, idleSeconds).list;
      |after| == |list| && forall i :: 0 <= i < |list| ==> after[i] == Scanned(list[i], now, idleSeconds)
    decreases |list|
  {
    if list != [] {
      FullScanLeaves(list[1..], now, idleSeconds);
    }
  }

  /** In every run in which the clock does not go back and the base loop serves the connections itself,
      the scan that stops early shuts exactly the connections that are silent for too long, in the order in
      which they came, and does nothing else. */
  lemma ScanShutsIdle(start: int, acts: seq<Action>, idleSeconds: nat)
    requires Forward(start, acts, idleSeconds) && ServedBy(acts, BASE)
    requires Enabled(After(start, acts, idleSeconds), Timer)
    ensures var s := After(start, acts, idleSeconds); var s', now := Next(s, Timer, idleSeconds), s.busy[BASE].read;
      && s'.closed == s.closed + IdsToClose(s.list, now, idleSeconds)
      && |s'.list| == |s.list|
      && forall i :: 0 <= i < |s.list| ==>
           s'.list[i] == s.list[i].(connected := s.list[i].connected && !ToClose(s.list[i], now, idleSeconds))
  {
    EarlyScanIsFull(start, acts, idleSeconds);
    RunOrderly(start, acts, BASE, idleSeconds);
    var s := After(start, acts, idleSeconds);
    FullScanCloses(s.list, s.busy[BASE].read, idleSeconds);
    FullScanLeaves(s.list, s.busy[BASE].read, idleSeconds);
  }
}
