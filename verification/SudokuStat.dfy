/** Request statistics of the Sudoku server: sixty slots for the last seconds, kept in two circular
    buffers, against a plain log of every response since the last reset. */
module SudokuStat {

  const SECONDS := 60
  const MICROS := 1_000_000

  /** A response: the second it was given in, how long it took in microseconds, and whether solved. */
  datatype Response = Response(second: int, elapsed: int, solved: bool)

  datatype State = State(
    lastSecond: int,
    requests: seq<int>,
    latencies: seq<int>,
    totalRequests: int,
    totalResponses: int,
    totalSolved: int,
    badRequests: int,
    droppedRequests: int,
    totalLatency: int,
    badLatency: int)

  function Init(): State {
    State(0, [], [], 0, 0, 0, 0, 0, 0, 0)
  }

  /** A circular buffer of sixty places: the oldest gives way. */
  function Push(s: seq<int>, x: int): (r: seq<int>)
    ensures |r| == if |s| >= SECONDS then |s| else |s| + 1
    ensures r != [] && r[|r| - 1] == x
  {
    if |s| >= SECONDS then s[1..] + [x] else s + [x]
  }

  function PushZeros(s: seq<int>, k: nat): seq<int> {
    if k == 0 then s else Push(PushZeros(s, k - 1), 0)
  }

  /** The second of the oldest slot. */
  function First(s: State): int {
    s.lastSecond - |s.requests| + 1
  }

  /** The slots moved forward so that the last one is for `second`. */
  function Moved(s: State, second: int): State {
    if s.lastSecond == second then s
    else if s.lastSecond + 1 == second || s.lastSecond == 0 then
      s.(lastSecond := second, requests := Push(s.requests, 0), latencies := Push(s.latencies, 0))
    else if second > s.lastSecond then
      if second < s.lastSecond + SECONDS then
        s.(lastSecond := second,
           requests := PushZeros(s.requests, second - s.lastSecond),
           latencies := PushZeros(s.latencies, second - s.lastSecond))
      else s.(lastSecond := second, requests := [0], latencies := [0])
    else s
  }

  /** One more response in a slot. */
  function Counted(s: State, i: nat, elapsed: int): State
    requires i < |s.requests| && |s.latencies| == |s.requests|
  {
    s.(requests := s.requests[i := s.requests[i] + 1], latencies := s.latencies[i := s.latencies[i] + elapsed])
  }

  /** A good response put into its slot, or left out when its second is before the window. */
  function Placed(s: State, second: int, elapsed: int): State {
    var m := Moved(s, second);
    if First(m) <= second <= m.lastSecond && |m.latencies| == |m.requests|
    then Counted(m, second - First(m), elapsed) else m
  }

  function Tallied(s: State, solved: bool): State {
    s.(totalResponses := s.totalResponses + 1, totalSolved := s.totalSolved + if solved then 1 else 0)
  }

  /** The effect of one response on everything. */
  function Record(s: State, r: Response): State {
    var t := Tallied(s, r.solved);
    if r.elapsed < 0 then t.(badLatency := t.badLatency + 1)
    else Placed(t.(totalLatency := t.totalLatency + r.elapsed), r.second, r.elapsed)
  }

  // -------------------------------------------------------- the plain log

  predicate Good(r: Response) {
    r.elapsed >= 0
  }

  /** How many good responses the log has in a second, and how long they took together. */
  function Count(log: seq<Response>, second: int): int {
    if log == [] then 0
    else
      var r := log[|log| - 1];
      Count(log[..|log| - 1], second) + if Good(r) && r.second == second then 1 else 0
  }

  function Sum(log: seq<Response>, second: int): int {
    if log == [] then 0
    else
      var r := log[|log| - 1];
      Sum(log[..|log| - 1], second) + if Good(r) && r.second == second then r.elapsed else 0
  }

  function SolvedIn(log: seq<Response>): int {
    if log == [] then 0 else SolvedIn(log[..|log| - 1]) + if log[|log| - 1].solved then 1 else 0
  }

  function BadIn(log: seq<Response>): int {
    if log == [] then 0 else BadIn(log[..|log| - 1]) + if Good(log[|log| - 1]) then 0 else 1
  }

  function LatencyIn(log: seq<Response>): int {
    if log == [] then 0
    else LatencyIn(log[..|log| - 1]) + if Good(log[|log| - 1]) then log[|log| - 1].elapsed else 0
  }

  // ------------------------------------------------------------- invariant

  /** Slot `i` holds exactly what the log has for its second. */
  ghost predicate SlotOk(s: State, log: seq<Response>, i: int)
    requires 0 <= i < |s.requests| == |s.latencies|
  {
    s.requests[i] == Count(log, First(s) + i) && s.latencies[i] == Sum(log, First(s) + i)
  }

  ghost predicate SlotsOk(s: State, log: seq<Response>) {
    && |s.requests| == |s.latencies| <= SECONDS
    && (s.lastSecond == 0 <==> s.requests == [])
    && s.lastSecond >= 0
    && forall i :: 0 <= i < |s.requests| ==> SlotOk(s, log, i)
  }

  ghost predicate TotalsOk(s: State, log: seq<Response>) {
    && s.totalResponses == |log| && s.totalSolved == SolvedIn(log)
    && s.badLatency == BadIn(log) && s.totalLatency == LatencyIn(log)
  }

  ghost predicate NoneAfter(log: seq<Response>, second: int) {
    forall i :: 0 <= i < |log| && Good(log[i]) ==> log[i].second <= second
  }

  ghost predicate Inv(s: State, log: seq<Response>) {
    SlotsOk(s, log) && TotalsOk(s, log) && NoneAfter(log, s.lastSecond)
  }

  lemma {:induction false} NothingThere(log: seq<Response>, second: int, last: int)
    requires NoneAfter(log, last) && second > last
    ensures Count(log, second) == 0 && Sum(log, second) == 0
    decreases |log|
  {
    if log != [] {
      NothingThere(log[..|log| - 1], second, last);
    }
  }

  lemma OneMore(log: seq<Response>, r: Response, second: int)
    ensures Count(log + [r], second) == Count(log, second) + if Good(r) && r.second == second then 1 else 0
    ensures Sum(log + [r], second) == Sum(log, second) + if Good(r) && r.second == second then r.elapsed else 0
    ensures SolvedIn(log + [r]) == SolvedIn(log) + if r.solved then 1 else 0
    ensures BadIn(log + [r]) == BadIn(log) + if Good(r) then 0 else 1
    ensures LatencyIn(log + [r]) == LatencyIn(log) + if Good(r) then r.elapsed else 0
  {
    assert (log + [r])[..|log|] == log;
  }

  lemma SameSlots(s: State, s': State, log: seq<Response>)
    requires SlotsOk(s, log)
    requires s'.lastSecond == s.lastSecond && s'.requests == s.requests && s'.latencies == s.latencies
    ensures SlotsOk(s', log) && First(s') == First(s)
  {
    forall i | 0 <= i < |s'.requests| ensures SlotOk(s', log, i) {
      assert SlotOk(s, log, i);
    }
  }

  /** A new slot for the next second keeps the slots right: nothing was logged in it. */
  lemma PushKeeps(s: State, s': State, log: seq<Response>)
    requires SlotsOk(s, log) && s.lastSecond > 0 && NoneAfter(log, s.lastSecond)
    requires s'.lastSecond == s.lastSecond + 1
    requires s'.requests == Push(s.requests, 0) && s'.latencies == Push(s.latencies, 0)
    ensures SlotsOk(s', log) && NoneAfter(log, s'.lastSecond) && First(s) <= First(s')
  {
    NothingThere(log, s'.lastSecond, s.lastSecond);
    forall i | 0 <= i < |s'.requests| ensures SlotOk(s', log, i) {
      var j := First(s') + i - First(s);
      if j < |s.requests| {
        assert SlotOk(s, log, j);
      }
    }
  }

  lemma {:induction false} PushZerosKeeps(s: State, s': State, log: seq<Response>, k: nat)
    requires SlotsOk(s, log) && s.lastSecond > 0 && NoneAfter(log, s.lastSecond)
    requires s'.lastSecond == s.lastSecond + k
    requires s'.requests == PushZeros(s.requests, k) && s'.latencies == PushZeros(s.latencies, k)
    ensures SlotsOk(s', log) && NoneAfter(log, s'.lastSecond) && First(s) <= First(s')
    decreases k
  {
    if k == 0 {
      SameSlots(s, s', log);
    } else {
      var t := s'.(lastSecond := s'.lastSecond - 1,
                   requests := PushZeros(s.requests, k - 1), latencies := PushZeros(s.latencies, k - 1));
      PushZerosKeeps(s, t, log, k - 1);
      PushKeeps(t, s', log);
    }
  }

  /** Moving the slots keeps them right, and the start of the window never moves back. */
  lemma MovedKeeps(s: State, log: seq<Response>, second: int)
    requires SlotsOk(s, log) && NoneAfter(log, s.lastSecond) && second > 0
    ensures var m := Moved(s, second);
      && SlotsOk(m, log) && NoneAfter(log, m.lastSecond) && second <= m.lastSecond && m.lastSecond > 0
      && First(s) <= First(m)
  {
    var m := Moved(s, second);
    if s.lastSecond == second {
    } else if s.lastSecond == 0 {
      NothingThere(log, second, 0);
      assert SlotOk(m, log, 0);
    } else if s.lastSecond + 1 == second {
      PushKeeps(s, m, log);
    } else if second > s.lastSecond {
      if second < s.lastSecond + SECONDS {
        PushZerosKeeps(s, m, log, second - s.lastSecond);
      } else {
        NothingThere(log, second, s.lastSecond);
        assert SlotOk(m, log, 0);
      }
    }
  }

  /** One more good response, in a slot of the window. */
  lemma CountedKeeps(m: State, log: seq<Response>, r: Response)
    requires SlotsOk(m, log) && Good(r) && First(m) <= r.second <= m.lastSecond
    ensures SlotsOk(Counted(m, r.second - First(m), r.elapsed), log + [r])
  {
    var s' := Counted(m, r.second - First(m), r.elapsed);
    forall i | 0 <= i < |s'.requests| ensures SlotOk(s', log + [r], i) {
      assert SlotOk(m, log, i);
      OneMore(log, r, First(m) + i);
    }
  }

  /** One more good response, from before the window. */
  lemma LeftOutKeeps(m: State, log: seq<Response>, r: Response)
    requires SlotsOk(m, log) && r.second < First(m)
    ensures SlotsOk(m, log + [r])
  {
    forall i | 0 <= i < |m.requests| ensures SlotOk(m, log + [r], i) {
      assert SlotOk(m, log, i);
      OneMore(log, r, First(m) + i);
    }
  }

  lemma PlacedKeeps(s: State, log: seq<Response>, r: Response)
    requires SlotsOk(s, log) && NoneAfter(log, s.lastSecond) && r.second > 0 && Good(r)
    ensures var s' := Placed(s, r.second, r.elapsed);
      SlotsOk(s', log + [r]) && NoneAfter(log + [r], s'.lastSecond) && First(s) <= First(s')
  {
    var m := Moved(s, r.second);
    MovedKeeps(s, log, r.second);
    if First(m) <= r.second {
      CountedKeeps(m, log, r);
    } else {
      LeftOutKeeps(m, log, r);
    }
  }

  lemma BadKeeps(s: State, s': State, log: seq<Response>, r: Response)
    requires SlotsOk(s, log) && NoneAfter(log, s.lastSecond) && !Good(r)
    requires s'.lastSecond == s.lastSecond && s'.requests == s.requests && s'.latencies == s.latencies
    ensures SlotsOk(s', log + [r]) && NoneAfter(log + [r], s'.lastSecond)
  {
    forall i | 0 <= i < |s'.requests| ensures SlotOk(s', log + [r], i) {
      assert SlotOk(s, log, i);
      OneMore(log, r, First(s) + i);
    }
  }

  lemma RecordTotals(s: State, log: seq<Response>, r: Response)
    requires TotalsOk(s, log)
    ensures TotalsOk(Record(s, r), log + [r])
  {
    OneMore(log, r, r.second);
  }

  lemma RecordSlots(s: State, log: seq<Response>, r: Response)
    requires SlotsOk(s, log) && NoneAfter(log, s.lastSecond) && r.second > 0
    ensures var s' := Record(s, r);
      SlotsOk(s', log + [r]) && NoneAfter(log + [r], s'.lastSecond) && First(s) <= First(s')
  {
    var t := Tallied(s, r.solved);
    if Good(r) {
      var u := t.(totalLatency := t.totalLatency + r.elapsed);
      SameSlots(s, u, log);
      PlacedKeeps(u, log, r);
    } else {
      BadKeeps(s, Record(s, r), log, r);
    }
  }

  lemma RecordKeeps(s: State, log: seq<Response>, r: Response)
    requires Inv(s, log) && r.second > 0
    ensures Inv(Record(s, r), log + [r]) && First(s) <= First(Record(s, r))
  {
    RecordTotals(s, log, r);
    RecordSlots(s, log, r);
  }

  // ------------------------------------------------------------- over runs

  datatype Action = Respond(r: Response) | Request | BadRequest | DroppedRequest | Reset

  /** Only positive seconds occur: the clock is past the epoch. */
  predicate Enabled(a: Action) {
    a.Respond? ==> a.r.second > 0
  }

  function Next(s: State, a: Action): State {
    match a
    case Respond(r) => Record(s, r)
    case Request => s.(totalRequests := s.totalRequests + 1)
    case BadRequest => s.(badRequests := s.badRequests + 1)
    case DroppedRequest => s.(droppedRequests := s.droppedRequests + 1)
    case Reset => Init().(droppedRequests := s.droppedRequests)
  }

  function After(acts: seq<Action>): State {
    if acts == [] then Init() else Next(After(acts[..|acts| - 1]), acts[|acts| - 1])
  }

  /** The responses since the last reset. */
  function LogOf(acts: seq<Action>): seq<Response> {
    if acts == [] then []
    else
      match acts[|acts| - 1]
      case Respond(r) => LogOf(acts[..|acts| - 1]) + [r]
      case Reset => []
      case _ => LogOf(acts[..|acts| - 1])
  }

  ghost predicate AllEnabled(acts: seq<Action>) {
    forall i :: 0 <= i < |acts| ==> Enabled(acts[i])
  }

  lemma {:induction false} RunKeeps(acts: seq<Action>)
    requires AllEnabled(acts)
    ensures Inv(After(acts), LogOf(acts))
    decreases |acts|
  {
    if acts != [] {
      var before, a := acts[..|acts| - 1], acts[|acts| - 1];
      RunKeeps(before);
      var s, log := After(before), LogOf(before);
      if a.Respond? {
        RecordKeeps(s, log, a.r);
      } else if !a.Reset? {
        SameSlots(s, After(acts), log);
      }
    }
  }

  // --------------------------------------------------------- main results

  lemma SlotsAreLog(s: State, log: seq<Response>, second: int)
    requires SlotsOk(s, log) && NoneAfter(log, s.lastSecond)
    ensures First(s) <= second <= s.lastSecond ==>
              s.requests[second - First(s)] == Count(log, second) && s.latencies[second - First(s)] == Sum(log, second)
    ensures second > s.lastSecond ==> Count(log, second) == 0
  {
    if First(s) <= second <= s.lastSecond {
      assert SlotOk(s, log, second - First(s));
    } else if second > s.lastSecond {
      NothingThere(log, second, s.lastSecond);
    }
  }

  /** The window agrees with the log: each slot has the exact count and latency sum of all good
      responses in its second since the last reset, whatever jumps the clock made; and a second
      after the window has none. */
  lemma WindowIsLog(acts: seq<Action>, second: int)
    requires AllEnabled(acts)
    ensures var s, log := After(acts), LogOf(acts);
      && |s.requests| == |s.latencies| <= SECONDS
      && (First(s) <= second <= s.lastSecond ==>
            s.requests[second - First(s)] == Count(log, second) && s.latencies[second - First(s)] == Sum(log, second))
      && (second > s.lastSecond ==> Count(log, second) == 0)
  {
    RunKeeps(acts);
    SlotsAreLog(After(acts), LogOf(acts), second);
  }

  /** Between resets the start of the window never moves back. */
  lemma WindowMovesForward(acts: seq<Action>, a: Action)
    requires AllEnabled(acts) && Enabled(a) && !a.Reset?
    ensures First(After(acts)) <= First(After(acts + [a]))
  {
    RunKeeps(acts);
    assert (acts + [a])[..|acts|] == acts;
    if a.Respond? {
      RecordKeeps(After(acts), LogOf(acts), a.r);
    }
  }

  /** How many requests there were since the last reset, and how many of them bad. */
  function RequestsIn(acts: seq<Action>): int {
    if acts == [] || acts[|acts| - 1].Reset? then 0
    else RequestsIn(acts[..|acts| - 1]) + if acts[|acts| - 1].Request? then 1 else 0
  }

  function BadRequestsIn(acts: seq<Action>): int {
    if acts == [] || acts[|acts| - 1].Reset? then 0
    else BadRequestsIn(acts[..|acts| - 1]) + if acts[|acts| - 1].BadRequest? then 1 else 0
  }

  /** How many requests were dropped in the whole history. */
  function DroppedEver(acts: seq<Action>): int {
    if acts == [] then 0
    else DroppedEver(acts[..|acts| - 1]) + if acts[|acts| - 1].DroppedRequest? then 1 else 0
  }

  lemma RecordLeaves(s: State, r: Response)
    ensures var s' := Record(s, r);
      && s'.totalRequests == s.totalRequests && s'.badRequests == s.badRequests
      && s'.droppedRequests == s.droppedRequests
  {
  }

  lemma {:induction false} CountersAreHistory(acts: seq<Action>)
    ensures var s := After(acts);
      && s.totalRequests == RequestsIn(acts) && s.badRequests == BadRequestsIn(acts)
      && s.droppedRequests == DroppedEver(acts)
    decreases |acts|
  {
    if acts != [] {
      var before, a := acts[..|acts| - 1], acts[|acts| - 1];
      CountersAreHistory(before);
      if a.Respond? {
        RecordLeaves(After(before), a.r);
      }
    }
  }

  /** Every total counts what happened since the last reset, except that of the dropped requests,
      which no reset touches: it counts the whole history. */
  lemma {:induction false} TotalsAreLog(acts: seq<Action>)
    requires AllEnabled(acts)
    ensures var s := After(acts);
      && TotalsOk(s, LogOf(acts))
      && s.totalRequests == RequestsIn(acts) && s.badRequests == BadRequestsIn(acts)
      && s.droppedRequests == DroppedEver(acts)
  {
    RunKeeps(acts);
    CountersAreHistory(acts);
  }

  function Total(s: seq<int>): int {
    if s == [] then 0 else Total(s[..|s| - 1]) + s[|s| - 1]
  }

  /** The good responses in a stretch of seconds, and how long they took together. */
  function CountBetween(log: seq<Response>, lo: int, hi: int): int {
    if log == [] then 0
    else
      var r := log[|log| - 1];
      CountBetween(log[..|log| - 1], lo, hi) + if Good(r) && lo <= r.second < hi then 1 else 0
  }

  function LatencyBetween(log: seq<Response>, lo: int, hi: int): int {
    if log == [] then 0
    else
      var r := log[|log| - 1];
      LatencyBetween(log[..|log| - 1], lo, hi) + if Good(r) && lo <= r.second < hi then r.elapsed else 0
  }

  lemma {:induction false} BetweenSplit(log: seq<Response>, lo: int, hi: int)
    requires lo <= hi
    ensures CountBetween(log, lo, hi + 1) == CountBetween(log, lo, hi) + Count(log, hi)
    ensures LatencyBetween(log, lo, hi + 1) == LatencyBetween(log, lo, hi) + Sum(log, hi)
    decreases |log|
  {
    if log != [] {
      BetweenSplit(log[..|log| - 1], lo, hi);
    }
  }

  lemma {:induction false} BetweenNone(log: seq<Response>, lo: int)
    ensures CountBetween(log, lo, lo) == 0 && LatencyBetween(log, lo, lo) == 0
    decreases |log|
  {
    if log != [] {
      BetweenNone(log[..|log| - 1], lo);
    }
  }

  lemma {:induction false} TotalIsCount(s: State, log: seq<Response>, k: nat)
    requires SlotsOk(s, log) && k <= |s.requests|
    ensures Total(s.requests[..k]) == CountBetween(log, First(s), First(s) + k)
    ensures Total(s.latencies[..k]) == LatencyBetween(log, First(s), First(s) + k)
    decreases k
  {
    if k == 0 {
      BetweenNone(log, First(s));
    } else {
      TotalIsCount(s, log, k - 1);
      assert SlotOk(s, log, k - 1);
      BetweenSplit(log, First(s), First(s) + k - 1);
      assert s.requests[..k][..k - 1] == s.requests[..k - 1];
      assert s.latencies[..k][..k - 1] == s.latencies[..k - 1];
    }
  }

  lemma TotalOfWindow(s: State, log: seq<Response>)
    requires SlotsOk(s, log)
    ensures Total(s.requests) == CountBetween(log, First(s), s.lastSecond + 1)
    ensures Total(s.latencies) == LatencyBetween(log, First(s), s.lastSecond + 1)
  {
    TotalIsCount(s, log, |s.requests|);
    assert s.requests[..|s.requests|] == s.requests && s.latencies[..|s.latencies|] == s.latencies;
  }

  /** The sums and averages that a report prints. */
  datatype Figures = Figures(requests60s: int, latency60s: int, average60s: int, average: int)

  function Average(sum: int, n: int): int {
    if n == 0 then 0 else sum / n
  }

  function ReportOf(s: State): Figures {
    Figures(Total(s.requests), Total(s.latencies), Average(Total(s.latencies), Total(s.requests)),
            Average(s.totalLatency, s.totalResponses))
  }

  /** The figures of a report are those of the log: over the good responses whose second is in the
      window, and over all responses since the last reset. */
  lemma ReportIsLog(acts: seq<Action>)
    requires AllEnabled(acts)
    ensures var s, log := After(acts), LogOf(acts);
      var n := CountBetween(log, First(s), s.lastSecond + 1);
      var sum := LatencyBetween(log, First(s), s.lastSecond + 1);
      ReportOf(s) == Figures(n, sum, if n == 0 then 0 else sum / n,
                             if |log| == 0 then 0 else LatencyIn(log) / |log|)
  {
    RunKeeps(acts);
    TotalOfWindow(After(acts), LogOf(acts));
  }

  // -------------------------------------------------------------- the code

  /** Times are in microseconds; the clock is past the epoch's first second. */
  function ResponseAt(now: int, receive: int, solved: bool): (r: Response)
    ensures now >= MICROS ==> r.second > 0
  {
    Response(now / MICROS, now - receive, solved)
  }

  method SumOf(s: seq<int>) returns (sum: int)
    ensures sum == Total(s)
  {
    sum := 0;
    var i := 0;
    while i < |s|
      invariant 0 <= i <= |s| && sum == Total(s[..i])
    {
      assert s[..i + 1][..i] == s[..i];
      sum := sum + s[i];
      i := i + 1;
    }
    assert s[..i] == s;
  }

  class SudokuStat {
    var lastSecond: int
    var requests: seq<int>
    var latencies: seq<int>
    var totalRequests: int
    var totalResponses: int
    var totalSolved: int
    var badRequests: int
    var droppedRequests: int
    var totalLatency: int
    var badLatency: int

    ghost function View(): State
      reads this
    {
      State(lastSecond, requests, latencies, totalRequests, totalResponses, totalSolved, badRequests,
            droppedRequests, totalLatency, badLatency)
    }

    /** What the code asserts and relies on. */
    ghost predicate Valid()
      reads this
    {
      |requests| == |latencies| <= SECONDS && lastSecond >= 0 && (lastSecond == 0 <==> requests == [])
    }

    constructor ()
      ensures Valid() && View() == Init()
    {
      lastSecond, requests, latencies := 0, [], [];
      totalRequests, totalResponses, totalSolved, badRequests := 0, 0, 0, 0;
      droppedRequests, totalLatency, badLatency := 0, 0, 0;
    }

    method Reset()
      modifies this
      ensures Valid() && View() == Next(old(View()), Action.Reset)
    {
      lastSecond, requests, latencies := 0, [], [];
      totalRequests, totalResponses, totalSolved, badRequests := 0, 0, 0, 0;
      totalLatency, badLatency := 0, 0;
    }

    method PushBack()
      requires |requests| == |latencies|
      modifies this`requests, this`latencies
      ensures requests == Push(old(requests), 0) && latencies == Push(old(latencies), 0)
    {
      if |requests| >= SECONDS {
        requests, latencies := requests[1..] + [0], latencies[1..] + [0];
      } else {
        requests, latencies := requests + [0], latencies + [0];
      }
    }

    method RecordResponse(now: int, receive: int, solved: bool)
      requires Valid() && now >= MICROS
      modifies this
      ensures Valid() && View() == Record(old(View()), ResponseAt(now, receive, solved))
    {
      var second, elapsed := ResponseAt(now, receive, solved).second, now - receive;
      ghost var s := View();
      totalResponses := totalResponses + 1;
      if solved {
        totalSolved := totalSolved + 1;
      }
      assert View() == Tallied(s, solved);
      if elapsed < 0 {
        badLatency := badLatency + 1;
        return;
      }
      totalLatency := totalLatency + elapsed;
      assert View() == Tallied(s, solved).(totalLatency := s.totalLatency + elapsed);
      Place(second, elapsed);
    }

    /** Finds the slot of a second, moving the window when it has to. */
    method Place(second: int, elapsed: int)
      requires Valid() && second > 0
      modifies this`lastSecond, this`requests, this`latencies
      ensures Valid() && View() == Placed(old(View()), second, elapsed)
    {
      ghost var s := View();
      var firstSecond := lastSecond - |requests| + 1;
      if lastSecond == second {
        AddAt(|requests| - 1, elapsed);
      } else if lastSecond + 1 == second || lastSecond == 0 {
        lastSecond := second;
        PushBack();
        AddAt(|requests| - 1, elapsed);
      } else if second > lastSecond {
        JumpAhead(second);
        assert View() == Moved(s, second);
        AddAt(|requests| - 1, elapsed);
      } else if second >= firstSecond {
        AddAt(second - firstSecond, elapsed);
      }
    }

    method JumpAhead(second: int)
      requires Valid() && 0 < lastSecond < second - 1
      modifies this`lastSecond, this`requests, this`latencies
      ensures Valid() && lastSecond == second && requests != []
      ensures View() == Moved(old(View()), second)
    {
      if second < lastSecond + SECONDS {
        ghost var k: nat := 0;
        while lastSecond < second
          invariant lastSecond == old(lastSecond) + k <= second
          invariant requests == PushZeros(old(requests), k) && latencies == PushZeros(old(latencies), k)
          invariant |requests| == |latencies| <= SECONDS && requests != []
        {
          PushBack();
          lastSecond := lastSecond + 1;
          k := k + 1;
        }
      } else {
        requests, latencies := [], [];
        lastSecond := second;
        PushBack();
      }
    }

    method AddAt(i: nat, elapsed: int)
      requires i < |requests| == |latencies|
      modifies this`requests, this`latencies
      ensures |requests| == |latencies| == old(|requests|)
      ensures View() == Counted(old(View()), i, elapsed)
    {
      requests := requests[i := requests[i] + 1];
      latencies := latencies[i := latencies[i] + elapsed];
    }

    method RecordRequest()
      modifies this
      ensures View() == Next(old(View()), Request)
    {
      totalRequests := totalRequests + 1;
    }

    method RecordBadRequest()
      modifies this
      ensures View() == Next(old(View()), BadRequest)
    {
      badRequests := badRequests + 1;
    }

    method RecordDroppedRequest()
      modifies this
      ensures View() == Next(old(View()), DroppedRequest)
    {
      droppedRequests := droppedRequests + 1;
    }

    /** The sums and averages of the report. */
    method Report() returns (r: Figures)
      requires Valid()
      ensures r == ReportOf(View())
    {
      var requests60s := SumOf(requests);
      var latency60s := SumOf(latencies);
      var average60s := if requests60s == 0 then 0 else latency60s / requests60s;
      var average := if totalResponses == 0 then 0 else totalLatency / totalResponses;
      r := Figures(requests60s, latency60s, average60s, average);
    }
  }
}
