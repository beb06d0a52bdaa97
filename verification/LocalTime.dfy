/** Local time from a table of transitions, in both directions, over whatever gmtime and timegm the
    system provides. */
module LocalTime {
  import C = Calendar

  const HOUR := 3600

  /** From `gmttime` on, local time is of the given type; `localtime` is that moment by the new
      local clock. */
  datatype Transition = Transition(gmttime: int, localtime: int, localtimeIdx: nat)

  datatype Localtime = Localtime(gmtOffset: int, isDst: bool)

  datatype Data = Data(transitions: seq<Transition>, localtimes: seq<Localtime>)

  /** The system's conversions between a time and its UTC fields. */
  datatype System = System(gmtime: int -> C.Tm, timegm: C.Tm -> int)

  /** A broken-down local time. */
  datatype LocalTm = LocalTm(tm: C.Tm, isDst: bool)

  /** What reading a zone file yields. */
  predicate FromFile(d: Data) {
    && d.localtimes != []
    && forall i :: 0 <= i < |d.transitions| ==>
         && d.transitions[i].localtimeIdx < |d.localtimes|
         && d.transitions[i].localtime ==
            d.transitions[i].gmttime + d.localtimes[d.transitions[i].localtimeIdx].gmtOffset
  }

  /** The time by which a search compares. */
  function Key(t: Transition, compareGmt: bool): int {
    if compareGmt then t.gmttime else t.localtime
  }

  predicate Rising(s: seq<Transition>, compareGmt: bool) {
    forall i, j :: 0 <= i < j < |s| ==> Key(s[i], compareGmt) < Key(s[j], compareGmt)
  }

  // ------------------------------------------------------------ the search

  function Half(n: nat): (h: nat)
    ensures n > 0 ==> h < n
  {
    n / 2
  }

  /** std::lower_bound by halving, over the `len` places from `lo` on. */
  function LowerFrom(s: seq<Transition>, x: int, compareGmt: bool, lo: nat, len: nat): (r: nat)
    requires lo + len <= |s|
    ensures lo <= r <= lo + len
    decreases len
  {
    if len == 0 then lo
    else
      var half := Half(len);
      if Key(s[lo + half], compareGmt) < x then LowerFrom(s, x, compareGmt, lo + half + 1, len - half - 1)
      else LowerFrom(s, x, compareGmt, lo, half)
  }

  lemma LowerTurn(s: seq<Transition>, x: int, compareGmt: bool, lo: nat, len: nat)
    requires 0 < len && lo + len <= |s|
    ensures LowerFrom(s, x, compareGmt, lo, len) ==
            var half := Half(len);
            if Key(s[lo + half], compareGmt) < x then LowerFrom(s, x, compareGmt, lo + half + 1, len - half - 1)
            else LowerFrom(s, x, compareGmt, lo, half)
  {
  }

  /** What is in front of place `r` is before the time, and what is there is not. */
  predicate Parts(s: seq<Transition>, x: int, compareGmt: bool, lo: nat, hi: nat, r: nat)
    requires lo <= r <= hi <= |s|
  {
    (r > lo ==> Key(s[r - 1], compareGmt) < x) && (r < hi ==> Key(s[r], compareGmt) >= x)
  }

  /** In any table at all, that is the place that is found. */
  lemma {:induction false} LowerFromParts(s: seq<Transition>, x: int, compareGmt: bool, lo: nat, len: nat)
    requires lo + len <= |s|
    ensures Parts(s, x, compareGmt, lo, lo + len, LowerFrom(s, x, compareGmt, lo, len))
    decreases len
  {
    if len > 0 {
      LowerTurn(s, x, compareGmt, lo, len);
      var mid := lo + Half(len);
      if Key(s[mid], compareGmt) < x {
        LowerFromParts(s, x, compareGmt, mid + 1, lo + len - mid - 1);
      } else {
        LowerFromParts(s, x, compareGmt, lo, mid - lo);
      }
    }
  }

  /** The transition that the code's search finds, for any table: before the first one it is -1. */
  function Found(s: seq<Transition>, x: int, compareGmt: bool): (i: int)
    ensures -1 <= i < |s|
  {
    if s == [] || x < Key(s[0], compareGmt) then -1
    else
      var lo := LowerFrom(s, x, compareGmt, 0, |s|);
      if lo < |s| && Key(s[lo], compareGmt) == x then lo else lo - 1
  }

  /** The last transition at or before a time, -1 when there is none. */
  predicate IsLast(s: seq<Transition>, x: int, compareGmt: bool, i: int) {
    && -1 <= i < |s|
    && (i >= 0 ==> Key(s[i], compareGmt) <= x)
    && (i + 1 < |s| ==> x < Key(s[i + 1], compareGmt))
  }

  lemma LastUnique(s: seq<Transition>, x: int, compareGmt: bool, i: int, j: int)
    requires Rising(s, compareGmt) && IsLast(s, x, compareGmt, i) && IsLast(s, x, compareGmt, j)
    ensures i == j
  {
  }

  lemma FoundIsLast(s: seq<Transition>, x: int, compareGmt: bool)
    requires Rising(s, compareGmt)
    ensures IsLast(s, x, compareGmt, Found(s, x, compareGmt))
  {
    LowerFromParts(s, x, compareGmt, 0, |s|);
  }

  /** In a table that rises, the search finds the last transition at or before the time. */
  lemma FoundIs(s: seq<Transition>, x: int, compareGmt: bool, i: int)
    requires Rising(s, compareGmt) && -1 <= i < |s|
    ensures Found(s, x, compareGmt) == i <==> IsLast(s, x, compareGmt, i)
  {
    FoundIsLast(s, x, compareGmt);
    if IsLast(s, x, compareGmt, i) {
      LastUnique(s, x, compareGmt, i, Found(s, x, compareGmt));
    }
  }

  /** The type of local time after transition `i`; before all of them it is the first in the table. */
  function Kind(d: Data, i: int): Localtime
    requires FromFile(d) && -1 <= i < |d.transitions|
  {
    if i < 0 then d.localtimes[0] else d.localtimes[d.transitions[i].localtimeIdx]
  }

  function TypeAt(d: Data, x: int, compareGmt: bool): Localtime
    requires FromFile(d)
  {
    Kind(d, Found(d.transitions, x, compareGmt))
  }

  // ------------------------------------------------------- there and back

  function ToLocal(sys: System, d: Data, t: int): LocalTm
    requires FromFile(d)
  {
    var local := TypeAt(d, t, true);
    LocalTm(sys.gmtime(t + local.gmtOffset), local.isDst)
  }

  /** Summer time is claimed, but the fields that were tried show the same hour and minute without it. */
  predicate SameButWinter(l: LocalTm, tried: LocalTm) {
    l.isDst && !tried.isDst && tried.tm.hour == l.tm.hour && tried.tm.min == l.tm.min
  }

  function FromLocal(sys: System, d: Data, l: LocalTm): int
    requires FromFile(d)
  {
    var seconds := sys.timegm(l.tm);
    var local := TypeAt(d, seconds, false);
    (if SameButWinter(l, ToLocal(sys, d, seconds - local.gmtOffset)) then seconds - HOUR else seconds)
    - local.gmtOffset
  }

  /** The clock reading of a moment is shown again after transition `i + 1`. */
  predicate RepeatsAt(d: Data, t: int, i: int)
    requires FromFile(d) && -1 <= i < |d.transitions|
  {
    i + 1 < |d.transitions| && d.transitions[i + 1].localtime <= t + Kind(d, i).gmtOffset
  }

  /** The local clock shows a time that it will show again after the next transition. */
  predicate Repeats(d: Data, t: int)
    requires FromFile(d)
  {
    RepeatsAt(d, t, Found(d.transitions, t, true))
  }

  /** The next transition ends summer time and sets the clock back by an hour. */
  predicate EndsSummer(d: Data, t: int)
    requires FromFile(d)
  {
    var i := Found(d.transitions, t, true);
    && i + 1 < |d.transitions|
    && Kind(d, i).isDst && !Kind(d, i + 1).isDst
    && Kind(d, i).gmtOffset - Kind(d, i + 1).gmtOffset == HOUR
  }

  /** Both clocks rise over the transitions, and the readings that come again after a transition are
      over before the next one. */
  predicate Calm(d: Data)
    requires FromFile(d)
  {
    && Rising(d.transitions, true) && Rising(d.transitions, false)
    && forall i :: -1 <= i < |d.transitions| - 2 ==> OverBeforeNext(d, i)
  }

  predicate OverBeforeNext(d: Data, i: int)
    requires FromFile(d) && -1 <= i < |d.transitions| - 2
  {
    && d.transitions[i + 1].gmttime + Kind(d, i).gmtOffset <= d.transitions[i + 2].localtime
    && d.transitions[i + 1].gmttime + Kind(d, i).gmtOffset <= d.transitions[i + 2].gmttime + Kind(d, i + 1).gmtOffset
  }

  lemma KindFacts(d: Data, i: int)
    requires FromFile(d) && 0 <= i < |d.transitions|
    ensures d.transitions[i].localtime == d.transitions[i].gmttime + Kind(d, i).gmtOffset
  {
  }

  lemma FirstPlace(d: Data, t: int, i: int)
    requires FromFile(d) && IsLast(d.transitions, t, true, i)
    requires RepeatsAt(d, t, i) && i + 2 < |d.transitions| ==> OverBeforeNext(d, i)
    ensures IsLast(d.transitions, t + Kind(d, i).gmtOffset, false, if RepeatsAt(d, t, i) then i + 1 else i)
  {
    if i >= 0 {
      KindFacts(d, i);
    }
  }

  /** Searching by the local clock finds the type in force, or the next one when the time repeats. */
  lemma LocalSearch(d: Data, t: int, i: int)
    requires FromFile(d) && Rising(d.transitions, false) && IsLast(d.transitions, t, true, i)
    requires RepeatsAt(d, t, i) && i + 2 < |d.transitions| ==> OverBeforeNext(d, i)
    ensures Found(d.transitions, t + Kind(d, i).gmtOffset, false) == if RepeatsAt(d, t, i) then i + 1 else i
  {
    FirstPlace(d, t, i);
    FoundIs(d.transitions, t + Kind(d, i).gmtOffset, false, if RepeatsAt(d, t, i) then i + 1 else i);
  }

  lemma SecondPlace(d: Data, t: int, i: int)
    requires FromFile(d) && IsLast(d.transitions, t, true, i) && RepeatsAt(d, t, i)
    requires i + 2 < |d.transitions| ==> OverBeforeNext(d, i)
    ensures IsLast(d.transitions, t + Kind(d, i).gmtOffset - Kind(d, i + 1).gmtOffset, true, i + 1)
    ensures Kind(d, i).gmtOffset != Kind(d, i + 1).gmtOffset
  {
    KindFacts(d, i + 1);
  }

  /** In a repeated hour, the same clock reading after the transition is in the next type. */
  lemma SecondReading(d: Data, t: int, i: int)
    requires FromFile(d) && Rising(d.transitions, true) && IsLast(d.transitions, t, true, i) && RepeatsAt(d, t, i)
    requires i + 2 < |d.transitions| ==> OverBeforeNext(d, i)
    ensures Found(d.transitions, t + Kind(d, i).gmtOffset - Kind(d, i + 1).gmtOffset, true) == i + 1
    ensures Kind(d, i).gmtOffset != Kind(d, i + 1).gmtOffset
  {
    SecondPlace(d, t, i);
    FoundIs(d.transitions, t + Kind(d, i).gmtOffset - Kind(d, i + 1).gmtOffset, true, i + 1);
  }

  /** The system's conversions undo each other. */
  ghost predicate Inverse(sys: System) {
    forall x {:trigger sys.gmtime(x)} :: sys.timegm(sys.gmtime(x)) == x
  }

  /** The type that the way back finds, by the local clock. */
  function FoundBack(d: Data, t: int): Localtime
    requires FromFile(d)
  {
    TypeAt(d, t + TypeAt(d, t, true).gmtOffset, false)
  }

  /** What a moment is shown as, in a table that rises: the fields of that many seconds later as the type of
      the last transition at or before it says, the first type of the table before all of them. */
  lemma ShownAs(sys: System, d: Data, t: int, i: int)
    requires FromFile(d) && Rising(d.transitions, true) && IsLast(d.transitions, t, true, i)
    ensures var local := d.localtimes[if i < 0 then 0 else d.transitions[i].localtimeIdx];
      ToLocal(sys, d, t) == LocalTm(sys.gmtime(t + local.gmtOffset), local.isDst)
  {
    FoundIs(d.transitions, t, true, i);
  }

  /** The code's sign that a reading in summer time is the first of two: with the type found, the
      same hour and minute is not summer time. */
  predicate TakenForFirst(sys: System, d: Data, t: int)
    requires FromFile(d)
  {
    SameButWinter(ToLocal(sys, d, t), ToLocal(sys, d, t + TypeAt(d, t, true).gmtOffset - FoundBack(d, t).gmtOffset))
  }

  /** What the way back is off by, before the correction by an hour. */
  function Lost(d: Data, t: int): int
    requires FromFile(d)
  {
    TypeAt(d, t, true).gmtOffset - FoundBack(d, t).gmtOffset
  }

  predicate ComesBack(sys: System, d: Data, t: int)
    requires FromFile(d)
  {
    Lost(d, t) == 0 || (Lost(d, t) == HOUR && TakenForFirst(sys, d, t))
  }

  /** For any table at all: a moment survives the trip through local time exactly when the way back
      finds a type of the same offset, or one an hour less of which the code's sign then holds. */
  lemma RoundTripExactly(sys: System, d: Data, t: int)
    requires FromFile(d) && Inverse(sys)
    ensures FromLocal(sys, d, ToLocal(sys, d, t)) == t <==> ComesBack(sys, d, t)
  {
    var x, l, back := t + TypeAt(d, t, true).gmtOffset, ToLocal(sys, d, t), FoundBack(d, t);
    assert sys.timegm(sys.gmtime(x)) == x;
    assert FromLocal(sys, d, l) == (if TakenForFirst(sys, d, t) then x - HOUR else x) - back.gmtOffset;
    if Lost(d, t) == 0 {
      assert ToLocal(sys, d, x - back.gmtOffset) == l;
    }
  }

  lemma ReadOnce(d: Data, t: int, i: int)
    requires FromFile(d) && i == Found(d.transitions, t, true)
    requires Found(d.transitions, t + Kind(d, i).gmtOffset, false) == i
    ensures FoundBack(d, t) == TypeAt(d, t, true)
  {
  }

  lemma ReadTwice(sys: System, d: Data, t: int, i: int)
    requires FromFile(d) && i == Found(d.transitions, t, true) && i + 1 < |d.transitions|
    requires Found(d.transitions, t + Kind(d, i).gmtOffset, false) == i + 1
    requires Found(d.transitions, t + Kind(d, i).gmtOffset - Kind(d, i + 1).gmtOffset, true) == i + 1
    ensures FoundBack(d, t) == Kind(d, i + 1)
    ensures TakenForFirst(sys, d, t) <==> Kind(d, i).isDst && !Kind(d, i + 1).isDst
  {
    var u := t + Kind(d, i).gmtOffset - Kind(d, i + 1).gmtOffset;
    assert u + Kind(d, i + 1).gmtOffset == t + Kind(d, i).gmtOffset;
    assert ToLocal(sys, d, u) == LocalTm(sys.gmtime(t + Kind(d, i).gmtOffset), Kind(d, i + 1).isDst);
  }

  /** What the searches find, on the way there and on the way back. */
  predicate Searches(d: Data, t: int, i: int)
    requires FromFile(d) && -1 <= i < |d.transitions|
  {
    && i == Found(d.transitions, t, true)
    && Found(d.transitions, t + Kind(d, i).gmtOffset, false) == (if RepeatsAt(d, t, i) then i + 1 else i)
    && (RepeatsAt(d, t, i) ==>
          && Found(d.transitions, t + Kind(d, i).gmtOffset - Kind(d, i + 1).gmtOffset, true) == i + 1
          && Kind(d, i).gmtOffset != Kind(d, i + 1).gmtOffset)
  }

  lemma CalmSearches(d: Data, t: int, i: int)
    requires FromFile(d) && Calm(d) && i == Found(d.transitions, t, true)
    ensures Searches(d, t, i)
  {
    FoundIs(d.transitions, t, true, i);
    LocalSearch(d, t, i);
    if RepeatsAt(d, t, i) {
      SecondReading(d, t, i);
    }
  }

  lemma SearchedComesBack(sys: System, d: Data, t: int, i: int)
    requires FromFile(d) && -1 <= i < |d.transitions| && Searches(d, t, i)
    ensures ComesBack(sys, d, t) <==> (Repeats(d, t) ==> EndsSummer(d, t))
  {
    if RepeatsAt(d, t, i) {
      ReadTwice(sys, d, t, i);
    } else {
      ReadOnce(d, t, i);
    }
  }

  /** In a calm table, a moment survives exactly when its local time is not going to repeat, or
      repeats because summer time ends by an hour, which the code tells apart. */
  lemma LocalRoundTrip(sys: System, d: Data, t: int)
    requires FromFile(d) && Calm(d) && Inverse(sys)
    ensures FromLocal(sys, d, ToLocal(sys, d, t)) == t <==> (Repeats(d, t) ==> EndsSummer(d, t))
  {
    var i := Found(d.transitions, t, true);
    CalmSearches(d, t, i);
    SearchedComesBack(sys, d, t, i);
    RoundTripExactly(sys, d, t);
  }

  /** A zone that sets its standard time back by an hour at the time 1000000. */
  function SetBack(): Data {
    Data([Transition(1_000_000, 1_000_000, 1)], [Localtime(HOUR, false), Localtime(0, false)])
  }

  /** Half an hour before that, the way back gives the time an hour later. */
  lemma SetBackFails(sys: System)
    requires Inverse(sys)
    ensures var d, t := SetBack(), 1_000_000 - 1800;
      && FromFile(d) && Calm(d) && Repeats(d, t) && !EndsSummer(d, t)
      && FromLocal(sys, d, ToLocal(sys, d, t)) == t + HOUR
  {
    var d, t := SetBack(), 1_000_000 - 1800;
    assert sys.timegm(sys.gmtime(t + HOUR)) == t + HOUR;
    assert Found(d.transitions, t, true) == -1;
    assert Found(d.transitions, t + HOUR, false) == 0;
  }

  /** A file whose transitions do not rise by the local clock. */
  function Crossed(): Data {
    Data([Transition(1_000_000, 1_007_200, 1), Transition(1_003_600, 1_003_600, 2)],
         [Localtime(HOUR, false), Localtime(2 * HOUR, false), Localtime(0, false)])
  }

  /** There the search by the local clock stops before the first transition, and a moment whose reading
      does not come again is lost. */
  lemma CrossedFails(sys: System)
    requires Inverse(sys)
    ensures var d, t := Crossed(), 1_004_000;
      && FromFile(d) && !Repeats(d, t)
      && FromLocal(sys, d, ToLocal(sys, d, t)) == t - HOUR
  {
    var d, t := Crossed(), 1_004_000;
    assert sys.timegm(sys.gmtime(t)) == t;
    var s := d.transitions;
    assert LowerFrom(s, t, true, 0, 2) == 2;
    assert Found(s, t, true) == 1;
    assert Found(s, t, false) == -1;
  }

  // -------------------------------------------------------------- the code

  /** std::lower_bound. */
  method LowerBound(s: seq<Transition>, x: int, compareGmt: bool) returns (lo: nat)
    ensures lo == LowerFrom(s, x, compareGmt, 0, |s|)
  {
    lo := 0;
    var len: nat := |s|;
    while len > 0
      invariant lo + len <= |s|
      invariant LowerFrom(s, x, compareGmt, lo, len) == LowerFrom(s, x, compareGmt, 0, |s|)
    {
      LowerTurn(s, x, compareGmt, lo, len);
      var half := Half(len);
      if Key(s[lo + half], compareGmt) < x {
        lo := lo + half + 1;
        len := len - half - 1;
      } else {
        len := half;
      }
    }
  }

  method FindLocaltime(d: Data, x: int, compareGmt: bool) returns (local: Localtime)
    requires FromFile(d)
    ensures local == TypeAt(d, x, compareGmt)
  {
    var s := d.transitions;
    if s == [] || x < Key(s[0], compareGmt) {
      local := d.localtimes[0];
    } else {
      var i := LowerBound(s, x, compareGmt);
      LowerFromParts(s, x, compareGmt, 0, |s|);
      if i < |s| {
        if Key(s[i], compareGmt) != x {
          assert i > 0;
          i := i - 1;
        }
        local := d.localtimes[s[i].localtimeIdx];
      } else {
        local := d.localtimes[s[|s| - 1].localtimeIdx];
      }
    }
  }

  class TimeZone {
    const data: Data
    const sys: System

    constructor (data: Data, sys: System)
      ensures this.data == data && this.sys == sys
    {
      this.data := data;
      this.sys := sys;
    }

    method ToLocalTime(seconds: int) returns (l: LocalTm)
      requires FromFile(data)
      ensures l == ToLocal(sys, data, seconds)
    {
      var local := FindLocaltime(data, seconds, true);
      l := LocalTm(sys.gmtime(seconds + local.gmtOffset), local.isDst);
    }

    method FromLocalTime(localTm: LocalTm) returns (t: int)
      requires FromFile(data)
      ensures t == FromLocal(sys, data, localTm)
    {
      var seconds := sys.timegm(localTm.tm);
      var local := FindLocaltime(data, seconds, false);
      t := seconds;
      if localTm.isDst {
        var tryTm := ToLocalTime(seconds - local.gmtOffset);
        if !tryTm.isDst && tryTm.tm.hour == localTm.tm.hour && tryTm.tm.min == localTm.tm.min {
          t := seconds - HOUR;
        }
      }
      t := t - local.gmtOffset;
    }
  }
}
