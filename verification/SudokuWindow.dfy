/** How far back the slots of the statistics reach: nothing of the last minute is missing but what came late. */
module SudokuWindow {
  import opened SudokuStat

  /** Response `i` is good, and no earlier good one since the reset is of a later second. */
  ghost predicate Newest(log: seq<Response>, i: nat)
    requires i < |log|
  {
    Good(log[i]) && forall k :: 0 <= k < i && Good(log[k]) ==> log[k].second <= log[i].second
  }

  /** The last slot is for the newest second there was; every response that was the newest when it was
      given has its slot for a minute. */
  ghost predicate Covered(s: State, log: seq<Response>) {
    && (forall i :: 0 <= i < |log| ==> Reached(s, log, i))
    && (forall i :: 0 <= i < |log| && Good(log[i]) ==> 0 < log[i].second <= s.lastSecond)
    && (s.lastSecond > 0 ==> First(s) <= s.lastSecond && SomeAt(log, s.lastSecond))
    && s.lastSecond >= 0
  }

  ghost predicate Reached(s: State, log: seq<Response>, i: nat)
    requires i < |log|
  {
    Newest(log, i) && log[i].second > s.lastSecond - 60 ==> First(s) <= log[i].second
  }

  ghost predicate SomeAt(log: seq<Response>, second: int) {
    exists i :: 0 <= i < |log| && Good(log[i]) && log[i].second == second
  }

  lemma {:induction false} ZerosLength(s: seq<int>, k: nat)
    ensures |PushZeros(s, k)| == if |s| + k <= 60 || k == 0 then |s| + k else if |s| > 60 then |s| else 60
  {
    if k > 0 {
      ZerosLength(s, k - 1);
    }
  }

  /** Where the slots begin and end after a good response. */
  lemma RecordReach(s: State, r: Response)
    requires Good(r) && r.second > 0 && s.lastSecond >= 0 && |s.requests| <= 60
    requires s.lastSecond > 0 ==> First(s) <= s.lastSecond
    requires s.lastSecond == 0 ==> s.requests == []
    ensures var s' := Record(s, r);
      if r.second <= s.lastSecond then s'.lastSecond == s.lastSecond && First(s') == First(s)
      else
        && s'.lastSecond == r.second && First(s') <= r.second
        && (s.lastSecond > 0 && r.second < s.lastSecond + 60 ==> First(s') <= First(s) || First(s') == r.second - 59)
  {
    if s.lastSecond < r.second < s.lastSecond + 60 {
      ZerosLength(s.requests, r.second - s.lastSecond);
    }
  }

  lemma RecordCovers(s: State, log: seq<Response>, r: Response)
    requires Covered(s, log) && r.second > 0 && |s.requests| <= 60 && (s.lastSecond == 0 ==> s.requests == [])
    ensures Covered(Record(s, r), log + [r])
  {
    var s', log' := Record(s, r), log + [r];
    if Good(r) {
      RecordReach(s, r);
    }
    forall i | 0 <= i < |log'| ensures Reached(s', log', i) {
      if i < |log| {
        assert Reached(s, log, i);
        assert Newest(log', i) ==> Newest(log, i) by {
          assert forall k :: 0 <= k < i ==> log'[k] == log[k];
        }
      } else if Good(r) && r.second < s.lastSecond {
        var k :| 0 <= k < |log| && Good(log[k]) && log[k].second == s.lastSecond;
        assert log'[k] == log[k];
      }
    }
    if s'.lastSecond > 0 {
      if Good(r) && r.second > s.lastSecond {
        assert log'[|log|] == r;
      } else {
        var k :| 0 <= k < |log| && Good(log[k]) && log[k].second == s.lastSecond;
        assert log'[k] == log[k];
      }
      assert SomeAt(log', s'.lastSecond);
    }
  }

  lemma {:induction false} RunCovers(acts: seq<Action>)
    requires AllEnabled(acts)
    ensures Covered(After(acts), LogOf(acts))
    decreases |acts|
  {
    if acts != [] {
      var before, a := acts[..|acts| - 1], acts[|acts| - 1];
      RunCovers(before);
      if a.Respond? {
        RunKeeps(before);
        RecordCovers(After(before), LogOf(before), a.r);
      } else if !a.Reset? {
        var s, s', log := After(before), After(acts), LogOf(before);
        assert forall i :: 0 <= i < |log| ==> Reached(s, log, i);
        assert forall i :: 0 <= i < |log| && Reached(s, log, i) ==> Reached(s', log, i);
      }
    }
  }

  /** In every run, the last slot is for the newest second of the good responses since the reset, and each
      good response of the last sixty seconds that was not given late is in the window, however the clock
      jumped in between. */
  lemma LastMinuteIsThere(acts: seq<Action>, i: nat)
    requires AllEnabled(acts) && i < |LogOf(acts)| && Good(LogOf(acts)[i])
    ensures var s, log := After(acts), LogOf(acts);
      && log[i].second <= s.lastSecond && SomeAt(log, s.lastSecond)
      && (Newest(log, i) && log[i].second > s.lastSecond - 60 ==> First(s) <= log[i].second)
  {
    RunCovers(acts);
    assert Reached(After(acts), LogOf(acts), i);
  }
}
