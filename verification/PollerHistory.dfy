/** What the pollers have been asked, read backwards: the last thing said about a descriptor counts. */
module PollerHistory {
  import opened Pollers

  predicate LastAbout(ops: seq<Op>, fd: int, i: nat)
    requires i < |ops|
  {
    ops[i].fd == fd && forall j :: i < j < |ops| ==> ops[j].fd != fd
  }

  /** A descriptor is registered exactly when the last thing asked about it was an update; its mask is the
      one of that update, and it is to be ignored exactly when that mask is empty and it was registered
      before. */
  lemma {:induction false} LastCounts(ops: seq<Op>, fd: int, i: nat)
    requires i < |ops| && LastAbout(ops, fd, i)
    ensures fd in After(ops) <==> ops[i].Update?
    ensures ops[i].Update? ==>
              After(ops)[fd] == Entry(ops[i].events, fd in After(ops[..i]) && ops[i].events == 0)
    decreases |ops|
  {
    var before, last := ops[..|ops| - 1], ops[|ops| - 1];
    if i < |before| {
      assert forall j :: i < j < |before| ==> before[j] == ops[j];
      LastCounts(before, fd, i);
      assert before[..i] == ops[..i];
    }
  }

  lemma {:induction false} NothingAbout(ops: seq<Op>, fd: int)
    requires forall i :: 0 <= i < |ops| ==> ops[i].fd != fd
    ensures fd !in After(ops)
    decreases |ops|
  {
    if ops != [] {
      NothingAbout(ops[..|ops| - 1], fd);
    }
  }

  /** So the two pollers, asked the same, watch a descriptor for some events exactly when the last thing they
      were asked about it was an update to just those, and they are not none. */
  method RunAsAsked(ops: seq<Op>) returns (poll: PollPoller, epoll: EPollPoller)
    requires AllAllowed(ops)
    ensures forall fd, e :: poll.Watches(fd, e) <==>
              e != 0 && exists i :: 0 <= i < |ops| && LastAbout(ops, fd, i) && ops[i] == Update(fd, e)
    ensures forall fd, e :: epoll.Watches(fd, e) <==> poll.Watches(fd, e)
  {
    poll, epoll := RunBoth(ops);
    forall fd, e
      ensures poll.Watches(fd, e) <==>
              e != 0 && exists i :: 0 <= i < |ops| && LastAbout(ops, fd, i) && ops[i] == Update(fd, e)
    {
      WatchedAsAsked(ops, fd, e);
    }
  }

  lemma {:induction false} SomethingAbout(ops: seq<Op>, fd: int) returns (i: nat)
    requires exists k :: 0 <= k < |ops| && ops[k].fd == fd
    ensures i < |ops| && LastAbout(ops, fd, i)
    decreases |ops|
  {
    var last := |ops| - 1;
    if ops[last].fd == fd {
      i := last;
    } else {
      var k :| 0 <= k < |ops| && ops[k].fd == fd;
      assert ops[..last][k].fd == fd;
      i := SomethingAbout(ops[..last], fd);
    }
  }

  lemma WatchedAsAsked(ops: seq<Op>, fd: int, e: int)
    ensures fd in After(ops) && After(ops)[fd].mask == e && e != 0 <==>
              e != 0 && exists i :: 0 <= i < |ops| && LastAbout(ops, fd, i) && ops[i] == Update(fd, e)
  {
    if exists k :: 0 <= k < |ops| && ops[k].fd == fd {
      var i := SomethingAbout(ops, fd);
      LastCounts(ops, fd, i);
      assert forall j :: 0 <= j < |ops| && LastAbout(ops, fd, j) ==> j == i;
    } else {
      NothingAbout(ops, fd);
    }
  }
}
