/** The two pollers.  Both keep the kernel's view in step with the channels' interest masks: the
    events a descriptor is watched for are those of its channel's mask. */
module Pollers {

  class Channel {
    const fd: int
    var events: int
    var revents: int
    var index: int

    constructor (fd: int)
      requires 0 <= fd
      ensures this.fd == fd && events == 0 && index == -1
    {
      this.fd := fd;
      events, revents, index := 0, 0, -1;
    }
  }

  datatype PollFd = PollFd(fd: int, events: int, revents: int)

  /** What is asked of a poller: to take note of a channel's mask, or to forget a channel. */
  datatype Op = Update(fd: int, events: int) | Remove(fd: int)

  /** What a registered descriptor has come to: its mask, and whether poll(2) is to ignore it. */
  datatype Entry = Entry(mask: int, ignored: bool)

  type Entries = map<int, Entry>

  /** What the pollers assert of their callers: only a channel with an empty mask is removed, and
      not before an update has marked it to be ignored, which its first one does not do. */
  predicate Allowed(s: Entries, op: Op) {
    match op
    case Update(fd, _) => 0 <= fd
    case Remove(fd) => fd in s && s[fd] == Entry(0, true)
  }

  function Next(s: Entries, op: Op): Entries {
    match op
    case Update(fd, events) => s[fd := Entry(events, fd in s && events == 0)]
    case Remove(fd) => s - {fd}
  }

  function After(ops: seq<Op>): Entries {
    if ops == [] then map[] else Next(After(ops[..|ops| - 1]), ops[|ops| - 1])
  }

  ghost predicate AllAllowed(ops: seq<Op>) {
    forall i {:trigger ops[i]} :: 0 <= i < |ops| ==> Allowed(After(ops[..i]), ops[i])
  }

  /** The descriptor behind an entry: entries to be ignored hold -fd-1. */
  function Decoded(fd: int): int {
    if fd < 0 then -fd - 1 else fd
  }

  class PollPoller {
    var pollfds: seq<PollFd>
    var channels: map<int, Channel>

    /** Entry `i` belongs to the channel that says so, and has its mask unless that channel
        is the one being updated. */
    ghost predicate EntryOk(i: int, updating: set<Channel>)
      reads this, channels.Values
    {
      && 0 <= i < |pollfds|
      && var fd := Decoded(pollfds[i].fd);
        && fd in channels && channels[fd].index == i
        && (channels[fd] !in updating ==>
              pollfds[i].events == channels[fd].events && (pollfds[i].fd < 0 ==> channels[fd].events == 0))
    }

    ghost predicate ChannelOk(fd: int)
      reads this, channels.Values
    {
      && 0 <= fd && fd in channels && channels[fd].fd == fd
      && 0 <= channels[fd].index < |pollfds| && Decoded(pollfds[channels[fd].index].fd) == fd
    }

    ghost predicate ValidExcept(updating: set<Channel>)
      reads this, channels.Values
    {
      && (forall i {:trigger pollfds[i]} :: 0 <= i < |pollfds| ==> EntryOk(i, updating))
      && (forall fd {:trigger channels[fd]} :: fd in channels ==> ChannelOk(fd))
    }

    ghost predicate Valid()
      reads this, channels.Values
    {
      ValidExcept({})
    }

    /** The entry of `fd` is marked to be ignored. */
    ghost predicate Ignored(fd: int)
      requires fd in channels
      reads this, channels.Values
    {
      0 <= channels[fd].index < |pollfds| && pollfds[channels[fd].index].fd < 0
    }

    /** The kernel watches `fd` for `events`: poll(2) skips negative descriptors. */
    ghost predicate Watches(fd: int, events: int)
      reads this
    {
      0 <= fd && events != 0 && exists i :: 0 <= i < |pollfds| && pollfds[i].fd == fd && pollfds[i].events == events
    }

    constructor ()
      ensures Valid() && channels == map[] && forall fd, e :: !Watches(fd, e)
    {
      pollfds, channels := [], map[];
    }

    /** The kernel's view is the channels' masks. */
    lemma WatchesIs(fd: int, e: int, updating: set<Channel>)
      requires ValidExcept(updating) && (fd in channels ==> channels[fd] !in updating)
      ensures Watches(fd, e) <==> fd in channels && channels[fd].events == e && e != 0
    {
      if Watches(fd, e) {
        var i :| 0 <= i < |pollfds| && pollfds[i].fd == fd && pollfds[i].events == e;
        assert EntryOk(i, updating);
      }
      if fd in channels && channels[fd].events == e && e != 0 {
        assert ChannelOk(fd);
        assert EntryOk(channels[fd].index, updating);
      }
    }

    /** Registers the channel, or brings its entry up to date with its mask. */
    method UpdateChannel(channel: Channel)
      requires ValidExcept({channel}) && 0 <= channel.fd
      requires channel.index < 0 ==> channel.fd !in channels
      requires channel.index >= 0 ==> channel.fd in channels && channels[channel.fd] == channel
      modifies this, channel`index
      ensures Valid()
      ensures channels == old(channels)[channel.fd := channel]
      ensures old(channel.index) >= 0 ==> channel.index == old(channel.index)
      ensures Ignored(channel.fd) <==> old(channel.index) >= 0 && channel.events == 0
      ensures forall fd :: fd in old(channels) && fd != channel.fd ==> (Ignored(fd) <==> old(Ignored(fd)))
      ensures forall fd, e :: Watches(fd, e) <==>
        if fd == channel.fd then e == channel.events && e != 0 else old(Watches(fd, e))
    {
      ghost var before := channels;
      forall fd, e | fd != channel.fd
        ensures Watches(fd, e) <==> fd in before && before[fd].events == e && e != 0 {
        if fd in channels {
          assert ChannelOk(fd);
        }
        WatchesIs(fd, e, {channel});
      }
      if channel.index < 0 {
        assert channel !in channels.Values by {
          forall fd | fd in channels ensures channels[fd] != channel {
            assert ChannelOk(fd);
          }
        }
        pollfds := pollfds + [PollFd(channel.fd, channel.events, 0)];
        channel.index := |pollfds| - 1;
        channels := channels[channel.fd := channel];
        forall i | 0 <= i < |pollfds| ensures EntryOk(i, {}) {
          if i < |pollfds| - 1 {
            assert old(EntryOk(i, {channel}));
          }
        }
        forall fd | fd in channels ensures ChannelOk(fd) {
          if fd != channel.fd {
            assert old(ChannelOk(fd));
          }
        }
      } else {
        assert ChannelOk(channel.fd);
        var idx := channel.index;
        assert pollfds[idx].fd == channel.fd || pollfds[idx].fd == -channel.fd - 1;
        var fd := if channel.events == 0 then -channel.fd - 1 else channel.fd;
        pollfds := pollfds[idx := PollFd(fd, channel.events, 0)];
        assert channels == old(channels)[channel.fd := channel];
        forall i | 0 <= i < |pollfds| ensures EntryOk(i, {}) {
          assert old(EntryOk(i, {channel}));
        }
        forall f | f in channels ensures ChannelOk(f) {
          assert old(ChannelOk(f));
          assert old(EntryOk(channels[f].index, {channel}));
        }
      }
      forall fd, e ensures Watches(fd, e) <==> fd in channels && channels[fd].events == e && e != 0 {
        WatchesIs(fd, e, {});
      }
    }

    /** Takes the channel out, and no other. */
    method RemoveChannel(channel: Channel)
      requires Valid() && channel.fd in channels && channels[channel.fd] == channel && channel.events == 0
      requires Ignored(channel.fd)
      modifies this, channels.Values
      ensures Valid() && channels == old(channels) - {channel.fd}
      ensures forall ch :: ch in old(channels.Values) ==> ch.events == old(ch.events)
      ensures forall fd :: fd in channels ==> (Ignored(fd) <==> old(Ignored(fd)))
      ensures forall fd, e :: Watches(fd, e) <==> old(Watches(fd, e))
    {
      ghost var before := channels;
      forall fd, e ensures Watches(fd, e) <==> fd in before && before[fd].events == e && e != 0 {
        WatchesIs(fd, e, {});
      }
      RemoveEntry(channel);
      forall fd, e ensures Watches(fd, e) <==> old(Watches(fd, e)) {
        WatchesIs(fd, e, {});
      }
    }

    /** The last entry moves into the place of the channel's. */
    method RemoveEntry(channel: Channel)
      requires Valid() && channel.fd in channels && channels[channel.fd] == channel && channel.events == 0
      requires Ignored(channel.fd)
      modifies this, channels.Values
      ensures Valid() && channels == old(channels) - {channel.fd}
      ensures forall ch :: ch in old(channels.Values) ==> ch.events == old(ch.events)
      ensures forall fd :: fd in channels ==> (Ignored(fd) <==> old(Ignored(fd)))
    {
      assert ChannelOk(channel.fd);
      assert EntryOk(channel.index, {});
      var idx := channel.index;
      assert pollfds[idx].fd == -channel.fd - 1 && pollfds[idx].events == channel.events;
      channels := channels - {channel.fd};
      if idx == |pollfds| - 1 {
        pollfds := pollfds[..|pollfds| - 1];
      } else {
        var last := |pollfds| - 1;
        assert old(EntryOk(last, {}));
        var channelAtEnd := pollfds[last].fd;
        pollfds := pollfds[idx := pollfds[last]][last := pollfds[idx]];
        if channelAtEnd < 0 {
          channelAtEnd := -channelAtEnd - 1;
        }
        channels[channelAtEnd].index := idx;
        pollfds := pollfds[..last];
      }
      forall i | 0 <= i < |pollfds| ensures EntryOk(i, {}) {
        assert old(EntryOk(i, {}));
        assert old(EntryOk(|pollfds| - 1, {}));
      }
      forall fd | fd in channels ensures ChannelOk(fd) {
        assert old(ChannelOk(fd));
        assert old(EntryOk(channels[fd].index, {}));
      }
    }

    /** The registered channels have come to what `s` says. */
    ghost predicate Agrees(s: Entries)
      reads this, channels.Values
    {
      && channels.Keys == s.Keys
      && forall fd :: fd in s ==> channels[fd].events == s[fd].mask && (Ignored(fd) <==> s[fd].ignored)
    }

    /** Does one thing asked of the poller; a descriptor that is not registered gets a new channel. */
    method Perform(op: Op, ghost s: Entries)
      requires Valid() && Agrees(s) && Allowed(s, op)
      modifies this, channels.Values
      ensures Valid() && Agrees(Next(s, op)) && fresh(channels.Values - old(channels.Values))
    {
      if op.Update? {
        var channel := ChannelFor(op.fd, op.events);
        UpdateChannel(channel);
      } else {
        assert ChannelOk(op.fd);
        RemoveChannel(channels[op.fd]);
      }
    }

    /** The channel of a descriptor with the mask that its owner has now given it. */
    method ChannelFor(fd: int, events: int) returns (channel: Channel)
      requires Valid() && 0 <= fd
      modifies channels.Values`events
      ensures ValidExcept({channel}) && channel.fd == fd && channel.events == events
      ensures fd in channels ==> channel == channels[fd] && channel.index >= 0
      ensures fd !in channels ==> fresh(channel) && channel.index < 0
      ensures forall f :: f in channels && f != fd ==> channels[f].events == old(channels[f].events)
    {
      if fd in channels {
        assert ChannelOk(fd);
        channel := channels[fd];
      } else {
        channel := new Channel(fd);
      }
      channel.events := events;
      forall i | 0 <= i < |pollfds| ensures EntryOk(i, {channel}) {
        assert old(EntryOk(i, {}));
      }
      forall f | f in channels ensures ChannelOk(f) && (f != fd ==> channels[f] != channel) {
        assert old(ChannelOk(f));
      }
    }

    /** Does everything asked of a new poller. */
    method Run(ops: seq<Op>)
      requires Valid() && channels == map[] && AllAllowed(ops)
      modifies this
      ensures Valid() && Agrees(After(ops))
      ensures forall fd, e :: Watches(fd, e) <==> fd in After(ops) && After(ops)[fd].mask == e && e != 0
    {
      var i := 0;
      ghost var s: Entries := map[];
      assert ops[..0] == [];
      while i < |ops|
        invariant 0 <= i <= |ops| && s == After(ops[..i])
        invariant fresh(channels.Values) && Valid() && Agrees(s)
      {
        assert Allowed(s, ops[i]) && ops[..i + 1][..i] == ops[..i];
        Perform(ops[i], s);
        s := Next(s, ops[i]);
        i := i + 1;
      }
      assert ops[..i] == ops;
      forall fd, e ensures Watches(fd, e) <==> fd in s && s[fd].mask == e && e != 0 {
        WatchesIs(fd, e, {});
      }
    }

    /** `active` is the channels of the marked entries in `marked`, with their events. */
    ghost predicate Collected(active: seq<Channel>, marked: seq<PollFd>, i: int)
      reads this, channels.Values
    {
      && |active| == |marked|
      && forall k :: 0 <= k < |active| ==>
           && marked[k].fd in channels && active[k] == channels[marked[k].fd]
           && active[k].revents == marked[k].revents && active[k].index < i
    }

    /** Hands the events of a marked entry to its channel. */
    method Deliver(i: int, active: seq<Channel>, ghost marked: seq<PollFd>) returns (channel: Channel)
      requires Valid() && 0 <= i < |pollfds| && pollfds[i].fd >= 0 && Collected(active, marked, i)
      modifies channels.Values`revents
      ensures Valid() && channel.fd == pollfds[i].fd && Collected(active + [channel], marked + [pollfds[i]], i + 1)
    {
      assert EntryOk(i, {});
      assert ChannelOk(pollfds[i].fd);
      channel := channels[pollfds[i].fd];
      channel.revents := pollfds[i].revents;
      forall j | 0 <= j < |pollfds| ensures EntryOk(j, {}) {
        assert old(EntryOk(j, {}));
      }
      forall fd | fd in channels ensures ChannelOk(fd) {
        assert old(ChannelOk(fd));
      }
    }

    /** Looks at one entry. */
    method FillOne(i: int, active: seq<Channel>) returns (now: seq<Channel>)
      requires Valid() && 0 <= i < |pollfds| && (pollfds[i].revents > 0 ==> pollfds[i].fd >= 0)
      requires Collected(active, Marked(pollfds[..i]), i)
      modifies channels.Values`revents
      ensures Valid() && Collected(now, Marked(pollfds[..i + 1]), i + 1)
      ensures |now| == |active| + if pollfds[i].revents > 0 then 1 else 0
    {
      MarkedStep(pollfds, i);
      now := active;
      if pollfds[i].revents > 0 {
        var channel := Deliver(i, active, Marked(pollfds[..i]));
        now := active + [channel];
      } else {
        assert Marked(pollfds[..i]) + [] == Marked(pollfds[..i]);
      }
    }

    /** Collects the channels of the entries that poll(2) marked, in entry order. */
    method FillActiveChannels(numEvents: nat) returns (active: seq<Channel>)
      requires Valid()
      requires forall i :: 0 <= i < |pollfds| && pollfds[i].revents > 0 ==> pollfds[i].fd >= 0
      requires numEvents == |Marked(pollfds)|
      modifies channels.Values`revents
      ensures Valid() && Collected(active, Marked(pollfds), |pollfds|)
    {
      active := [];
      var left := numEvents;
      var i := 0;
      assert Marked(pollfds[..0]) == [];
      while i < |pollfds| && left > 0
        invariant 0 <= i <= |pollfds| && Valid()
        invariant Collected(active, Marked(pollfds[..i]), i) && |active| == numEvents - left
      {
        if pollfds[i].revents > 0 {
          left := left - 1;
        }
        active := FillOne(i, active);
        i := i + 1;
      }
      AllMarked(pollfds, i);
    }
  }

  /** The entries that poll(2) marked. */
  function Marked(s: seq<PollFd>): (r: seq<PollFd>)
    ensures forall x :: x in r ==> x in s && x.revents > 0
  {
    if s == [] then []
    else
      var last := s[|s| - 1];
      Marked(s[..|s| - 1]) + (if last.revents > 0 then [last] else [])
  }

  lemma MarkedStep(s: seq<PollFd>, i: int)
    requires 0 <= i < |s|
    ensures Marked(s[..i + 1]) == Marked(s[..i]) + (if s[i].revents > 0 then [s[i]] else [])
  {
    assert s[..i + 1][..i] == s[..i];
  }

  lemma {:induction false} MarkedPrefix(s: seq<PollFd>, i: int)
    requires 0 <= i <= |s|
    ensures Marked(s[..i]) <= Marked(s)
    decreases |s| - i
  {
    if i < |s| {
      MarkedStep(s, i);
      MarkedPrefix(s, i + 1);
    } else {
      assert s[..i] == s;
    }
  }

  /** A scan that has seen as many marked entries as there are has seen them all. */
  lemma AllMarked(s: seq<PollFd>, i: int)
    requires 0 <= i <= |s| && (i == |s| || |Marked(s[..i])| == |Marked(s)|)
    ensures Marked(s[..i]) == Marked(s)
  {
    MarkedPrefix(s, i);
    if i == |s| {
      assert s[..i] == s;
    }
  }

  // ------------------------------------------------------------------- epoll

  const K_NEW := -1
  const K_ADDED := 1
  const K_DELETED := 2

  datatype EpollOp = CtlAdd | CtlMod | CtlDel

  class EPollPoller {
    var channels: map<int, Channel>
    /** The kernel's interest list. */
    ghost var registered: map<int, int>

    ghost predicate ChannelOk(fd: int, updating: set<Channel>)
      reads this, channels.Values
    {
      && fd in channels && channels[fd].fd == fd
      && (channels[fd].index == K_ADDED || channels[fd].index == K_DELETED)
      && (channels[fd].index == K_ADDED <==> fd in registered)
      && (channels[fd] !in updating ==>
            if fd in registered then registered[fd] == channels[fd].events else channels[fd].events == 0)
    }

    ghost predicate ValidExcept(updating: set<Channel>)
      reads this, channels.Values
    {
      && (forall fd {:trigger channels[fd]} :: fd in channels ==> ChannelOk(fd, updating))
      && (forall fd :: fd in registered ==> fd in channels)
    }

    ghost predicate Valid()
      reads this, channels.Values
    {
      ValidExcept({})
    }

    ghost predicate Watches(fd: int, events: int)
      reads this
    {
      fd in registered && registered[fd] == events && events != 0
    }

    constructor ()
      ensures Valid() && channels == map[] && forall fd, e :: !Watches(fd, e)
    {
      channels, registered := map[], map[];
    }

    /** epoll_ctl: adding needs a descriptor that is not in the list, the others one that is. */
    method Control(op: EpollOp, channel: Channel)
      requires op == CtlAdd <==> channel.fd !in registered
      modifies this`registered
      ensures registered == if op == CtlDel then old(registered) - {channel.fd}
                            else old(registered)[channel.fd := channel.events]
    {
      if op == CtlDel {
        registered := registered - {channel.fd};
      } else {
        registered := registered[channel.fd := channel.events];
      }
    }

    method UpdateChannel(channel: Channel)
      requires ValidExcept({channel})
      requires channel.index == K_NEW ==> channel.fd !in channels
      requires channel.index != K_NEW ==> channel.fd in channels && channels[channel.fd] == channel
      modifies this, channel`index
      ensures Valid()
      ensures channels == old(channels)[channel.fd := channel]
      ensures forall fd, e :: Watches(fd, e) <==>
        if fd == channel.fd then e == channel.events && e != 0 else old(Watches(fd, e))
    {
      var index := channel.index;
      if index != K_NEW {
        assert ChannelOk(channel.fd, {channel});
      }
      if index == K_NEW || index == K_DELETED {
        if index == K_NEW {
          channels := channels[channel.fd := channel];
        }
        channel.index := K_ADDED;
        Control(CtlAdd, channel);
      } else {
        assert index == K_ADDED;
        if channel.events == 0 {
          Control(CtlDel, channel);
          channel.index := K_DELETED;
        } else {
          Control(CtlMod, channel);
        }
      }
      assert channels == old(channels)[channel.fd := channel];
      forall fd | fd in channels ensures ChannelOk(fd, {}) {
        if fd != channel.fd {
          assert old(ChannelOk(fd, {channel}));
        }
      }
    }

    method RemoveChannel(channel: Channel)
      requires Valid() && channel.fd in channels && channels[channel.fd] == channel && channel.events == 0
      modifies this, channel`index
      ensures Valid() && channels == old(channels) - {channel.fd} && channel.index == K_NEW
      ensures forall fd, e :: Watches(fd, e) <==> old(Watches(fd, e))
    {
      assert ChannelOk(channel.fd, {});
      var index := channel.index;
      channels := channels - {channel.fd};
      if index == K_ADDED {
        Control(CtlDel, channel);
      }
      channel.index := K_NEW;
      forall fd | fd in channels ensures ChannelOk(fd, {}) {
        assert old(ChannelOk(fd, {}));
      }
    }

    ghost predicate Agrees(s: Entries)
      reads this, channels.Values
    {
      channels.Keys == s.Keys && forall fd :: fd in s ==> channels[fd].events == s[fd].mask
    }

    method Perform(op: Op, ghost s: Entries)
      requires Valid() && Agrees(s) && Allowed(s, op)
      modifies this, channels.Values
      ensures Valid() && Agrees(Next(s, op)) && fresh(channels.Values - old(channels.Values))
    {
      if op.Update? {
        var channel := ChannelFor(op.fd, op.events);
        UpdateChannel(channel);
      } else {
        RemoveChannel(channels[op.fd]);
      }
    }

    /** The channel of a descriptor with the mask that its owner has now given it. */
    method ChannelFor(fd: int, events: int) returns (channel: Channel)
      requires Valid() && 0 <= fd
      modifies channels.Values`events
      ensures ValidExcept({channel}) && channel.fd == fd && channel.events == events
      ensures fd in channels ==> channel == channels[fd] && channel.index != K_NEW
      ensures fd !in channels ==> fresh(channel) && channel.index == K_NEW
      ensures forall f :: f in channels && f != fd ==> channels[f].events == old(channels[f].events)
    {
      if fd in channels {
        assert ChannelOk(fd, {});
        channel := channels[fd];
      } else {
        channel := new Channel(fd);
      }
      channel.events := events;
      forall f | f in channels ensures ChannelOk(f, {channel}) && (f != fd ==> channels[f] != channel) {
        assert old(ChannelOk(f, {}));
      }
    }

    lemma WatchesIs(fd: int, e: int)
      requires Valid()
      ensures Watches(fd, e) <==> fd in channels && channels[fd].events == e && e != 0
    {
      if fd in channels {
        assert ChannelOk(fd, {});
      }
    }

    /** Does everything asked of a new poller. */
    method Run(ops: seq<Op>)
      requires Valid() && channels == map[] && AllAllowed(ops)
      modifies this
      ensures Valid() && Agrees(After(ops))
      ensures forall fd, e :: Watches(fd, e) <==> fd in After(ops) && After(ops)[fd].mask == e && e != 0
    {
      var i := 0;
      ghost var s: Entries := map[];
      assert ops[..0] == [];
      while i < |ops|
        invariant 0 <= i <= |ops| && s == After(ops[..i])
        invariant fresh(channels.Values) && Valid() && Agrees(s)
      {
        assert Allowed(s, ops[i]) && ops[..i + 1][..i] == ops[..i];
        Perform(ops[i], s);
        s := Next(s, ops[i]);
        i := i + 1;
      }
      assert ops[..i] == ops;
      forall fd, e ensures Watches(fd, e) <==> fd in s && s[fd].mask == e && e != 0 {
        WatchesIs(fd, e);
      }
    }
  }

  /** Asked the same, the two pollers watch the same: after any updates and removals that they allow,
      each watches a descriptor for some events exactly when those are its mask. */
  method RunBoth(ops: seq<Op>) returns (poll: PollPoller, epoll: EPollPoller)
    requires AllAllowed(ops)
    ensures forall fd, e :: poll.Watches(fd, e) <==> fd in After(ops) && After(ops)[fd].mask == e && e != 0
    ensures forall fd, e :: epoll.Watches(fd, e) <==> poll.Watches(fd, e)
  {
    poll := new PollPoller();
    poll.Run(ops);
    epoll := new EPollPoller();
    epoll.Run(ops);
  }
}
