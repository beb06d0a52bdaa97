/** What becomes, along a run of a connection, of the sends and shutdowns that were asked for. */
module TcpHistory {
  import opened Bytes
  import opened TcpConnection

  // ------------------------------------- what was asked for, and what was taken

  /** The send that a step runs, directly or from the queue, with what write(2) returns if it is called. */
  function SendRun(s: State, a: Action): seq<(seq<Byte>, WriteResult)>
    requires Enabled(s, a)
  {
    match a
    case Send(data, res) => if s.conn == Connected then [(data, res)] else []
    case RunQueued(res) => if s.queue[0].SendOp? then [(s.queue[0].data, res)] else []
    case _ => []
  }

  /** What of it is to be sent: all, unless the connection is down or a direct write meets a fault. */
  function PayloadBy(s: State, a: Action): seq<Byte>
    requires Enabled(s, a)
  {
    var run := SendRun(s, a);
    if run == [] || s.conn == Disconnected || (!s.writing && s.output == [] && run[0].1.Fault?) then []
    else run[0].0
  }

  /** How many bytes write(2) takes in a step: of the output when there is write interest, or of a send
      in front of which there is nothing. */
  function TakenBy(s: State, a: Action): nat
    requires Enabled(s, a)
  {
    var run := SendRun(s, a);
    if a.HandleWrite? then (if s.writing && a.wres.Wrote? then a.wres.n else 0)
    else if run != [] && s.conn != Disconnected && !s.writing && s.output == [] && run[0].1.Wrote? then run[0].1.n
    else 0
  }

  /** The payloads of a run, in the order in which their sends ran. */
  function Payloads(acts: seq<Action>): seq<Byte> {
    if acts == [] then []
    else
      var s, a := After(Init(), acts[..|acts| - 1]), acts[|acts| - 1];
      Payloads(acts[..|acts| - 1]) + if Enabled(s, a) then PayloadBy(s, a) else []
  }

  /** How many bytes write(2) has taken in a run. */
  function TakenIn(acts: seq<Action>): nat {
    if acts == [] then 0
    else
      var s, a := After(Init(), acts[..|acts| - 1]), acts[|acts| - 1];
      TakenIn(acts[..|acts| - 1]) + if Enabled(s, a) then TakenBy(s, a) else 0
  }

  lemma SendAccounts(s: State, data: seq<Byte>, res: WriteResult)
    requires Possible(s, |data|, res) && s.conn != Disconnected
    ensures var t, direct := SendInLoop(s, data, res), !s.writing && s.output == [];
      && t.accepted == (if direct && res.Fault? then s.accepted else s.accepted + data)
      && |t.wire| == |s.wire| + (if direct && res.Wrote? then res.n else 0)
  {
  }

  lemma StepAccounts(s: State, a: Action)
    requires Conserved(s) && Enabled(s, a)
    ensures Next(s, a).accepted == s.accepted + PayloadBy(s, a)
    ensures |Next(s, a).wire| == |s.wire| + TakenBy(s, a)
  {
    var run := SendRun(s, a);
    if run != [] && s.conn != Disconnected {
      var s1 := if a.RunQueued? then s.(queue := s.queue[1..]) else s;
      SendAccounts(s1, run[0].0, run[0].1);
    }
    assert s.accepted + [] == s.accepted;
  }

  lemma {:induction false} RunAccounts(acts: seq<Action>)
    ensures var s := After(Init(), acts); s.accepted == Payloads(acts) && |s.wire| == TakenIn(acts)
  {
    if acts != [] {
      var before, a := acts[..|acts| - 1], acts[|acts| - 1];
      RunAccounts(before);
      RunKeeps(Init(), before);
      if Enabled(After(Init(), before), a) {
        StepAccounts(After(Init(), before), a);
      }
    }
  }

  /** Whatever the kernel and the other threads do: the payloads of all sends that ran, in order, are the
      bytes that write(2) has taken followed by the output, nothing lost, duplicated or reordered; and
      until the connection is closed the loop asks for write events exactly while it has output. */
  lemma OutputConserved(acts: seq<Action>)
    ensures var s := After(Init(), acts);
      && s.wire + s.output == Payloads(acts) && |s.wire| == TakenIn(acts)
      && (!s.closed ==> (s.writing <==> s.output != []))
      && (s.writing ==> s.output != [])
      && (s.conn == Disconnected ==> s.closed)
  {
    RunKeeps(Init(), acts);
    RunAccounts(acts);
  }

  /** What the calls from other threads queue, and what of it has run. */
  function QueuedIn(acts: seq<Action>): seq<Op> {
    if acts == [] then []
    else
      var s, a := After(Init(), acts[..|acts| - 1]), acts[|acts| - 1];
      QueuedIn(acts[..|acts| - 1]) +
      if !a.GoOn? || a.begun !in s.calls then []
      else if a.begun.SendCall? then [SendOp(a.begun.data)]
      else if a.begun.ShutdownQueues? then [ShutdownOp] else []
  }

  function RanIn(acts: seq<Action>): seq<Op> {
    if acts == [] then []
    else
      var s, a := After(Init(), acts[..|acts| - 1]), acts[|acts| - 1];
      RanIn(acts[..|acts| - 1]) + if a.RunQueued? && Enabled(s, a) then [s.queue[0]] else []
  }

  lemma QueueStep(s: State, a: Action)
    requires Enabled(s, a)
    ensures var q := Next(s, a).queue;
      if a.RunQueued? then [s.queue[0]] + q == s.queue
      else if a.GoOn? && a.begun.SendCall? then q == s.queue + [SendOp(a.begun.data)]
      else if a.GoOn? && a.begun.ShutdownQueues? then q == s.queue + [ShutdownOp]
      else q == s.queue
  {
  }

  lemma Shifted(queued: seq<Op>, ran: seq<Op>, queue: seq<Op>, more: seq<Op>, head: seq<Op>, rest: seq<Op>)
    requires queued == ran + queue && queue + more == head + rest
    ensures queued + more == ran + head + rest
  {
    assert queued + more == ran + (queue + more);
  }

  /** Everything queued by other threads runs once, in the order of the queue. */
  lemma {:induction false} QueueInOrder(acts: seq<Action>)
    ensures QueuedIn(acts) == RanIn(acts) + After(Init(), acts).queue
  {
    if acts != [] {
      var before, a := acts[..|acts| - 1], acts[|acts| - 1];
      var s := After(Init(), before);
      QueueInOrder(before);
      if Enabled(s, a) {
        QueueStep(s, a);
        var more := if a.GoOn? && a.begun.SendCall? then [SendOp(a.begun.data)]
          else if a.GoOn? && a.begun.ShutdownQueues? then [ShutdownOp] else [];
        var head := if a.RunQueued? then [s.queue[0]] else [];
        Shifted(QueuedIn(before), RanIn(before), s.queue, more, head, Next(s, a).queue);
      }
    }
  }

  /** How often a call has passed its test in a run, and how often it has gone on. */
  function Passed(acts: seq<Action>, c: Call): nat {
    if acts == [] then 0
    else
      var s, a := After(Init(), acts[..|acts| - 1]), acts[|acts| - 1];
      Passed(acts[..|acts| - 1], c) +
      if a == Begin(c) && !c.ShutdownQueues? && (s.conn == Connected || (c.CloseCall? && s.conn == Disconnecting))
      then 1 else if a == GoOn(ShutdownCall) && c == ShutdownQueues && ShutdownCall in s.calls then 1 else 0
  }

  function WentOn(acts: seq<Action>, c: Call): nat {
    if acts == [] then 0
    else
      var s, a := After(Init(), acts[..|acts| - 1]), acts[|acts| - 1];
      WentOn(acts[..|acts| - 1], c) + if a == GoOn(c) && c in s.calls then 1 else 0
  }

  lemma BeginStep(s: State, d: Call, c: Call)
    requires Enabled(s, Begin(d))
    ensures Next(s, Begin(d)).calls[c] == s.calls[c] +
            if d == c && (s.conn == Connected || (c.CloseCall? && s.conn == Disconnecting)) then 1 else 0
  {
  }

  lemma GoOnStep(s: State, d: Call, c: Call)
    requires Enabled(s, GoOn(d))
    ensures Next(s, GoOn(d)).calls[c] ==
            s.calls[c] - (if d == c then 1 else 0) + if d == ShutdownCall && c == ShutdownQueues then 1 else 0
  {
  }

  lemma OtherStep(s: State, a: Action)
    requires Enabled(s, a) && !a.Begin? && !a.GoOn?
    ensures Next(s, a).calls == s.calls
  {
  }

  /** A call from another thread goes on once for each time it has passed its test, and the queueing of a
      shutdown follows once each setting of the state. */
  lemma {:induction false} CallsGoOn(acts: seq<Action>, c: Call)
    ensures Passed(acts, c) == WentOn(acts, c) + After(Init(), acts).calls[c]
  {
    if acts != [] {
      var before, a := acts[..|acts| - 1], acts[|acts| - 1];
      CallsGoOn(before, c);
      if Enabled(After(Init(), before), a) {
        match a
        case Begin(d) => BeginStep(After(Init(), before), d, c);
        case GoOn(d) => GoOnStep(After(Init(), before), d, c);
        case _ => OtherStep(After(Init(), before), a);
      }
    }
  }

  // ----------------------------------------------------- shutdown comes about

  /** A shutdown has reached the loop thread: called there, or run from the queue. */
  predicate Reached(acts: seq<Action>) {
    acts != [] &&
    var s, a := After(Init(), acts[..|acts| - 1]), acts[|acts| - 1];
    || Reached(acts[..|acts| - 1])
    || (a == Shutdown && s.conn == Connected)
    || (a.RunQueued? && s.queue != [] && s.queue[0] == ShutdownOp)
  }

  /** Either there is output to write first, or the write side has been closed. */
  ghost predicate Closing(s: State) {
    && s.conn != Connected && s.conn != Connecting
    && (!s.closed ==> s.conn == Disconnecting && (s.output == [] ==> s.shuts >= 1))
  }

  lemma ClosingStep(s: State, a: Action)
    requires Conserved(s) && Enabled(s, a)
    requires Closing(s) || (a == Shutdown && s.conn == Connected) || (a.RunQueued? && s.queue[0] == ShutdownOp)
    ensures Closing(Next(s, a))
  {
    if a.RunQueued? {
      assert s.queue[0] in s.queue;
    }
  }

  /** After a shutdown has reached the loop, the write side is closed as soon as there is no output left,
      unless the connection is closed altogether. */
  lemma {:induction false} ShutdownCloses(acts: seq<Action>)
    requires Reached(acts)
    ensures var s := After(Init(), acts);
      s.conn != Connected && (!s.closed ==> s.conn == Disconnecting && (s.output == [] ==> s.shuts >= 1))
  {
    ReachedCloses(acts);
  }

  lemma {:induction false} ReachedCloses(acts: seq<Action>)
    requires Reached(acts)
    ensures Closing(After(Init(), acts))
  {
    var before, a := acts[..|acts| - 1], acts[|acts| - 1];
    RunKeeps(Init(), before);
    if Reached(before) {
      ReachedCloses(before);
    }
    if Enabled(After(Init(), before), a) {
      ClosingStep(After(Init(), before), a);
    }
  }
}
