/** The output path of a connection: direct writes, the output buffer, write interest, and
    shutdown, under any results of write(2) and any calls from other threads. */
module TcpConnection {
  import opened Bytes

  datatype ConnState = Connecting | Connected | Disconnecting | Disconnected

  /** What write(2) may return; `Fault` stands for EPIPE and ECONNRESET. */
  datatype WriteResult = Wrote(n: nat) | WouldBlock | Fault | OtherError

  /** Functors queued to the loop by other threads. */
  datatype Op = SendOp(data: seq<Byte>) | ShutdownOp

  /** A call from another thread that is past its test of the state and not yet done: it will queue
      the send; it will set the state, and then queue the shutdown; it will set the state. */
  datatype Call = SendCall(data: seq<Byte>) | ShutdownCall | ShutdownQueues | CloseCall

  /** `accepted` is every payload that sendInLoop took, in order; `shuts` counts shutdownWrite; `closed`
      says that handleClose has run, whatever the state has been set to since. */
  datatype State = State(
    conn: ConnState,
    output: seq<Byte>,
    writing: bool,
    closed: bool,
    wire: seq<Byte>,
    shuts: nat,
    queue: seq<Op>,
    calls: multiset<Call>,
    accepted: seq<Byte>)

  /** The loop thread's functions are one step each: another thread can only set the state to
      Disconnecting meanwhile, which comes to the same before or after. A call from another thread
      is several: its test (`Begin`), setting the state, and queueing (`GoOn`). */
  datatype Action =
    | Establish
    | Send(data: seq<Byte>, res: WriteResult)
    | Shutdown
    | ForceClose
    | Close
    | RunQueued(qres: WriteResult)
    | HandleWrite(wres: WriteResult)
    | Begin(call: Call)
    | GoOn(begun: Call)

  function Init(): State {
    State(Connecting, [], false, false, [], 0, [], multiset{}, [])
  }

  /** The kernel takes at most what it is given, and refuses writes after shutdownWrite. */
  predicate Possible(s: State, len: nat, res: WriteResult) {
    && (res.Wrote? ==> res.n <= len)
    && (s.shuts > 0 ==> res.Fault?)
  }

  predicate Enabled(s: State, a: Action) {
    match a
    case Establish => s.conn == Connecting
    case Send(data, res) => s.conn == Connected ==> Possible(s, |data|, res)
    case RunQueued(res) => s.queue != [] && (s.queue[0].SendOp? ==> Possible(s, |s.queue[0].data|, res))
    case HandleWrite(res) => s.writing ==> Possible(s, |s.output|, res)
    case Shutdown => true
    case ForceClose => true
    case Close => s.conn == Connected || s.conn == Disconnecting
    case Begin(c) => !c.ShutdownQueues?
    case GoOn(c) => c in s.calls
  }

  function SendInLoop(s: State, data: seq<Byte>, res: WriteResult): State
    requires Possible(s, |data|, res)
  {
    if s.conn == Disconnected then s else
    var direct := !s.writing && s.output == [];
    var nwrote := if direct && res.Wrote? then res.n else 0;
    var faultError := direct && res.Fault?;
    var s1 := s.(wire := s.wire + data[..nwrote]);
    if faultError then s1
    else if |data| > nwrote then
      s1.(output := s.output + data[nwrote..], writing := true, accepted := s.accepted + data)
    else s1.(accepted := s.accepted + data)
  }

  function ShutdownInLoop(s: State): State {
    if s.writing then s else s.(shuts := s.shuts + 1)
  }

  /** The test of the state with which a call begins. */
  predicate Passes(s: State, c: Call) {
    s.conn == Connected || (c.CloseCall? && s.conn == Disconnecting)
  }

  /** The next part of a call that has passed its test. */
  function Proceed(s: State, c: Call): State {
    match c
    case SendCall(data) => s.(queue := s.queue + [SendOp(data)])
    case ShutdownCall => s.(conn := Disconnecting, calls := s.calls + multiset{ShutdownQueues})
    case ShutdownQueues => s.(queue := s.queue + [ShutdownOp])
    case CloseCall => s.(conn := Disconnecting)
  }

  function Next(s: State, a: Action): State
    requires Enabled(s, a)
  {
    match a
    case Establish => s.(conn := Connected)
    case Send(data, res) => if s.conn == Connected then SendInLoop(s, data, res) else s
    case RunQueued(res) =>
      var s1 := s.(queue := s.queue[1..]);
      (match s.queue[0]
       case SendOp(data) => SendInLoop(s1, data, res)
       case ShutdownOp => ShutdownInLoop(s1))
    case HandleWrite(res) =>
      if s.writing && res.Wrote? && res.n > 0 then
        var s1 := s.(wire := s.wire + s.output[..res.n], output := s.output[res.n..]);
        if s1.output == [] then
          var s2 := s1.(writing := false);
          if s2.conn == Disconnecting then ShutdownInLoop(s2) else s2
        else s1
      else s
    case Shutdown => if s.conn == Connected then ShutdownInLoop(s.(conn := Disconnecting)) else s
    case ForceClose => if s.conn == Connected || s.conn == Disconnecting then s.(conn := Disconnecting) else s
    case Close => s.(conn := Disconnected, writing := false, closed := true)
    case Begin(c) => if Passes(s, c) then s.(calls := s.calls + multiset{c}) else s
    case GoOn(c) => Proceed(s.(calls := s.calls - multiset{c}), c)
  }

  function After(s: State, acts: seq<Action>): (r: State) {
    if acts == [] then s
    else
      var t := After(s, acts[..|acts| - 1]);
      if Enabled(t, acts[|acts| - 1]) then Next(t, acts[|acts| - 1]) else t
  }

  // ------------------------------------------------------- over every run

  /** Shutdowns that have set the state and are still to run. */
  function Pending(s: State): nat {
    multiset(s.queue)[ShutdownOp] + s.calls[ShutdownCall] + s.calls[ShutdownQueues]
  }

  /** Bytes on the wire followed by the output buffer are exactly what was accepted, and
      write interest is on exactly when there is output, until the connection is closed. */
  ghost predicate Conserved(s: State) {
    && s.wire + s.output == s.accepted
    && (s.writing ==> s.output != [] && s.conn != Disconnected)
    && (!s.closed ==> (s.writing <==> s.output != []))
    && (s.conn == Disconnected ==> s.closed)
    && (s.shuts > 0 && !s.closed ==> s.output == [])
    && (s.conn == Connecting ==> s.queue == [] && s.output == [] && s.calls == multiset{})
    && (s.conn == Connected || s.conn == Connecting ==>
          !s.closed && s.shuts == 0 && ShutdownOp !in s.queue && ShutdownQueues !in s.calls)
  }

  /** The part written at once and the part kept are the data, behind whatever came before. */
  lemma Halves(wire: seq<Byte>, output: seq<Byte>, data: seq<Byte>, n: nat)
    requires n <= |data| && (n > 0 ==> output == [])
    ensures wire + data[..n] + (output + data[n..]) == wire + output + data
    ensures n == |data| ==> wire + data[..n] + output == wire + output + data
  {
    assert data[..n] + data[n..] == data;
    if n == 0 {
      assert wire + data[..0] == wire;
      assert output + data[0..] == output + data;
      assert wire + (output + data) == wire + output + data;
    } else {
      assert output + data[n..] == data[n..] && wire + output == wire;
      assert wire + data[..n] + data[n..] == wire + data;
    }
  }

  lemma SendKeeps(s: State, data: seq<Byte>, res: WriteResult)
    requires Conserved(s) && Possible(s, |data|, res) && s.conn != Connecting
    ensures Conserved(SendInLoop(s, data, res))
  {
    var t := SendInLoop(s, data, res);
    if s.conn != Disconnected && t.accepted != s.accepted {
      var n := if !s.writing && s.output == [] && res.Wrote? then res.n else 0;
      Halves(s.wire, s.output, data, n);
    } else if s.conn != Disconnected {
      assert s.wire + data[..0] == s.wire;
    }
  }

  lemma GoOnKeeps(s: State, c: Call)
    requires Conserved(s) && Enabled(s, GoOn(c))
    ensures Conserved(Next(s, GoOn(c)))
  {
    assert c in s.calls ==> s.conn != Connecting;
  }

  lemma QueuedKeeps(s: State, res: WriteResult)
    requires Conserved(s) && Enabled(s, RunQueued(res))
    ensures Conserved(Next(s, RunQueued(res)))
    ensures s.wire <= Next(s, RunQueued(res)).wire && s.accepted <= Next(s, RunQueued(res)).accepted
  {
    var s1 := s.(queue := s.queue[1..]);
    if s.queue[0].SendOp? {
      SendKeeps(s1, s.queue[0].data, res);
    }
  }

  lemma WriteKeeps(s: State, res: WriteResult)
    requires Conserved(s) && Enabled(s, HandleWrite(res))
    ensures Conserved(Next(s, HandleWrite(res)))
    ensures s.wire <= Next(s, HandleWrite(res)).wire && s.accepted == Next(s, HandleWrite(res)).accepted
  {
    if s.writing && res.Wrote? && res.n > 0 {
      assert s.output[..res.n] + s.output[res.n..] == s.output;
      assert s.wire + s.output[..res.n] + s.output[res.n..] == s.wire + s.output;
    }
  }

  lemma StepKeeps(s: State, a: Action)
    requires Conserved(s) && Enabled(s, a)
    ensures Conserved(Next(s, a))
    ensures s.wire <= Next(s, a).wire && s.accepted <= Next(s, a).accepted
  {
    match a
    case Send(data, res) =>
      if s.conn == Connected {
        SendKeeps(s, data, res);
      }
    case RunQueued(res) => QueuedKeeps(s, res);
    case HandleWrite(res) => WriteKeeps(s, res);
    case GoOn(c) => GoOnKeeps(s, c);
    case _ =>
  }

  lemma {:induction false} RunKeeps(s: State, acts: seq<Action>)
    requires Conserved(s)
    ensures Conserved(After(s, acts))
    ensures s.wire <= After(s, acts).wire
  {
    if acts != [] {
      RunKeeps(s, acts[..|acts| - 1]);
      var t := After(s, acts[..|acts| - 1]);
      if Enabled(t, acts[|acts| - 1]) {
        StepKeeps(t, acts[|acts| - 1]);
      }
    }
  }

  lemma {:induction false} AfterCons(s: State, a: Action, acts: seq<Action>)
    requires Enabled(s, a)
    ensures After(s, [a] + acts) == After(Next(s, a), acts)
  {
    if acts == [] {
      assert [a] + acts == [a];
      assert [a][..0] == [];
    } else {
      var n := |acts| - 1;
      assert ([a] + acts)[..n + 1] == [a] + acts[..n];
      AfterCons(s, a, acts[..n]);
    }
  }

  lemma OneMore(s: State, acts: seq<Action>, a: Action)
    ensures var t := After(s, acts); After(s, acts + [a]) == if Enabled(t, a) then Next(t, a) else t
  {
    assert (acts + [a])[..|acts|] == acts;
  }

  /** A call that is past its test when the connection is closed sets the state back to Disconnecting:
      then there can be output without write interest in a state other than Disconnected. */
  lemma ClosedReopens(data: seq<Byte>) returns (acts: seq<Action>)
    requires data != []
    ensures var s := After(Init(), acts); s.conn == Disconnecting && s.closed && s.output == data && !s.writing
  {
    acts := [Establish];
    OneMore(Init(), [], Establish);
    assert [] + [Establish] == acts;
    OneMore(Init(), acts, Send(data, WouldBlock));
    acts := acts + [Send(data, WouldBlock)];
    assert After(Init(), acts).output == data by {
      assert [] + data[0..] == data;
    }
    OneMore(Init(), acts, Begin(ShutdownCall));
    acts := acts + [Begin(ShutdownCall)];
    OneMore(Init(), acts, Close);
    acts := acts + [Close];
    OneMore(Init(), acts, GoOn(ShutdownCall));
    acts := acts + [GoOn(ShutdownCall)];
  }

  // --------------------------------------------- shutdown on the loop thread

  ghost predicate NoneFromOthers(acts: seq<Action>) {
    Begin(ShutdownCall) !in acts
  }

  ghost predicate ShutOnce(s: State) {
    && Conserved(s) && ShutdownOp !in s.queue && ShutdownCall !in s.calls && ShutdownQueues !in s.calls
    && s.shuts <= 1
    && (s.shuts == 1 ==> s.output == [] && s.wire == s.accepted && !s.writing && s.conn != Connected)
  }

  lemma ShutOnceStep(s: State, a: Action)
    requires ShutOnce(s) && Enabled(s, a) && a != Begin(ShutdownCall)
    ensures ShutOnce(Next(s, a))
    ensures s.shuts == 1 ==> Next(s, a).wire == s.wire && Next(s, a).accepted == s.accepted
  {
    StepKeeps(s, a);
    if a.RunQueued? {
      assert s.queue[0] in s.queue;
    }
  }

  /** When only the loop thread calls shutdown, the write side is shut down at most once,
      after everything ever accepted is on the wire, and nothing is accepted later. */
  lemma {:induction false} ShutdownOnce(acts: seq<Action>)
    requires NoneFromOthers(acts)
    ensures ShutOnce(After(Init(), acts))
  {
    if acts != [] {
      var before, a := acts[..|acts| - 1], acts[|acts| - 1];
      assert a in acts && NoneFromOthers(before);
      ShutdownOnce(before);
      if Enabled(After(Init(), before), a) {
        ShutOnceStep(After(Init(), before), a);
      }
    }
  }

  // ------------------------------------------- shutdown from another thread

  /** Something to send is buffered with write interest, queued, or in a call past its test. */
  ghost predicate Outstanding(s: State) {
    || s.writing
    || (exists i :: 0 <= i < |s.queue| && s.queue[i].SendOp? && s.queue[i].data != [])
    || (exists c :: c in s.calls && c.SendCall? && c.data != [])
  }

  /** When a shutdown past its test sets the state, a second closing of the write side can follow. */
  ghost predicate CanRepeat(s: State)
    requires ShutdownCall in s.calls
  {
    exists acts :: After(Next(s, GoOn(ShutdownCall)), acts).shuts >= 2
  }

  /** No output is left to drain, and at most one shutdown has run or is to run. */
  ghost predicate Quiet(s: State) {
    && s.conn != Connected && s.conn != Connecting && !Outstanding(s) && s.shuts + Pending(s) <= 1
  }

  lemma PendingQueue(s: State)
    requires s.queue != []
    ensures multiset(s.queue)[ShutdownOp] ==
            multiset(s.queue[1..])[ShutdownOp] + if s.queue[0] == ShutdownOp then 1 else 0
  {
    assert s.queue == [s.queue[0]] + s.queue[1..];
  }

  lemma FewerOutstanding(s: State, t: State)
    requires s.queue != [] && t.queue == s.queue[1..] && t.calls == s.calls && !s.writing && !t.writing
    ensures Outstanding(t) ==> Outstanding(s)
  {
    forall i | 0 <= i < |t.queue| ensures t.queue[i] == s.queue[i + 1] {}
  }

  lemma QuietQueue(s: State, res: WriteResult)
    requires Quiet(s) && Enabled(s, RunQueued(res))
    ensures Quiet(Next(s, RunQueued(res)))
  {
    var t := Next(s, RunQueued(res));
    assert s.queue[0].SendOp? ==> s.queue[0].data == [];
    PendingQueue(s);
    FewerOutstanding(s, t);
  }

  lemma GoOnPending(s: State, c: Call)
    requires c in s.calls
    ensures Pending(Proceed(s.(calls := s.calls - multiset{c}), c)) == Pending(s)
  {
  }

  lemma QuietGoOn(s: State, c: Call)
    requires Quiet(s) && Enabled(s, GoOn(c))
    ensures Quiet(Next(s, GoOn(c)))
  {
    var t := Next(s, GoOn(c));
    GoOnPending(s, c);
    assert forall i :: 0 <= i < |s.queue| ==> t.queue[i] == s.queue[i];
    assert forall d :: d in t.calls ==> d in s.calls || d == ShutdownQueues;
  }

  lemma QuietStep(s: State, a: Action)
    requires Quiet(s) && Enabled(s, a)
    ensures Quiet(Next(s, a))
  {
    match a
    case RunQueued(res) => QuietQueue(s, res);
    case GoOn(c) => QuietGoOn(s, c);
    case Begin(c) =>
      assert forall d :: d in Next(s, a).calls ==> d in s.calls || d == CloseCall;
    case _ =>
  }

  lemma {:induction false} QuietRun(s: State, acts: seq<Action>)
    requires Quiet(s)
    ensures Quiet(After(s, acts))
  {
    if acts != [] {
      QuietRun(s, acts[..|acts| - 1]);
      var t := After(s, acts[..|acts| - 1]);
      if Enabled(t, acts[|acts| - 1]) {
        QuietStep(t, acts[|acts| - 1]);
      }
    }
  }

  /** Past the point where new calls can pass their test. */
  ghost predicate Down(s: State) {
    Conserved(s) && s.conn != Connected && s.conn != Connecting
  }

  /** What the next step of a schedule that runs everything is: shutdowns past their test first come into
      the queue, then output is drained or given up, then the queue is worked off. */
  function Choice(s: State): Action
    requires Pending(s) > 0
  {
    if s.writing then (if s.shuts == 0 then HandleWrite(Wrote(|s.output|)) else Close)
    else if ShutdownCall in s.calls then GoOn(ShutdownCall)
    else if ShutdownQueues in s.calls then GoOn(ShutdownQueues)
    else RunQueued(if s.shuts == 0 then WouldBlock else Fault)
  }

  lemma QueueTurn(s: State)
    requires Down(s) && !s.writing && multiset(s.queue)[ShutdownOp] > 0
    ensures var a := RunQueued(if s.shuts == 0 then WouldBlock else Fault);
      && Enabled(s, a)
      && var t := Next(s, a);
      Down(t) && t.shuts + Pending(t) >= s.shuts + Pending(s) && t.calls == s.calls && |t.queue| < |s.queue|
  {
    assert ShutdownOp in s.queue;
    PendingQueue(s);
    QueuedKeeps(s, if s.shuts == 0 then WouldBlock else Fault);
  }

  lemma WritingTurn(s: State)
    requires Down(s) && s.writing
    ensures var a := if s.shuts == 0 then HandleWrite(Wrote(|s.output|)) else Close;
      && Enabled(s, a)
      && var t := Next(s, a);
      Down(t) && t.shuts + Pending(t) >= s.shuts + Pending(s) && t.calls == s.calls && t.queue == s.queue && !t.writing
  {
    if s.shuts == 0 {
      WriteKeeps(s, Wrote(|s.output|));
    }
  }

  lemma CallTurn(s: State, c: Call)
    requires Down(s) && c in s.calls && (c == ShutdownCall || c == ShutdownQueues)
    ensures var t := Next(s, GoOn(c));
      && Down(t) && t.shuts + Pending(t) == s.shuts + Pending(s)
      && t.calls[c] == s.calls[c] - 1 && (c == ShutdownQueues ==> t.calls[ShutdownCall] == s.calls[ShutdownCall])
  {
    GoOnKeeps(s, c);
  }

  /** Every pending shutdown can be made to close the write side. */
  lemma {:induction false} AllRun(s: State) returns (acts: seq<Action>)
    requires Down(s)
    ensures After(s, acts).shuts >= s.shuts + Pending(s)
    decreases s.calls[ShutdownCall], s.calls[ShutdownQueues], |s.queue|, s.writing
  {
    if Pending(s) == 0 {
      acts := [];
    } else {
      var a := Choice(s);
      if s.writing {
        WritingTurn(s);
      } else if a.GoOn? {
        CallTurn(s, a.begun);
      } else {
        QueueTurn(s);
      }
      var rest := AllRun(Next(s, a));
      AfterCons(s, a, rest);
      acts := [a] + rest;
    }
  }

  /** A drain while the state is Disconnecting closes the write side, besides the pending shutdowns. */
  lemma DrainFirst(s: State) returns (acts: seq<Action>)
    requires Down(s) && s.writing && s.conn == Disconnecting && s.shuts == 0
    ensures After(s, acts).shuts >= 1 + Pending(s)
  {
    var a := HandleWrite(Wrote(|s.output|));
    WriteKeeps(s, Wrote(|s.output|));
    assert s.output[|s.output|..] == [];
    var rest := AllRun(Next(s, a));
    AfterCons(s, a, rest);
    acts := [a] + rest;
  }

  /** Going down with nothing shut yet, and something to send. */
  ghost predicate Sending(s: State) {
    Down(s) && s.conn == Disconnecting && s.shuts == 0 && ShutdownOp !in s.queue && Outstanding(s)
  }

  lemma QueueSend(s: State)
    requires Sending(s) && !s.writing && s.queue != []
    ensures var t := Next(s, RunQueued(WouldBlock));
      Sending(t) && t.calls == s.calls && Pending(t) == Pending(s)
  {
    var t := Next(s, RunQueued(WouldBlock));
    assert s.queue[0] in s.queue && forall x :: x in t.queue ==> x in s.queue;
    PendingQueue(s);
    QueuedKeeps(s, WouldBlock);
    StillOutstanding(s, t);
  }

  lemma StillOutstanding(s: State, t: State)
    requires Outstanding(s) && !s.writing && s.queue != [] && s.queue[0].SendOp?
    requires t.queue == s.queue[1..] && t.calls == s.calls && (s.queue[0].data != [] ==> t.writing)
    ensures Outstanding(t)
  {
    forall i | 0 < i < |s.queue| ensures t.queue[i - 1] == s.queue[i] {}
  }

  lemma CallSend(s: State, c: Call)
    requires Sending(s) && c in s.calls && c.SendCall? && c.data != []
    ensures var t := Next(s, GoOn(c)); Sending(t) && |t.calls| < |s.calls| && Pending(t) == Pending(s)
  {
    GoOnKeeps(s, c);
    assert Next(s, GoOn(c)).queue[|s.queue|] == SendOp(c.data);
  }

  lemma SomeSend(s: State) returns (c: Call)
    requires Outstanding(s) && !s.writing && s.queue == []
    ensures c in s.calls && c.SendCall? && c.data != []
  {
    c :| c in s.calls && c.SendCall? && c.data != [];
  }

  /** A step towards output: the head of the queue, or a send that is past its test. */
  lemma NextSend(s: State) returns (a: Action)
    requires Sending(s) && !s.writing
    ensures Enabled(s, a) && Sending(Next(s, a)) && Pending(Next(s, a)) == Pending(s)
    ensures var t := Next(s, a); |t.calls| < |s.calls| || (t.calls == s.calls && |t.queue| < |s.queue|)
  {
    if s.queue != [] {
      assert s.queue[0] in s.queue;
      QueueSend(s);
      a := RunQueued(WouldBlock);
    } else {
      var c := SomeSend(s);
      CallSend(s, c);
      a := GoOn(c);
    }
  }

  /** Works the queue off, with the kernel taking nothing, until there is output. */
  lemma {:induction false} SendsFirst(s: State) returns (acts: seq<Action>)
    requires Sending(s)
    ensures After(s, acts).shuts >= 1 + Pending(s)
    decreases |s.calls|, |s.queue|
  {
    if s.writing {
      acts := DrainFirst(s);
    } else {
      var a := NextSend(s);
      var rest := SendsFirst(Next(s, a));
      AfterCons(s, a, rest);
      acts := [a] + rest;
    }
  }

  /** A shutdown from another thread that is past its test can be followed by two closings of the write
      side exactly when one has been made or another shutdown is on its way, or something is still to
      be sent. */
  lemma RepeatsExactly(s: State)
    requires Conserved(s) && ShutdownCall in s.calls
    ensures CanRepeat(s) <==> s.shuts + Pending(s) >= 2 || Outstanding(s)
  {
    var t := Next(s, GoOn(ShutdownCall));
    StepKeeps(s, GoOn(ShutdownCall));
    assert Pending(t) == Pending(s) && t.conn == Disconnecting;
    SameOutstanding(s, t);
    if s.shuts + Pending(s) >= 2 {
      var acts := AllRun(t);
    } else if Outstanding(s) {
      var acts := SendsFirst(t);
    } else {
      forall acts ensures After(t, acts).shuts <= 1 {
        QuietRun(t, acts);
      }
    }
  }

  lemma SameOutstanding(s: State, t: State)
    requires t.writing == s.writing && t.queue == s.queue
    requires forall c: Call :: c.SendCall? ==> (c in t.calls <==> c in s.calls)
    ensures Outstanding(t) <==> Outstanding(s)
  {
  }

  /** The same on every run. */
  lemma OtherShutdownRepeats(acts: seq<Action>)
    requires ShutdownCall in After(Init(), acts).calls
    ensures var s := After(Init(), acts);
      CanRepeat(s) <==> s.shuts + Pending(s) >= 2 || Outstanding(s)
  {
    RunKeeps(Init(), acts);
    RepeatsExactly(After(Init(), acts));
  }

  /** Two callers that both pass the test close the write side twice although there is nothing to send. */
  lemma RaceRepeats()
    ensures var s := After(Init(), [Establish, Begin(ShutdownCall), Begin(ShutdownCall)]);
      s.conn == Connected && !Outstanding(s) && s.shuts == 0 && ShutdownCall in s.calls && CanRepeat(s)
  {
    var a, b := Establish, Begin(ShutdownCall);
    OneMore(Init(), [], a);
    OneMore(Init(), [a], b);
    OneMore(Init(), [a, b], b);
    assert [] + [a] == [a] && [a] + [b] == [a, b] && [a, b] + [b] == [a, b, b];
    OtherShutdownRepeats([a, b, b]);
  }

  // -------------------------------------------------------------- the object

  class TcpConnection {
    var state: ConnState
    var outputBuffer: seq<Byte>
    /** The channel's write interest. */
    var isWriting: bool
    ghost var wire: seq<Byte>
    ghost var shuts: nat
    ghost var closed: bool
    ghost var queue: seq<Op>
    ghost var calls: multiset<Call>
    ghost var accepted: seq<Byte>

    ghost function View(): State
      reads this
    {
      State(state, outputBuffer, isWriting, closed, wire, shuts, queue, calls, accepted)
    }

    constructor ()
      ensures View() == Init()
    {
      state, outputBuffer, isWriting := Connecting, [], false;
      closed, wire, shuts, queue, calls, accepted := false, [], 0, [], multiset{}, [];
    }

    /** Runs on the loop thread; `res` is what write(2) returns if it is called. */
    method DoSend(data: seq<Byte>, res: WriteResult)
      requires Possible(View(), |data|, res)
      modifies this
      ensures View() == SendInLoop(old(View()), data, res)
    {
      var nwrote := 0;
      var remaining := |data|;
      var faultError := false;
      if state == Disconnected {
        return;
      }
      if !isWriting && |outputBuffer| == 0 {
        if res.Wrote? {
          nwrote := res.n;
          remaining := |data| - nwrote;
        } else if res != WouldBlock {
          if res == Fault {
            faultError := true;
          }
        }
      }
      wire := wire + data[..nwrote];
      if !faultError {
        accepted := accepted + data;
      }
      if !faultError && remaining > 0 {
        outputBuffer := outputBuffer + data[nwrote..];
        if !isWriting {
          isWriting := true;
        }
      }
    }

    method DoShutdown()
      modifies this
      ensures View() == ShutdownInLoop(old(View()))
    {
      if !isWriting {
        shuts := shuts + 1;
      }
    }

    /** Called on the loop thread. */
    method SendMessage(data: seq<Byte>, res: WriteResult)
      requires state == Connected ==> Possible(View(), |data|, res)
      modifies this
      ensures View() == Next(old(View()), Send(data, res))
    {
      if state == Connected {
        DoSend(data, res);
      }
    }

    /** Called on the loop thread. */
    method CallShutdown()
      modifies this
      ensures View() == Next(old(View()), Shutdown)
    {
      if state == Connected {
        state := Disconnecting;
        DoShutdown();
      }
    }

    /** The test with which a call from another thread begins. */
    method BeginCall(call: Call) returns (passes: bool)
      requires Enabled(View(), Begin(call))
      modifies this
      ensures View() == Next(old(View()), Begin(call)) && passes == Passes(old(View()), call)
    {
      passes := state == Connected;
      if call.CloseCall? {
        passes := passes || state == Disconnecting;
      }
      if passes {
        calls := calls + multiset{call};
      }
    }

    /** What a call from another thread does next: another step of any thread may come between. */
    method ContinueCall(call: Call)
      requires Enabled(View(), GoOn(call))
      modifies this
      ensures View() == Next(old(View()), GoOn(call))
    {
      calls := calls - multiset{call};
      match call {
        case SendCall(data) =>
          queue := queue + [SendOp(data)];
        case ShutdownCall =>
          state := Disconnecting;
          calls := calls + multiset{ShutdownQueues};
        case ShutdownQueues =>
          queue := queue + [ShutdownOp];
        case CloseCall =>
          state := Disconnecting;
      }
    }

    /** The write event of the channel. */
    method OnWritable(res: WriteResult)
      requires Enabled(View(), HandleWrite(res))
      modifies this
      ensures View() == Next(old(View()), HandleWrite(res))
    {
      if isWriting {
        if res.Wrote? && res.n > 0 {
          wire := wire + outputBuffer[..res.n];
          outputBuffer := outputBuffer[res.n..];
          if |outputBuffer| == 0 {
            isWriting := false;
            if state == Disconnecting {
              DoShutdown();
            }
          }
        }
      }
    }

    method CallForceClose()
      modifies this
      ensures View() == Next(old(View()), ForceClose)
    {
      if state == Connected || state == Disconnecting {
        state := Disconnecting;
      }
    }

    method HandleClose()
      requires state == Connected || state == Disconnecting
      modifies this
      ensures View() == Next(old(View()), Close)
    {
      state := Disconnected;
      isWriting, closed := false, true;
    }
  }
}
