/** The event loop: pending functors, the wakeup descriptor, and every interleaving of the
    loop thread with other threads that queue functors or ask it to quit. */
module EventLoop {

  type Functor = nat

  /** Where the loop thread is: before the `while` test, in or about to enter poll, in the
      event handlers, in doPendingFunctors after the swap, or out of the loop. */
  datatype Phase = Top | Polling | Handling | Running | Stopped

  /** `owed` counts other threads between their change and their wakeup write; `loopOwes`
      says the same of the loop thread.  `executed` is all that has ever been run, in order. */
  datatype State = State(
    phase: Phase,
    pending: seq<Functor>,
    batch: seq<Functor>,
    calling: bool,
    quit: bool,
    iteration: nat,
    counter: nat,
    wakeupActive: bool,
    owed: nat,
    loopOwes: bool,
    executed: seq<Functor>)

  /** The atomic steps.  `Other...` steps are taken by other threads, the rest by the loop thread. */
  datatype Action =
    | OtherPush(f: Functor)
    | OtherQuit
    | OtherWakeup
    | EnterPoll
    | LeaveLoop
    | PollReturn(wakeup: bool)
    | HandleRead
    | LoopPush(g: Functor)
    | LoopWakeup
    | LoopQuit
    | SwapPending
    | RunFunctor
    | DoneRunning

  function Init(): State {
    State(Top, [], [], false, false, 0, 0, false, 0, false, [])
  }

  /** Poll may report the wakeup descriptor only when its counter is positive. */
  predicate Enabled(s: State, a: Action) {
    match a
    case OtherPush(_) => true
    case OtherQuit => true
    case OtherWakeup => s.owed > 0
    case EnterPoll => s.phase == Top && !s.quit
    case LeaveLoop => s.phase == Top && s.quit
    case PollReturn(wakeup) => s.phase == Polling && (wakeup ==> s.counter > 0)
    case HandleRead => s.phase == Handling && s.wakeupActive
    case LoopPush(_) => (s.phase == Handling || s.phase == Running) && !s.loopOwes
    case LoopWakeup => s.loopOwes
    case LoopQuit => (s.phase == Handling || s.phase == Running) && !s.loopOwes
    case SwapPending => s.phase == Handling && !s.wakeupActive && !s.loopOwes
    case RunFunctor => s.phase == Running && s.batch != [] && !s.loopOwes
    case DoneRunning => s.phase == Running && s.batch == [] && !s.loopOwes
  }

  function Next(s: State, a: Action): State
    requires Enabled(s, a)
  {
    match a
    case OtherPush(f) => s.(pending := s.pending + [f], owed := s.owed + 1)
    case OtherQuit => s.(quit := true, owed := s.owed + 1)
    case OtherWakeup => s.(counter := s.counter + 1, owed := s.owed - 1)
    case EnterPoll => s.(phase := Polling)
    case LeaveLoop => s.(phase := Stopped)
    case PollReturn(wakeup) => s.(phase := Handling, iteration := s.iteration + 1, wakeupActive := wakeup)
    case HandleRead => s.(counter := 0, wakeupActive := false)
    case LoopPush(f) => s.(pending := s.pending + [f], loopOwes := s.calling)
    case LoopWakeup => s.(counter := s.counter + 1, loopOwes := false)
    case LoopQuit => s.(quit := true)
    case SwapPending => s.(phase := Running, calling := true, batch := s.pending, pending := [])
    case RunFunctor => s.(executed := s.executed + [s.batch[0]], batch := s.batch[1..])
    case DoneRunning => s.(phase := Top, calling := false)
  }

  /** The state after a run; a step that is not enabled changes nothing. */
  function After(acts: seq<Action>): State {
    if acts == [] then Init()
    else
      var s := After(acts[..|acts| - 1]);
      if Enabled(s, acts[|acts| - 1]) then Next(s, acts[|acts| - 1]) else s
  }

  ghost predicate StepAt(acts: seq<Action>, i: nat)
    requires i < |acts|
  {
    Enabled(After(acts[..i]), acts[i])
  }

  /** Every step of the run is enabled. */
  ghost predicate IsRun(acts: seq<Action>) {
    forall i {:trigger StepAt(acts, i)} :: 0 <= i < |acts| ==> StepAt(acts, i)
  }

  function AskedBy(a: Action): seq<Functor> {
    match a
    case OtherPush(f) => [f]
    case LoopPush(g) => [g]
    case _ => []
  }

  /** The functors that the steps of a run ask for, whoever asks, in order. */
  function Asked(acts: seq<Action>): seq<Functor> {
    if acts == [] then [] else Asked(acts[..|acts| - 1]) + AskedBy(acts[|acts| - 1])
  }

  /** What every step keeps. */
  ghost predicate Inv(s: State) {
    && (s.phase != Running ==> s.batch == [])
    && (s.calling <==> s.phase == Running)
    && (s.loopOwes ==> s.phase == Running)
    && (s.wakeupActive ==> s.phase == Handling && s.counter > 0)
    && (s.pending != [] && s.phase != Handling ==> s.counter > 0 || s.owed > 0 || s.loopOwes)
    && (s.quit && s.phase == Polling ==> s.counter > 0 || s.owed > 0)
  }

  /** Conservation: all that was asked for has been executed, is in the current batch, or is pending,
      in the order in which it was asked for. */
  ghost predicate Conserved(asked: seq<Functor>, s: State) {
    asked == s.executed + s.batch + s.pending
  }

  lemma StepKeeps(s: State, a: Action)
    requires Inv(s) && Enabled(s, a)
    ensures Inv(Next(s, a))
    ensures s.executed <= Next(s, a).executed
  {
  }

  lemma StepConserves(asked: seq<Functor>, s: State, a: Action)
    requires Inv(s) && Conserved(asked, s) && Enabled(s, a)
    ensures Conserved(asked + AskedBy(a), Next(s, a))
  {
  }

  lemma FrontIsRun(acts: seq<Action>)
    requires IsRun(acts) && acts != []
    ensures IsRun(acts[..|acts| - 1]) && StepAt(acts, |acts| - 1)
  {
    var before := acts[..|acts| - 1];
    forall i | 0 <= i < |before| ensures StepAt(before, i) {
      assert StepAt(acts, i) && before[..i] == acts[..i];
    }
  }

  lemma {:induction false} RunKeeps(acts: seq<Action>)
    requires IsRun(acts)
    ensures Inv(After(acts)) && Conserved(Asked(acts), After(acts))
    decreases |acts|
  {
    if acts != [] {
      var before, a := acts[..|acts| - 1], acts[|acts| - 1];
      FrontIsRun(acts);
      RunKeeps(before);
      StepKeeps(After(before), a);
      StepConserves(Asked(before), After(before), a);
    }
  }

  /** On every run the functors asked for, by any thread, are executed in the order in which they were
      asked for, each one once; those not yet executed are in the batch or pending. */
  lemma ExecutedInOrder(acts: seq<Action>)
    requires IsRun(acts)
    ensures var s := After(acts);
      s.executed <= Asked(acts) && Asked(acts) == s.executed + s.batch + s.pending
  {
    RunKeeps(acts);
    var s := After(acts);
    assert s.executed + (s.batch + s.pending) == Asked(acts);
  }

  /** The loop blocks in poll when no descriptor is ready; of its own it has only the wakeup one. */
  predicate MayBlock(s: State) {
    s.phase == Polling && s.counter == 0
  }

  /** No lost wakeup: a loop that may block although something asked for has not been executed, or after
      quit, is about to be woken by a thread that has not made its wakeup write yet. */
  lemma NoLostWakeup(acts: seq<Action>)
    requires IsRun(acts) && MayBlock(After(acts))
    requires After(acts).executed != Asked(acts) || After(acts).quit
    ensures var s := After(acts);
      s.owed > 0 && Enabled(s, OtherWakeup) && Enabled(Next(s, OtherWakeup), PollReturn(true))
  {
    RunKeeps(acts);
    var s := After(acts);
    if s.pending == [] {
      assert s.executed + s.batch + s.pending == s.executed;
    }
  }

  /** `q` was asked for before iteration `k` ended: it is all executed when the loop is next
      outside the handlers after that iteration began. */
  ghost predicate Drained(q: seq<Functor>, k: nat, asked: seq<Functor>, s: State) {
    && q <= asked && k <= s.iteration
    && (s.iteration > k ==>
          match s.phase
          case Handling => true
          case Running => q <= s.executed + s.batch
          case _ => q <= s.executed)
  }

  lemma DrainedStep(q: seq<Functor>, k: nat, asked: seq<Functor>, s: State, a: Action, more: seq<Functor>)
    requires Inv(s) && Conserved(asked, s) && Enabled(s, a) && Drained(q, k, asked, s)
    requires s.iteration == k ==> s.phase == Top || s.phase == Polling || s.phase == Stopped
    ensures Drained(q, k, asked + more, Next(s, a))
    ensures var t := Next(s, a); t.iteration == k ==> t.phase == Top || t.phase == Polling || t.phase == Stopped
  {
    StepKeeps(s, a);
    var t := Next(s, a);
    assert q <= asked + more;
    if a == SwapPending {
      assert s.executed + s.pending == asked;
    }
    if a == RunFunctor {
      assert t.executed + t.batch == s.executed + s.batch;
    }
  }

  /** One turn of the loop executes everything that was asked for before it: whatever had been asked for
      when the loop was outside its handlers has been executed by the next time it is there in a later
      iteration. */
  lemma {:induction false} TurnExecutesAll(acts: seq<Action>, more: seq<Action>)
    requires IsRun(acts + more)
    requires After(acts).phase == Top || After(acts).phase == Polling
    ensures Drained(Asked(acts), After(acts).iteration, Asked(acts + more), After(acts + more))
    ensures var s := After(acts + more);
      s.iteration == After(acts).iteration ==> s.phase == Top || s.phase == Polling || s.phase == Stopped
    decreases |more|
  {
    if more == [] {
      assert acts + more == acts;
    } else {
      var all, front, a := acts + more, acts + more[..|more| - 1], more[|more| - 1];
      assert all[..|all| - 1] == front && all[|all| - 1] == a;
      FrontIsRun(all);
      TurnExecutesAll(acts, more[..|more| - 1]);
      RunKeeps(front);
      DrainedStep(Asked(acts), After(acts).iteration, Asked(front), After(front), a, AskedBy(a));
    }
  }

  // -------------------------------------------------------------- the object

  class EventLoop {
    var phase: Phase
    var pendingFunctors: seq<Functor>
    var functors: seq<Functor>
    var callingPendingFunctors: bool
    var quit: bool
    var iteration: nat
    var wakeupCounter: nat
    var wakeupActive: bool
    ghost var owed: nat
    ghost var loopOwes: bool
    ghost var executed: seq<Functor>

    ghost function View(): State
      reads this
    {
      State(phase, pendingFunctors, functors, callingPendingFunctors, quit, iteration, wakeupCounter,
            wakeupActive, owed, loopOwes, executed)
    }

    constructor ()
      ensures View() == Init()
    {
      phase, pendingFunctors, functors := Top, [], [];
      callingPendingFunctors, quit, iteration := false, false, 0;
      wakeupCounter, wakeupActive := 0, false;
      owed, loopOwes, executed := 0, false, [];
    }

    /** The locked part of queueInLoop, and the decision whether a wakeup must follow. */
    method QueueInLoop(f: Functor, inLoopThread: bool) returns (mustWakeup: bool)
      requires Enabled(View(), if inLoopThread then LoopPush(f) else OtherPush(f))
      modifies this
      ensures View() == Next(old(View()), if inLoopThread then LoopPush(f) else OtherPush(f))
      ensures mustWakeup <==> !inLoopThread || old(callingPendingFunctors)
    {
      pendingFunctors := pendingFunctors + [f];
      mustWakeup := !inLoopThread || callingPendingFunctors;
      if inLoopThread {
        loopOwes := mustWakeup;
      } else {
        owed := owed + 1;
      }
    }

    method Quit(inLoopThread: bool) returns (mustWakeup: bool)
      requires Enabled(View(), if inLoopThread then LoopQuit else OtherQuit)
      modifies this
      ensures View() == Next(old(View()), if inLoopThread then LoopQuit else OtherQuit)
      ensures mustWakeup <==> !inLoopThread
    {
      quit := true;
      mustWakeup := !inLoopThread;
      if mustWakeup {
        owed := owed + 1;
      }
    }

    method Wakeup(inLoopThread: bool)
      requires Enabled(View(), if inLoopThread then LoopWakeup else OtherWakeup)
      modifies this
      ensures View() == Next(old(View()), if inLoopThread then LoopWakeup else OtherWakeup)
    {
      wakeupCounter := wakeupCounter + 1;
      if inLoopThread {
        loopOwes := false;
      } else {
        owed := owed - 1;
      }
    }

    /** The test of the loop: goes on to poll unless quit was asked for. */
    method WhileTest() returns (again: bool)
      requires phase == Top
      modifies this
      ensures again <==> !old(quit)
      ensures View() == Next(old(View()), if again then EnterPoll else LeaveLoop)
    {
      again := !quit;
      phase := if again then Polling else Stopped;
    }

    method PollReturns(wakeup: bool)
      requires Enabled(View(), PollReturn(wakeup))
      modifies this
      ensures View() == Next(old(View()), PollReturn(wakeup))
    {
      phase := Handling;
      iteration := iteration + 1;
      wakeupActive := wakeup;
    }

    method HandleWakeupRead()
      requires Enabled(View(), HandleRead)
      modifies this
      ensures View() == Next(old(View()), HandleRead)
    {
      wakeupCounter := 0;
      wakeupActive := false;
    }

    /** The locked part of doPendingFunctors. */
    method SwapPendingFunctors()
      requires Enabled(View(), SwapPending)
      modifies this
      ensures View() == Next(old(View()), SwapPending)
    {
      callingPendingFunctors := true;
      functors, pendingFunctors := pendingFunctors, [];
      phase := Running;
    }

    method RunNextFunctor() returns (f: Functor)
      requires Enabled(View(), RunFunctor)
      modifies this
      ensures View() == Next(old(View()), RunFunctor) && f == old(functors[0])
    {
      f := functors[0];
      functors := functors[1..];
      executed := executed + [f];
    }

    method FinishFunctors()
      requires Enabled(View(), DoneRunning)
      modifies this
      ensures View() == Next(old(View()), DoneRunning)
    {
      callingPendingFunctors := false;
      phase := Top;
    }
  }
}
