/** Many sessions over the one sharded store: every client is told what a single server with a single
    map, doing one thing for one client at a time, would have told it. */
module MemcacheClients {
  import S = MemcacheStore
  import P = MemcacheSession

  /** A session; while it asks the store it is the thread that runs the operation. */
  type Sid = S.Tid

  /** What a client has been sent, and what is being put together for it. */
  datatype Out = Out(pending: string, sent: string, closing: bool)

  predicate Asks(e: P.Event) {
    e.Ask? || e.Look?
  }

  function OpOf(e: P.Event): S.Op
    requires Asks(e)
  {
    if e.Ask? then e.op else S.Get(e.key)
  }

  function Put(o: Out, text: string): Out {
    if o.closing then o else o.(sent := o.sent + text)
  }

  /** The client's output after one event, given the store's reply if the event asks for one. */
  function Told(o: Out, e: P.Event, r: S.Reply): Out {
    match e
    case Send(text) => Put(o, text)
    case Ask(op, quiet) => Put(o, if quiet then "" else P.AnswerText(op, r))
    case Look(key, withToken) => if r.Found? then o.(pending := o.pending + P.Shown(key, r.item, withToken)) else o
    case Flush =>
      if o.closing then o.(pending := o.pending + "END\r\n") else Put(o, o.pending + "END\r\n").(pending := "")
    case Shutdown => o.(closing := true)
    case StopServer => o
  }

  // ----------------------------------------------- one server, one at a time

  /** One event done for one client; `token` is the one drawn for it, 0 if none. */
  datatype Turn = Turn(c: Sid, e: P.Event, token: nat)

  datatype Single = Single(items: map<S.Key, S.Entry>, outs: map<Sid, Out>)

  predicate TurnOk(t: Turn) {
    Asks(t.e) ==> S.WellFormed(OpOf(t.e))
  }

  ghost predicate TurnsOk(turns: seq<Turn>) {
    forall i :: 0 <= i < |turns| ==> TurnOk(turns[i])
  }

  function OutOf(outs: map<Sid, Out>, c: Sid): Out {
    if c in outs then outs[c] else Out("", "", false)
  }

  function One(m: Single, t: Turn): (r: Single)
    requires S.AllWellFormed(m.items) && TurnOk(t)
    ensures S.AllWellFormed(r.items)
  {
    if Asks(t.e) then
      Single(S.Apply(m.items, OpOf(t.e), t.token),
             m.outs[t.c := Told(OutOf(m.outs, t.c), t.e, S.Answer(m.items, OpOf(t.e)))])
    else m.(outs := m.outs[t.c := Told(OutOf(m.outs, t.c), t.e, S.Missing)])
  }

  ghost function Serve(turns: seq<Turn>): (m: Single)
    requires TurnsOk(turns)
    ensures S.AllWellFormed(m.items)
  {
    if turns == [] then Single(map[], map[]) else One(Serve(turns[..|turns| - 1]), turns[|turns| - 1])
  }

  /** What was done for one client, in order. */
  function Mine(turns: seq<Turn>, c: Sid): seq<P.Event> {
    if turns == [] then []
    else
      var t := turns[|turns| - 1];
      Mine(turns[..|turns| - 1], c) + if t.c == c then [t.e] else []
  }

  /** The store operations among the turns, with their tokens. */
  function Asked(turns: seq<Turn>): seq<(S.Op, nat)> {
    if turns == [] then []
    else
      var t := turns[|turns| - 1];
      Asked(turns[..|turns| - 1]) + if Asks(t.e) then [(OpOf(t.e), t.token)] else []
  }

  function Committed(log: seq<S.Event>): seq<(S.Op, nat)> {
    seq(|log|, i requires 0 <= i < |log| => (log[i].op, log[i].token))
  }

  // --------------------------------------------------------------- the server

  /** The store, the chunks that each session has received, how many of the events that they lead to are
      done, and the outputs; `turns` is the history of events done. */
  datatype State = State(
    store: S.State,
    fed: map<Sid, seq<string>>,
    done: map<Sid, nat>,
    outs: map<Sid, Out>,
    turns: seq<Turn>)

  /** A chunk arrives; a session does an event that does not ask the store; or it goes through the steps
      of one that does, which those of other sessions may come between. */
  datatype Action =
    | Receive(c: Sid, chunk: string)
    | Do(c: Sid)
    | Lock(c: Sid)
    | Draw(c: Sid)
    | Commit(c: Sid)

  function Init(): State {
    State(S.Init(), map[], map[], map[], [])
  }

  function Fed(s: State, c: Sid): seq<string> {
    if c in s.fed then s.fed[c] else []
  }

  function Done(s: State, c: Sid): nat {
    if c in s.done then s.done[c] else 0
  }

  function Todo(s: State, c: Sid, startTime: int): seq<P.Event> {
    P.Effects(Fed(s, c), startTime)
  }

  predicate HasNext(s: State, c: Sid, startTime: int) {
    Done(s, c) < |Todo(s, c, startTime)|
  }

  function NextEvent(s: State, c: Sid, startTime: int): P.Event
    requires HasNext(s, c, startTime)
  {
    Todo(s, c, startTime)[Done(s, c)]
  }

  predicate AsksNext(s: State, c: Sid, startTime: int) {
    HasNext(s, c, startTime) && Asks(NextEvent(s, c, startTime))
  }

  predicate Enabled(hash: S.Hash, s: State, a: Action, startTime: int)
    requires S.ShardsOk(s.store)
  {
    match a
    case Receive(_, _) => true
    case Do(c) => HasNext(s, c, startTime) && !AsksNext(s, c, startTime)
    case Lock(c) =>
      AsksNext(s, c, startTime) && S.Enabled(hash, s.store, S.Lock(c, OpOf(NextEvent(s, c, startTime))))
    case Draw(c) => S.Enabled(hash, s.store, S.Draw(c))
    case Commit(c) => AsksNext(s, c, startTime) && S.Enabled(hash, s.store, S.Commit(c))
  }

  /** Client `c` is told of an event, which is then done. */
  function Finish(s: State, c: Sid, e: P.Event, r: S.Reply, token: nat): State {
    s.(done := s.done[c := Done(s, c) + 1], outs := s.outs[c := Told(OutOf(s.outs, c), e, r)],
       turns := s.turns + [Turn(c, e, token)])
  }

  function Next(hash: S.Hash, s: State, a: Action, startTime: int): (s': State)
    requires S.ShardsOk(s.store) && S.RunningOk(s.store) && Enabled(hash, s, a, startTime)
    ensures S.ShardsOk(s'.store) && S.RunningOk(s'.store)
  {
    match a
    case Receive(c, chunk) => s.(fed := s.fed[c := Fed(s, c) + [chunk]])
    case Do(c) => Finish(s, c, NextEvent(s, c, startTime), S.Missing, 0)
    case Lock(c) => s.(store := S.Next(hash, s.store, S.Lock(c, OpOf(NextEvent(s, c, startTime)))))
    case Draw(c) => s.(store := S.Next(hash, s.store, S.Draw(c)))
    case Commit(c) =>
      var store := S.Next(hash, s.store, S.Commit(c));
      var reply := store.log[|s.store.log|];
      Finish(s.(store := store), c, NextEvent(s, c, startTime), reply.reply, reply.token)
  }

  function After(hash: S.Hash, acts: seq<Action>, startTime: int): (s: State)
    ensures S.ShardsOk(s.store) && S.RunningOk(s.store)
  {
    if acts == [] then Init()
    else
      var s := After(hash, acts[..|acts| - 1], startTime);
      if Enabled(hash, s, acts[|acts| - 1], startTime) then Next(hash, s, acts[|acts| - 1], startTime) else s
  }

  // ---------------------------------------------------------------- invariant

  /** The events done for a client are the first ones that its chunks lead to. */
  ghost predicate InStep(s: State, c: Sid, startTime: int) {
    Done(s, c) <= |Todo(s, c, startTime)| && Mine(s.turns, c) == Todo(s, c, startTime)[..Done(s, c)]
  }

  /** A session that runs an operation runs that of its next event. */
  ghost predicate RunsNext(s: State, c: Sid, startTime: int) {
    c in s.store.running ==>
      AsksNext(s, c, startTime) && s.store.running[c].op == OpOf(NextEvent(s, c, startTime))
  }

  /** The store's history and the outputs are those of the one server. */
  ghost predicate LikeOne(s: State) {
    && S.HistoryOk(s.store.log) && TurnsOk(s.turns)
    && Serve(s.turns) == Single(S.Replay(s.store.log), s.outs)
    && Asked(s.turns) == Committed(s.store.log)
  }

  ghost predicate Inv(hash: S.Hash, s: State, startTime: int) {
    && S.Inv(hash, s.store) && LikeOne(s)
    && (forall c :: InStep(s, c, startTime))
    && (forall c :: RunsNext(s, c, startTime))
  }

  lemma OneTurnMore(turns: seq<Turn>, t: Turn, c: Sid)
    requires TurnsOk(turns) && TurnOk(t)
    ensures TurnsOk(turns + [t]) && Serve(turns + [t]) == One(Serve(turns), t)
    ensures Mine(turns + [t], c) == Mine(turns, c) + if t.c == c then [t.e] else []
    ensures Asked(turns + [t]) == Asked(turns) + if Asks(t.e) then [(OpOf(t.e), t.token)] else []
  {
    assert (turns + [t])[..|turns|] == turns;
  }

  lemma ReceiveKeeps(s: State, c: Sid, chunk: string, d: Sid, startTime: int)
    requires InStep(s, d, startTime) && RunsNext(s, d, startTime)
    ensures var s' := s.(fed := s.fed[c := Fed(s, c) + [chunk]]); InStep(s', d, startTime) && RunsNext(s', d, startTime)
  {
    if c == d {
      var more := Fed(s, c) + [chunk];
      assert more[..|more| - 1] == Fed(s, c);
      assert Todo(s, c, startTime) <= P.Effects(more, startTime);
    }
  }

  /** An event done for `c` keeps every session in step. */
  lemma FinishInStep(s: State, c: Sid, r: S.Reply, token: nat, d: Sid, startTime: int)
    requires HasNext(s, c, startTime) && TurnsOk(s.turns) && InStep(s, d, startTime)
    requires TurnOk(Turn(c, NextEvent(s, c, startTime), token))
    ensures InStep(Finish(s, c, NextEvent(s, c, startTime), r, token), d, startTime)
  {
    var e := NextEvent(s, c, startTime);
    OneTurnMore(s.turns, Turn(c, e, token), d);
    if c == d {
      TakeOneMore(Todo(s, c, startTime), Done(s, c));
    } else {
      assert Mine(s.turns, d) + [] == Mine(s.turns, d);
    }
  }

  lemma TakeOneMore(todo: seq<P.Event>, n: nat)
    requires n < |todo|
    ensures todo[..n + 1] == todo[..n] + [todo[n]]
  {
  }

  lemma DoKeeps(s: State, c: Sid, startTime: int)
    requires LikeOne(s) && HasNext(s, c, startTime) && !AsksNext(s, c, startTime)
    ensures LikeOne(Finish(s, c, NextEvent(s, c, startTime), S.Missing, 0))
  {
    OneTurnMore(s.turns, Turn(c, NextEvent(s, c, startTime), 0), c);
  }

  /** A commit answers as the single map does, and does to it what it does to the shard. */
  lemma CommitLikeOne(hash: S.Hash, s: State, c: Sid, e: P.Event)
    requires S.Inv(hash, s.store) && LikeOne(s) && S.Enabled(hash, s.store, S.Commit(c))
    requires Asks(e) && s.store.running[c].op == OpOf(e)
    ensures var store := S.Next(hash, s.store, S.Commit(c));
      var event := store.log[|s.store.log|];
      TurnOk(Turn(c, e, event.token)) && LikeOne(Finish(s.(store := store), c, e, event.reply, event.token))
  {
    var store := S.Next(hash, s.store, S.Commit(c));
    var n := |s.store.log|;
    S.StepKeeps(hash, s.store, S.Commit(c));
    var event := store.log[n];
    assert S.EventOk(store.log, n);
    assert store.log[..n] == s.store.log;
    OneTurnMore(s.turns, Turn(c, e, event.token), c);
    assert Committed(store.log) == Committed(s.store.log) + [(event.op, event.token)];
  }

  lemma StoreStepRuns(hash: S.Hash, s: State, a: S.Action, d: Sid, startTime: int)
    requires S.Inv(hash, s.store) && S.Enabled(hash, s.store, a) && RunsNext(s, d, startTime) && !a.Commit?
    requires a.Lock? && d == a.t ==> AsksNext(s, d, startTime) && a.op == OpOf(NextEvent(s, d, startTime))
    ensures RunsNext(s.(store := S.Next(hash, s.store, a)), d, startTime)
  {
  }

  /** A step of the store that commits nothing. */
  lemma StoreStepKeeps(hash: S.Hash, s: State, a: S.Action, startTime: int)
    requires Inv(hash, s, startTime) && S.Enabled(hash, s.store, a) && !a.Commit?
    requires a.Lock? ==> AsksNext(s, a.t, startTime) && a.op == OpOf(NextEvent(s, a.t, startTime))
    ensures Inv(hash, s.(store := S.Next(hash, s.store, a)), startTime)
  {
    var s' := s.(store := S.Next(hash, s.store, a));
    S.StepKeeps(hash, s.store, a);
    forall d ensures InStep(s', d, startTime) {
      assert InStep(s, d, startTime);
    }
    forall d ensures RunsNext(s', d, startTime) {
      assert RunsNext(s, d, startTime);
      StoreStepRuns(hash, s, a, d, startTime);
    }
  }

  lemma CommitRuns(hash: S.Hash, s: State, c: Sid, d: Sid, startTime: int)
    requires S.Inv(hash, s.store) && Enabled(hash, s, Commit(c), startTime) && RunsNext(s, d, startTime)
    ensures RunsNext(Next(hash, s, Commit(c), startTime), d, startTime)
  {
  }

  lemma StoreInStep(s: State, store: S.State, d: Sid, startTime: int)
    requires InStep(s, d, startTime)
    ensures InStep(s.(store := store), d, startTime)
  {
  }

  lemma CommitInStep(hash: S.Hash, s: State, c: Sid, d: Sid, startTime: int)
    requires S.ShardsOk(s.store) && S.RunningOk(s.store) && Enabled(hash, s, Commit(c), startTime)
    requires TurnsOk(s.turns) && InStep(s, d, startTime) && S.WellFormed(OpOf(NextEvent(s, c, startTime)))
    ensures InStep(Next(hash, s, Commit(c), startTime), d, startTime)
  {
    var store := S.Next(hash, s.store, S.Commit(c));
    var event := store.log[|s.store.log|];
    StoreInStep(s, store, d, startTime);
    FinishInStep(s.(store := store), c, event.reply, event.token, d, startTime);
  }

  lemma CommitKeeps(hash: S.Hash, s: State, c: Sid, startTime: int)
    requires Inv(hash, s, startTime) && Enabled(hash, s, Commit(c), startTime)
    ensures Inv(hash, Next(hash, s, Commit(c), startTime), startTime)
  {
    var s' := Next(hash, s, Commit(c), startTime);
    assert RunsNext(s, c, startTime);
    S.StepKeeps(hash, s.store, S.Commit(c));
    CommitLikeOne(hash, s, c, NextEvent(s, c, startTime));
    forall d ensures InStep(s', d, startTime) && RunsNext(s', d, startTime) {
      assert InStep(s, d, startTime) && RunsNext(s, d, startTime);
      CommitInStep(hash, s, c, d, startTime);
      CommitRuns(hash, s, c, d, startTime);
    }
  }

  lemma DoStepKeeps(hash: S.Hash, s: State, c: Sid, startTime: int)
    requires Inv(hash, s, startTime) && Enabled(hash, s, Do(c), startTime)
    ensures Inv(hash, Next(hash, s, Do(c), startTime), startTime)
  {
    var s' := Next(hash, s, Do(c), startTime);
    DoKeeps(s, c, startTime);
    forall d ensures InStep(s', d, startTime) {
      assert InStep(s, d, startTime);
      FinishInStep(s, c, S.Missing, 0, d, startTime);
    }
    forall d ensures RunsNext(s', d, startTime) {
      assert RunsNext(s, d, startTime);
    }
  }

  lemma ReceiveStepKeeps(hash: S.Hash, s: State, c: Sid, chunk: string, startTime: int)
    requires Inv(hash, s, startTime)
    ensures Inv(hash, Next(hash, s, Receive(c, chunk), startTime), startTime)
  {
    var s' := Next(hash, s, Receive(c, chunk), startTime);
    forall d ensures InStep(s', d, startTime) && RunsNext(s', d, startTime) {
      assert InStep(s, d, startTime) && RunsNext(s, d, startTime);
      ReceiveKeeps(s, c, chunk, d, startTime);
    }
  }

  lemma StepKeeps(hash: S.Hash, s: State, a: Action, startTime: int)
    requires Inv(hash, s, startTime) && Enabled(hash, s, a, startTime)
    ensures Inv(hash, Next(hash, s, a, startTime), startTime)
  {
    match a
    case Receive(c, chunk) => ReceiveStepKeeps(hash, s, c, chunk, startTime);
    case Do(c) => DoStepKeeps(hash, s, c, startTime);
    case Lock(c) => StoreStepKeeps(hash, s, S.Lock(c, OpOf(NextEvent(s, c, startTime))), startTime);
    case Draw(c) => StoreStepKeeps(hash, s, S.Draw(c), startTime);
    case Commit(c) => CommitKeeps(hash, s, c, startTime);
  }

  lemma InitOk(hash: S.Hash, startTime: int)
    ensures Inv(hash, Init(), startTime)
  {
    S.RunKeeps(hash, []);
    assert S.After(hash, []) == S.Init();
    assert Committed([]) == [];
    forall c ensures InStep(Init(), c, startTime) && RunsNext(Init(), c, startTime) {
      assert P.Effects([], startTime) == [];
    }
  }

  lemma {:induction false} RunKeeps(hash: S.Hash, acts: seq<Action>, startTime: int)
    ensures Inv(hash, After(hash, acts, startTime), startTime)
    decreases |acts|
  {
    if acts == [] {
      InitOk(hash, startTime);
    } else {
      var before := acts[..|acts| - 1];
      RunKeeps(hash, before, startTime);
      if Enabled(hash, After(hash, before, startTime), acts[|acts| - 1], startTime) {
        StepKeeps(hash, After(hash, before, startTime), acts[|acts| - 1], startTime);
      }
    }
  }

  // -------------------------------------------------------------- main result

  /** Whatever the chunks and whatever the interleaving of sessions and shards, there is one order of all
      that was done such that: each client's part of it is, in order, what its own chunks lead to; every
      client has been sent exactly what one server with one map sends when it does these things in
      that order; the map is the one that the store's history builds; and the operations in it are,
      with their tokens, that history. */
  lemma ServedOneByOne(hash: S.Hash, acts: seq<Action>, c: Sid, startTime: int)
    ensures var s := After(hash, acts, startTime);
      && TurnsOk(s.turns) && S.HistoryOk(s.store.log)
      && Done(s, c) <= |Todo(s, c, startTime)| && Mine(s.turns, c) == Todo(s, c, startTime)[..Done(s, c)]
      && Serve(s.turns) == Single(S.Replay(s.store.log), s.outs)
      && Asked(s.turns) == Committed(s.store.log)
  {
    RunKeeps(hash, acts, startTime);
    assert InStep(After(hash, acts, startTime), c, startTime);
  }

  // ---------------------------------------------------- nobody is stuck

  lemma {:induction false} EffectsOk(chunks: seq<string>, startTime: int)
    ensures P.EventsOk(P.Effects(chunks, startTime))
    decreases |chunks|
  {
    if chunks != [] {
      var before := chunks[..|chunks| - 1];
      EffectsOk(before, startTime);
      var c := P.Feed(before, startTime);
      P.AsksOk(c.mode, c.held + chunks[|chunks| - 1], startTime);
    }
  }

  predicate Advances(hash: S.Hash, s: State, c: Sid, startTime: int)
    requires S.ShardsOk(s.store)
  {
    || Enabled(hash, s, Do(c), startTime) || Enabled(hash, s, Lock(c), startTime)
    || Enabled(hash, s, Draw(c), startTime) || Enabled(hash, s, Commit(c), startTime)
  }

  lemma RunnerAdvances(hash: S.Hash, s: State, c: Sid, startTime: int)
    requires S.ShardsOk(s.store) && RunsNext(s, c, startTime) && c in s.store.running
    ensures Advances(hash, s, c, startTime)
  {
    assert Enabled(hash, s, Draw(c), startTime) || Enabled(hash, s, Commit(c), startTime);
  }

  /** Session `d` holds the lock of the shard that `c` needs next, and can go on. */
  predicate WaitsFor(hash: S.Hash, s: State, c: Sid, d: Sid, startTime: int)
    requires S.ShardsOk(s.store)
  {
    && AsksNext(s, c, startTime) && d in s.store.running && Advances(hash, s, d, startTime)
    && S.Home(hash, s.store.running[d].op.key) == S.Home(hash, OpOf(NextEvent(s, c, startTime)).key)
  }

  /** A session with something to do can always do it, or waits for another one that holds the lock of
      its shard and can itself go on. */
  lemma NobodyStuck(hash: S.Hash, acts: seq<Action>, c: Sid, startTime: int)
    requires HasNext(After(hash, acts, startTime), c, startTime)
    ensures var s := After(hash, acts, startTime);
      Advances(hash, s, c, startTime) || exists d :: WaitsFor(hash, s, c, d, startTime)
  {
    RunKeeps(hash, acts, startTime);
    var s := After(hash, acts, startTime);
    EffectsOk(Fed(s, c), startTime);
    assert P.EventOk(NextEvent(s, c, startTime));
    if c in s.store.running {
      RunnerAdvances(hash, s, c, startTime);
    } else if AsksNext(s, c, startTime) && !S.Free(hash, s.store, OpOf(NextEvent(s, c, startTime)).key) {
      var key := OpOf(NextEvent(s, c, startTime)).key;
      var d :| d in s.store.running && S.Home(hash, s.store.running[d].op.key) == S.Home(hash, key);
      RunnerAdvances(hash, s, d, startTime);
      assert WaitsFor(hash, s, c, d, startTime);
    } else if AsksNext(s, c, startTime) {
      assert Enabled(hash, s, Lock(c), startTime);
    } else {
      assert Enabled(hash, s, Do(c), startTime);
    }
  }

  // ------------------------------------------- what one stores another sees

  /** A turn that may change what is under a key. */
  predicate MayChange(t: Turn, key: S.Key) {
    Asks(t.e) && !OpOf(t.e).Get? && OpOf(t.e).key == key
  }

  ghost function ItemsBefore(turns: seq<Turn>, i: nat): map<S.Key, S.Entry>
    requires TurnsOk(turns) && i <= |turns|
  {
    Serve(turns[..i]).items
  }

  lemma TurnLeaves(turns: seq<Turn>, i: nat, key: S.Key)
    requires TurnsOk(turns) && i < |turns| && !MayChange(turns[i], key)
    ensures S.SameAt(ItemsBefore(turns, i), ItemsBefore(turns, i + 1), key)
  {
    assert turns[..i + 1][..i] == turns[..i];
  }

  lemma {:induction false} Unchanged(turns: seq<Turn>, i: nat, j: nat, key: S.Key)
    requires TurnsOk(turns) && i <= j <= |turns| && forall l :: i <= l < j ==> !MayChange(turns[l], key)
    ensures S.SameAt(ItemsBefore(turns, i), ItemsBefore(turns, j), key)
    decreases j - i
  {
    if i < j {
      Unchanged(turns, i, j - 1, key);
      TurnLeaves(turns, j - 1, key);
    }
  }

  lemma SetThere(turns: seq<Turn>, i: nat)
    requires TurnsOk(turns) && i < |turns|
    requires turns[i].e.Ask? && turns[i].e.op.Store? && turns[i].e.op.policy.Set?
    ensures var items, op := ItemsBefore(turns, i + 1), turns[i].e.op;
      op.key in items && items[op.key] == op.item.(token := turns[i].token)
  {
    assert turns[..i + 1][..i] == turns[..i];
  }

  lemma LookTold(turns: seq<Turn>, j: nat)
    requires TurnsOk(turns) && j < |turns| && turns[j].e.Look? && turns[j].e.key in ItemsBefore(turns, j)
    ensures Serve(turns[..j + 1]).outs[turns[j].c] ==
            Told(OutOf(Serve(turns[..j]).outs, turns[j].c), turns[j].e,
                 S.Found(ItemsBefore(turns, j)[turns[j].e.key]))
  {
    assert turns[..j + 1][..j] == turns[..j];
  }

  /** On every run: what one client has set, another one that looks it up is shown, with the token of the
      set, as long as no turn in between may have changed it. */
  lemma SetIsSeen(hash: S.Hash, acts: seq<Action>, i: nat, j: nat, startTime: int)
    requires var turns := After(hash, acts, startTime).turns;
      && i < j < |turns| && turns[i].e.Ask? && turns[i].e.op.Store? && turns[i].e.op.policy.Set?
      && turns[j].e.Look? && turns[j].e.key == turns[i].e.op.key
      && forall l :: i < l < j ==> !MayChange(turns[l], turns[j].e.key)
    ensures var turns := After(hash, acts, startTime).turns;
      var item := turns[i].e.op.item.(token := turns[i].token);
      && TurnsOk(turns)
      && Serve(turns[..j + 1]).outs[turns[j].c] ==
         Told(OutOf(Serve(turns[..j]).outs, turns[j].c), turns[j].e, S.Found(item))
  {
    RunKeeps(hash, acts, startTime);
    var turns := After(hash, acts, startTime).turns;
    SetThere(turns, i);
    Unchanged(turns, i + 1, j, turns[j].e.key);
    LookTold(turns, j);
  }

  // --------------------------------------------------- one session, alone

  function OutputOf(w: P.World): Out {
    Out(w.pending, w.sent, w.closing)
  }

  /** What a client is told of an event is what the session alone with a store does to its output. */
  lemma ToldIsPerformed(w: P.World, e: P.Event)
    requires S.AllWellFormed(w.items) && P.EventOk(e)
    ensures OutputOf(P.Perform(w, e)) ==
            Told(OutputOf(w), e, if Asks(e) then S.Answer(w.items, OpOf(e)) else S.Missing)
    ensures P.Perform(w, e).items == if Asks(e) then S.Apply(w.items, OpOf(e), w.cas + 1) else w.items
  {
  }
}
