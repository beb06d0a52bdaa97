/** Idle connections on a wheel of buckets: whatever a connection does puts its entry into the last
    bucket, every second the wheel turns by one, and an entry left in no bucket dies. */
module TimingWheel {

  type Id = nat

  /** `buckets` from the oldest to the newest; `conns` are the connections that still exist;
      `shut` are those shut down by the death of their entry, in order of time. For the record:
      when each entry was last put into a bucket, and when it died. */
  datatype State = State(
    buckets: seq<set<Id>>,
    ticks: nat,
    conns: set<Id>,
    shut: seq<set<Id>>,
    touched: map<Id, nat>,
    died: map<Id, nat>)

  datatype Action =
    | Connect(e: Id)
    | Message(e: Id)
    | Disconnect(e: Id)
    | Timer

  function Init(n: nat): State {
    State(seq(n, i => {}), 0, {}, [], map[], map[])
  }

  /** The entry is still referred to: it is in some bucket. */
  predicate Alive(buckets: seq<set<Id>>, e: Id) {
    exists i :: 0 <= i < |buckets| && e in buckets[i]
  }

  predicate Enabled(s: State, a: Action) {
    s.buckets != [] &&
    match a
    case Connect(e) => e !in s.touched
    case Message(e) => e in s.conns
    case Disconnect(e) => e in s.conns
    case Timer => true
  }

  function Touch(buckets: seq<set<Id>>, e: Id): (r: seq<set<Id>>)
    requires buckets != []
    ensures |r| == |buckets|
  {
    buckets[|buckets| - 1 := buckets[|buckets| - 1] + {e}]
  }

  /** The entries that a turn leaves in no bucket. */
  function Dropped(buckets: seq<set<Id>>): set<Id>
    requires buckets != []
  {
    set e | e in buckets[0] && !Alive(buckets[1..], e)
  }

  function Next(s: State, a: Action): State
    requires Enabled(s, a)
  {
    match a
    case Connect(e) =>
      s.(buckets := Touch(s.buckets, e), conns := s.conns + {e}, touched := s.touched[e := s.ticks])
    case Message(e) =>
      if Alive(s.buckets, e) then s.(buckets := Touch(s.buckets, e), touched := s.touched[e := s.ticks]) else s
    case Disconnect(e) => s.(conns := s.conns - {e})
    case Timer =>
      var dropped := Dropped(s.buckets);
      s.(buckets := s.buckets[1..] + [{}],
         ticks := s.ticks + 1,
         shut := s.shut + [dropped * s.conns],
         died := map e | e in s.died.Keys + dropped :: if e in dropped then s.ticks + 1 else s.died[e])
  }

  function After(n: nat, acts: seq<Action>): (s: State)
    ensures |s.buckets| == n
  {
    if acts == [] then Init(n)
    else
      var t := After(n, acts[..|acts| - 1]);
      if Enabled(t, acts[|acts| - 1]) then Next(t, acts[|acts| - 1]) else t
  }

  // ------------------------------------------------------------- invariant

  /** The bucket that an entry last touched at tick `t` is in at tick `now`. */
  function Slot(n: nat, now: nat, t: nat): int {
    n - 1 - (now - t)
  }

  /** Where an entry is, when it was touched, and whether it has died agree. */
  ghost predicate PlaceOk(n: nat, s: State, e: Id) {
    && |s.buckets| == n
    && (forall i :: 0 <= i < n && e in s.buckets[i] ==> e in s.touched && i <= Slot(n, s.ticks, s.touched[e]))
    && (e in s.touched ==>
          && s.touched[e] <= s.ticks
          && (Slot(n, s.ticks, s.touched[e]) >= 0 ==> e in s.buckets[Slot(n, s.ticks, s.touched[e])]))
    && (e in s.died <==> e in s.touched && s.touched[e] + n <= s.ticks)
    && (e in s.died ==> s.died[e] == s.touched[e] + n)
  }

  ghost predicate Inv(n: nat, s: State) {
    n >= 1 && |s.buckets| == n && |s.shut| == s.ticks && forall e :: PlaceOk(n, s, e)
  }

  lemma AliveWhen(n: nat, s: State, e: Id)
    requires n >= 1 && PlaceOk(n, s, e)
    ensures Alive(s.buckets, e) <==> e in s.touched && s.ticks < s.touched[e] + n
  {
    if e in s.touched && s.ticks < s.touched[e] + n {
      assert e in s.buckets[Slot(n, s.ticks, s.touched[e])];
    }
  }

  lemma DroppedWhen(n: nat, s: State, e: Id)
    requires n >= 1 && PlaceOk(n, s, e)
    ensures e in Dropped(s.buckets) <==> e in s.touched && s.ticks + 1 == s.touched[e] + n
  {
    var tail := s.buckets[1..];
    assert forall i :: 0 <= i < |tail| ==> tail[i] == s.buckets[i + 1];
    if e in s.touched && 1 <= Slot(n, s.ticks, s.touched[e]) {
      assert e in tail[Slot(n, s.ticks, s.touched[e]) - 1];
    }
  }

  lemma TouchKeeps(n: nat, s: State, e: Id, s': State)
    requires Inv(n, s) && (e !in s.touched || Alive(s.buckets, e))
    requires s'.buckets == Touch(s.buckets, e) && s'.touched == s.touched[e := s.ticks]
    requires s'.ticks == s.ticks && s'.died == s.died && s'.shut == s.shut
    ensures Inv(n, s')
  {
    forall j ensures PlaceOk(n, s', j) {
      assert PlaceOk(n, s, j);
      if j == e {
        AliveWhen(n, s, e);
      }
    }
  }

  lemma TimerKeeps(n: nat, s: State)
    requires Inv(n, s) && Enabled(s, Timer)
    ensures Inv(n, Next(s, Timer))
  {
    var s' := Next(s, Timer);
    forall e ensures PlaceOk(n, s', e) {
      assert PlaceOk(n, s, e);
      DroppedWhen(n, s, e);
      TurnKeeps(n, s, s', e);
    }
  }

  lemma TurnKeeps(n: nat, s: State, s': State, e: Id)
    requires n >= 1 && PlaceOk(n, s, e) && s'.buckets == s.buckets[1..] + [{}] && s'.ticks == s.ticks + 1
    requires s'.touched == s.touched
    requires e in s'.died <==> e in s.died || (e in s.touched && s.ticks + 1 == s.touched[e] + n)
    requires e in s'.died ==> s'.died[e] == if e in s.died then s.died[e] else s.ticks + 1
    ensures PlaceOk(n, s', e)
  {
    assert forall i :: 0 <= i < n - 1 ==> s'.buckets[i] == s.buckets[i + 1];
  }

  lemma StepKeeps(n: nat, s: State, a: Action)
    requires Inv(n, s) && Enabled(s, a)
    ensures Inv(n, Next(s, a))
  {
    match a
    case Connect(e) => TouchKeeps(n, s, e, Next(s, a));
    case Message(e) =>
      if Alive(s.buckets, e) {
        TouchKeeps(n, s, e, Next(s, a));
      }
    case Disconnect(e) =>
      forall j ensures PlaceOk(n, Next(s, a), j) {
        assert PlaceOk(n, s, j);
      }
    case Timer => TimerKeeps(n, s);
  }

  lemma {:induction false} RunKeeps(n: nat, acts: seq<Action>)
    requires n >= 1
    ensures Inv(n, After(n, acts))
    decreases |acts|
  {
    if acts != [] {
      RunKeeps(n, acts[..|acts| - 1]);
      var t := After(n, acts[..|acts| - 1]);
      if Enabled(t, acts[|acts| - 1]) {
        StepKeeps(n, t, acts[|acts| - 1]);
      }
    }
  }

  // ---------------------------------------------------------- main results

  /** An entry lives until exactly `n` turns after its last touch: it is in some bucket before that,
      and dies at that turn. */
  lemma DiesExactly(n: nat, acts: seq<Action>, e: Id)
    requires n >= 1
    ensures var s := After(n, acts);
      && (Alive(s.buckets, e) <==> e in s.touched && s.ticks < s.touched[e] + n)
      && (e in s.died <==> e in s.touched && s.ticks >= s.touched[e] + n)
      && (e in s.died ==> s.died[e] == s.touched[e] + n)
  {
    RunKeeps(n, acts);
    var s := After(n, acts);
    assert PlaceOk(n, s, e);
    AliveWhen(n, s, e);
  }

  /** A turn shuts down exactly the connections that still exist and were last touched `n` turns
      before. */
  lemma ShutExactly(n: nat, acts: seq<Action>, e: Id)
    requires n >= 1
    ensures var s := After(n, acts); var s' := Next(s, Timer);
      && |s'.shut| == s'.ticks
      && (e in s'.shut[s.ticks] <==> e in s.conns && e in s.touched && s.touched[e] + n == s'.ticks)
  {
    RunKeeps(n, acts);
    var s := After(n, acts);
    assert PlaceOk(n, s, e);
    DroppedWhen(n, s, e);
  }

  /** What a connection does after its entry has died cannot bring the entry back. */
  lemma {:induction false} DeadStaysDead(n: nat, acts: seq<Action>, more: seq<Action>, e: Id)
    requires n >= 1 && e in After(n, acts).died
    ensures e in After(n, acts + more).died
    ensures After(n, acts + more).died[e] == After(n, acts).died[e]
    ensures !Alive(After(n, acts + more).buckets, e)
    decreases |more|
  {
    DiesExactly(n, acts, e);
    DiesExactly(n, acts + more, e);
    if more == [] {
      assert acts + more == acts;
    } else {
      var before := more[..|more| - 1];
      DeadStaysDead(n, acts, before, e);
      DiesExactly(n, acts + before, e);
      assert (acts + more)[..|acts + more| - 1] == acts + before;
    }
  }

  // -------------------------------------------------------------- the code

  class EchoServer {
    const idleSeconds: nat
    var connectionBuckets: seq<set<Id>>
    var conns: set<Id>
    var shut: set<Id>

    constructor (idleSeconds: nat)
      ensures this.idleSeconds == idleSeconds && connectionBuckets == Init(idleSeconds).buckets
      ensures conns == {} && shut == {}
    {
      this.idleSeconds := idleSeconds;
      connectionBuckets, conns, shut := seq(idleSeconds, i => {}), {}, {};
    }

    method OnConnection(e: Id)
      requires connectionBuckets != []
      modifies this`connectionBuckets, this`conns
      ensures connectionBuckets == Touch(old(connectionBuckets), e) && conns == old(conns) + {e}
    {
      var last := |connectionBuckets| - 1;
      connectionBuckets := connectionBuckets[last := connectionBuckets[last] + {e}];
      conns := conns + {e};
    }

    /** The weak pointer to the entry still leads somewhere exactly while a bucket holds it. */
    method Lock(e: Id) returns (alive: bool)
      ensures alive == Alive(connectionBuckets, e)
    {
      var i := 0;
      while i < |connectionBuckets|
        invariant 0 <= i <= |connectionBuckets|
        invariant forall j :: 0 <= j < i ==> e !in connectionBuckets[j]
      {
        if e in connectionBuckets[i] {
          return true;
        }
        i := i + 1;
      }
      return false;
    }

    method OnMessage(e: Id)
      requires connectionBuckets != []
      modifies this`connectionBuckets
      ensures connectionBuckets ==
              if Alive(old(connectionBuckets), e) then Touch(old(connectionBuckets), e) else old(connectionBuckets)
    {
      var alive := Lock(e);
      if alive {
        var last := |connectionBuckets| - 1;
        connectionBuckets := connectionBuckets[last := connectionBuckets[last] + {e}];
      }
    }

    /** The wheel turns; entries that were only in the oldest bucket die and shut their connections. */
    method OnTimer()
      requires connectionBuckets != []
      modifies this`connectionBuckets, this`shut
      ensures connectionBuckets == old(connectionBuckets)[1..] + [{}]
      ensures shut == old(shut) + Dropped(old(connectionBuckets)) * conns
    {
      var oldest := connectionBuckets[0];
      ghost var dropped := Dropped(connectionBuckets);
      connectionBuckets := connectionBuckets[1..] + [{}];
      ghost var gone: set<Id> := {};
      while oldest != {}
        invariant gone + oldest == old(connectionBuckets)[0]
        invariant connectionBuckets == old(connectionBuckets)[1..] + [{}]
        invariant shut == old(shut) + (dropped * gone) * conns
        decreases oldest
      {
        var e :| e in oldest;
        oldest := oldest - {e};
        gone := gone + {e};
        var alive := Lock(e);
        TurnedAlive(old(connectionBuckets), e);
        if !alive && e in conns {
          shut := shut + {e};
        }
      }
      assert dropped * gone == dropped;
    }
  }

  lemma TurnedAlive(buckets: seq<set<Id>>, e: Id)
    requires buckets != []
    ensures Alive(buckets[1..] + [{}], e) <==> Alive(buckets[1..], e)
  {
    var tail := buckets[1..];
    var turned := tail + [{}];
    assert forall i :: 0 <= i < |tail| ==> turned[i] == tail[i];
  }
}
