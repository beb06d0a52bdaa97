/** The memcached server's store: items spread over 4096 locked shards, a global token counter
    and the six update policies. Every shard operation is three separate steps (take the lock,
    draw a token, write and release), so operations on different shards interleave freely. */
module MemcacheStore {

  const SHARDS := 4096
  const LONGEST_KEY := 250

  type Key = string
  type Tid = nat
  type Hash = Key -> nat

  /** An item in the table; `value` holds the body and its trailing CR LF. */
  datatype Entry = Entry(flags: nat, exptime: int, value: string, token: nat)

  datatype Policy = Set | Add | Replace | Append | Prepend | Cas

  datatype Op =
    | Store(key: Key, item: Entry, policy: Policy)
    | Get(key: Key)
    | Delete(key: Key)

  datatype Reply =
    | Stored(ok: bool, existed: bool)
    | Found(item: Entry)
    | Missing
    | Deleted(ok: bool)

  // ------------------------------------------------- one map from keys to items

  predicate EndsWithCrlf(v: string) {
    |v| >= 2 && v[|v| - 2] == '\r' && v[|v| - 1] == '\n'
  }

  function Body(v: string): string
    requires |v| >= 2
  {
    v[..|v| - 2]
  }

  /** What the server asserts of an item it is given: complete, at least two bytes of value. */
  predicate WellFormed(op: Op) {
    op.Store? ==> EndsWithCrlf(op.item.value)
  }

  predicate AllWellFormed(m: map<Key, Entry>) {
    forall k :: k in m ==> EndsWithCrlf(m[k].value)
  }

  /** The store operation is carried out, not refused. */
  predicate Accepted(m: map<Key, Entry>, op: Op) {
    op.Store? &&
    match op.policy
    case Set => true
    case Add => op.key !in m
    case Replace => op.key in m
    case Append => op.key in m
    case Prepend => op.key in m
    case Cas => op.key in m && m[op.key].token == op.item.token
  }

  /** The value two items make when joined, as appending and prepending build it. */
  function Joined(policy: Policy, was: string, added: string): string
    requires |was| >= 2 && |added| >= 2
  {
    if policy.Append? then Body(was) + added else Body(added) + was
  }

  function Written(m: map<Key, Entry>, op: Op, token: nat): Entry
    requires Accepted(m, op) && WellFormed(op) && AllWellFormed(m)
  {
    match op.policy
    case Set => op.item.(token := token)
    case Add => op.item.(token := token)
    case Replace => op.item.(token := token)
    case Cas => op.item.(token := token)
    case _ => Entry(m[op.key].flags, m[op.key].exptime, Joined(op.policy, m[op.key].value, op.item.value), token)
  }

  function Apply(m: map<Key, Entry>, op: Op, token: nat): (r: map<Key, Entry>)
    requires WellFormed(op) && AllWellFormed(m)
    ensures AllWellFormed(r)
  {
    match op
    case Store(_, _, _) => if Accepted(m, op) then m[op.key := Written(m, op, token)] else m
    case Get(_) => m
    case Delete(k) => m - {k}
  }

  function Answer(m: map<Key, Entry>, op: Op): Reply {
    match op
    case Store(k, _, _) => Stored(Accepted(m, op), k in m)
    case Get(k) => if k in m then Found(m[k]) else Missing
    case Delete(k) => Deleted(k in m)
  }

  /** Appending and prepending join the two bodies and keep one trailing CR LF, the flags and
      the expiry of the item already there. */
  lemma BodiesJoined(m: map<Key, Entry>, op: Op, token: nat)
    requires WellFormed(op) && AllWellFormed(m) && Accepted(m, op) && (op.policy.Append? || op.policy.Prepend?)
    ensures var was, now := m[op.key], Apply(m, op, token)[op.key];
      && EndsWithCrlf(now.value)
      && Body(now.value) == (if op.policy.Append? then Body(was.value) + Body(op.item.value)
                             else Body(op.item.value) + Body(was.value))
      && now.flags == was.flags && now.exptime == was.exptime
  {
  }

  // ------------------------------------------------- the sharded, locked machine

  /** An operation under way: it holds its shard's lock; `token` is 0 until one is drawn. */
  datatype Running = Running(op: Op, token: nat)

  datatype Event = Event(op: Op, token: nat, reply: Reply)

  datatype State = State(
    shards: seq<map<Key, Entry>>,
    cas: nat,
    running: map<Tid, Running>,
    log: seq<Event>)

  datatype Action =
    | Lock(t: Tid, op: Op)
    | Draw(t: Tid)
    | Commit(t: Tid)

  function Home(hash: Hash, k: Key): (i: nat)
    ensures i < SHARDS
  {
    hash(k) % SHARDS
  }

  function Init(): State {
    State(seq(SHARDS, i => map[]), 0, map[], [])
  }

  predicate ShardsOk(s: State) {
    |s.shards| == SHARDS && forall i :: 0 <= i < SHARDS ==> AllWellFormed(s.shards[i])
  }

  predicate RunningOk(s: State) {
    forall t :: t in s.running ==> WellFormed(s.running[t].op)
  }

  predicate Free(hash: Hash, s: State, k: Key) {
    forall t :: t in s.running ==> Home(hash, s.running[t].op.key) != Home(hash, k)
  }

  predicate Enabled(hash: Hash, s: State, a: Action)
    requires ShardsOk(s)
  {
    match a
    case Lock(t, op) => t !in s.running && WellFormed(op) && Free(hash, s, op.key)
    case Draw(t) =>
      t in s.running && s.running[t].token == 0 &&
      Accepted(s.shards[Home(hash, s.running[t].op.key)], s.running[t].op)
    case Commit(t) =>
      t in s.running &&
      (Accepted(s.shards[Home(hash, s.running[t].op.key)], s.running[t].op) ==> s.running[t].token != 0)
  }

  function Next(hash: Hash, s: State, a: Action): (s': State)
    requires ShardsOk(s) && RunningOk(s) && Enabled(hash, s, a)
    ensures ShardsOk(s') && RunningOk(s')
  {
    match a
    case Lock(t, op) => s.(running := s.running[t := Running(op, 0)])
    case Draw(t) => s.(cas := s.cas + 1, running := s.running[t := s.running[t].(token := s.cas + 1)])
    case Commit(t) =>
      var r := s.running[t];
      var h := Home(hash, r.op.key);
      State(s.shards[h := Apply(s.shards[h], r.op, r.token)], s.cas, s.running - {t},
            s.log + [Event(r.op, r.token, Answer(s.shards[h], r.op))])
  }

  // ------------------------------------------------- the committed history

  ghost predicate HistoryOk(log: seq<Event>) {
    forall i :: 0 <= i < |log| ==> WellFormed(log[i].op)
  }

  /** The single map that the committed operations build one after another. */
  ghost function Replay(log: seq<Event>): (m: map<Key, Entry>)
    requires HistoryOk(log)
    ensures AllWellFormed(m)
  {
    if log == [] then map[] else
    Apply(Replay(log[..|log| - 1]), log[|log| - 1].op, log[|log| - 1].token)
  }

  ghost function Before(log: seq<Event>, i: nat): map<Key, Entry>
    requires HistoryOk(log) && i <= |log|
  {
    Replay(log[..i])
  }

  /** Every reply is the one a single map would have given at that moment, and an operation
      carries a token exactly when it wrote an item. */
  ghost predicate Sequential(log: seq<Event>)
    requires HistoryOk(log)
  {
    forall i :: 0 <= i < |log| ==> EventOk(log, i)
  }

  ghost predicate EventOk(log: seq<Event>, i: nat)
    requires HistoryOk(log) && i < |log|
  {
    && log[i].reply == Answer(Before(log, i), log[i].op)
    && (log[i].token != 0 <==> Accepted(Before(log, i), log[i].op))
  }

  ghost predicate Distinct(log: seq<Event>) {
    forall i, j :: 0 <= i < j < |log| && log[i].token != 0 ==> log[i].token != log[j].token
  }

  ghost predicate TokensBelow(log: seq<Event>, cas: nat) {
    forall i :: 0 <= i < |log| ==> log[i].token <= cas
  }

  // ------------------------------------------------- invariant

  ghost predicate Placed(hash: Hash, s: State) {
    |s.shards| == SHARDS &&
    forall i, k :: 0 <= i < SHARDS && k in s.shards[i] ==> Home(hash, k) == i
  }

  ghost predicate Locked(hash: Hash, s: State) {
    forall t, u :: t in s.running && u in s.running && t != u ==>
      Home(hash, s.running[t].op.key) != Home(hash, s.running[u].op.key)
  }

  ghost predicate DrawnOk(hash: Hash, s: State) {
    |s.shards| == SHARDS &&
    forall t :: t in s.running && s.running[t].token != 0 ==>
      && s.running[t].token <= s.cas
      && Accepted(s.shards[Home(hash, s.running[t].op.key)], s.running[t].op)
      && (forall i :: 0 <= i < |s.log| ==> s.log[i].token != s.running[t].token)
      && (forall u :: u in s.running && u != t ==> s.running[u].token != s.running[t].token)
  }

  /** The shards together hold exactly what the history put there. */
  ghost predicate Agrees(hash: Hash, s: State)
    requires |s.shards| == SHARDS && HistoryOk(s.log)
  {
    forall k :: SameAt(s.shards[Home(hash, k)], Replay(s.log), k)
  }

  ghost predicate SameAt(a: map<Key, Entry>, b: map<Key, Entry>, k: Key) {
    (k in a <==> k in b) && (k in a ==> a[k] == b[k])
  }

  ghost predicate Inv(hash: Hash, s: State) {
    && ShardsOk(s) && RunningOk(s)
    && Placed(hash, s) && Locked(hash, s) && DrawnOk(hash, s)
    && HistoryOk(s.log) && Sequential(s.log) && Distinct(s.log) && TokensBelow(s.log, s.cas)
    && Agrees(hash, s)
  }

  lemma SameDecision(a: map<Key, Entry>, b: map<Key, Entry>, op: Op, token: nat)
    requires SameAt(a, b, op.key) && WellFormed(op) && AllWellFormed(a) && AllWellFormed(b)
    ensures Accepted(a, op) == Accepted(b, op) && Answer(a, op) == Answer(b, op)
    ensures SameAt(Apply(a, op, token), Apply(b, op, token), op.key)
  {
  }

  lemma HistoryGrows(log: seq<Event>, e: Event)
    requires HistoryOk(log) && Sequential(log) && WellFormed(e.op)
    requires e.reply == Answer(Replay(log), e.op) && (e.token != 0 <==> Accepted(Replay(log), e.op))
    ensures HistoryOk(log + [e]) && Sequential(log + [e])
    ensures Replay(log + [e]) == Apply(Replay(log), e.op, e.token)
  {
    var all := log + [e];
    assert all[..|all| - 1] == log;
    forall i | 0 <= i < |all| ensures EventOk(all, i) {
      assert all[..i] == if i < |log| then log[..i] else log;
      assert i < |log| ==> EventOk(log, i);
    }
  }

  lemma LockKeeps(hash: Hash, s: State, t: Tid, op: Op)
    requires Inv(hash, s) && Enabled(hash, s, Lock(t, op))
    ensures Inv(hash, Next(hash, s, Lock(t, op)))
  {
  }

  lemma DrawKeeps(hash: Hash, s: State, t: Tid)
    requires Inv(hash, s) && Enabled(hash, s, Draw(t))
    ensures Inv(hash, Next(hash, s, Draw(t)))
  {
    var s' := Next(hash, s, Draw(t));
    assert DrawnOk(hash, s');
  }

  lemma CommitAgrees(hash: Hash, s: State, t: Tid)
    requires Inv(hash, s) && Enabled(hash, s, Commit(t))
    ensures var s' := Next(hash, s, Commit(t));
      HistoryOk(s'.log) && Sequential(s'.log) && Agrees(hash, s')
  {
    var s' := Next(hash, s, Commit(t));
    var r := s.running[t];
    var h := Home(hash, r.op.key);
    assert SameAt(s.shards[h], Replay(s.log), r.op.key);
    SameDecision(s.shards[h], Replay(s.log), r.op, r.token);
    HistoryGrows(s.log, Event(r.op, r.token, Answer(s.shards[h], r.op)));
    forall k ensures SameAt(s'.shards[Home(hash, k)], Replay(s'.log), k) {
      assert SameAt(s.shards[Home(hash, k)], Replay(s.log), k);
    }
  }

  lemma CommitDrawn(hash: Hash, s: State, t: Tid)
    requires Inv(hash, s) && Enabled(hash, s, Commit(t))
    ensures DrawnOk(hash, Next(hash, s, Commit(t)))
  {
    var s' := Next(hash, s, Commit(t));
    forall u | u in s'.running && s'.running[u].token != 0
      ensures Accepted(s'.shards[Home(hash, s'.running[u].op.key)], s'.running[u].op) {
      assert u != t;
    }
  }

  lemma CommitKeeps(hash: Hash, s: State, t: Tid)
    requires Inv(hash, s) && Enabled(hash, s, Commit(t))
    ensures Inv(hash, Next(hash, s, Commit(t)))
  {
    var s' := Next(hash, s, Commit(t));
    CommitAgrees(hash, s, t);
    assert Placed(hash, s');
    CommitDrawn(hash, s, t);
    assert Distinct(s'.log) && TokensBelow(s'.log, s'.cas);
  }

  lemma StepKeeps(hash: Hash, s: State, a: Action)
    requires Inv(hash, s) && Enabled(hash, s, a)
    ensures Inv(hash, Next(hash, s, a))
  {
    match a
    case Lock(t, op) => LockKeeps(hash, s, t, op);
    case Draw(t) => DrawKeeps(hash, s, t);
    case Commit(t) => CommitKeeps(hash, s, t);
  }

  /** The state after some prefix of the actions; a step that is not enabled changes nothing. */
  ghost function After(hash: Hash, acts: seq<Action>): (s: State)
    ensures ShardsOk(s) && RunningOk(s)
  {
    if acts == [] then Init() else
    var s := After(hash, acts[..|acts| - 1]);
    if Enabled(hash, s, acts[|acts| - 1]) then Next(hash, s, acts[|acts| - 1]) else s
  }

  lemma {:induction false} RunKeeps(hash: Hash, acts: seq<Action>)
    ensures Inv(hash, After(hash, acts))
  {
    if acts != [] {
      var before := acts[..|acts| - 1];
      RunKeeps(hash, before);
      if Enabled(hash, After(hash, before), acts[|acts| - 1]) {
        StepKeeps(hash, After(hash, before), acts[|acts| - 1]);
      }
    }
  }

  // ------------------------------------------------- main results

  /** Whatever the interleaving, the 4096 shards are one map: every reply is what a single map
      would have answered at the moment of commit, and a key is found where the single map has it. */
  lemma ShardsAreOneMap(hash: Hash, acts: seq<Action>, k: Key)
    ensures var s := After(hash, acts);
      && HistoryOk(s.log) && Sequential(s.log)
      && SameAt(s.shards[Home(hash, k)], Replay(s.log), k)
      && (forall i :: 0 <= i < SHARDS && k in s.shards[i] ==> i == Home(hash, k))
      && AllWellFormed(Replay(s.log))
  {
    RunKeeps(hash, acts);
    var s := After(hash, acts);
    assert SameAt(s.shards[Home(hash, k)], Replay(s.log), k);
  }

  /** The item under a key was written by one event of the history, on that key, with its token. */
  lemma {:induction false} WriterOf(log: seq<Event>, k: Key) returns (w: nat)
    requires HistoryOk(log) && Sequential(log) && k in Replay(log)
    ensures w < |log| && log[w].op.Store? && log[w].op.key == k
    ensures log[w].token != 0 && log[w].token == Replay(log)[k].token
    ensures k in Before(log, w + 1) && Before(log, w + 1)[k] == Replay(log)[k]
    decreases |log|
  {
    var n := |log| - 1;
    var was, e := log[..n], log[n];
    assert forall i :: 0 <= i < n ==> was[..i] == log[..i];
    assert Sequential(was) by {
      forall i | 0 <= i < n ensures EventOk(was, i) {
        assert EventOk(log, i);
      }
    }
    assert EventOk(log, n);
    if e.op.key == k && Accepted(Replay(was), e.op) {
      w := n;
      assert log[..n + 1] == log;
    } else {
      w := WriterOf(was, k);
      assert was[..w + 1] == log[..w + 1];
    }
  }

  /** No two live items anywhere in the store ever carry the same token. */
  lemma TokensUnique(hash: Hash, acts: seq<Action>, j: Key, k: Key)
    ensures var s := After(hash, acts);
      var a, b := s.shards[Home(hash, j)], s.shards[Home(hash, k)];
      j in a && k in b && j != k ==> a[j].token != b[k].token
  {
    RunKeeps(hash, acts);
    var s := After(hash, acts);
    var a, b := s.shards[Home(hash, j)], s.shards[Home(hash, k)];
    assert SameAt(a, Replay(s.log), j) && SameAt(b, Replay(s.log), k);
    if j in a && k in b && j != k {
      var v := WriterOf(s.log, j);
      var w := WriterOf(s.log, k);
    }
  }

  /** Event `i` changed what is under key `k`. */
  ghost predicate Touches(log: seq<Event>, i: nat, k: Key)
    requires i < |log|
  {
    log[i].op.key == k && (log[i].token != 0 || (log[i].op.Delete? && log[i].reply == Deleted(true)))
  }

  lemma {:induction false} UntouchedStays(log: seq<Event>, i: nat, j: nat, k: Key)
    requires HistoryOk(log) && Sequential(log) && i <= j <= |log|
    requires forall l :: i <= l < j ==> !Touches(log, l, k)
    ensures SameAt(Before(log, i), Before(log, j), k)
    decreases j - i
  {
    if i < j {
      UntouchedStays(log, i, j - 1, k);
      assert EventOk(log, j - 1) && !Touches(log, j - 1, k);
      assert log[..j][..j - 1] == log[..j - 1];
    }
  }

  /** Once event `i` has touched a key, no later item there carries a token drawn before `i`. */
  lemma {:induction false} TouchedDiffers(log: seq<Event>, w: nat, i: nat, j: nat, k: Key)
    requires HistoryOk(log) && Sequential(log) && Distinct(log)
    requires w < i < j <= |log| && log[w].token != 0 && Touches(log, i, k)
    ensures k in Before(log, j) ==> Before(log, j)[k].token != log[w].token
    decreases j
  {
    assert EventOk(log, j - 1);
    assert log[..j][..j - 1] == log[..j - 1];
    if j > i + 1 {
      TouchedDiffers(log, w, i, j - 1, k);
    }
  }

  /** The heart of compare-and-swap: a client that read an item under `k` (event `i`) and later
      sends a cas store with that item's token (event `j`) succeeds exactly when nobody wrote or
      deleted `k` in between; a value put back by other clients never counts as unchanged. */
  lemma CasExact(hash: Hash, acts: seq<Action>, i: nat, j: nat)
    requires var log := After(hash, acts).log;
      && i < j < |log| && log[i].op.Get? && log[i].reply.Found?
      && log[j].op.Store? && log[j].op.policy.Cas?
      && log[j].op.key == log[i].op.key && log[j].op.item.token == log[i].reply.item.token
    ensures var log := After(hash, acts).log; var k := log[i].op.key;
      && log[j].reply.Stored?
      && (log[j].reply.ok <==> forall l :: i < l < j ==> !Touches(log, l, k))
  {
    RunKeeps(hash, acts);
    var log := After(hash, acts).log;
    var k := log[i].op.key;
    assert EventOk(log, i) && EventOk(log, j);
    assert !Touches(log, i, k);
    assert HistoryOk(log[..i]) && Sequential(log[..i]) by {
      forall l | 0 <= l < i ensures EventOk(log[..i], l) {
        assert EventOk(log, l) && log[..i][..l] == log[..l];
      }
    }
    var w := WriterOf(log[..i], k);
    if forall l :: i < l < j ==> !Touches(log, l, k) {
      UntouchedStays(log, i, j, k);
    } else {
      var l :| i < l < j && Touches(log, l, k);
      TouchedDiffers(log, w, l, j, k);
    }
  }

  // ------------------------------------------------- one call, alone

  /** The three steps of one operation, run without others in between. */
  ghost function Whole(hash: Hash, s: State, op: Op): State
    requires ShardsOk(s) && s.running == map[] && WellFormed(op)
  {
    var l := Next(hash, s, Lock(0, op));
    var d := if Accepted(l.shards[Home(hash, op.key)], op) then Next(hash, l, Draw(0)) else l;
    Next(hash, d, Commit(0))
  }

  lemma WholeKeeps(hash: Hash, s: State, op: Op)
    requires Inv(hash, s) && s.running == map[] && WellFormed(op)
    ensures Inv(hash, Whole(hash, s, op))
  {
    StepKeeps(hash, s, Lock(0, op));
    var l := Next(hash, s, Lock(0, op));
    if Accepted(l.shards[Home(hash, op.key)], op) {
      StepKeeps(hash, l, Draw(0));
      StepKeeps(hash, Next(hash, l, Draw(0)), Commit(0));
    } else {
      StepKeeps(hash, l, Commit(0));
    }
  }

  lemma WholeIs(hash: Hash, s: State, op: Op)
    requires ShardsOk(s) && s.running == map[] && WellFormed(op)
    ensures var h := Home(hash, op.key);
      var done := Accepted(s.shards[h], op);
      var token := if done then s.cas + 1 else 0;
      Whole(hash, s, op) ==
        State(s.shards[h := Apply(s.shards[h], op, token)], if done then s.cas + 1 else s.cas, map[],
              s.log + [Event(op, token, Answer(s.shards[h], op))])
  {
    var l := Next(hash, s, Lock(0, op));
    assert l.running == map[0 := Running(op, 0)];
    if Accepted(l.shards[Home(hash, op.key)], op) {
      var d := Next(hash, l, Draw(0));
      assert d.running - {0} == map[];
    } else {
      assert l.running - {0} == map[];
    }
  }

  /** `t` is what a store leaves, given what it decided and wrote. */
  lemma WholeStore(hash: Hash, s: State, op: Op, ok: bool, updated: map<Key, Entry>, drawn: nat, t: State)
    requires Inv(hash, s) && s.running == map[] && WellFormed(op) && op.Store?
    requires ok == Accepted(s.shards[Home(hash, op.key)], op) && drawn == (if ok then s.cas + 1 else s.cas)
    requires updated == Apply(s.shards[Home(hash, op.key)], op, if ok then drawn else 0)
    requires t == State(s.shards[Home(hash, op.key) := updated], drawn, map[],
      s.log + [Event(op, if ok then drawn else 0, Stored(ok, op.key in s.shards[Home(hash, op.key)]))])
    ensures t == Whole(hash, s, op) && Inv(hash, t)
  {
    WholeKeeps(hash, s, op);
    WholeIs(hash, s, op);
  }

  // ------------------------------------------------- the code

  /** One allocated block: the key followed by the value, filled front to back. */
  class Item {
    var keyLen: nat
    const flags: nat
    const exptime: int
    const valueLen: nat
    var received: nat
    var cas: nat
    const data: array<char>

    ghost predicate Valid()
      reads this
    {
      valueLen >= 2 && received <= keyLen + valueLen <= data.Length
    }

    ghost function Written(): string
      requires Valid()
      reads this, data
    {
      data[..received]
    }

    function KeyOf(): string
      requires Valid()
      reads this, data
    {
      data[..keyLen]
    }

    function Value(): string
      requires Valid()
      reads this, data
    {
      data[keyLen..keyLen + valueLen]
    }

    function View(): Entry
      requires Valid()
      reads this, data
    {
      Entry(flags, exptime, Value(), cas)
    }

    constructor (key: string, flags: nat, exptime: int, valueLen: nat, cas: nat)
      requires valueLen >= 2
      ensures Valid() && fresh(data)
      ensures keyLen == |key| && this.flags == flags && this.exptime == exptime
      ensures this.valueLen == valueLen && this.cas == cas && received == |key|
      ensures Written() == key && data.Length == |key| + valueLen
    {
      keyLen := |key|;
      this.flags := flags;
      this.exptime := exptime;
      this.valueLen := valueLen;
      this.cas := cas;
      received := 0;
      data := new char[|key| + valueLen];
      new;
      Append(key);
    }

    function NeededBytes(): nat
      requires Valid()
      reads this
    {
      keyLen + valueLen - received
    }

    method Append(bytes: string)
      requires Valid() && |bytes| <= NeededBytes()
      modifies this`received, data
      ensures Valid() && received == old(received) + |bytes|
      ensures Written() == old(Written()) + bytes
    {
      var i := 0;
      while i < |bytes|
        invariant 0 <= i <= |bytes| && received == old(received)
        invariant data[..received + i] == old(data[..received]) + bytes[..i]
      {
        data[received + i] := bytes[i];
        i := i + 1;
      }
      received := received + |bytes|;
    }

    method EndsWithCRLF() returns (r: bool)
      requires Valid()
      ensures r <==> received == keyLen + valueLen && EndsWithCrlf(Value())
    {
      var total := keyLen + valueLen;
      r := received == total && data[total - 2] == '\r' && data[total - 1] == '\n';
    }

    /** The look-up needle takes another key; its block was made for the longest one. */
    method ResetKey(key: string)
      requires Valid() && |key| <= LONGEST_KEY && |key| + valueLen <= data.Length
      modifies this`keyLen, this`received, data
      ensures Valid() && KeyOf() == key && received == |key| && NeededBytes() == valueLen
    {
      keyLen := |key|;
      received := 0;
      Append(key);
    }
  }

  method Fill(item: Item, policy: Policy, was: string, added: string)
    requires item.Valid() && item.received == item.keyLen && |was| >= 2 && |added| >= 2
    requires item.NeededBytes() == |was| + |added| - 2
    modifies item`received, item.data
    ensures item.Valid() && item.NeededBytes() == 0 && item.Value() == Joined(policy, was, added)
  {
    ghost var key := item.Written();
    if policy.Append? {
      item.Append(was[..|was| - 2]);
      item.Append(added);
      assert item.Written() == key + was[..|was| - 2] + added;
    } else {
      item.Append(added[..|added| - 2]);
      item.Append(was);
      assert item.Written() == key + added[..|added| - 2] + was;
    }
    assert item.Written() == key + Joined(policy, was, added);
    assert item.Value() == item.Written()[item.keyLen..];
  }

  /** A fresh item, with a token of its own, that holds both values. */
  method Join(item: Item, policy: Policy, was: Entry, token: nat) returns (joined: Entry)
    requires item.Valid() && EndsWithCrlf(item.Value()) && EndsWithCrlf(was.value)
    requires policy.Append? || policy.Prepend?
    ensures joined == Entry(was.flags, was.exptime, Joined(policy, was.value, item.Value()), token)
    ensures EndsWithCrlf(joined.value)
  {
    var newLen := item.valueLen + |was.value| - 2;
    var added := item.Value();
    var newItem := new Item(item.KeyOf(), was.flags, was.exptime, newLen, token);
    Fill(newItem, policy, was.value, added);
    joined := newItem.View();
  }

  /** The part of a store under the shard's lock: decide, draw the next token, write. */
  method Update(items: map<Key, Entry>, item: Item, policy: Policy, last: nat)
    returns (ok: bool, existed: bool, updated: map<Key, Entry>, drawn: nat)
    requires AllWellFormed(items)
    requires item.Valid() && item.NeededBytes() == 0 && EndsWithCrlf(item.Value())
    modifies item`cas
    ensures var op := old(Op.Store(item.KeyOf(), item.View(), policy));
      && ok == Accepted(items, op) && existed == (op.key in items)
      && drawn == (if ok then last + 1 else last)
      && updated == Apply(items, op, if ok then drawn else 0)
  {
    var key := item.KeyOf();
    ghost var op := Op.Store(key, item.View(), policy);
    existed := key in items;
    ok := true;
    updated := items;
    drawn := last;
    match policy {
      case Set =>
        drawn := drawn + 1;
        item.cas := drawn;
        if existed {
          updated := updated - {key};
        }
        updated := updated[key := item.View()];
      case Add =>
        if existed {
          ok := false;
        } else {
          drawn := drawn + 1;
          item.cas := drawn;
          updated := updated[key := item.View()];
        }
      case Replace =>
        if existed {
          drawn := drawn + 1;
          item.cas := drawn;
          updated := (updated - {key})[key := item.View()];
        } else {
          ok := false;
        }
      case Cas =>
        if existed && items[key].token == item.cas {
          drawn := drawn + 1;
          item.cas := drawn;
          updated := (updated - {key})[key := item.View()];
        } else {
          ok := false;
        }
      case _ =>
        if existed {
          drawn := drawn + 1;
          var joined := Join(item, policy, items[key], drawn);
          updated := (updated - {key})[key := joined];
        } else {
          ok := false;
        }
    }
  }

  class MemcacheServer {
    const hash: Hash
    const shards: array<map<Key, Entry>>
    var gCas: nat
    ghost var log: seq<Event>

    ghost predicate Valid()
      reads this, shards
    {
      shards.Length == SHARDS && Inv(hash, View())
    }

    ghost function View(): State
      reads this, shards
    {
      State(shards[..], gCas, map[], log)
    }

    constructor (hash: Hash)
      ensures Valid() && fresh(shards) && this.hash == hash && View() == Init()
    {
      this.hash := hash;
      shards := new map<Key, Entry>[SHARDS](i => map[]);
      gCas := 0;
      log := [];
      new;
      assert shards[..] == seq(SHARDS, i => map[]);
      assert Inv(hash, Init());
    }

    method StoreItem(item: Item, policy: Policy) returns (ok: bool, existed: bool)
      requires Valid() && item.Valid() && item.NeededBytes() == 0 && EndsWithCrlf(item.Value())
      modifies this, shards, item`cas
      ensures Valid()
      ensures var op := old(Op.Store(item.KeyOf(), item.View(), policy));
        && View() == Whole(hash, old(View()), op)
        && Stored(ok, existed) == Answer(old(shards[Home(hash, op.key)]), op)
    {
      ghost var s := View();
      ghost var op := Op.Store(item.KeyOf(), item.View(), policy);
      var h := Home(hash, item.KeyOf());
      var items := shards[h];
      assert items == s.shards[h];
      var updated, drawn;
      ok, existed, updated, drawn := Update(items, item, policy, gCas);
      WriteBack(h, updated, drawn, Event(op, if ok then drawn else 0, Stored(ok, existed)));
      WholeStore(hash, s, op, ok, updated, drawn, View());
    }

    method WriteBack(h: nat, updated: map<Key, Entry>, drawn: nat, ghost event: Event)
      requires h < shards.Length
      modifies this, shards
      ensures View() == State(old(shards[..])[h := updated], drawn, map[], old(log) + [event])
    {
      gCas := drawn;
      shards[h] := updated;
      log := log + [event];
      assert shards[..] == old(shards[..])[h := updated];
    }

    method GetItem(key: Key) returns (r: Reply)
      requires Valid()
      modifies this`log
      ensures Valid() && View() == Whole(hash, old(View()), Get(key))
      ensures r == Answer(shards[Home(hash, key)], Get(key))
    {
      ghost var s := View();
      WholeKeeps(hash, s, Get(key));
      WholeIs(hash, s, Get(key));
      var items := shards[Home(hash, key)];
      r := if key in items then Found(items[key]) else Missing;
      log := log + [Event(Get(key), 0, r)];
      assert shards[..] == s.shards[Home(hash, key) := items];
    }

    method DeleteItem(key: Key) returns (deleted: bool)
      requires Valid()
      modifies this`log, shards
      ensures Valid() && View() == Whole(hash, old(View()), Delete(key))
      ensures deleted <==> key in old(shards[Home(hash, key)])
    {
      ghost var s := View();
      WholeKeeps(hash, s, Delete(key));
      WholeIs(hash, s, Delete(key));
      var h := Home(hash, key);
      deleted := key in shards[h];
      shards[h] := shards[h] - {key};
      log := log + [Event(Delete(key), 0, Deleted(deleted))];
    }
  }
}
