/** The wheel against the events alone: when an entry was last used is read off what the connections did,
    not off what the server noted. */
module WheelHistory {
  import opened Common
  import opened TimingWheel

  function Turns(acts: seq<Action>): nat {
    if acts == [] then 0 else Turns(acts[..|acts| - 1]) + if acts[|acts| - 1].Timer? then 1 else 0
  }

  /** An entry comes but once. */
  predicate Came(acts: seq<Action>, e: Id) {
    Connect(e) in acts
  }

  /** The connection has come and not gone down. */
  predicate Connected(acts: seq<Action>, e: Id) {
    acts != [] &&
    var before, a := acts[..|acts| - 1], acts[|acts| - 1];
    if a == Connect(e) && !Came(before, e) then true
    else if a == Disconnect(e) then false
    else Connected(before, e)
  }

  /** The turn at which an entry was last used, on a wheel of `n` buckets: its connection came, or sent
      something less than `n` turns after it was last used. */
  function LastUse(n: nat, acts: seq<Action>, e: Id): Option<nat> {
    if acts == [] then None
    else
      var before, a := acts[..|acts| - 1], acts[|acts| - 1];
      var last := LastUse(n, before, e);
      if a == Connect(e) && !Came(before, e) then Some(Turns(before))
      else if a == Message(e) && Connected(before, e) && last.Some? && Turns(before) < last.value + n then
        Some(Turns(before))
      else last
  }

  lemma {:induction false} NotedAreUses(n: nat, acts: seq<Action>, e: Id)
    requires n >= 1
    ensures var s := After(n, acts);
      && s.ticks == Turns(acts)
      && (e in s.conns <==> Connected(acts, e))
      && (e in s.touched <==> Came(acts, e))
      && LastUse(n, acts, e) == if e in s.touched then Some(s.touched[e]) else None
    decreases |acts|
  {
    if acts != [] {
      var before := acts[..|acts| - 1];
      NotedAreUses(n, before, e);
      assert acts == before + [acts[|acts| - 1]];
      DiesExactly(n, before, e);
    }
  }

  /** An entry is in some bucket exactly until `n` turns after the last use of it, and a turn shuts exactly
      the connections that are still there and were last used `n` turns before. */
  lemma ShutWhenUnused(n: nat, acts: seq<Action>, e: Id)
    requires n >= 1
    ensures var s, last := After(n, acts), LastUse(n, acts, e);
      && (Alive(s.buckets, e) <==> last.Some? && Turns(acts) < last.value + n)
      && |Next(s, Timer).shut| == Turns(acts) + 1
      && (e in Next(s, Timer).shut[Turns(acts)] <==>
            Connected(acts, e) && last.Some? && Turns(acts) + 1 == last.value + n)
  {
    NotedAreUses(n, acts, e);
    DiesExactly(n, acts, e);
    ShutExactly(n, acts, e);
  }
}
