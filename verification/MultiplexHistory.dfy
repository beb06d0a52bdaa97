/** What the clients gave to the multiplexer, read off the events alone, against what comes out at the
    sockets of the other side. */
module MultiplexHistory {
  import opened Common
  import opened Multiplexer

  predicate ComesUp(s: State, a: Action, id: Id) {
    Enabled(s, a) && a.ClientUp? && Meaning(a.p) == Up(id)
  }

  /** How many clients have come that were given this id. */
  function Comings(acts: seq<Action>, id: Id): nat {
    if acts == [] then 0
    else
      var before := acts[..|acts| - 1];
      Comings(before, id) + if ComesUp(After(before), acts[|acts| - 1], id) then 1 else 0
  }

  /** All that the `k`-th client with this id has sent. */
  function Given(acts: seq<Action>, id: Id, k: nat): Bytes {
    if acts == [] then ""
    else
      var before, a := acts[..|acts| - 1], acts[|acts| - 1];
      Given(before, id, k) +
      if Enabled(After(before), a) && a.ClientData? && a.id == id && Comings(before, id) == k then a.bytes else ""
  }

  ghost predicate UseGiven(acts: seq<Action>, id: Id, k: nat) {
    var sent := After(acts).sent;
    && ((id, k) in sent <==> 1 <= k <= Comings(acts, id))
    && ((id, k) in sent ==> sent[(id, k)] == Given(acts, id, k))
    && (k > Comings(acts, id) ==> Given(acts, id, k) == "")
  }

  /** An id has come up in the packets as often as a client was given it. */
  lemma UpsAreComings(acts: seq<Action>, id: Id)
    requires !After(acts).failed && forall k :: UseGiven(acts, id, k)
    ensures Ups(Meanings(After(acts).all), id) == Comings(acts, id)
  {
    RunKeeps(acts);
    var s := After(acts);
    var n, m := Ups(Meanings(s.all), id), Comings(acts, id);
    assert UseOk(s.sent, Meanings(s.all), (id, n)) && UseGiven(acts, id, n);
    assert UseOk(s.sent, Meanings(s.all), (id, m)) && UseGiven(acts, id, m);
  }

  /** What one step adds to the record. */
  lemma StepRecords(s: State, a: Action, id: Id, k: nat, n: nat)
    requires Enabled(s, a) && n == Ups(Meanings(s.all), id)
    requires a.ClientData? && a.id == id ==> (id, n) in s.sent
    ensures var s' := Next(s, a);
      if ComesUp(s, a, id) && k == n + 1 then (id, k) in s'.sent && s'.sent[(id, k)] == ""
      else
        && ((id, k) in s'.sent <==> (id, k) in s.sent)
        && var more := if a.ClientData? && a.id == id && k == n then a.bytes else "";
           (id, k) in s.sent ==> s'.sent[(id, k)] == s.sent[(id, k)] + more
  {
    if (id, k) in s.sent {
      assert s.sent[(id, k)] + "" == s.sent[(id, k)];
    }
  }

  lemma {:induction false} RecordIsGiven(acts: seq<Action>, id: Id, k: nat)
    ensures UseGiven(acts, id, k)
    decreases |acts|
  {
    if acts != [] {
      var before, a := acts[..|acts| - 1], acts[|acts| - 1];
      var s := After(before);
      forall j: nat ensures UseGiven(before, id, j) {
        RecordIsGiven(before, id, j);
      }
      assert UseGiven(before, id, k);
      if Enabled(s, a) {
        UpsAreComings(before, id);
        if a.ClientData? && a.id == id {
          HasUse(before, id);
        }
        StepRecords(s, a, id, k, Comings(before, id));
      } else {
        assert Given(before, id, k) + "" == Given(before, id, k);
      }
    }
  }

  lemma HasUse(acts: seq<Action>, id: Id)
    requires !After(acts).failed && id in After(acts).clients
    ensures var s := After(acts); (id, Ups(Meanings(s.all), id)) in s.sent
  {
    RunKeeps(acts);
    var s := After(acts);
    OpenHasUp(Meanings(s.all), id);
    assert UseOk(s.sent, Meanings(s.all), (id, Ups(Meanings(s.all), id)));
  }

  /** What has gone to the sockets of an id since its last coming up was read, together with what is
      pending for it, is the beginning of what the client of that coming has sent. */
  lemma SocketGetsPrefix(acts: seq<Action>, id: Id) returns (k: nat)
    requires var s := After(acts); !s.failed && id in s.conns
    ensures 1 <= k <= Comings(acts, id)
    ensures var e := After(acts).conns[id];
      e.out + e.pending <= Given(acts, id, k) && (e.connected ==> e.pending == "")
  {
    StreamsPreserved(acts, id);
    var s := After(acts);
    k := Ups(Meanings(s.all)[..s.read], id);
    RecordIsGiven(acts, id, k);
  }

  /** Once the link is empty, a client that is still there has got through whatever it has sent: all of it,
      in order, and nothing else is with its socket or pending for it. */
  lemma SocketGetsAll(acts: seq<Action>, id: Id)
    requires var s := After(acts); !s.failed && id in s.clients && s.wire == "" && s.held == ""
    ensures var s := After(acts);
      && id in s.conns && s.conns[id].out + s.conns[id].pending == Given(acts, id, Comings(acts, id))
      && (s.conns[id].connected ==> s.conns[id].out == Given(acts, id, Comings(acts, id)))
  {
    NothingMissing(acts, id);
    var s := After(acts);
    forall j: nat ensures UseGiven(acts, id, j) {
      RecordIsGiven(acts, id, j);
    }
    UpsAreComings(acts, id);
    assert UseGiven(acts, id, Comings(acts, id));
    if s.conns[id].connected {
      RunKeeps(acts);
      assert EntryOk(Meanings(s.all)[..s.read], s.conns, id);
      assert s.conns[id].out + "" == s.conns[id].out;
    }
  }
}
