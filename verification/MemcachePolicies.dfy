/** What every operation of the store does to the map and answers, policy by policy, said of the map
    before it and the map after it. */
module MemcachePolicies {
  import opened MemcacheStore

  /** An update of this policy is carried out on what is there. */
  predicate CarriedOut(policy: Policy, before: map<Key, Entry>, key: Key, token: nat) {
    match policy
    case Set => true
    case Add => key !in before
    case Replace => key in before
    case Append => key in before
    case Prepend => key in before
    case Cas => key in before && before[key].token == token
  }

  /** What is then under the key. */
  function Result(policy: Policy, before: map<Key, Entry>, key: Key, item: Entry, token: nat): Entry
    requires (policy.Append? || policy.Prepend? ==> key in before && |before[key].value| >= 2) && |item.value| >= 2
  {
    match policy
    case Append => before[key].(value := before[key].value[..|before[key].value| - 2] + item.value, token := token)
    case Prepend => before[key].(value := item.value[..|item.value| - 2] + before[key].value, token := token)
    case _ => item.(token := token)
  }

  /** `event` takes the map from `before` to `after`, and its reply says what happened. */
  ghost predicate Does(event: Event, before: map<Key, Entry>, after: map<Key, Entry>)
    requires WellFormed(event.op) && AllWellFormed(before)
  {
    match event.op
    case Get(k) =>
      && after == before && event.token == 0
      && event.reply == if k in before then Found(before[k]) else Missing
    case Delete(k) =>
      && after == before - {k} && event.token == 0
      && event.reply == Deleted(k in before)
    case Store(k, item, policy) =>
      if CarriedOut(policy, before, k, item.token) then
        && event.token != 0 && k in after && after[k] == Result(policy, before, k, item, event.token)
        && after - {k} == before - {k}
        && event.reply == Stored(true, k in before)
      else
        && after == before && event.token == 0
        && event.reply == Stored(false, k in before)
  }

  lemma StoreDoes(event: Event, before: map<Key, Entry>)
    requires WellFormed(event.op) && AllWellFormed(before) && event.op.Store?
    requires event.reply == Answer(before, event.op) && (event.token != 0 <==> Accepted(before, event.op))
    ensures Does(event, before, Apply(before, event.op, event.token))
  {
    var k, after := event.op.key, Apply(before, event.op, event.token);
    assert after - {k} == before - {k};
  }

  /** On every run of the sharded store, each operation of the history takes the one map from what it was to
      what the operation is to make of it, and is answered accordingly. */
  lemma EveryOperation(hash: Hash, acts: seq<Action>, i: nat)
    requires i < |After(hash, acts).log|
    ensures var log := After(hash, acts).log;
      HistoryOk(log) && Does(log[i], Before(log, i), Before(log, i + 1))
  {
    RunKeeps(hash, acts);
    var log := After(hash, acts).log;
    assert EventOk(log, i);
    assert log[..i + 1][..i] == log[..i];
    if log[i].op.Store? {
      StoreDoes(log[i], Before(log, i));
    }
  }
}
