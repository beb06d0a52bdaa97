/** What a request answers and what a renewal writes, said through the table, the cache and the answer alone. */
module LicenseEffects {
  import opened License

  // ---------------------------------------------------------- the requests

  /** The period served for `coin`, if any, when it was asked for at `asked`: what the cache holds as long
      as that reaches the window; behind that what the table has, a stale coin only from a confirmed row
      that reaches past the window, a coin not in the cache from any confirmed row, however short. */
  ghost predicate Serves(cfg: Config, s: State, coin: Coin, asked: int, readOk: bool, period: int) {
    if coin in s.cache then
      if s.cache[coin].licperiod >= asked + cfg.serveWindow || !readOk then period == s.cache[coin].licperiod
      else if coin in s.db && s.db[coin].status == 1 && s.db[coin].licperiod > asked + cfg.serveWindow then
        period == s.db[coin].licperiod
      else period == s.cache[coin].licperiod
    else readOk && coin in s.db && s.db[coin].status == 1 && period == s.db[coin].licperiod
  }

  /** A request gets exactly the answer described, or none when there is none. */
  lemma AnswerExactly(cfg: Config, s: State, readOk: bool)
    requires s.request != []
    ensures var r, s' := s.request[0], Next(cfg, s, Reply(readOk));
      if exists period :: Serves(cfg, s, r.coin, r.asked, readOk, period) then
        && |s'.answers| == |s.answers| + 1 && s'.answers[..|s.answers|] == s.answers
        && var a := s'.answers[|s.answers|];
           a.coin == r.coin && a.asked == r.asked && Serves(cfg, s, r.coin, r.asked, readOk, a.licperiod)
      else s'.answers == s.answers
  {
    var r, s' := s.request[0], Next(cfg, s, Reply(readOk));
    if r.coin in s'.cache {
      assert Serves(cfg, s, r.coin, r.asked, readOk, s'.cache[r.coin].licperiod);
    }
  }

  /** What a request does to the cache. Nothing on a hit or when the read fails. A miss brings in every
      confirmed row of the transaction as the table has it, short of the window or not; a stale hit every
      confirmed row that reaches past the window. All other entries stay as they were. */
  lemma CacheExactly(cfg: Config, s: State, readOk: bool, c: Coin)
    requires s.request != []
    ensures var r, s' := s.request[0], Next(cfg, s, Reply(readOk));
      var stale := r.coin in s.cache && s.cache[r.coin].licperiod < r.asked + cfg.serveWindow;
      var read := readOk && c in s.db && s.db[c].status == 1 &&
                  (if r.coin in s.cache then stale && s.db[c].licperiod > r.asked + cfg.serveWindow
                   else c.txid == r.coin.txid);
      && s'.db == s.db
      && (read ==> c in s'.cache && s'.cache[c] == s.db[c])
      && (!read ==> (c in s'.cache <==> c in s.cache) && (c in s.cache ==> s'.cache[c] == s.cache[c]))
  {
    var r := s.request[0];
    if !Hit(cfg, s.cache, r.coin, r.asked) && readOk {
      var known := Refreshed(cfg, s.db, s.cache, r.coin, r.asked);
      assert c in s.db ==> (Wanted(cfg, s.cache, r.coin, r.asked, c, s.db[c]) <==>
                            if r.coin in s.cache then Fresh(cfg, s.db[c], r.asked)
                            else s.db[c].status == 1 && c.txid == r.coin.txid);
      assert c in known ==> c in Next(cfg, s, Reply(readOk)).cache;
    }
  }

  // ---------------------------------------------------------- the renewals

  ghost predicate InTable(s: State) {
    forall i :: 0 <= i < |s.batch| ==> s.batch[i].0 in s.db
  }

  lemma StepInTable(cfg: Config, s: State, a: Action)
    requires InTable(s) && Enabled(cfg, s, a)
    ensures InTable(Next(cfg, s, a))
  {
    var t := Next(cfg, s, a);
    forall i | 0 <= i < |t.batch| ensures t.batch[i].0 in t.db {
      assert a.Renew? ==> t.batch[i] == s.batch[i + 1];
    }
  }

  lemma {:induction false} BatchInTable(cfg: Config, now: int, db: Table, acts: seq<Action>)
    ensures InTable(After(cfg, Init(now, db), acts))
    decreases |acts|
  {
    if acts != [] {
      var t, a := After(cfg, Init(now, db), acts[..|acts| - 1]), acts[|acts| - 1];
      BatchInTable(cfg, now, db, acts[..|acts| - 1]);
      if Enabled(cfg, t, a) {
        StepInTable(cfg, t, a);
      }
    }
  }

  /** The earlier of two points in time. */
  function Sooner(a: int, b: int): int {
    if a < b then a else b
  }

  /** In every run, a renewal is made exactly for a confirmed row whose licence ends before the period of
      the node does and no later than the update window, with a key that is in order. It sets the licence
      to the renewal limit from now or to the end of the node's period as the watcher read it, whichever
      comes first, and touches no other column and no other row. */
  lemma RenewalExactly(cfg: Config, now: int, db: Table, acts: seq<Action>, signatureOk: bool, writeOk: bool)
    requires After(cfg, Init(now, db), acts).batch != []
    ensures var s := After(cfg, Init(now, db), acts);
      var (coin, mn) := s.batch[0];
      var made := mn.status == 1 && mn.licperiod < mn.nodeperiod && mn.licperiod <= s.now + cfg.needUpdate
                  && mn.keyOk && signatureOk && writeOk;
      var db' := Next(cfg, s, Renew(signatureOk, writeOk)).db;
      && coin in s.db && db'.Keys == s.db.Keys
      && db'[coin].licperiod == (if made then Sooner(s.now + cfg.periodLimit, mn.nodeperiod)
                                 else s.db[coin].licperiod)
      && db'[coin].licversion == (if made then cfg.keyVersion else s.db[coin].licversion)
      && db'[coin].status == s.db[coin].status && db'[coin].nodeperiod == s.db[coin].nodeperiod
      && db'[coin].keyOk == s.db[coin].keyOk
      && (forall c :: c in s.db && c != coin ==> db'[c] == s.db[c])
  {
    BatchInTable(cfg, now, db, acts);
  }

  /** The table with everything a round of the watcher does to it, row by row: where `i` is the place of
      `c` in the batch, if it has one. */
  ghost predicate RoundOf(cfg: Config, db: Table, batch: seq<(Coin, Node)>, luck: seq<Luck>, after: Table)
    requires |batch| <= |luck|
  {
    && after.Keys == db.Keys
    && (forall c :: c in db && (forall i :: 0 <= i < |batch| ==> batch[i].0 != c) ==> after[c] == db[c])
    && (forall i :: 0 <= i < |batch| && batch[i].0 in db ==> after[batch[i].0] == RowAfter(cfg, db, batch[i], luck[i]))
  }

  ghost function RowAfter(cfg: Config, db: Table, row: (Coin, Node), luck: Luck): Node
    requires row.0 in db
  {
    var (c, mn) := row;
    if mn.status == 1 && mn.licperiod < mn.nodeperiod && mn.licperiod <= luck.now + cfg.needUpdate
       && mn.keyOk && luck.signatureOk && luck.writeOk then
      db[c].(licperiod := Sooner(luck.now + cfg.periodLimit, mn.nodeperiod), licversion := cfg.keyVersion)
    else db[c]
  }

  ghost predicate EachOnce(batch: seq<(Coin, Node)>) {
    forall i, j :: 0 <= i < j < |batch| ==> batch[i].0 != batch[j].0
  }

  lemma {:induction false} RoundIs(cfg: Config, db: Table, batch: seq<(Coin, Node)>, luck: seq<Luck>)
    requires |batch| <= |luck| && EachOnce(batch)
    ensures RoundOf(cfg, db, batch, luck, RenewAll(cfg, db, batch, luck))
    decreases |batch|
  {
    if batch != [] {
      var last := |batch| - 1;
      var before := RenewAll(cfg, db, batch[..last], luck);
      RoundIs(cfg, db, batch[..last], luck);
      var (coin, mn) := batch[last];
      assert coin in db ==> before[coin] == db[coin];
      var after := RenewAll(cfg, db, batch, luck);
      forall c | c in db && forall i :: 0 <= i < |batch| ==> batch[i].0 != c ensures after[c] == db[c] {
        assert forall i :: 0 <= i < last ==> batch[..last][i] == batch[i];
        assert batch[last].0 != c;
      }
      forall i | 0 <= i < |batch| && batch[i].0 in db
        ensures after[batch[i].0] == RowAfter(cfg, db, batch[i], luck[i])
      {
        assert i < last ==> batch[..last][i] == batch[i];
      }
    }
  }

  lemma RoundRow(cfg: Config, db: Table, now: int, batch: seq<(Coin, Node)>, luck: seq<Luck>, i: nat)
    requires |batch| <= |luck| && ListsDue(cfg, db, now, batch) && i < |batch|
    requires luck[i].now >= now && luck[i].signatureOk && luck[i].writeOk
    requires RoundOf(cfg, db, batch, luck, RenewAll(cfg, db, batch, luck))
    ensures var c := batch[i].0;
      && c in db && db[c].status == 1 && db[c].licperiod < now + cfg.needUpdate && now < db[c].nodeperiod
      && RenewAll(cfg, db, batch, luck)[c] ==
         (if db[c].licperiod < db[c].nodeperiod && db[c].keyOk then
            db[c].(licperiod := Sooner(luck[i].now + cfg.periodLimit, db[c].nodeperiod), licversion := cfg.keyVersion)
          else db[c])
  {
    assert batch[i].1 == db[batch[i].0] && Due(cfg, batch[i].1, now);
  }

  /** A whole round: exactly the confirmed rows that run out within the update window and whose node is
      paid for come out renewed, each to the smaller of the two ends, and every other row is as before. */
  lemma {:induction false} RoundRenews(cfg: Config, db: Table, now: int, batch: seq<(Coin, Node)>,
                                       luck: seq<Luck>, c: Coin)
    requires |batch| <= |luck| && ListsDue(cfg, db, now, batch) && c in db
    requires forall i :: 0 <= i < |luck| ==> luck[i].now >= now && luck[i].signatureOk && luck[i].writeOk
    ensures var after := RenewAll(cfg, db, batch, luck);
      c in after &&
      if db[c].status == 1 && db[c].licperiod < now + cfg.needUpdate && now < db[c].nodeperiod
         && db[c].licperiod < db[c].nodeperiod && db[c].keyOk then
        exists i :: 0 <= i < |batch| && batch[i].0 == c &&
          after[c] == db[c].(licperiod := Sooner(luck[i].now + cfg.periodLimit, db[c].nodeperiod),
                             licversion := cfg.keyVersion)
      else after[c] == db[c]
  {
    RoundIs(cfg, db, batch, luck);
    if i :| 0 <= i < |batch| && batch[i].0 == c {
      RoundRow(cfg, db, now, batch, luck, i);
    }
  }
}
