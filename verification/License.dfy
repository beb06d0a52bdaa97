/** Two processes around one table: the watcher renews licences that run out, and the centre
    answers requests from a cache that it refreshes from the table. */
module License {

  type Txid = string

  /** A coin names a node. */
  datatype Coin = Coin(txid: Txid, vout: nat)

  /** A row of the table. */
  datatype Node = Node(status: int, licperiod: int, nodeperiod: int, keyOk: bool, licversion: int)

  /** The settings: the watcher's renewal limit and update window, and the centre's window. */
  datatype Config = Config(periodLimit: int, needUpdate: int, serveWindow: int, keyVersion: int)

  type Table = map<Coin, Node>

  // ------------------------------------------------------------ the watcher

  /** The rows a round picks: confirmed, licence running out, node still paid for. */
  predicate Due(cfg: Config, mn: Node, now: int) {
    mn.status == 1 && mn.licperiod < now + cfg.needUpdate && mn.nodeperiod > now
  }

  /** What signing refuses, before it has tried anything. */
  predicate Refused(cfg: Config, mn: Node, now: int) {
    mn.licperiod >= mn.nodeperiod || mn.licperiod > now + cfg.needUpdate || mn.status != 1
  }

  function Min(a: int, b: int): int {
    if a > b then b else a
  }

  /** The row with a new period, as signed. */
  function Renewed(cfg: Config, mn: Node, now: int): Node {
    mn.(licperiod := Min(now + cfg.periodLimit, mn.nodeperiod), licversion := cfg.keyVersion)
  }

  predicate Signs(cfg: Config, mn: Node, now: int, signatureOk: bool) {
    !Refused(cfg, mn, now) && mn.keyOk && signatureOk
  }

  /** Every due row that is signed gains time exactly when the renewal limit is at least the update
      window; otherwise there is a due row that does not. */
  lemma GrowsExactly(cfg: Config, now: int)
    ensures (forall mn :: Due(cfg, mn, now) && Signs(cfg, mn, now, true) ==>
               Renewed(cfg, mn, now).licperiod > mn.licperiod)
            <==> cfg.periodLimit >= cfg.needUpdate
  {
    if cfg.periodLimit < cfg.needUpdate {
      var lic := now + cfg.needUpdate - 1;
      var mn := Node(1, lic, (if lic > now then lic else now) + 1, true, 1);
      assert Due(cfg, mn, now) && Signs(cfg, mn, now, true);
      assert Renewed(cfg, mn, now).licperiod <= mn.licperiod;
    }
  }

  // ------------------------------------------------------------ the centre

  predicate Fresh(cfg: Config, mn: Node, now: int) {
    mn.status == 1 && mn.licperiod > now + cfg.serveWindow
  }

  /** The rows a request reads: after a stale hit all that are fresh, after a miss all confirmed
      ones of the same transaction. */
  predicate Wanted(cfg: Config, cache: Table, coin: Coin, now: int, c: Coin, mn: Node) {
    if coin in cache then Fresh(cfg, mn, now) else mn.status == 1 && c.txid == coin.txid
  }

  predicate Hit(cfg: Config, cache: Table, coin: Coin, now: int) {
    coin in cache && cache[coin].licperiod >= now + cfg.serveWindow
  }

  /** The cache after the wanted rows have been copied into it. */
  function Refreshed(cfg: Config, db: Table, cache: Table, coin: Coin, now: int): (r: Table)
    ensures forall c :: c in r <==> c in cache || (c in db && Wanted(cfg, cache, coin, now, c, db[c]))
    ensures forall c :: c in r ==>
      r[c] == if c in db && Wanted(cfg, cache, coin, now, c, db[c]) then db[c] else cache[c]
  {
    map c | c in cache.Keys + db.Keys && (c in cache || (c in db && Wanted(cfg, cache, coin, now, c, db[c]))) ::
      if c in db && Wanted(cfg, cache, coin, now, c, db[c]) then db[c] else cache[c]
  }

  // ------------------------------------------------------ the whole system

  /** A request under way holds the centre's lock; its clock reading is taken at the start. */
  datatype Request = Request(coin: Coin, asked: int)

  /** An answer given: the period served and, for the record, when it was asked for. */
  datatype Answer = Answer(coin: Coin, asked: int, licperiod: int)

  datatype State = State(
    now: int,
    db: Table,
    batch: seq<(Coin, Node)>,
    cache: Table,
    request: seq<Request>,
    answers: seq<Answer>)

  /** The clock runs; others confirm nodes, pay for them or add new ones; the watcher selects and
      then renews row by row; the centre takes a request and answers it. */
  datatype Action =
    | Tick(elapsed: nat)
    | Administer(coin: Coin, mn: Node)
    | SelectDue(rows: seq<(Coin, Node)>, readOk: bool)
    | Renew(signatureOk: bool, writeOk: bool)
    | Load(readOk: bool)
    | Ask(coin: Coin)
    | Reply(readOk: bool)

  /** `rows` lists exactly the rows that are due, each once. */
  predicate ListsDue(cfg: Config, db: Table, now: int, rows: seq<(Coin, Node)>) {
    && (forall i :: 0 <= i < |rows| ==> rows[i].0 in db && rows[i].1 == db[rows[i].0] && Due(cfg, rows[i].1, now))
    && (forall i, j :: 0 <= i < j < |rows| ==> rows[i].0 != rows[j].0)
    && (forall c :: c in db && Due(cfg, db[c], now) ==> exists i :: 0 <= i < |rows| && rows[i].0 == c)
  }

  predicate Enabled(cfg: Config, s: State, a: Action) {
    match a
    case Tick(_) => true
    case Administer(coin, mn) => coin in s.db ==> mn.licperiod == s.db[coin].licperiod
    case SelectDue(rows, readOk) => s.batch == [] && (readOk ==> ListsDue(cfg, s.db, s.now, rows))
    case Renew(_, _) => s.batch != []
    case Load(_) => s.cache == map[] && s.request == [] && s.answers == []
    case Ask(_) => s.request == []
    case Reply(_) => s.request != []
  }

  /** A renewal changes the licence columns of the row as it is now, if it still exists. */
  function Written(db: Table, coin: Coin, mn: Node): Table {
    if coin in db then db[coin := db[coin].(licperiod := mn.licperiod, licversion := mn.licversion)] else db
  }

  function Next(cfg: Config, s: State, a: Action): State
    requires Enabled(cfg, s, a)
  {
    match a
    case Tick(elapsed) => s.(now := s.now + elapsed)
    case Administer(coin, mn) => s.(db := s.db[coin := mn])
    case SelectDue(rows, readOk) => s.(batch := if readOk then rows else [])
    case Renew(signatureOk, writeOk) =>
      var (coin, mn) := s.batch[0];
      s.(batch := s.batch[1..],
         db := if Signs(cfg, mn, s.now, signatureOk) && writeOk then Written(s.db, coin, Renewed(cfg, mn, s.now))
               else s.db)
    case Load(readOk) =>
      s.(cache := if readOk then map c | c in s.db && s.db[c].status == 1 :: s.db[c] else s.cache)
    case Ask(coin) => s.(request := [Request(coin, s.now)])
    case Reply(readOk) =>
      var r := s.request[0];
      var cache := if Hit(cfg, s.cache, r.coin, r.asked) || !readOk then s.cache
                   else Refreshed(cfg, s.db, s.cache, r.coin, r.asked);
      s.(cache := cache, request := [],
         answers := if r.coin in cache then s.answers + [Answer(r.coin, r.asked, cache[r.coin].licperiod)]
                    else s.answers)
  }

  function Init(now: int, db: Table): State {
    State(now, db, [], map[], [], [])
  }

  function After(cfg: Config, start: State, acts: seq<Action>): State {
    if acts == [] then start
    else
      var t := After(cfg, start, acts[..|acts| - 1]);
      if Enabled(cfg, t, acts[|acts| - 1]) then Next(cfg, t, acts[|acts| - 1]) else t
  }

  // ------------------------------------------------------------- invariant

  /** The watcher's copies still carry the licence periods of the table, each coin once. */
  ghost predicate BatchOk(cfg: Config, s: State) {
    && (forall i :: 0 <= i < |s.batch| ==> CopyOk(cfg, s, s.batch[i].0, s.batch[i].1))
    && (forall i, j :: 0 <= i < j < |s.batch| ==> s.batch[i].0 != s.batch[j].0)
  }

  ghost predicate CopyOk(cfg: Config, s: State, c: Coin, mn: Node) {
    c in s.db && s.db[c].licperiod == mn.licperiod && mn.licperiod < s.now + cfg.needUpdate
  }

  /** What the centre knows is never ahead of the table, and never behind what it has said. */
  ghost predicate CacheOk(s: State) {
    && (forall c :: c in s.cache ==> c in s.db && s.cache[c].licperiod <= s.db[c].licperiod)
    && (forall i :: 0 <= i < |s.answers| ==> SaidOk(s, s.answers[i]))
  }

  ghost predicate SaidOk(s: State, a: Answer) {
    a.coin in s.cache && a.licperiod <= s.cache[a.coin].licperiod
  }

  ghost predicate AnswersRise(answers: seq<Answer>) {
    forall i, j :: 0 <= i < j < |answers| && answers[i].coin == answers[j].coin ==>
      answers[i].licperiod <= answers[j].licperiod
  }

  ghost predicate Inv(cfg: Config, s: State) {
    && BatchOk(cfg, s) && CacheOk(s) && AnswersRise(s.answers)
    && (s.request != [] ==> s.request[0].asked <= s.now)
  }

  /** Licences only ever get longer, and no row disappears. */
  ghost predicate NotShorter(db: Table, db': Table) {
    forall c :: c in db ==> c in db' && db[c].licperiod <= db'[c].licperiod
  }

  lemma RenewKeeps(cfg: Config, s: State, signatureOk: bool, writeOk: bool)
    requires Inv(cfg, s) && cfg.periodLimit >= cfg.needUpdate && Enabled(cfg, s, Renew(signatureOk, writeOk))
    ensures var s' := Next(cfg, s, Renew(signatureOk, writeOk));
      Inv(cfg, s') && NotShorter(s.db, s'.db)
  {
    var s' := Next(cfg, s, Renew(signatureOk, writeOk));
    var (coin, mn) := s.batch[0];
    assert CopyOk(cfg, s, s.batch[0].0, s.batch[0].1);
    forall i | 0 <= i < |s'.batch| ensures CopyOk(cfg, s', s'.batch[i].0, s'.batch[i].1) {
      assert s'.batch[i] == s.batch[i + 1];
      assert CopyOk(cfg, s, s.batch[i + 1].0, s.batch[i + 1].1);
    }
    forall i | 0 <= i < |s'.answers| ensures SaidOk(s', s'.answers[i]) {
      assert SaidOk(s, s.answers[i]);
    }
  }

  lemma ReplyKeeps(cfg: Config, s: State, readOk: bool)
    requires Inv(cfg, s) && Enabled(cfg, s, Reply(readOk))
    ensures Inv(cfg, Next(cfg, s, Reply(readOk)))
  {
    var s' := Next(cfg, s, Reply(readOk));
    assert forall c :: c in s.cache ==> c in s'.cache && s.cache[c].licperiod <= s'.cache[c].licperiod;
    forall i | 0 <= i < |s'.answers| ensures SaidOk(s', s'.answers[i]) {
      assert i < |s.answers| ==> SaidOk(s, s.answers[i]);
    }
    forall i, j | 0 <= i < j < |s'.answers| && s'.answers[i].coin == s'.answers[j].coin
      ensures s'.answers[i].licperiod <= s'.answers[j].licperiod
    {
      assert SaidOk(s, s.answers[i]);
    }
    assert forall i :: 0 <= i < |s'.batch| ==> CopyOk(cfg, s, s.batch[i].0, s.batch[i].1);
  }

  lemma StepKeeps(cfg: Config, s: State, a: Action)
    requires Inv(cfg, s) && cfg.periodLimit >= cfg.needUpdate && Enabled(cfg, s, a)
    ensures Inv(cfg, Next(cfg, s, a)) && NotShorter(s.db, Next(cfg, s, a).db) && s.now <= Next(cfg, s, a).now
  {
    var s' := Next(cfg, s, a);
    if a.Renew? {
      RenewKeeps(cfg, s, a.signatureOk, a.writeOk);
    } else if a.Reply? {
      ReplyKeeps(cfg, s, a.readOk);
    } else {
      forall i | 0 <= i < |s'.batch| ensures CopyOk(cfg, s', s'.batch[i].0, s'.batch[i].1) {
        assert !a.SelectDue? ==> CopyOk(cfg, s, s.batch[i].0, s.batch[i].1);
      }
      forall i | 0 <= i < |s'.answers| ensures SaidOk(s', s'.answers[i]) {
        assert SaidOk(s, s.answers[i]);
      }
    }
  }

  lemma {:induction false} RunKeeps(cfg: Config, start: State, acts: seq<Action>)
    requires Inv(cfg, start) && cfg.periodLimit >= cfg.needUpdate
    ensures Inv(cfg, After(cfg, start, acts)) && NotShorter(start.db, After(cfg, start, acts).db)
    decreases |acts|
  {
    if acts != [] {
      var before := acts[..|acts| - 1];
      RunKeeps(cfg, start, before);
      var t := After(cfg, start, before);
      if Enabled(cfg, t, acts[|acts| - 1]) {
        StepKeeps(cfg, t, acts[|acts| - 1]);
      }
    }
  }

  // ---------------------------------------------------------- main results

  /** Along every run, each renewal that is signed and written strictly lengthens that licence, keeps it
      within the node's period as the watcher read it, and changes no other row. */
  lemma RenewalsLengthen(cfg: Config, now: int, db: Table, acts: seq<Action>, signatureOk: bool, writeOk: bool)
    requires cfg.periodLimit >= cfg.needUpdate
    requires After(cfg, Init(now, db), acts).batch != []
    ensures var s := After(cfg, Init(now, db), acts);
      var (coin, mn) := s.batch[0];
      var s' := Next(cfg, s, Renew(signatureOk, writeOk));
      && coin in s.db
      && (if Signs(cfg, mn, s.now, signatureOk) && writeOk then
            && s.db[coin].licperiod < s'.db[coin].licperiod <= mn.nodeperiod
            && s'.db[coin] == s.db[coin].(licperiod := s'.db[coin].licperiod, licversion := cfg.keyVersion)
          else s'.db == s.db)
      && s'.db - {coin} == s.db - {coin}
  {
    RunKeeps(cfg, Init(now, db), acts);
    var s := After(cfg, Init(now, db), acts);
    assert CopyOk(cfg, s, s.batch[0].0, s.batch[0].1);
  }

  /** The period served for a coin never decreases from one request to a later one. */
  lemma ServedNeverFalls(cfg: Config, now: int, db: Table, acts: seq<Action>, i: nat, j: nat)
    requires cfg.periodLimit >= cfg.needUpdate
    requires var answers := After(cfg, Init(now, db), acts).answers;
      i < j < |answers| && answers[i].coin == answers[j].coin
    ensures var answers := After(cfg, Init(now, db), acts).answers;
      answers[i].licperiod <= answers[j].licperiod
  {
    RunKeeps(cfg, Init(now, db), acts);
  }

  /** When the row is confirmed and its licence reaches past the window, and the read succeeds, the
      request is answered with a period that reaches at least as far as the window. */
  lemma ServedIsFresh(cfg: Config, now: int, db: Table, acts: seq<Action>)
    requires var s := After(cfg, Init(now, db), acts);
      s.request != [] && s.request[0].coin in s.db && Fresh(cfg, s.db[s.request[0].coin], s.request[0].asked)
    ensures var s := After(cfg, Init(now, db), acts);
      var s' := Next(cfg, s, Reply(true));
      && |s'.answers| == |s.answers| + 1
      && s'.answers[|s.answers|].coin == s.request[0].coin
      && s'.answers[|s.answers|].licperiod >= s.request[0].asked + cfg.serveWindow
  {
    var s := After(cfg, Init(now, db), acts);
    var r := s.request[0];
    if !Hit(cfg, s.cache, r.coin, r.asked) {
      assert Wanted(cfg, s.cache, r.coin, r.asked, r.coin, s.db[r.coin]);
    }
  }

  /** Whatever is served was in the table: it never promises more than the table holds. */
  lemma ServedIsBacked(cfg: Config, now: int, db: Table, acts: seq<Action>, i: nat)
    requires cfg.periodLimit >= cfg.needUpdate && i < |After(cfg, Init(now, db), acts).answers|
    ensures var s := After(cfg, Init(now, db), acts);
      s.answers[i].coin in s.db && s.answers[i].licperiod <= s.db[s.answers[i].coin].licperiod
  {
    RunKeeps(cfg, Init(now, db), acts);
    var s := After(cfg, Init(now, db), acts);
    assert SaidOk(s, s.answers[i]);
  }

  // -------------------------------------------------------------- the code

  /** The table as a server: a read or a write may fail. */
  class Database {
    var rows: Table

    constructor (rows: Table)
      ensures this.rows == rows
    {
      this.rows := rows;
    }

    /** All rows that meet the filter, each once; nothing when the read fails. */
    method SelectMNode(filter: (Coin, Node) -> bool, online: bool) returns (ok: bool, found: seq<(Coin, Node)>)
      ensures ok == online && (!ok ==> found == [])
      ensures ok ==> ListsExactly(rows, filter, found)
    {
      ok, found := online, [];
      if !online {
        return;
      }
      var left := rows.Keys;
      while left != {}
        invariant left <= rows.Keys
        invariant ListsExactly(map c | c in rows && c !in left :: rows[c], filter, found)
        decreases left
      {
        var c :| c in left;
        left := left - {c};
        if filter(c, rows[c]) {
          var before := found;
          found := found + [(c, rows[c])];
          assert found[|before|].0 == c;
          assert forall i :: 0 <= i < |before| ==> found[i] == before[i];
        }
      }
      assert (map c | c in rows && c !in left :: rows[c]) == rows;
    }

    method UpdateLicense(coin: Coin, mn: Node, online: bool) returns (ok: bool)
      modifies this
      ensures ok == online && rows == if ok then Written(old(rows), coin, mn) else old(rows)
    {
      ok := online;
      if online && coin in rows {
        rows := rows[coin := rows[coin].(licperiod := mn.licperiod, licversion := mn.licversion)];
      }
    }
  }

  ghost predicate ListsExactly(rows: Table, filter: (Coin, Node) -> bool, found: seq<(Coin, Node)>) {
    && (forall i :: 0 <= i < |found| ==> Listed(rows, filter, found[i]))
    && (forall i, j :: 0 <= i < j < |found| ==> found[i].0 != found[j].0)
    && (forall c :: c in rows && filter(c, rows[c]) ==> exists i :: 0 <= i < |found| && found[i].0 == c)
  }

  ghost predicate Listed(rows: Table, filter: (Coin, Node) -> bool, row: (Coin, Node)) {
    row.0 in rows && row.1 == rows[row.0] && filter(row.0, row.1)
  }

  /** What the outside world decides while one row is handled: the clock, the key, the server. */
  datatype Luck = Luck(now: int, signatureOk: bool, writeOk: bool)

  /** The table after the first rows of a batch have been dealt with in turn. */
  function RenewAll(cfg: Config, db: Table, batch: seq<(Coin, Node)>, luck: seq<Luck>): Table
    requires |batch| <= |luck|
  {
    if batch == [] then db
    else
      var last := |batch| - 1;
      var before := RenewAll(cfg, db, batch[..last], luck);
      var (coin, mn) := batch[last];
      if Signs(cfg, mn, luck[last].now, luck[last].signatureOk) && luck[last].writeOk
      then Written(before, coin, Renewed(cfg, mn, luck[last].now))
      else before
  }

  class LicenseWatcher {
    const cfg: Config

    constructor (cfg: Config)
      ensures this.cfg == cfg
    {
      this.cfg := cfg;
    }

    method SelectNeedUpdateMNData(db: Database, now: int, online: bool) returns (rows: seq<(Coin, Node)>)
      ensures online ==> ListsDue(cfg, db.rows, now, rows)
      ensures !online ==> rows == []
    {
      var ok;
      var filter := (c: Coin, mn: Node) => Due(cfg, mn, now);
      ok, rows := db.SelectMNode(filter, online);
      assert online ==> forall i :: 0 <= i < |rows| ==> Listed(db.rows, filter, rows[i]);
      assert forall c, mn: Node :: filter(c, mn) == Due(cfg, mn, now);
    }

    /** Signs a copy of a row; the copy keeps its new period even when the signature then fails. */
    method SignMNLicense(row: Node, now: int, signatureOk: bool) returns (ok: bool, mn: Node)
      ensures ok == Signs(cfg, row, now, signatureOk)
      ensures mn == if Refused(cfg, row, now) || !row.keyOk then row else Renewed(cfg, row, now)
    {
      mn := row;
      var tlimit := now + cfg.needUpdate;
      if mn.licperiod >= mn.nodeperiod || mn.licperiod > tlimit || mn.status != 1 {
        return false, mn;
      }
      if !mn.keyOk {
        return false, mn;
      }
      mn := mn.(licperiod := now + cfg.periodLimit);
      if mn.licperiod > mn.nodeperiod {
        mn := mn.(licperiod := mn.nodeperiod);
      }
      mn := mn.(licversion := cfg.keyVersion);
      ok := signatureOk;
    }

    method UpdateDB(db: Database, rows: seq<(Coin, Node)>, luck: seq<Luck>)
      requires |rows| <= |luck|
      modifies db
      ensures db.rows == RenewAll(cfg, old(db.rows), rows, luck)
    {
      var i := 0;
      while i < |rows|
        invariant 0 <= i <= |rows|
        invariant db.rows == RenewAll(cfg, old(db.rows), rows[..i], luck)
      {
        var (coin, row) := rows[i];
        var ok, mn := SignMNLicense(row, luck[i].now, luck[i].signatureOk);
        if ok {
          var written := db.UpdateLicense(coin, mn, luck[i].writeOk);
        }
        assert rows[..i + 1][..i] == rows[..i];
        i := i + 1;
      }
      assert rows[..i] == rows;
    }
  }

  class UCenter {
    const cfg: Config
    var mapMNodeList: Table

    constructor (cfg: Config, db: Database, online: bool)
      ensures this.cfg == cfg
      ensures mapMNodeList == if online then map c | c in db.rows && db.rows[c].status == 1 :: db.rows[c] else map[]
    {
      this.cfg := cfg;
      mapMNodeList := map[];
      new;
      var filter := (c: Coin, mn: Node) => mn.status == 1;
      var ok, rows := db.SelectMNode(filter, online);
      CopyRows(db.rows, filter, rows, ok);
      assert forall c, mn: Node :: filter(c, mn) == (mn.status == 1);
    }

    /** Copies what a read returned over the cache. */
    method CopyRows(ghost db: Table, ghost filter: (Coin, Node) -> bool, rows: seq<(Coin, Node)>, ghost ok: bool)
      requires ok ==> ListsExactly(db, filter, rows)
      requires !ok ==> rows == []
      modifies this`mapMNodeList
      ensures !ok ==> mapMNodeList == old(mapMNodeList)
      ensures ok ==> Copied(db, filter, old(mapMNodeList), mapMNodeList)
    {
      var i := 0;
      ghost var before := mapMNodeList;
      while i < |rows|
        invariant 0 <= i <= |rows|
        invariant CopiedUpTo(before, rows, i, mapMNodeList)
      {
        if ok {
          CopyOne(before, rows, i, mapMNodeList);
        }
        mapMNodeList := mapMNodeList[rows[i].0 := rows[i].1];
        i := i + 1;
      }
      if ok {
        CopyDone(db, filter, before, rows, mapMNodeList);
      }
    }

    /** One request, under the centre's lock. */
    method SelectMNData(db: Database, coin: Coin, now: int, online: bool) returns (found: bool, mn: Node)
      modifies this`mapMNodeList
      ensures mapMNodeList == if Hit(cfg, old(mapMNodeList), coin, now) || !online then old(mapMNodeList)
                              else Refreshed(cfg, db.rows, old(mapMNodeList), coin, now)
      ensures found == (coin in mapMNodeList) && (found ==> mn == mapMNodeList[coin])
    {
      mn := Node(-1, -1, -1, false, 0);
      ghost var before := mapMNodeList;
      if coin in mapMNodeList {
        if mapMNodeList[coin].licperiod >= now + cfg.serveWindow {
          return true, mapMNodeList[coin];
        }
        var filter := (c: Coin, row: Node) => Fresh(cfg, row, now);
        var ok, rows := db.SelectMNode(filter, online);
        CopyRows(db.rows, filter, rows, ok);
        assert forall c, row: Node :: filter(c, row) == Wanted(cfg, before, coin, now, c, row);
      } else {
        var filter := (c: Coin, row: Node) => row.status == 1 && c.txid == coin.txid;
        var ok, rows := db.SelectMNode(filter, online);
        CopyRows(db.rows, filter, rows, ok);
        assert forall c, row: Node :: filter(c, row) == Wanted(cfg, before, coin, now, c, row);
      }
      assert online ==> mapMNodeList == Refreshed(cfg, db.rows, before, coin, now);
      if coin in mapMNodeList {
        return true, mapMNodeList[coin];
      }
      found := false;
    }
  }

  ghost predicate Among(rows: seq<(Coin, Node)>, n: nat, c: Coin)
    requires n <= |rows|
  {
    exists k :: 0 <= k < n && rows[k].0 == c
  }

  /** The first `n` rows have been copied over `before`. */
  ghost predicate CopiedUpTo(before: Table, rows: seq<(Coin, Node)>, n: nat, after: Table)
    requires n <= |rows|
  {
    && (forall c :: c in after <==> c in before || Among(rows, n, c))
    && (forall c :: c in after && !Among(rows, n, c) ==> c in before && after[c] == before[c])
    && (forall k :: 0 <= k < n ==> rows[k].0 in after && after[rows[k].0] == rows[k].1)
  }

  lemma OneMoreAmong(rows: seq<(Coin, Node)>, n: nat, c: Coin)
    requires n < |rows|
    ensures Among(rows, n + 1, c) <==> Among(rows, n, c) || rows[n].0 == c
  {
  }

  lemma CopyOne(before: Table, rows: seq<(Coin, Node)>, n: nat, after: Table)
    requires n < |rows| && CopiedUpTo(before, rows, n, after) && !Among(rows, n, rows[n].0)
    ensures CopiedUpTo(before, rows, n + 1, after[rows[n].0 := rows[n].1])
  {
    var next := after[rows[n].0 := rows[n].1];
    forall c ensures c in next <==> c in before || Among(rows, n + 1, c) {
      OneMoreAmong(rows, n, c);
    }
    forall c | c in next && !Among(rows, n + 1, c) ensures c in before && next[c] == before[c] {
      OneMoreAmong(rows, n, c);
    }
    forall k | 0 <= k < n + 1 ensures rows[k].0 in next && next[rows[k].0] == rows[k].1 {
      assert k < n ==> Among(rows, n, rows[k].0);
    }
  }

  lemma CopyDone(db: Table, filter: (Coin, Node) -> bool, before: Table, rows: seq<(Coin, Node)>, after: Table)
    requires ListsExactly(db, filter, rows) && CopiedUpTo(before, rows, |rows|, after)
    ensures Copied(db, filter, before, after)
  {
    forall c ensures Among(rows, |rows|, c) <==> c in db && filter(c, db[c]) {
      if Among(rows, |rows|, c) {
        var k :| 0 <= k < |rows| && rows[k].0 == c;
        assert Listed(db, filter, rows[k]);
      }
    }
    forall c | c in after && Among(rows, |rows|, c) ensures after[c] == db[c] {
      var k :| 0 <= k < |rows| && rows[k].0 == c;
      assert Listed(db, filter, rows[k]);
    }
  }

  /** `after` is `before` with the rows that meet the filter put over it. */
  ghost predicate Copied(db: Table, filter: (Coin, Node) -> bool, before: Table, after: Table) {
    && (forall c :: c in after <==> c in before || (c in db && filter(c, db[c])))
    && (forall c :: c in after ==> after[c] == if c in db && filter(c, db[c]) then db[c] else before[c])
  }
}
