/** The memcached protocol as a client sees it, on a plain map and in plain text, and that a session
    with the store keeps to it, whatever the chunks. */
module MemcacheProtocol {
  import S = MemcacheStore
  import opened P = MemcacheSession
  import opened Common
  import L = LogStream

  // ------------------------------------------------------------- requests

  datatype Request =
    | Put(u: Update)
    | Fetch(keys: seq<S.Key>, withToken: bool, fetchQuiet: bool)
    | Remove(key: S.Key, removeQuiet: bool)
    | Version(versionQuiet: bool)

  function QuietOf(r: Request): bool {
    match r
    case Put(u) => u.quiet
    case Fetch(_, _, quiet) => quiet
    case Remove(_, quiet) => quiet
    case Version(quiet) => quiet
  }

  function WordsOf(r: Request): (words: seq<string>)
    ensures words != []
  {
    match r
    case Put(u) => Words(u)
    case Fetch(keys, withToken, _) => [if withToken then "gets" else "get"] + keys
    case Remove(key, _) => ["delete", key]
    case Version(_) => ["version"]
  }

  function LineOf(r: Request): string {
    Join(WordsOf(r)) + if QuietOf(r) then NOREPLY else ""
  }

  /** A request as it is sent. */
  function TextOf(r: Request): string {
    LineOf(r) + CRLF + if r.Put? then r.u.body + CRLF else ""
  }

  /** A last key "noreply" is taken for the mark, and a line has to be short enough to be waited for. */
  predicate Fine(r: Request) {
    match r
    case Put(u) => Sendable(u)
    case _ =>
      var words := WordsOf(r);
      && AllWords(words) && |LineOf(r)| < MAX_PENDING
      && (!QuietOf(r) ==> words[|words| - 1] != "noreply")
  }

  ghost predicate AllFine(rs: seq<Request>) {
    forall i :: 0 <= i < |rs| ==> Fine(rs[i])
  }

  function TextOfAll(rs: seq<Request>): string {
    if rs == [] then "" else TextOf(rs[0]) + TextOfAll(rs[1..])
  }

  // ------------------------------------------------------------- the protocol

  /** What a server has and has sent; `pending` is what a refused look-up has left behind. */
  datatype Server = Server(items: map<S.Key, S.Entry>, cas: nat, pending: string, sent: string)

  function Tell(m: Server, quiet: bool, text: string): Server {
    if quiet then m else m.(sent := m.sent + text)
  }

  function Keep(m: Server, key: S.Key, item: S.Entry, quiet: bool): (r: Server)
    requires S.AllWellFormed(m.items) && S.EndsWithCrlf(item.value)
    ensures S.AllWellFormed(r.items)
  {
    Tell(m.(items := m.items[key := item], cas := m.cas + 1), quiet, "STORED\r\n")
  }

  function ServePut(m: Server, u: Update, startTime: int): (r: Server)
    requires S.AllWellFormed(m.items)
    ensures S.AllWellFormed(r.items)
  {
    var k, token := u.key, m.cas + 1;
    var item := S.Entry(u.flags, RelativeExpiry(u.exptime, startTime), u.body + "\r\n", token);
    if |u.body| > 1024 * 1024 then
      Tell(m.(items := m.items - {k}), u.quiet, "SERVER_ERROR object too large for cache\r\n")
    else
      match u.policy
      case Set => Keep(m, k, item, u.quiet)
      case Add => if k in m.items then Tell(m, u.quiet, "NOT_STORED\r\n") else Keep(m, k, item, u.quiet)
      case Replace => if k in m.items then Keep(m, k, item, u.quiet) else Tell(m, u.quiet, "NOT_STORED\r\n")
      case Append =>
        if k in m.items then
          var body := S.Body(m.items[k].value) + u.body;
          Keep(m, k, m.items[k].(value := body + "\r\n", token := token), u.quiet)
        else Tell(m, u.quiet, "NOT_STORED\r\n")
      case Prepend =>
        if k in m.items then
          var body := u.body + S.Body(m.items[k].value);
          Keep(m, k, m.items[k].(value := body + "\r\n", token := token), u.quiet)
        else Tell(m, u.quiet, "NOT_STORED\r\n")
      case Cas =>
        if k !in m.items then Tell(m, u.quiet, "NOT_FOUND\r\n")
        else if m.items[k].token != u.cas then Tell(m, u.quiet, "EXISTS\r\n")
        else Keep(m, k, item, u.quiet)
  }

  /** An item in the answer to a look-up. */
  function ValueText(key: S.Key, item: S.Entry, withToken: bool): string
    requires S.EndsWithCrlf(item.value)
  {
    var body := S.Body(item.value);
    "VALUE " + key + " " + L.Decimal(item.flags) + " " + L.Decimal(|body|)
    + (if withToken then " " + L.Decimal(item.token) else "") + "\r\n" + (body + "\r\n")
  }

  /** The items found, in the order of the keys, and END; a key that is too long ends it. */
  function ServeFetch(m: Server, keys: seq<S.Key>, withToken: bool, quiet: bool): (r: Server)
    requires S.AllWellFormed(m.items)
    ensures r.items == m.items
    decreases |keys|
  {
    if keys == [] then m.(sent := m.sent + (m.pending + "END\r\n"), pending := "")
    else if |keys[0]| > 250 then Tell(m, quiet, "CLIENT_ERROR bad command line format\r\n")
    else
      ServeFetch(if keys[0] in m.items
                 then m.(pending := m.pending + ValueText(keys[0], m.items[keys[0]], withToken)) else m,
                 keys[1..], withToken, quiet)
  }

  function ServeRemove(m: Server, key: S.Key, quiet: bool): Server {
    if |key| > 250 then Tell(m, quiet, "CLIENT_ERROR bad command line format\r\n")
    else if key in m.items then Tell(m.(items := m.items - {key}), quiet, "DELETED\r\n")
    else Tell(m, quiet, "NOT_FOUND\r\n")
  }

  function ServeOne(m: Server, r: Request, startTime: int): (n: Server)
    requires S.AllWellFormed(m.items)
    ensures S.AllWellFormed(n.items)
  {
    match r
    case Put(u) => ServePut(m, u, startTime)
    case Fetch(keys, withToken, quiet) => ServeFetch(m, keys, withToken, quiet)
    case Remove(key, quiet) => ServeRemove(m, key, quiet)
    case Version(quiet) => Tell(m, quiet, "VERSION 0.01 muduo\r\n")
  }

  /** What a server that keeps to the protocol has, and has sent, after the requests. */
  function ServeAll(m: Server, rs: seq<Request>, startTime: int): (r: Server)
    requires S.AllWellFormed(m.items)
    ensures S.AllWellFormed(r.items)
    decreases |rs|
  {
    if rs == [] then m else ServeAll(ServeOne(m, rs[0], startTime), rs[1..], startTime)
  }

  // ------------------------------------------------------ lines are understood

  /** What a request asks of the session's surroundings. */
  function Means(r: Request, startTime: int): seq<Event> {
    match r
    case Put(u) => Meant(u, startTime)
    case Fetch(keys, withToken, quiet) => ProcessGet(keys, withToken, quiet)
    case Remove(key, quiet) => if |key| > S.LONGEST_KEY then Say(quiet, BAD_LINE) else [Ask(S.Delete(key), quiet)]
    case Version(quiet) => Say(quiet, "VERSION 0.01 muduo\r\n")
  }

  function MeansAll(rs: seq<Request>, startTime: int): seq<Event> {
    if rs == [] then [] else Means(rs[0], startTime) + MeansAll(rs[1..], startTime)
  }

  /** A text that ends with a blank and a word ends with the mark exactly when the word is "noreply". */
  lemma EndsWithWord(front: string, w: string)
    requires IsWord(w)
    ensures EndsWithNoreply(front + (" " + w)) <==> w == "noreply"
  {
    var s := front + (" " + w);
    if |s| >= 8 {
      var tail := s[|s| - 8..];
      if |w| >= 8 {
        assert tail[0] == w[|w| - 8];
      } else if |w| == 7 {
        assert tail == " " + w && NOREPLY[1..] == "noreply" && tail[1..] == w;
      } else {
        assert tail[7 - |w|] == ' ';
      }
    }
  }

  lemma Regroup(a: string, b: string, c: string)
    ensures a + (b + c) == a + b + c
  {
  }

  lemma NothingAround(a: string)
    ensures a + "" == a && "" + a == a
  {
  }

  /** All but the last word, each behind a blank. */
  function FrontOf(words: seq<string>): string
    requires words != []
    decreases |words|
  {
    if |words| == 1 then "" else " " + words[0] + FrontOf(words[1..])
  }

  lemma {:induction false} JoinRestLast(words: seq<string>)
    requires words != []
    ensures JoinRest(words) == FrontOf(words) + (" " + words[|words| - 1])
    decreases |words|
  {
    if |words| == 1 {
      NothingAround(" " + words[0]);
    } else {
      var rest, last := words[1..], words[|words| - 1];
      assert rest[|rest| - 1] == last;
      JoinRestLast(rest);
      Regroup(" " + words[0], FrontOf(rest), " " + last);
    }
  }

  lemma NotMarked(words: seq<string>)
    requires AllWords(words) && words != [] && |words[0]| < 8 && words[|words| - 1] != "noreply"
    ensures !EndsWithNoreply(Join(words))
  {
    if |words| > 1 {
      var front := FrontOf(words[1..]);
      JoinRestLast(words[1..]);
      assert words[1..][|words| - 2] == words[|words| - 1];
      assert Join(words) == (words[0] + front) + (" " + words[|words| - 1]);
      EndsWithWord(words[0] + front, words[|words| - 1]);
    } else {
      assert Join(words) == words[0];
    }
  }

  /** The words and the mark are read back from the line. */
  lemma LineTaken(r: Request)
    requires Fine(r) && !r.Put?
    ensures EndsWithNoreply(LineOf(r)) == QuietOf(r)
    ensures var line := LineOf(r);
      Tokens(if QuietOf(r) then line[..|line| - |NOREPLY|] else line) == WordsOf(r)
  {
    var words := WordsOf(r);
    var s := Join(words);
    TokensOfJoin(words);
    if QuietOf(r) {
      assert (s + NOREPLY)[|s|..] == NOREPLY && (s + NOREPLY)[..|s|] == s;
    } else {
      assert s + "" == s;
      NotMarked(words);
    }
  }

  lemma NotPolicies()
    ensures PolicyOf("get").None? && PolicyOf("gets").None? && PolicyOf("delete").None? && PolicyOf("version").None?
  {
    assert "get"[0] == 'g' && "gets"[0] == 'g' && "delete"[0] == 'd' && "version"[0] == 'v';
    assert "set"[0] == 's' && "add"[0] == 'a' && "cas"[0] == 'c';
    assert |"replace"| == 7 && |"append"| == 6 && |"prepend"| == 7 && |"version"| == 7 && |"delete"| == 6;
    assert "replace"[0] == 'r' && "append"[0] == 'a' && "prepend"[0] == 'p';
  }

  lemma DeleteProcessed(key: S.Key, quiet: bool, startTime: int)
    ensures ProcessCommand("delete", [key], quiet, startTime) ==
            (NewCommand, Means(Remove(key, quiet), startTime))
  {
    NotPolicies();
    assert |"delete"| == 6 && |"get"| == 3 && |"gets"| == 4;
  }

  lemma FetchProcessed(keys: seq<S.Key>, withToken: bool, quiet: bool, startTime: int)
    ensures ProcessCommand(if withToken then "gets" else "get", keys, quiet, startTime) ==
            (NewCommand, ProcessGet(keys, withToken, quiet))
  {
    NotPolicies();
    assert |"get"| == 3 && |"gets"| == 4;
  }

  lemma VersionProcessed(quiet: bool, startTime: int)
    ensures ProcessCommand("version", [], quiet, startTime) == (NewCommand, Means(Version(quiet), startTime))
  {
    NotPolicies();
    assert |"delete"| == 6 && |"get"| == 3 && |"gets"| == 4 && |"version"| == 7;
  }

  /** The commands that end things, and all that are not known. */
  lemma OtherCommands(command: string, words: seq<string>, quiet: bool, startTime: int)
    requires command !in ["set", "add", "replace", "append", "prepend", "cas", "get", "gets", "delete", "version"]
    ensures ProcessCommand(command, words, quiet, startTime) ==
            (NewCommand, if command == "quit" then [Shutdown] else if command == "shutdown" then [Shutdown, StopServer]
                         else if quiet then [] else [Send("ERROR\r\n")])
  {
    assert PolicyOf(command).None?;
  }

  lemma LineProcessed(r: Request, startTime: int)
    requires Fine(r) && !r.Put?
    ensures Process(LineOf(r), startTime) == (NewCommand, Means(r, startTime))
  {
    LineTaken(r);
    var words := WordsOf(r);
    match r
    case Fetch(keys, withToken, quiet) =>
      assert words[1..] == keys;
      FetchProcessed(keys, withToken, quiet, startTime);
    case Remove(key, quiet) =>
      assert words[1..] == [key];
      DeleteProcessed(key, quiet, startTime);
    case Version(quiet) =>
      assert words[1..] == [];
      VersionProcessed(quiet, startTime);
  }

  lemma LineEnds(r: Request, rest: string)
    requires Fine(r) && !r.Put?
    ensures FindCrlf(LineOf(r) + CRLF + rest) == |LineOf(r)|
  {
    var words := WordsOf(r);
    NoReturn(words[1..]);
    var line := LineOf(r);
    assert forall i :: 0 <= i < |line| ==> line[i] != '\r';
    FirstCrlfIs(line + CRLF + rest, |line|);
  }

  /** A request in front of any stream asks for what it means, and the rest of the stream is then parsed
      as it would be alone; its line is one that the server waits for. */
  lemma RequestParsed(r: Request, rest: string, startTime: int)
    requires Fine(r)
    ensures Parse(TextOf(r) + rest, startTime) == Then(Outcome(NewCommand, "", Means(r, startTime)), rest, startTime)
    ensures ShortLines(NewCommand, rest, startTime) ==> ShortLines(NewCommand, TextOf(r) + rest, startTime)
  {
    if r.Put? {
      assert TextOf(r) == Format(r.u);
      RequestFirst(r.u, rest, startTime);
      if ShortLines(NewCommand, rest, startTime) {
        RequestShort(r.u, rest, startTime);
      }
    } else {
      LineParsed(r, rest, startTime);
    }
  }

  lemma LineStep(r: Request, rest: string, startTime: int)
    requires Fine(r) && !r.Put?
    ensures var stream := TextOf(r) + rest;
      && CanStep(NewCommand, stream) && FindCrlf(stream) == |LineOf(r)|
      && Step(NewCommand, stream, startTime) == Outcome(NewCommand, rest, Means(r, startTime))
  {
    var line, stream := LineOf(r), LineOf(r) + CRLF + rest;
    assert TextOf(r) + rest == stream;
    LineEnds(r, rest);
    LineProcessed(r, startTime);
    assert stream[..|line|] == line && stream[|line| + 2..] == rest;
  }

  lemma LineParsed(r: Request, rest: string, startTime: int)
    requires Fine(r) && !r.Put?
    ensures Parse(TextOf(r) + rest, startTime) == Then(Outcome(NewCommand, "", Means(r, startTime)), rest, startTime)
    ensures ShortLines(NewCommand, rest, startTime) ==> ShortLines(NewCommand, TextOf(r) + rest, startTime)
  {
    LineStep(r, rest, startTime);
    assert "" + rest == rest;
  }

  lemma {:induction false} AllParsed(rs: seq<Request>, startTime: int)
    requires AllFine(rs)
    ensures Parse(TextOfAll(rs), startTime) == Outcome(NewCommand, "", MeansAll(rs, startTime))
    ensures ShortLines(NewCommand, TextOfAll(rs), startTime)
    decreases |rs|
  {
    if rs != [] {
      AllParsed(rs[1..], startTime);
      RequestParsed(rs[0], TextOfAll(rs[1..]), startTime);
      assert "" + TextOfAll(rs[1..]) == TextOfAll(rs[1..]);
    }
  }

  /** Requests of every kind, in any order and under any chunking, lead to exactly what they mean, and the
      client is not given up. */
  lemma AllArrive(rs: seq<Request>, chunks: seq<string>, startTime: int)
    requires AllFine(rs) && Concat(chunks) == TextOfAll(rs)
    ensures Effects(chunks, startTime) == MeansAll(rs, startTime)
    ensures Feed(chunks, startTime) == Client(NewCommand, "", MeansAll(rs, startTime), false)
  {
    ChunkingIrrelevant(chunks, startTime);
    AllParsed(rs, startTime);
    EffectsAre(chunks, startTime);
    NeverGivenUp(TextOfAll(rs), startTime);
  }

  // ------------------------------------------------------- requests are served

  function ServerOf(w: World): Server {
    Server(w.items, w.cas, w.pending, w.sent)
  }

  function WorldOf(m: Server): World {
    World(m.items, m.cas, m.pending, m.sent, false)
  }

  lemma {:induction false} PerformAppend(w: World, a: seq<Event>, b: seq<Event>)
    requires S.AllWellFormed(w.items) && EventsOk(a) && EventsOk(b)
    ensures EventsOk(a + b) && PerformAll(w, a + b) == PerformAll(PerformAll(w, a), b)
    decreases |a|
  {
    if a == [] {
      assert a + b == b;
    } else {
      assert (a + b)[1..] == a[1..] + b;
      PerformAppend(Perform(w, a[0]), a[1..], b);
    }
  }

  lemma PerformOne(w: World, e: Event)
    requires S.AllWellFormed(w.items) && EventOk(e)
    ensures EventsOk([e]) && PerformAll(w, [e]) == Perform(w, e)
  {
    assert [e][1..] == [];
  }

  lemma Said(w: World, quiet: bool, text: string)
    requires S.AllWellFormed(w.items) && !w.closing
    ensures EventsOk(Say(quiet, text))
    ensures PerformAll(w, Say(quiet, text)) == WorldOf(Tell(ServerOf(w), quiet, text))
  {
    if !quiet {
      PerformOne(w, Send(text));
    }
  }

  lemma TooLargeServed(w: World, u: Update, startTime: int)
    requires S.AllWellFormed(w.items) && !w.closing && |u.body| > MAX_VALUE
    ensures EventsOk(Meant(u, startTime))
    ensures PerformAll(w, Meant(u, startTime)) == WorldOf(ServePut(ServerOf(w), u, startTime))
  {
    var said := Say(u.quiet, "SERVER_ERROR object too large for cache\r\n");
    Said(w, u.quiet, "SERVER_ERROR object too large for cache\r\n");
    PerformOne(PerformAll(w, said), Ask(S.Delete(u.key), true));
    PerformAppend(w, said, [Ask(S.Delete(u.key), true)]);
  }

  /** The value that is put under the key, or joined to what is there. */
  lemma JoinedBodies(u: Update, was: S.Entry)
    requires S.EndsWithCrlf(was.value)
    ensures S.Body(u.body + CRLF) == u.body
    ensures S.Body(was.value) + (u.body + CRLF) == S.Body(was.value) + u.body + "\r\n"
    ensures u.body + was.value == u.body + S.Body(was.value) + "\r\n"
  {
    assert was.value == S.Body(was.value) + "\r\n";
  }

  lemma PutServed(w: World, u: Update, startTime: int)
    requires S.AllWellFormed(w.items) && !w.closing && |u.body| <= MAX_VALUE
    ensures EventsOk(Meant(u, startTime))
    ensures PerformAll(w, Meant(u, startTime)) == WorldOf(ServePut(ServerOf(w), u, startTime))
  {
    var e := Meant(u, startTime)[0];
    assert Meant(u, startTime) == [e] && S.EndsWithCrlf(u.body + CRLF);
    PerformOne(w, e);
    if u.key in w.items && (u.policy.Append? || u.policy.Prepend?) {
      JoinServed(w, u, startTime);
    } else {
      PlainServed(w, u, startTime);
    }
  }

  function AskOf(u: Update, startTime: int): Event {
    Ask(S.Store(u.key, S.Entry(u.flags, RelativeExpiry(u.exptime, startTime), u.body + CRLF,
                               if u.policy.Cas? then u.cas else 0), u.policy), u.quiet)
  }

  lemma JoinServed(w: World, u: Update, startTime: int)
    requires S.AllWellFormed(w.items) && !w.closing && |u.body| <= MAX_VALUE
    requires u.key in w.items && (u.policy.Append? || u.policy.Prepend?)
    ensures EventOk(AskOf(u, startTime))
    ensures Perform(w, AskOf(u, startTime)) == WorldOf(ServePut(ServerOf(w), u, startTime))
  {
    assert S.EndsWithCrlf(u.body + CRLF);
    JoinedBodies(u, w.items[u.key]);
    assert w.sent + "" == w.sent;
  }

  lemma PlainServed(w: World, u: Update, startTime: int)
    requires S.AllWellFormed(w.items) && !w.closing && |u.body| <= MAX_VALUE
    requires u.key !in w.items || !(u.policy.Append? || u.policy.Prepend?)
    ensures EventOk(AskOf(u, startTime))
    ensures Perform(w, AskOf(u, startTime)) == WorldOf(ServePut(ServerOf(w), u, startTime))
  {
    assert S.EndsWithCrlf(u.body + CRLF);
    assert w.sent + "" == w.sent;
  }

  lemma {:induction false} FetchServed(w: World, keys: seq<S.Key>, withToken: bool, quiet: bool)
    requires S.AllWellFormed(w.items) && !w.closing
    ensures EventsOk(ProcessGet(keys, withToken, quiet))
    ensures PerformAll(w, ProcessGet(keys, withToken, quiet)) ==
            WorldOf(ServeFetch(ServerOf(w), keys, withToken, quiet))
    decreases |keys|
  {
    if keys == [] {
      PerformOne(w, Flush);
    } else if |keys[0]| > S.LONGEST_KEY {
      Said(w, quiet, BAD_LINE);
    } else {
      var e := Look(keys[0], withToken);
      PerformOne(w, e);
      if keys[0] in w.items {
        ShownIs(keys[0], w.items[keys[0]], withToken);
      }
      FetchServed(Perform(w, e), keys[1..], withToken, quiet);
      PerformAppend(w, [e], ProcessGet(keys[1..], withToken, quiet));
    }
  }

  lemma ShownIs(key: S.Key, item: S.Entry, withToken: bool)
    requires S.EndsWithCrlf(item.value)
    ensures Shown(key, item, withToken) == ValueText(key, item, withToken)
  {
    assert item.value == S.Body(item.value) + "\r\n";
  }

  lemma RemoveServed(w: World, key: S.Key, quiet: bool, startTime: int)
    requires S.AllWellFormed(w.items) && !w.closing
    ensures EventsOk(Means(Remove(key, quiet), startTime))
    ensures PerformAll(w, Means(Remove(key, quiet), startTime)) == WorldOf(ServeRemove(ServerOf(w), key, quiet))
  {
    if |key| > S.LONGEST_KEY {
      Said(w, quiet, BAD_LINE);
    } else {
      PerformOne(w, Ask(S.Delete(key), quiet));
      assert key !in w.items ==> w.items - {key} == w.items;
      assert w.sent + "" == w.sent;
    }
  }

  lemma OneServed(w: World, r: Request, startTime: int)
    requires S.AllWellFormed(w.items) && !w.closing
    ensures EventsOk(Means(r, startTime))
    ensures PerformAll(w, Means(r, startTime)) == WorldOf(ServeOne(ServerOf(w), r, startTime))
  {
    match r
    case Put(u) =>
      if |u.body| > MAX_VALUE {
        TooLargeServed(w, u, startTime);
      } else {
        PutServed(w, u, startTime);
      }
    case Fetch(keys, withToken, quiet) => FetchServed(w, keys, withToken, quiet);
    case Remove(key, quiet) => RemoveServed(w, key, quiet, startTime);
    case Version(quiet) => Said(w, quiet, "VERSION 0.01 muduo\r\n");
  }

  lemma {:induction false} MeansServed(w: World, rs: seq<Request>, startTime: int)
    requires S.AllWellFormed(w.items) && !w.closing
    ensures EventsOk(MeansAll(rs, startTime))
    ensures PerformAll(w, MeansAll(rs, startTime)) == WorldOf(ServeAll(ServerOf(w), rs, startTime))
    decreases |rs|
  {
    if rs != [] {
      OneServed(w, rs[0], startTime);
      var v := PerformAll(w, Means(rs[0], startTime));
      MeansServed(v, rs[1..], startTime);
      PerformAppend(w, Means(rs[0], startTime), MeansAll(rs[1..], startTime));
    }
  }

  /** End to end, for requests of every kind, in any order, on any store and under any chunking: the
      session and the store do, and send back, exactly what the protocol says. */
  lemma ServedByProtocol(w: World, rs: seq<Request>, chunks: seq<string>, startTime: int)
    requires S.AllWellFormed(w.items) && !w.closing && AllFine(rs) && Concat(chunks) == TextOfAll(rs)
    ensures EventsOk(Effects(chunks, startTime))
    ensures PerformAll(w, Effects(chunks, startTime)) == WorldOf(ServeAll(ServerOf(w), rs, startTime))
  {
    AllArrive(rs, chunks, startTime);
    MeansServed(w, rs, startTime);
  }

  // ---------------------------------------------------- what follows from it

  /** Set, delete and get: the value is gone. */
  lemma SetDeleteGet(w: World, u: Update, chunks: seq<string>, startTime: int)
    requires S.AllWellFormed(w.items) && !w.closing && w.pending == ""
    requires Sendable(u) && u.policy.Set? && !u.quiet && |u.body| <= 1024 * 1024 && u.key != "noreply"
    requires Concat(chunks) == TextOfAll([Put(u), Remove(u.key, false), Fetch([u.key], false, false)])
    ensures EventsOk(Effects(chunks, startTime))
    ensures PerformAll(w, Effects(chunks, startTime)).sent == w.sent + "STORED\r\n" + "DELETED\r\n" + "END\r\n"
  {
    var a, b, c := Put(u), Remove(u.key, false), Fetch([u.key], false, false);
    KeyLinesFine(u);
    ServedByProtocol(w, [a, b, c], chunks, startTime);
    ThreeServed(ServerOf(w), a, b, c, startTime);
    AllThreeSent(ServerOf(w), u, startTime);
  }

  lemma AllThreeSent(m: Server, u: Update, startTime: int)
    requires S.AllWellFormed(m.items) && m.pending == ""
    requires u.policy.Set? && !u.quiet && |u.body| <= 1024 * 1024 && |u.key| <= 250
    ensures var n := ServeRemove(ServePut(m, u, startTime), u.key, false);
      ServeFetch(n, [u.key], false, false).sent == m.sent + "STORED\r\n" + "DELETED\r\n" + "END\r\n"
  {
    var n := ServeRemove(ServePut(m, u, startTime), u.key, false);
    assert n.sent == m.sent + "STORED\r\n" + "DELETED\r\n" && u.key !in n.items && n.pending == "";
    assert [u.key][1..] == [];
    assert ServeFetch(n, [], false, false).sent == n.sent + ("" + "END\r\n");
    assert "" + "END\r\n" == "END\r\n";
  }

  lemma KeyLinesFine(u: Update)
    requires Sendable(u) && u.key != "noreply"
    ensures Fine(Remove(u.key, false)) && Fine(Fetch([u.key], false, false))
  {
    var a, b := ["delete", u.key], ["get", u.key];
    assert a[1..] == [u.key] && b[1..] == [u.key] && [u.key][1..] == [];
    assert JoinRest([]) == "" && JoinRest([u.key]) == " " + u.key + "";
    assert ["get"] + [u.key] == b;
  }

  lemma ThreeServed(m: Server, a: Request, b: Request, c: Request, startTime: int)
    requires S.AllWellFormed(m.items)
    ensures ServeAll(m, [a, b, c], startTime) ==
            ServeOne(ServeOne(ServeOne(m, a, startTime), b, startTime), c, startTime)
  {
    assert [a, b, c][1..] == [b, c] && [b, c][1..] == [c] && [c][1..] == [];
    assert ServeAll(ServeOne(ServeOne(m, a, startTime), b, startTime), [c], startTime) ==
           ServeOne(ServeOne(ServeOne(m, a, startTime), b, startTime), c, startTime);
  }

  /** The look-up meets a key that is too long, behind one that it has found. */
  ghost predicate FindsThenFails(m: Server, keys: seq<S.Key>) {
    exists i, j :: 0 <= i < j < |keys| && Found(m, keys, i) && Ends(keys, j)
  }

  predicate Found(m: Server, keys: seq<S.Key>, i: nat)
    requires i < |keys|
  {
    keys[i] in m.items
  }

  /** The first key that is too long. */
  ghost predicate Ends(keys: seq<S.Key>, j: nat)
    requires j < |keys|
  {
    |keys[j]| > 250 && forall k :: 0 <= k < j ==> |keys[k]| <= 250
  }

  ghost predicate SomeEnds(keys: seq<S.Key>) {
    exists j :: 0 <= j < |keys| && Ends(keys, j)
  }

  lemma EndsLater(keys: seq<S.Key>, j: nat)
    requires 0 < j < |keys| && |keys[0]| <= 250
    ensures Ends(keys, j) <==> Ends(keys[1..], j - 1)
  {
    assert forall k :: 0 <= k < |keys| - 1 ==> keys[1..][k] == keys[k + 1];
  }

  lemma SomeEndsLater(keys: seq<S.Key>)
    requires keys != [] && |keys[0]| <= 250
    ensures SomeEnds(keys) <==> SomeEnds(keys[1..])
  {
    if SomeEnds(keys) {
      var j :| 0 <= j < |keys| && Ends(keys, j);
      EndsLater(keys, j);
    }
    if SomeEnds(keys[1..]) {
      var j :| 0 <= j < |keys| - 1 && Ends(keys[1..], j);
      EndsLater(keys, j + 1);
    }
  }

  lemma FailsLater(m: Server, keys: seq<S.Key>)
    requires keys != [] && |keys[0]| <= 250
    ensures FindsThenFails(m, keys) <==> FindsThenFails(m, keys[1..]) || (keys[0] in m.items && SomeEnds(keys[1..]))
  {
    var tail := keys[1..];
    if FindsThenFails(m, keys) {
      var i, j :| 0 <= i < j < |keys| && Found(m, keys, i) && Ends(keys, j);
      EndsLater(keys, j);
      assert i > 0 ==> Found(m, tail, i - 1);
    }
    if FindsThenFails(m, tail) {
      var i, j :| 0 <= i < j < |tail| && Found(m, tail, i) && Ends(tail, j);
      EndsLater(keys, j + 1);
      assert Found(m, keys, i + 1);
    }
    if keys[0] in m.items && SomeEnds(tail) {
      var j :| 0 <= j < |tail| && Ends(tail, j);
      EndsLater(keys, j + 1);
      assert Found(m, keys, 0);
    }
  }

  lemma {:induction false} LeftBehind(m: Server, keys: seq<S.Key>, withToken: bool, quiet: bool)
    requires S.AllWellFormed(m.items)
    ensures ServeFetch(m, keys, withToken, quiet).pending != "" <==>
            FindsThenFails(m, keys) || (m.pending != "" && SomeEnds(keys))
    decreases |keys|
  {
    if keys != [] {
      if |keys[0]| > 250 {
        assert Ends(keys, 0);
        assert forall j :: 0 < j < |keys| ==> !Ends(keys, j);
      } else {
        FailsLater(m, keys);
        SomeEndsLater(keys);
        var found := if keys[0] in m.items
          then m.(pending := m.pending + ValueText(keys[0], m.items[keys[0]], withToken)) else m;
        LeftBehind(found, keys[1..], withToken, quiet);
        assert FindsThenFails(found, keys[1..]) <==> FindsThenFails(m, keys[1..]) by {
          assert forall i :: 0 <= i < |keys| - 1 ==> (Found(found, keys[1..], i) <==> Found(m, keys[1..], i));
        }
      }
    }
  }

  /** A look-up, with nothing left behind by others, leaves something behind exactly when it meets a key
      that is too long behind one that it has found. */
  lemma LeaksExactly(m: Server, keys: seq<S.Key>, withToken: bool, quiet: bool)
    requires S.AllWellFormed(m.items) && m.pending == ""
    ensures ServeFetch(m, keys, withToken, quiet).pending != "" <==> FindsThenFails(m, keys)
  {
    LeftBehind(m, keys, withToken, quiet);
  }

  /** Values found in front of a key that is too long are not sent; they are sent in front of the answer
      to the next look-up. */
  lemma LongKeyLeaks(m: Server, key: S.Key, long: S.Key, other: S.Key, startTime: int)
    requires S.AllWellFormed(m.items) && m.pending == ""
    requires |key| <= 250 < |long| && key in m.items && |other| <= 250 && other !in m.items
    ensures var n := ServeAll(m, [Fetch([key, long], false, false), Fetch([other], false, false)], startTime);
      n.sent == m.sent + "CLIENT_ERROR bad command line format\r\n" + (ValueText(key, m.items[key], false) + "END\r\n")
  {
    var a, b := Fetch([key, long], false, false), Fetch([other], false, false);
    assert [a, b][1..] == [b] && [b][1..] == [] && [key, long][1..] == [long] && [other][1..] == [];
    var value := ValueText(key, m.items[key], false);
    assert "" + value == value;
    var n := ServeOne(m, a, startTime);
    var found := m.(pending := m.pending + value);
    assert ServeFetch(found, [long], false, false) == Tell(found, false, "CLIENT_ERROR bad command line format\r\n");
    assert n == m.(pending := value, sent := m.sent + "CLIENT_ERROR bad command line format\r\n");
    assert ServeAll(n, [b], startTime) == ServeOne(n, b, startTime);
    assert ServeFetch(n, [], false, false).sent == n.sent + (value + "END\r\n");
  }

  /** An expiry of up to thirty days counts from now; a later one is a time of its own, taken relative to
      the start of the server, and then at least a second. */
  lemma ExpiryIs(exptime: int, startTime: int)
    requires 0 <= exptime && 0 <= startTime && exptime - startTime <= INT_MAX
    ensures exptime <= THIRTY_DAYS ==> RelativeExpiry(exptime, startTime) == exptime
    ensures exptime > THIRTY_DAYS && startTime - exptime <= INT_MAX ==>
            RelativeExpiry(exptime, startTime) == if exptime - startTime >= 1 then exptime - startTime else 1
  {
  }
}
