/** One client's session with the memcached server: an incremental parser of request lines and
    value blocks, whatever the chunks in which the bytes arrive. */
module MemcacheSession {
  import opened MemcacheStore
  import opened Common
  import L = LogStream

  const MAX_VALUE := 1024 * 1024
  const MAX_PENDING := 1024
  const THIRTY_DAYS := 60 * 60 * 24 * 30
  const INT_MAX := 0x7FFF_FFFF
  const UINT64 := 0x1_0000_0000_0000_0000
  const CRLF := "\r\n"
  const NOREPLY := " noreply"
  const BAD_LINE := "CLIENT_ERROR bad command line format\r\n"

  /** What a session asks of its surroundings. `Ask` is a store operation whose answer goes back
      to the client unless `quiet`; `Look` adds an item to the output being put together, which
      `Flush` ends and sends. */
  datatype Event =
    | Send(text: string)
    | Ask(op: Op, quiet: bool)
    | Look(key: Key, withToken: bool)
    | Flush
    | Shutdown
    | StopServer

  /** Where the parser is. In `Failed` an assertion of the server has been violated (or its
      behaviour is undefined) and nothing further is claimed. */
  datatype Mode =
    | NewCommand
    | Receive(policy: Policy, key: Key, flags: nat, exptime: int, cas: nat, size: nat, got: string, quiet: bool)
    | Discard(left: nat, quiet: bool)
    | Failed

  predicate ModeOk(m: Mode) {
    && (m.Receive? ==> |m.got| < m.size && m.size >= 2 && |m.key| <= LONGEST_KEY)
    && (m.Discard? ==> m.left > 0)
  }

  // ------------------------------------------------------------------ text

  predicate CrlfAt(s: string, i: int) {
    0 <= i && i + 1 < |s| && s[i] == '\r' && s[i + 1] == '\n'
  }

  /** The first CR LF of `s`, or -1. */
  function FindCrlf(s: string): (r: int)
    ensures r >= 0 ==> CrlfAt(s, r)
    ensures forall i :: 0 <= i && (r < 0 || i < r) ==> !CrlfAt(s, i)
    ensures -1 <= r && r + 1 < |s| + (if r < 0 then 1 else 0)
  {
    if |s| < 2 then -1
    else if CrlfAt(s, 0) then 0
    else
      var r := FindCrlf(s[1..]);
      assert forall i :: 1 <= i ==> CrlfAt(s, i) == CrlfAt(s[1..], i - 1);
      if r < 0 then -1 else r + 1
  }

  lemma FirstCrlfIs(s: string, i: nat)
    requires CrlfAt(s, i) && forall j :: 0 <= j < i ==> !CrlfAt(s, j)
    ensures FindCrlf(s) == i
  {
  }

  lemma CrlfStays(a: string, b: string)
    requires FindCrlf(a) >= 0
    ensures FindCrlf(a + b) == FindCrlf(a)
  {
    var i := FindCrlf(a);
    assert CrlfAt(a + b, i);
    forall j | 0 <= j < i ensures !CrlfAt(a + b, j) {
      assert !CrlfAt(a, j);
    }
    FirstCrlfIs(a + b, i);
  }

  function WordLength(s: string): (n: nat)
    ensures n <= |s| && (forall i :: 0 <= i < n ==> s[i] != ' ') && (n < |s| ==> s[n] == ' ')
  {
    if s == "" || s[0] == ' ' then 0 else 1 + WordLength(s[1..])
  }

  /** The words of a line; spaces only separate. */
  function Tokens(s: string): seq<string>
    decreases |s|
  {
    if s == "" then []
    else if s[0] == ' ' then Tokens(s[1..])
    else [s[..WordLength(s)]] + Tokens(s[WordLength(s)..])
  }

  function SkipBlanks(s: string): string {
    if s != "" && ('\t' <= s[0] <= '\r') then SkipBlanks(s[1..]) else s
  }

  /** The C library's reading of an unsigned number, insisting that the whole word is used:
      a minus sign negates modulo 2^64, and too large a number gives the greatest. */
  function Strtoull(word: string): (r: Option<int>)
    ensures r.Some? ==> 0 <= r.value < UINT64
  {
    var t := SkipBlanks(word);
    var signed := t != "" && (t[0] == '+' || t[0] == '-');
    match L.ParseNat(if signed then t[1..] else t, 10)
    case None => None
    case Some(v) =>
      Some(if v >= UINT64 then UINT64 - 1 else if signed && t[0] == '-' then (UINT64 - v) % UINT64 else v)
  }

  /** The number in the `i`-th word, if there is one. */
  function ReadAt(words: seq<string>, i: nat): (r: Option<int>)
    ensures r.Some? ==> 0 <= r.value < UINT64
  {
    if i < |words| then Strtoull(words[i]) else None
  }

  function ToInt32(v: int): (r: int)
    ensures -INT_MAX - 1 <= r <= INT_MAX
  {
    var w := v % 0x1_0000_0000;
    if w > INT_MAX then w - 0x1_0000_0000 else w
  }

  function ToUint32(v: int): (r: nat)
    ensures r < 0x1_0000_0000
  {
    v % 0x1_0000_0000
  }

  function ToInt64(v: int): int
    requires 0 <= v < UINT64
  {
    if v >= 0x8000_0000_0000_0000 then v - UINT64 else v
  }

  function RelativeExpiry(exptime: int, startTime: int): int {
    if exptime > THIRTY_DAYS then
      var rel := ToInt32(exptime - startTime);
      if rel < 1 then 1 else rel
    else ToInt32(exptime)
  }

  // -------------------------------------------------------------- requests

  function Say(quiet: bool, text: string): seq<Event> {
    if quiet then [] else [Send(text)]
  }

  function PolicyOf(command: string): Option<Policy> {
    if command == "set" then Some(Set)
    else if command == "add" then Some(Add)
    else if command == "replace" then Some(Replace)
    else if command == "append" then Some(Append)
    else if command == "prepend" then Some(Prepend)
    else if command == "cas" then Some(Cas)
    else None
  }

  /** A good update line: a value block follows, to be stored or, if too large, skipped. A
      negative size, and one whose line end no longer fits in 32 bits, break the server. */
  function UpdateMode(policy: Policy, key: Key, flags: nat, exptime: int, size: int, cas: nat, quiet: bool)
    : (r: (Mode, seq<Event>))
    requires |key| <= LONGEST_KEY
    ensures ModeOk(r.0)
  {
    if size > MAX_VALUE then
      if size + 2 > INT_MAX then (Failed, [])
      else (Discard(size + 2, quiet),
            Say(quiet, "SERVER_ERROR object too large for cache\r\n") + [Ask(Delete(key), true)])
    else if size < 0 then (Failed, [])
    else (Receive(policy, key, flags, exptime, cas, size + 2, "", quiet), [])
  }

  /** The words after an update command, and what becomes of the session. */
  function ProcessUpdate(policy: Policy, words: seq<string>, quiet: bool, startTime: int): (r: (Mode, seq<Event>))
    ensures ModeOk(r.0)
  {
    if words == [] then (Failed, [])
    else
      var key := words[0];
      var flags, exptime, bytes := ReadAt(words, 1), ReadAt(words, 2), ReadAt(words, 3);
      var cas := if policy.Cas? then ReadAt(words, 4) else Some(0);
      if |key| > LONGEST_KEY || flags.None? || exptime.None? || bytes.None? || cas.None? then
        (NewCommand, Say(quiet, BAD_LINE))
      else
        UpdateMode(policy, key, ToUint32(flags.value), RelativeExpiry(ToInt64(exptime.value), startTime),
                   ToInt32(bytes.value), cas.value, quiet)
  }

  function ProcessGet(keys: seq<string>, withToken: bool, quiet: bool): seq<Event> {
    if keys == [] then [Flush]
    else if |keys[0]| > LONGEST_KEY then Say(quiet, BAD_LINE)
    else [Look(keys[0], withToken)] + ProcessGet(keys[1..], withToken, quiet)
  }

  function ProcessDelete(words: seq<string>, quiet: bool): (Mode, seq<Event>) {
    if words == [] then (Failed, [])
    else if |words[0]| > LONGEST_KEY then (NewCommand, Say(quiet, BAD_LINE))
    else if |words| > 1 && words[1] != "0" then
      (NewCommand, Say(quiet, "CLIENT_ERROR bad command line format.  Usage: delete <key> [noreply]\r\n"))
    else (NewCommand, [Ask(Delete(words[0]), quiet)])
  }

  function ProcessCommand(command: string, words: seq<string>, quiet: bool, startTime: int): (r: (Mode, seq<Event>))
    ensures ModeOk(r.0)
  {
    if PolicyOf(command).Some? then ProcessUpdate(PolicyOf(command).value, words, quiet, startTime)
    else if command == "get" || command == "gets" then (NewCommand, ProcessGet(words, command == "gets", quiet))
    else if command == "delete" then ProcessDelete(words, quiet)
    else if command == "version" then (NewCommand, Say(quiet, "VERSION 0.01 muduo\r\n"))
    else if command == "quit" then (NewCommand, [Shutdown])
    else if command == "shutdown" then (NewCommand, [Shutdown, StopServer])
    else (NewCommand, Say(quiet, "ERROR\r\n"))
  }

  predicate EndsWithNoreply(request: string) {
    |request| >= |NOREPLY| && request[|request| - |NOREPLY|..] == NOREPLY
  }

  function Process(request: string, startTime: int): (r: (Mode, seq<Event>))
    ensures ModeOk(r.0)
  {
    var quiet := EndsWithNoreply(request);
    var words := Tokens(if quiet then request[..|request| - |NOREPLY|] else request);
    if words == [] then (NewCommand, Say(quiet, "ERROR\r\n"))
    else ProcessCommand(words[0], words[1..], quiet, startTime)
  }

  // ------------------------------------------------------------ the parser

  datatype Outcome = Outcome(mode: Mode, rest: string, events: seq<Event>)

  predicate CanStep(m: Mode, buf: string) {
    buf != "" && !m.Failed? && (m.NewCommand? ==> FindCrlf(buf) >= 0)
  }

  /** What is asked when a value block is complete. */
  function Completed(m: Mode, value: string): seq<Event>
    requires m.Receive?
  {
    if EndsWithCrlf(value) then [Ask(Store(m.key, Entry(m.flags, m.exptime, value, m.cas), m.policy), m.quiet)]
    else Say(m.quiet, "CLIENT_ERROR bad data chunk\r\n")
  }

  function Min(a: nat, b: nat): nat {
    if a < b then a else b
  }

  /** One turn of the consuming loop. */
  function Step(m: Mode, buf: string, startTime: int): (r: Outcome)
    requires ModeOk(m) && CanStep(m, buf)
    ensures ModeOk(r.mode) && |r.rest| < |buf|
  {
    match m
    case NewCommand =>
      var i := FindCrlf(buf);
      var (next, events) := Process(buf[..i], startTime);
      Outcome(next, buf[i + 2..], events)
    case Receive(_, _, _, _, _, size, got, _) =>
      var n := Min(|buf|, size - |got|);
      var now := got + buf[..n];
      if |now| == size then Outcome(NewCommand, buf[n..], Completed(m, now))
      else Outcome(m.(got := now), buf[n..], [])
    case Discard(left, _) =>
      if |buf| < left then Outcome(m.(left := left - |buf|), "", [])
      else Outcome(NewCommand, buf[left..], [])
  }

  /** The loop run until it waits for more bytes. */
  function Drain(m: Mode, buf: string, startTime: int): (r: Outcome)
    requires ModeOk(m)
    ensures ModeOk(r.mode)
    ensures !CanStep(r.mode, r.rest)
    decreases |buf|
  {
    if !CanStep(m, buf) then Outcome(m, buf, [])
    else
      var s := Step(m, buf, startTime);
      var d := Drain(s.mode, s.rest, startTime);
      d.(events := s.events + d.events)
  }

  function Then(o: Outcome, more: string, startTime: int): (r: Outcome)
    requires ModeOk(o.mode)
    ensures ModeOk(r.mode)
  {
    var d := Drain(o.mode, o.rest + more, startTime);
    d.(events := o.events + d.events)
  }

  lemma StepAppend(m: Mode, a: string, b: string, startTime: int)
    requires ModeOk(m) && CanStep(m, a) && (m.Receive? ==> |a| >= m.size - |m.got|) && (m.Discard? ==> |a| >= m.left)
    ensures CanStep(m, a + b)
    ensures var s := Step(m, a, startTime); Step(m, a + b, startTime) == s.(rest := s.rest + b)
  {
    match m
    case NewCommand =>
      CrlfStays(a, b);
      var i := FindCrlf(a);
      assert (a + b)[..i] == a[..i] && (a + b)[i + 2..] == a[i + 2..] + b;
    case Receive(_, _, _, _, _, size, got, _) =>
      var n := size - |got|;
      assert (a + b)[..n] == a[..n] && (a + b)[n..] == a[n..] + b;
    case Discard(left, _) =>
      assert (a + b)[left..] == a[left..] + b;
  }

  lemma WholeValuePart(m: Mode, a: string, startTime: int)
    requires ModeOk(m) && m.Receive? && |a| < m.size - |m.got|
    ensures Drain(m, a, startTime) == Outcome(m.(got := m.got + a), "", [])
  {
    assert a[..|a|] == a && a[|a|..] == "" && m.got + "" == m.got;
  }

  lemma PartialValue(m: Mode, a: string, b: string, startTime: int)
    requires ModeOk(m) && m.Receive? && |a| < m.size - |m.got|
    ensures Drain(m, a + b, startTime) == Drain(m.(got := m.got + a), b, startTime)
  {
    var m' := m.(got := m.got + a);
    if b == "" {
      assert a + b == a;
      WholeValuePart(m, a, startTime);
    } else {
      var n, n' := Min(|a + b|, m.size - |m.got|), Min(|b|, m.size - |m'.got|);
      assert n == |a| + n';
      assert m.got + (a + b)[..n] == m'.got + b[..n'];
      assert (a + b)[n..] == b[n'..];
      assert Step(m, a + b, startTime) == Step(m', b, startTime);
    }
  }

  lemma PartialSkip(m: Mode, a: string, b: string, startTime: int)
    requires ModeOk(m) && m.Discard? && |a| < m.left
    ensures Drain(m, a, startTime) == Outcome(m.(left := m.left - |a|), "", [])
    ensures Drain(m, a + b, startTime) == Drain(m.(left := m.left - |a|), b, startTime)
  {
    var m' := m.(left := m.left - |a|);
    if b == "" {
      assert a + b == a;
    } else if |a + b| >= m.left {
      assert (a + b)[m.left..] == b[m'.left..];
    }
  }

  /** Events that came first stay first. */
  lemma EventsFirst(events: seq<Event>, o: Outcome, more: string, startTime: int)
    requires ModeOk(o.mode)
    ensures var t := Then(o, more, startTime);
      Then(o.(events := events + o.events), more, startTime) == t.(events := events + t.events)
  {
    var d := Drain(o.mode, o.rest + more, startTime);
    assert (events + o.events) + d.events == events + (o.events + d.events);
  }

  /** Parsing can stop after `a` and go on, from the bytes left over, when `b` arrives. */
  lemma {:induction false} DrainAppend(m: Mode, a: string, b: string, startTime: int)
    requires ModeOk(m)
    ensures Drain(m, a + b, startTime) == Then(Drain(m, a, startTime), b, startTime)
    decreases |a|
  {
    if !CanStep(m, a) {
    } else if m.Receive? && |a| < m.size - |m.got| {
      WholeValuePart(m, a, startTime);
      PartialValue(m, a, b, startTime);
      assert "" + b == b;
    } else if m.Discard? && |a| < m.left {
      PartialSkip(m, a, b, startTime);
      assert "" + b == b;
    } else {
      StepAppend(m, a, b, startTime);
      var s := Step(m, a, startTime);
      DrainAppend(s.mode, s.rest, b, startTime);
      EventsFirst(s.events, Drain(s.mode, s.rest, startTime), b, startTime);
    }
  }

  // ------------------------------------------------------- chunk by chunk

  /** One arrival of bytes: what the server asks, and whether it gives the client up because no
      line end shows within 1024 bytes. */
  datatype Client = Client(mode: Mode, held: string, events: seq<Event>, givenUp: bool)

  function Start(): Client {
    Client(NewCommand, "", [], false)
  }

  function Arrive(s: Client, chunk: string, startTime: int): (r: Client)
    requires ModeOk(s.mode)
    ensures ModeOk(r.mode)
  {
    var d := Drain(s.mode, s.held + chunk, startTime);
    Client(d.mode, d.rest, s.events + d.events, s.givenUp || TooLong(d))
  }

  predicate TooLong(d: Outcome) {
    d.mode.NewCommand? && |d.rest| > MAX_PENDING
  }

  function Feed(chunks: seq<string>, startTime: int): (r: Client)
    ensures ModeOk(r.mode)
  {
    if chunks == [] then Start() else Arrive(Feed(chunks[..|chunks| - 1], startTime), chunks[|chunks| - 1], startTime)
  }

  /** The parse of a whole stream, as if it had come in one piece. */
  function Parse(stream: string, startTime: int): (d: Outcome)
    ensures ModeOk(d.mode)
  {
    Drain(NewCommand, stream, startTime)
  }

  /** Every chunking of a stream leads to the same requests, the same store operations, the same
      replies and the same parser state; whether a reply can still be sent is told by `Effects`. */
  lemma {:induction false} ChunkingIrrelevant(chunks: seq<string>, startTime: int)
    ensures var s := Feed(chunks, startTime);
      Outcome(s.mode, s.held, s.events) == Parse(Concat(chunks), startTime)
  {
    if chunks != [] {
      var before, last := chunks[..|chunks| - 1], chunks[|chunks| - 1];
      ChunkingIrrelevant(before, startTime);
      DrainAppend(NewCommand, Concat(before), last, startTime);
    }
  }

  // -------------------------------------------------- lines that are too long

  /** Every request line of the stream has at most 1023 characters, and so has what follows the
      last complete request, give or take the first half of its line end. */
  ghost predicate ShortLines(m: Mode, stream: string, startTime: int)
    requires ModeOk(m)
    decreases |stream|
  {
    if !CanStep(m, stream) then m.NewCommand? ==> |stream| <= MAX_PENDING
    else
      var s := Step(m, stream, startTime);
      (m.NewCommand? ==> FindCrlf(stream) < MAX_PENDING) && ShortLines(s.mode, s.rest, startTime)
  }

  /** Some way of cutting the stream makes the server give the client up. */
  ghost predicate CutOff(m: Mode, stream: string, n: nat, startTime: int)
    requires ModeOk(m) && n <= |stream|
  {
    TooLong(Drain(m, stream[..n], startTime))
  }

  lemma NoCrlfInFront(s: string, n: nat)
    requires n <= |s| && (FindCrlf(s) < 0 || n < FindCrlf(s) + 2)
    ensures FindCrlf(s[..n]) < 0
  {
    forall i ensures !CrlfAt(s[..n], i) {
      assert CrlfAt(s[..n], i) ==> CrlfAt(s, i);
    }
  }

  /** A turn that completes a request or a block is the same whatever follows it. */
  predicate FullStep(m: Mode, a: string) {
    && CanStep(m, a)
    && (m.Receive? ==> |a| >= m.size - |m.got|)
    && (m.Discard? ==> |a| >= m.left)
  }

  /** How many bytes one completed turn uses. */
  function Used(m: Mode, a: string): (n: nat)
    requires ModeOk(m) && FullStep(m, a)
    ensures 0 < n <= |a|
  {
    match m
    case NewCommand => FindCrlf(a) + 2
    case Receive(_, _, _, _, _, size, got, _) => size - |got|
    case Discard(left, _) => left
  }

  /** Cut before the end of the first turn: nothing is asked, and a line is all there is. */
  lemma CutInside(m: Mode, stream: string, n: nat, startTime: int)
    requires ModeOk(m) && FullStep(m, stream) && n < Used(m, stream)
    ensures var d := Drain(m, stream[..n], startTime);
      d.events == [] && TooLong(d) == (m.NewCommand? && n > MAX_PENDING)
  {
    var a := stream[..n];
    match m
    case NewCommand => NoCrlfInFront(stream, n);
    case Receive(_, _, _, _, _, _, _, _) => WholeValuePart(m, a, startTime);
    case Discard(_, _) => PartialSkip(m, a, "", startTime);
  }

  /** The first turn only looks at the bytes it uses. */
  lemma FirstTurn(m: Mode, stream: string, tail: string, startTime: int)
    requires ModeOk(m) && FullStep(m, stream)
    ensures var head := stream[..Used(m, stream)]; var s := Step(m, stream, startTime);
      && s.rest == stream[Used(m, stream)..]
      && CanStep(m, head + tail)
      && Step(m, head + tail, startTime) == s.(rest := tail)
  {
    var u := Used(m, stream);
    var head := stream[..u];
    assert head + stream[u..] == stream;
    if m.NewCommand? {
      FirstCrlfInFront(stream, u);
    }
    assert FullStep(m, head);
    StepAppend(m, head, stream[u..], startTime);
    StepAppend(m, head, tail, startTime);
    assert Step(m, head, startTime).rest == "";
    assert "" + tail == tail;
  }

  /** Cut behind the first turn: as if the stream had begun there. */
  lemma CutBehind(m: Mode, stream: string, n: nat, startTime: int)
    requires ModeOk(m) && FullStep(m, stream) && Used(m, stream) <= n <= |stream|
    ensures var u := Used(m, stream); var s := Step(m, stream, startTime);
      && |s.rest| == |stream| - u
      && (CutOff(m, stream, n, startTime) <==> CutOff(s.mode, s.rest, n - u, startTime))
  {
    var u := Used(m, stream);
    FirstTurn(m, stream, stream[u..n], startTime);
    assert stream[..u] + stream[u..n] == stream[..n];
    assert stream[u..][..n - u] == stream[u..n];
  }

  lemma FirstCrlfInFront(s: string, n: nat)
    requires FindCrlf(s) >= 0 && n == FindCrlf(s) + 2
    ensures FindCrlf(s[..n]) == FindCrlf(s)
  {
    forall j | 0 <= j < FindCrlf(s) ensures !CrlfAt(s[..n], j) {
      assert !CrlfAt(s, j);
    }
    FirstCrlfIs(s[..n], FindCrlf(s));
  }

  lemma CutPartial(m: Mode, stream: string, n: nat, startTime: int)
    requires ModeOk(m) && n <= |stream| && (CanStep(m, stream) ==> !FullStep(m, stream))
    ensures CutOff(m, stream, n, startTime) <==> m.NewCommand? && n > MAX_PENDING
  {
    if m.NewCommand? && n > 0 {
      NoCrlfInFront(stream, n);
    } else if m.Receive? && n > 0 {
      WholeValuePart(m, stream[..n], startTime);
    } else if m.Discard? && n > 0 {
      PartialSkip(m, stream[..n], "", startTime);
    }
  }

  ghost predicate NoCutOff(m: Mode, stream: string, startTime: int)
    requires ModeOk(m)
  {
    forall n :: 0 <= n <= |stream| ==> !CutOff(m, stream, n, startTime)
  }

  lemma NoCutPartial(m: Mode, stream: string, startTime: int)
    requires ModeOk(m) && (CanStep(m, stream) ==> !FullStep(m, stream))
    ensures NoCutOff(m, stream, startTime) <==> (m.NewCommand? ==> |stream| <= MAX_PENDING)
  {
    forall n | 0 <= n <= |stream|
      ensures CutOff(m, stream, n, startTime) <==> m.NewCommand? && n > MAX_PENDING
    {
      CutPartial(m, stream, n, startTime);
    }
    assert CutOff(m, stream, |stream|, startTime) <==> m.NewCommand? && |stream| > MAX_PENDING;
  }

  lemma NoCutFull(m: Mode, stream: string, startTime: int)
    requires ModeOk(m) && FullStep(m, stream)
    ensures var s := Step(m, stream, startTime);
      NoCutOff(m, stream, startTime) <==>
      (m.NewCommand? ==> FindCrlf(stream) < MAX_PENDING) && NoCutOff(s.mode, s.rest, startTime)
  {
    var u, s := Used(m, stream), Step(m, stream, startTime);
    forall n | 0 <= n < u ensures CutOff(m, stream, n, startTime) <==> m.NewCommand? && n > MAX_PENDING {
      CutInside(m, stream, n, startTime);
    }
    CutBehind(m, stream, u, startTime);
    assert CutOff(m, stream, u - 1, startTime) <==> m.NewCommand? && u - 1 > MAX_PENDING;
    if NoCutOff(m, stream, startTime) {
      forall n | 0 <= n <= |s.rest| ensures !CutOff(s.mode, s.rest, n, startTime) {
        CutBehind(m, stream, u + n, startTime);
      }
    }
    if NoCutOff(s.mode, s.rest, startTime) && (m.NewCommand? ==> FindCrlf(stream) < MAX_PENDING) {
      forall n | 0 <= n <= |stream| ensures !CutOff(m, stream, n, startTime) {
        if n >= u {
          CutBehind(m, stream, n, startTime);
        }
      }
    }
  }

  /** No cut of the stream makes the server give up exactly when all its lines are short. */
  lemma {:induction false} ShortLinesExact(m: Mode, stream: string, startTime: int)
    requires ModeOk(m)
    ensures ShortLines(m, stream, startTime) <==> NoCutOff(m, stream, startTime)
    decreases |stream|
  {
    if !CanStep(m, stream) || !FullStep(m, stream) {
      NoCutPartial(m, stream, startTime);
      if CanStep(m, stream) {
        PartialIsShort(m, stream, startTime);
      }
    } else {
      NoCutFull(m, stream, startTime);
      var s := Step(m, stream, startTime);
      ShortLinesExact(s.mode, s.rest, startTime);
    }
  }

  lemma PartialIsShort(m: Mode, stream: string, startTime: int)
    requires ModeOk(m) && CanStep(m, stream) && !FullStep(m, stream)
    ensures ShortLines(m, stream, startTime)
  {
  }

  lemma {:induction false} GivenUpWhen(chunks: seq<string>, startTime: int)
    ensures Feed(chunks, startTime).givenUp <==>
            exists i :: 0 < i <= |chunks| && TooLong(Parse(Concat(chunks[..i]), startTime))
  {
    if chunks != [] {
      var before := chunks[..|chunks| - 1];
      GivenUpWhen(before, startTime);
      ChunkingIrrelevant(chunks, startTime);
      ChunkingIrrelevant(before, startTime);
      assert forall i :: 0 < i <= |before| ==> before[..i] == chunks[..i];
      assert chunks[..|chunks|] == chunks;
    }
  }

  lemma ShortNeverGivenUp(chunks: seq<string>, startTime: int)
    requires NoCutOff(NewCommand, Concat(chunks), startTime)
    ensures !Feed(chunks, startTime).givenUp
  {
    var stream := Concat(chunks);
    GivenUpWhen(chunks, startTime);
    forall i | 0 < i <= |chunks| ensures !TooLong(Parse(Concat(chunks[..i]), startTime)) {
      ConcatPrefix(chunks, i);
      var n := |Concat(chunks[..i])|;
      assert stream[..n] == Concat(chunks[..i]);
      assert !CutOff(NewCommand, stream, n, startTime);
    }
  }

  /** The cut that makes the server give the client up. */
  lemma BadCut(stream: string, n: nat, startTime: int) returns (chunks: seq<string>)
    requires n <= |stream| && CutOff(NewCommand, stream, n, startTime)
    ensures Concat(chunks) == stream && Feed(chunks, startTime).givenUp
  {
    chunks := [stream[..n], stream[n..]];
    assert chunks[..1] == [stream[..n]] && [stream[..n]][..0] == [];
    assert Concat(chunks[..1]) == stream[..n];
    assert Concat(chunks) == stream;
    GivenUpWhen(chunks, startTime);
    assert TooLong(Parse(Concat(chunks[..1]), startTime));
  }

  /** A client is never given up, however its stream is cut, exactly when its lines are short. */
  lemma NeverGivenUp(stream: string, startTime: int)
    ensures ShortLines(NewCommand, stream, startTime) <==>
            forall chunks :: Concat(chunks) == stream ==> !Feed(chunks, startTime).givenUp
  {
    ShortLinesExact(NewCommand, stream, startTime);
    if ShortLines(NewCommand, stream, startTime) {
      forall chunks | Concat(chunks) == stream ensures !Feed(chunks, startTime).givenUp {
        ShortNeverGivenUp(chunks, startTime);
      }
    } else {
      var n :| 0 <= n <= |stream| && CutOff(NewCommand, stream, n, startTime);
      var chunks := BadCut(stream, n, startTime);
    }
  }

  // ------------------------------------------------------ what is really done

  /** Everything the server does for the chunks, in order: what it asks, and the shutdown of the
      client's connection whenever it gives the client up. */
  function Effects(chunks: seq<string>, startTime: int): seq<Event> {
    if chunks == [] then []
    else
      var before := chunks[..|chunks| - 1];
      var s := Feed(before, startTime);
      var d := Drain(s.mode, s.held + chunks[|chunks| - 1], startTime);
      Effects(before, startTime) + (d.events + if TooLong(d) then [Shutdown] else [])
  }

  lemma {:induction false} EffectsAre(chunks: seq<string>, startTime: int)
    ensures var s := Feed(chunks, startTime);
      if s.givenUp then |Effects(chunks, startTime)| > |s.events| else Effects(chunks, startTime) == s.events
  {
    if chunks != [] {
      EffectsAre(chunks[..|chunks| - 1], startTime);
    }
  }

  /** However the stream is cut, exactly what the whole stream asks for is done, exactly when its
      lines are short: otherwise some cut makes the server shut the connection down. */
  lemma EffectsExact(stream: string, startTime: int)
    ensures ShortLines(NewCommand, stream, startTime) <==>
            forall chunks :: Concat(chunks) == stream ==>
              Effects(chunks, startTime) == Parse(stream, startTime).events
  {
    NeverGivenUp(stream, startTime);
    forall chunks | Concat(chunks) == stream
      ensures Effects(chunks, startTime) == Parse(stream, startTime).events <==> !Feed(chunks, startTime).givenUp
    {
      EffectsAre(chunks, startTime);
      ChunkingIrrelevant(chunks, startTime);
    }
  }

  // ---------------------------------------------------------- value blocks

  /** A value block fills to exactly its declared size, whatever bytes it holds (line ends
      included), and the parser is back at commands with the rest untouched. */
  lemma ValueExact(m: Mode, value: string, rest: string, startTime: int)
    requires ModeOk(m) && m.Receive? && m.got == "" && |value| == m.size
    ensures Drain(m, value + rest, startTime) == Then(Outcome(NewCommand, "", Completed(m, value)), rest, startTime)
  {
    assert (value + rest)[..m.size] == value && (value + rest)[m.size..] == rest && "" + value == value;
    assert "" + rest == rest;
  }

  /** An oversized value is skipped by exactly its size and the line end, and nothing is asked. */
  lemma SkipExact(m: Mode, value: string, rest: string, startTime: int)
    requires ModeOk(m) && m.Discard? && |value| == m.left
    ensures Drain(m, value + rest, startTime) == Drain(NewCommand, rest, startTime)
  {
    assert (value + rest)[m.left..] == rest;
  }

  // --------------------------------------------------- a client's requests

  /** An update request as a client means it. */
  datatype Update = Update(
    policy: Policy, key: Key, flags: nat, exptime: nat, body: string, cas: nat, quiet: bool)

  predicate IsWord(w: string) {
    w != "" && forall i :: 0 <= i < |w| ==> w[i] != ' ' && w[i] != '\r'
  }

  predicate Sendable(u: Update) {
    && IsWord(u.key) && |u.key| <= LONGEST_KEY
    && u.flags < 0x1_0000_0000 && u.exptime < 0x8000_0000_0000_0000 && u.cas < UINT64
    && |u.body| <= INT_MAX - 2
  }

  function NameOf(p: Policy): (s: string)
    ensures PolicyOf(s) == Some(p) && IsWord(s)
  {
    match p
    case Set => "set"
    case Add => "add"
    case Replace => "replace"
    case Append => "append"
    case Prepend => "prepend"
    case Cas => "cas"
  }

  function Arguments(u: Update): seq<string> {
    [u.key, L.Decimal(u.flags), L.Decimal(u.exptime), L.Decimal(|u.body|)]
    + if u.policy.Cas? then [L.Decimal(u.cas)] else []
  }

  function Words(u: Update): seq<string> {
    [NameOf(u.policy)] + Arguments(u)
  }

  function Join(words: seq<string>): string
    requires words != []
  {
    words[0] + JoinRest(words[1..])
  }

  function JoinRest(words: seq<string>): string {
    if words == [] then "" else " " + words[0] + JoinRest(words[1..])
  }

  function Line(u: Update): string {
    Join(Words(u)) + if u.quiet then NOREPLY else ""
  }

  function Format(u: Update): string {
    Line(u) + CRLF + (u.body + CRLF)
  }

  /** What the request is to bring about. */
  function Meant(u: Update, startTime: int): seq<Event> {
    if |u.body| > MAX_VALUE then
      Say(u.quiet, "SERVER_ERROR object too large for cache\r\n") + [Ask(Delete(u.key), true)]
    else
      [Ask(Store(u.key, Entry(u.flags, RelativeExpiry(u.exptime, startTime), u.body + CRLF,
                              if u.policy.Cas? then u.cas else 0), u.policy), u.quiet)]
  }

  function MeantAll(us: seq<Update>, startTime: int): seq<Event> {
    if us == [] then [] else Meant(us[0], startTime) + MeantAll(us[1..], startTime)
  }

  function FormatAll(us: seq<Update>): string {
    if us == [] then "" else Format(us[0]) + FormatAll(us[1..])
  }

  predicate AllWords(words: seq<string>) {
    forall i :: 0 <= i < |words| ==> IsWord(words[i])
  }

  lemma {:induction false} WordFirst(w: string, rest: string)
    requires IsWord(w) && (rest == "" || rest[0] == ' ')
    ensures WordLength(w + rest) == |w|
    decreases |w|
  {
    assert (w + rest)[1..] == w[1..] + rest;
    if |w| > 1 {
      WordFirst(w[1..], rest);
    } else {
      assert w[1..] + rest == rest;
    }
  }

  /** One word in front of others is the first word of the line. */
  lemma TokensFirst(w: string, rest: string)
    requires IsWord(w) && (rest == "" || rest[0] == ' ')
    ensures Tokens(w + rest) == [w] + Tokens(rest)
  {
    WordFirst(w, rest);
    var s := w + rest;
    assert s[0] == w[0] && s[..|w|] == w && s[|w|..] == rest;
  }

  lemma {:induction false} TokensOfRest(words: seq<string>)
    requires AllWords(words)
    ensures Tokens(JoinRest(words)) == words
    decreases |words|
  {
    if words != [] {
      var rest := JoinRest(words[1..]);
      var s := JoinRest(words);
      assert s[1..] == words[0] + rest;
      TokensFirst(words[0], rest);
      TokensOfRest(words[1..]);
      assert words == [words[0]] + words[1..];
    }
  }

  /** The words of a joined line are the words joined. */
  lemma TokensOfJoin(words: seq<string>)
    requires AllWords(words) && words != []
    ensures Tokens(Join(words)) == words
  {
    TokensFirst(words[0], JoinRest(words[1..]));
    TokensOfRest(words[1..]);
    assert words == [words[0]] + words[1..];
  }

  lemma {:induction false} NoReturn(words: seq<string>)
    requires AllWords(words)
    ensures forall i :: 0 <= i < |JoinRest(words)| ==> JoinRest(words)[i] != '\r'
    decreases |words|
  {
    if words != [] {
      NoReturn(words[1..]);
    }
  }

  lemma {:induction false} LastOfRest(words: seq<string>)
    requires AllWords(words) && words != []
    ensures var s, w := JoinRest(words), words[|words| - 1]; |s| > 0 && s[|s| - 1] == w[|w| - 1]
    decreases |words|
  {
    if |words| > 1 {
      LastOfRest(words[1..]);
    } else {
      assert JoinRest(words[1..]) == "";
    }
  }

  // ------------------------------------------------------ numbers in words

  lemma NumberWord(n: nat)
    ensures IsWord(L.Decimal(n)) && L.AllDigits(L.Decimal(n))
  {
    L.TextIsDigits(n);
    assert L.Decimal(n) == L.Text(n, 10);
  }

  /** A number below 2^64, in decimal, is read back as itself. */
  lemma NumberRead(n: nat)
    requires n < UINT64
    ensures Strtoull(L.Decimal(n)) == Some(n)
  {
    NumberWord(n);
    L.TextParses(n, 10);
    assert L.Decimal(n) == L.Text(n, 10);
    assert SkipBlanks(L.Decimal(n)) == L.Decimal(n);
  }

  lemma WordsOk(u: Update)
    requires Sendable(u)
    ensures AllWords(Words(u)) && AllWords(Arguments(u)) && L.AllDigits(Words(u)[|Words(u)| - 1])
  {
    NumberWord(u.flags);
    NumberWord(u.exptime);
    NumberWord(|u.body|);
    NumberWord(u.cas);
  }

  lemma LineMarks(u: Update)
    requires Sendable(u)
    ensures EndsWithNoreply(Line(u)) == u.quiet
    ensures u.quiet ==> Line(u)[..|Line(u)| - |NOREPLY|] == Join(Words(u))
    ensures !u.quiet ==> Line(u) == Join(Words(u))
  {
    WordsOk(u);
    var words := Words(u);
    var s := Join(words);
    assert words[1..][|words[1..]| - 1] == words[|words| - 1];
    LastOfRest(words[1..]);
    if u.quiet {
      assert (s + NOREPLY)[|s|..] == NOREPLY;
    } else {
      assert s + "" == s;
      var last := s[|s| - 1];
      assert '0' <= last <= '9';
    }
  }

  lemma Small(n: int)
    requires 0 <= n
    ensures n < 0x8000_0000_0000_0000 ==> ToInt64(n) == n
    ensures n <= INT_MAX ==> ToInt32(n) == n
    ensures n < 0x1_0000_0000 ==> ToUint32(n) == n
  {
  }

  lemma ReadNumber(words: seq<string>, i: nat, n: nat)
    requires i < |words| && words[i] == L.Decimal(n) && n < UINT64
    ensures ReadAt(words, i) == Some(n)
  {
    NumberRead(n);
  }

  lemma NumbersRead(u: Update)
    requires Sendable(u)
    ensures var words := Arguments(u);
      && words != [] && words[0] == u.key && ReadAt(words, 1) == Some(u.flags)
      && ReadAt(words, 2) == Some(u.exptime) && ReadAt(words, 3) == Some(|u.body|)
      && (u.policy.Cas? ==> ReadAt(words, 4) == Some(u.cas))
  {
    var words := Arguments(u);
    ReadNumber(words, 1, u.flags);
    ReadNumber(words, 2, u.exptime);
    ReadNumber(words, 3, |u.body|);
    if u.policy.Cas? {
      ReadNumber(words, 4, u.cas);
    }
  }

  lemma ProcessRead(u: Update, words: seq<string>, startTime: int)
    requires Sendable(u) && words != [] && words[0] == u.key && ReadAt(words, 1) == Some(u.flags)
    requires ReadAt(words, 2) == Some(u.exptime) && ReadAt(words, 3) == Some(|u.body|)
    requires u.policy.Cas? ==> ReadAt(words, 4) == Some(u.cas)
    ensures ProcessUpdate(u.policy, words, u.quiet, startTime) ==
      if |u.body| > MAX_VALUE then (Discard(|u.body| + 2, u.quiet), Meant(u, startTime))
      else (Receive(u.policy, u.key, u.flags, RelativeExpiry(u.exptime, startTime),
                    if u.policy.Cas? then u.cas else 0, |u.body| + 2, "", u.quiet), [])
  {
    Small(u.exptime);
    Small(|u.body|);
    Small(u.flags);
    if |u.body| > MAX_VALUE {
      assert ProcessUpdate(u.policy, words, u.quiet, startTime) ==
             (Discard(|u.body| + 2, u.quiet), Meant(u, startTime));
    }
  }

  lemma UpdateRead(u: Update, startTime: int)
    requires Sendable(u)
    ensures ProcessUpdate(u.policy, Arguments(u), u.quiet, startTime) ==
      if |u.body| > MAX_VALUE then (Discard(|u.body| + 2, u.quiet), Meant(u, startTime))
      else (Receive(u.policy, u.key, u.flags, RelativeExpiry(u.exptime, startTime),
                    if u.policy.Cas? then u.cas else 0, |u.body| + 2, "", u.quiet), [])
  {
    NumbersRead(u);
    ProcessRead(u, Arguments(u), startTime);
  }

  /** A request line, taken apart again, means what the client meant. */
  lemma LineRead(u: Update, startTime: int)
    requires Sendable(u)
    ensures Process(Line(u), startTime) == ProcessUpdate(u.policy, Arguments(u), u.quiet, startTime)
  {
    LineMarks(u);
    WordsOk(u);
    TokensOfJoin(Words(u));
    assert Words(u)[0] == NameOf(u.policy) && Words(u)[1..] == Arguments(u);
  }

  lemma LineEndsOnce(u: Update, rest: string)
    requires Sendable(u)
    ensures FindCrlf(Line(u) + CRLF + rest) == |Line(u)|
  {
    WordsOk(u);
    NoReturn(Arguments(u));
    assert Words(u)[1..] == Arguments(u);
    var line := Line(u);
    assert forall i :: 0 <= i < |line| ==> line[i] != '\r';
    FirstCrlfIs(line + CRLF + rest, |line|);
  }

  /** A request in front of any stream brings about what it means, and the rest of the stream is
      then parsed as it would be alone. */
  lemma RequestFirst(u: Update, rest: string, startTime: int)
    requires Sendable(u)
    ensures Parse(Format(u) + rest, startTime) ==
            Then(Outcome(NewCommand, "", Meant(u, startTime)), rest, startTime)
  {
    var block := u.body + CRLF;
    var stream := Line(u) + CRLF + (block + rest);
    assert Format(u) + rest == stream;
    LineEndsOnce(u, block + rest);
    LineRead(u, startTime);
    UpdateRead(u, startTime);
    assert stream[..|Line(u)|] == Line(u) && stream[|Line(u)| + 2..] == block + rest;
    var s := Step(NewCommand, stream, startTime);
    assert s.rest == block + rest;
    assert "" + rest == rest;
    if |u.body| > MAX_VALUE {
      SkipExact(s.mode, block, rest, startTime);
    } else {
      assert EndsWithCrlf(block);
      ValueExact(s.mode, block, rest, startTime);
      assert s.events + Meant(u, startTime) == Meant(u, startTime);
    }
  }

  predicate AllShort(words: seq<string>) {
    forall i :: 0 <= i < |words| ==> |words[i]| <= 20
  }

  lemma {:induction false} ShortRest(words: seq<string>)
    requires AllShort(words)
    ensures |JoinRest(words)| <= 21 * |words|
    decreases |words|
  {
    if words != [] {
      ShortRest(words[1..]);
    }
  }

  lemma NumberShort(n: nat)
    requires n < UINT64
    ensures |L.Decimal(n)| <= 20
  {
    L.Pow10Of20();
    L.LengthBelow(n, 20);
  }

  /** A request line is shorter than what the server waits for. */
  lemma LineShort(u: Update)
    requires Sendable(u)
    ensures |Line(u)| < MAX_PENDING
  {
    NumberShort(u.flags);
    NumberShort(u.exptime);
    NumberShort(|u.body|);
    NumberShort(u.cas);
    var words := Arguments(u);
    ShortRest(words[1..]);
    assert Words(u)[1..] == words;
  }

  /** A request in front of a stream with short lines leaves its lines short. */
  lemma RequestShort(u: Update, rest: string, startTime: int)
    requires Sendable(u) && ShortLines(NewCommand, rest, startTime)
    ensures ShortLines(NewCommand, Format(u) + rest, startTime)
  {
    var block := u.body + CRLF;
    var stream := Line(u) + CRLF + (block + rest);
    assert Format(u) + rest == stream;
    LineShort(u);
    LineEndsOnce(u, block + rest);
    LineRead(u, startTime);
    UpdateRead(u, startTime);
    assert stream[..|Line(u)|] == Line(u) && stream[|Line(u)| + 2..] == block + rest;
    BlockShort(Step(NewCommand, stream, startTime).mode, block, rest, startTime);
  }

  lemma BlockShort(m: Mode, block: string, rest: string, startTime: int)
    requires ModeOk(m) && ShortLines(NewCommand, rest, startTime)
    requires (m.Receive? && m.got == "" && m.size == |block|) || (m.Discard? && m.left == |block|)
    ensures ShortLines(m, block + rest, startTime)
  {
    assert (block + rest)[|block|..] == rest;
  }

  ghost predicate AllSendable(us: seq<Update>) {
    forall i :: 0 <= i < |us| ==> Sendable(us[i])
  }

  lemma {:induction false} RequestsParse(us: seq<Update>, startTime: int)
    requires AllSendable(us)
    ensures Parse(FormatAll(us), startTime) == Outcome(NewCommand, "", MeantAll(us, startTime))
    ensures ShortLines(NewCommand, FormatAll(us), startTime)
    decreases |us|
  {
    if us != [] {
      RequestsParse(us[1..], startTime);
      RequestShort(us[0], FormatAll(us[1..]), startTime);
      RequestFirst(us[0], FormatAll(us[1..]), startTime);
      assert "" + FormatAll(us[1..]) == FormatAll(us[1..]);
    }
  }

  /** The session's round trip: whatever the chunks, a client's update requests lead to exactly the
      store operations it meant, in order, with values of any content, and to nothing else. */
  lemma RequestsArrive(us: seq<Update>, chunks: seq<string>, startTime: int)
    requires AllSendable(us) && Concat(chunks) == FormatAll(us)
    ensures var s := Feed(chunks, startTime);
      && Effects(chunks, startTime) == MeantAll(us, startTime)
      && s == Client(NewCommand, "", MeantAll(us, startTime), false)
  {
    ChunkingIrrelevant(chunks, startTime);
    RequestsParse(us, startTime);
    EffectsAre(chunks, startTime);
    NeverGivenUp(FormatAll(us), startTime);
  }

  // --------------------------------------------------- answers and output

  /** What the client is told about a store operation. */
  function AnswerText(op: Op, r: Reply): string {
    match r
    case Stored(ok, existed) =>
      if ok then "STORED\r\n"
      else if op.Store? && op.policy.Cas? then (if existed then "EXISTS\r\n" else "NOT_FOUND\r\n")
      else "NOT_STORED\r\n"
    case Deleted(ok) => if ok then "DELETED\r\n" else "NOT_FOUND\r\n"
    case _ => ""
  }

  /** An item as the client sees it. */
  function Shown(key: Key, item: Entry, withToken: bool): string {
    "VALUE " + key + " " + L.Decimal(item.flags) + " " + L.Decimal(|item.value| - 2)
    + (if withToken then " " + L.Decimal(item.token) else "") + CRLF + item.value
  }

  /** The store and what has been put out: `pending` is gathered by a look-up and not yet sent. Once
      the connection is shut down (`closing`) sending does nothing. */
  datatype World = World(items: map<Key, Entry>, cas: nat, pending: string, sent: string, closing: bool)

  predicate EventOk(e: Event) {
    e.Ask? ==> WellFormed(e.op)
  }

  ghost predicate EventsOk(es: seq<Event>) {
    forall i :: 0 <= i < |es| ==> EventOk(es[i])
  }

  function Sent(w: World, text: string): World {
    if w.closing then w else w.(sent := w.sent + text)
  }

  function Perform(w: World, e: Event): (r: World)
    requires AllWellFormed(w.items) && EventOk(e)
    ensures AllWellFormed(r.items)
  {
    match e
    case Send(text) => Sent(w, text)
    case Ask(op, quiet) =>
      Sent(w.(items := Apply(w.items, op, w.cas + 1), cas := if Accepted(w.items, op) then w.cas + 1 else w.cas),
           if quiet then "" else AnswerText(op, Answer(w.items, op)))
    case Look(key, withToken) =>
      if key in w.items then w.(pending := w.pending + Shown(key, w.items[key], withToken)) else w
    case Flush =>
      if w.closing then w.(pending := w.pending + "END\r\n") else Sent(w, w.pending + "END\r\n").(pending := "")
    case Shutdown => w.(closing := true)
    case StopServer => w
  }

  ghost function PerformAll(w: World, es: seq<Event>): (r: World)
    requires AllWellFormed(w.items) && EventsOk(es)
    ensures AllWellFormed(r.items)
    decreases |es|
  {
    if es == [] then w else PerformAll(Perform(w, es[0]), es[1..])
  }

  lemma {:induction false} GetOk(keys: seq<string>, withToken: bool, quiet: bool)
    ensures EventsOk(ProcessGet(keys, withToken, quiet))
    decreases |keys|
  {
    if keys != [] && |keys[0]| <= LONGEST_KEY {
      GetOk(keys[1..], withToken, quiet);
    }
  }

  /** The store is only ever asked to take complete values that end with a line end. */
  lemma {:induction false} AsksOk(m: Mode, buf: string, startTime: int)
    requires ModeOk(m)
    ensures EventsOk(Drain(m, buf, startTime).events)
    decreases |buf|
  {
    if CanStep(m, buf) {
      var s := Step(m, buf, startTime);
      if m.NewCommand? {
        RequestOk(buf[..FindCrlf(buf)], startTime);
      }
      AsksOk(s.mode, s.rest, startTime);
    }
  }

  lemma RequestOk(request: string, startTime: int)
    ensures EventsOk(Process(request, startTime).1)
  {
    var quiet := EndsWithNoreply(request);
    var words := Tokens(if quiet then request[..|request| - |NOREPLY|] else request);
    if words != [] {
      CommandOk(words[0], words[1..], quiet, startTime);
    }
  }

  lemma CommandOk(command: string, words: seq<string>, quiet: bool, startTime: int)
    ensures EventsOk(ProcessCommand(command, words, quiet, startTime).1)
  {
    if PolicyOf(command).None? && (command == "get" || command == "gets") {
      GetOk(words, command == "gets", quiet);
    }
  }

  // ------------------------------------------------------- set, then get

  function GetLine(key: Key): string {
    "get " + key
  }

  lemma GetWords(key: Key)
    requires IsWord(key)
    ensures Tokens(GetLine(key)) == ["get", key]
  {
    var words := ["get", key];
    assert words[1..] == [key] && [key][1..] == [];
    assert JoinRest([]) == "" && JoinRest([key]) == " " + key + "";
    assert Join(words) == GetLine(key);
    TokensOfJoin(words);
  }

  lemma GetNotQuiet(key: Key)
    requires IsWord(key) && key != "noreply"
    ensures !EndsWithNoreply(GetLine(key))
  {
    var line := GetLine(key);
    if |line| >= 8 {
      var tail := line[|line| - 8..];
      if |key| >= 8 {
        assert tail[0] == key[|key| - 8];
      } else if |key| == 7 {
        assert tail[1..] == key;
        assert NOREPLY[1..] == "noreply";
      } else {
        assert tail[7 - |key|] == line[3] == ' ';
        assert NOREPLY[7 - |key|] != ' ';
      }
    }
  }

  lemma GetProcessed(key: Key, startTime: int)
    requires IsWord(key) && |key| <= LONGEST_KEY && key != "noreply"
    ensures Process(GetLine(key), startTime) == (NewCommand, [Look(key, false), Flush])
  {
    GetNotQuiet(key);
    GetWords(key);
    var words := ["get", key];
    assert words[0] == "get" && words[1..] == [key] && [key][1..] == [];
    assert "get"[0] == 'g' && "set"[0] == 's' && "add"[0] == 'a' && "cas"[0] == 'c';
    assert PolicyOf("get").None?;
    assert ProcessGet([key], false, false) == [Look(key, false)] + ProcessGet([], false, false);
    assert [Look(key, false)] + [Flush] == [Look(key, false), Flush];
  }

  lemma GetDrained(key: Key, startTime: int)
    requires IsWord(key) && |key| <= LONGEST_KEY && key != "noreply"
    ensures Drain(NewCommand, GetLine(key) + CRLF, startTime) == Outcome(NewCommand, "", [Look(key, false), Flush])
  {
    GetProcessed(key, startTime);
    var line, stream := GetLine(key), GetLine(key) + CRLF;
    FirstCrlfIs(stream, |line|);
    assert stream[..|line|] == line && stream[|line| + 2..] == "";
  }

  lemma PerformThree(w: World, a: Event, b: Event, c: Event)
    requires AllWellFormed(w.items) && EventOk(a) && EventOk(b) && EventOk(c)
    ensures PerformAll(w, [a, b, c]) == Perform(Perform(Perform(w, a), b), c)
  {
    assert [a, b, c][1..] == [b, c] && [b, c][1..] == [c] && [c][1..] == [];
    assert PerformAll(Perform(Perform(w, a), b), [c]) == Perform(Perform(Perform(w, a), b), c);
  }

  /** End to end: whatever the store held before and however the bytes are cut, setting a value of
      any content and then getting its key sends back exactly that value. */
  lemma SetThenGet(w: World, u: Update, chunks: seq<string>, startTime: int)
    requires Sendable(u) && u.policy.Set? && !u.quiet && |u.body| <= MAX_VALUE && u.key != "noreply"
    requires AllWellFormed(w.items) && w.pending == "" && !w.closing
    requires Concat(chunks) == Format(u) + (GetLine(u.key) + CRLF)
    ensures var es := Effects(chunks, startTime);
      && EventsOk(es)
      && PerformAll(w, es).sent == w.sent + "STORED\r\n" + Echo(u)
  {
    SetGetEvents(u, chunks, startTime);
    SetThenLook(w, u, Meant(u, startTime)[0]);
  }

  lemma SetGetEvents(u: Update, chunks: seq<string>, startTime: int)
    requires Sendable(u) && |u.body| <= MAX_VALUE && u.key != "noreply"
    requires Concat(chunks) == Format(u) + (GetLine(u.key) + CRLF)
    ensures Effects(chunks, startTime) == [Meant(u, startTime)[0], Look(u.key, false), Flush]
  {
    SetGetParse(u, startTime);
    SetGetShort(u, startTime);
    EffectsExact(Concat(chunks), startTime);
  }

  lemma SetGetShort(u: Update, startTime: int)
    requires Sendable(u) && u.key != "noreply"
    ensures ShortLines(NewCommand, Format(u) + (GetLine(u.key) + CRLF), startTime)
  {
    var line, get := GetLine(u.key), GetLine(u.key) + CRLF;
    assert IsWord(u.key);
    FirstCrlfIs(get, |line|);
    assert get[..|line|] == line && get[|line| + 2..] == "";
    GetProcessed(u.key, startTime);
    RequestShort(u, get, startTime);
  }

  lemma SetGetParse(u: Update, startTime: int)
    requires Sendable(u) && |u.body| <= MAX_VALUE && u.key != "noreply"
    ensures Parse(Format(u) + (GetLine(u.key) + CRLF), startTime).events ==
            [Meant(u, startTime)[0], Look(u.key, false), Flush]
  {
    var get := GetLine(u.key) + CRLF;
    RequestFirst(u, get, startTime);
    GetDrained(u.key, startTime);
    assert "" + get == get;
    assert Meant(u, startTime) == [Meant(u, startTime)[0]];
  }

  /** How a value comes back. */
  function Echo(u: Update): string {
    "VALUE " + u.key + " " + L.Decimal(u.flags) + " " + L.Decimal(|u.body|) + "" + CRLF + (u.body + CRLF) + "END\r\n"
  }

  lemma SetThenLook(w: World, u: Update, ask: Event)
    requires AllWellFormed(w.items) && w.pending == "" && !w.closing
    requires ask.Ask? && !ask.quiet && ask.op.Store? && ask.op.policy.Set? && ask.op.key == u.key
    requires ask.op.item.value == u.body + CRLF && ask.op.item.flags == u.flags
    ensures PerformAll(w, [ask, Look(u.key, false), Flush]).sent == w.sent + "STORED\r\n" + Echo(u)
  {
    assert EndsWithCrlf(u.body + CRLF);
    PerformThree(w, ask, Look(u.key, false), Flush);
    var w1 := Perform(w, ask);
    var item := w1.items[u.key];
    assert item.value == u.body + CRLF && item.flags == u.flags;
    assert w1.pending + Shown(u.key, item, false) == Shown(u.key, item, false);
  }

  /** The loop begun with `m0` and `buf0` has got to `m` and `buf`, having added to the events. */
  ghost predicate Continues(m0: Mode, buf0: string, events0: seq<Event>, m: Mode, buf: string, events: seq<Event>,
                            startTime: int)
    requires ModeOk(m0) && ModeOk(m)
  {
    var whole, d := Drain(m0, buf0, startTime), Drain(m, buf, startTime);
    whole.mode == d.mode && whole.rest == d.rest && events0 + whole.events == events + d.events
  }

  lemma TurnContinues(m0: Mode, buf0: string, events0: seq<Event>, m: Mode, buf: string, events: seq<Event>,
                      startTime: int)
    requires ModeOk(m0) && ModeOk(m) && CanStep(m, buf)
    requires Continues(m0, buf0, events0, m, buf, events, startTime)
    ensures var s := Step(m, buf, startTime);
      Continues(m0, buf0, events0, s.mode, s.rest, events + s.events, startTime)
  {
    var s := Step(m, buf, startTime);
    var d := Drain(s.mode, s.rest, startTime);
    assert events + (s.events + d.events) == (events + s.events) + d.events;
  }

  // -------------------------------------------------------------- the code

  datatype Phase = AtCommand | InValue | InDiscard | Broken

  class Session {
    const startTime: int
    var state: Phase
    var noreply: bool
    var policy: Option<Policy>
    var currItem: Item?
    var bytesToDiscard: nat
    var events: seq<Event>

    ghost predicate Valid()
      reads this, Owned()
    {
      && (state == InValue <==> currItem != null)
      && (currItem != null ==>
            currItem.Valid() && policy.Some? && currItem.keyLen <= LONGEST_KEY
            && currItem.keyLen <= currItem.received < currItem.keyLen + currItem.valueLen)
      && (state == InDiscard <==> bytesToDiscard > 0)
      && (state == AtCommand ==> !noreply && policy.None?)
    }

    ghost function Owned(): set<object>
      reads this, currItem
    {
      if currItem == null then {} else {currItem, currItem.data}
    }

    ghost function View(): (m: Mode)
      requires Valid()
      reads this, Owned()
      ensures ModeOk(m)
    {
      match state
      case AtCommand => NewCommand
      case InValue =>
        assert |currItem.KeyOf()| == currItem.keyLen;
        Receive(policy.value, currItem.KeyOf(), currItem.flags, currItem.exptime, currItem.cas, currItem.valueLen,
                currItem.data[currItem.keyLen..currItem.received], noreply)
      case InDiscard => Discard(bytesToDiscard, noreply)
      case Broken => Mode.Failed
    }

    constructor (startTime: int)
      ensures Valid() && View() == NewCommand && events == [] && this.startTime == startTime && Owned() == {}
    {
      this.startTime := startTime;
      state, noreply, policy, currItem, bytesToDiscard, events := AtCommand, false, None, null, 0, [];
    }

    method ResetRequest()
      modifies this`noreply, this`policy, this`currItem, this`bytesToDiscard
      ensures !noreply && policy.None? && currItem == null && bytesToDiscard == 0
    {
      noreply, policy, currItem, bytesToDiscard := false, None, null, 0;
    }

    method Reply(msg: string)
      modifies this`events
      ensures events == old(events) + Say(noreply, msg)
    {
      if !noreply {
        events := events + [Send(msg)];
      }
    }

    method ReceiveValue(buf: string) returns (rest: string)
      requires Valid() && state == InValue && buf != ""
      modifies this, Owned()
      ensures Valid() && fresh(Owned() - old(Owned())) && |rest| < |buf|
      ensures var s := old(Step(View(), buf, startTime));
        View() == s.mode && rest == s.rest && events == old(events) + s.events
    {
      var item := currItem;
      ghost var m := View();
      var avail := if |buf| < item.NeededBytes() then |buf| else item.NeededBytes();
      assert avail == Min(|buf|, m.size - |m.got|);
      ghost var before := item.Written();
      item.Append(buf[..avail]);
      rest := buf[avail..];
      ghost var now := m.got + buf[..avail];
      assert item.data[item.keyLen..item.received] == now by {
        assert item.Written() == before + buf[..avail];
        assert before[item.keyLen..] == m.got;
      }
      assert item.KeyOf() == m.key by {
        assert before[..item.keyLen] == m.key;
        assert item.Written()[..item.keyLen] == m.key;
      }
      if item.NeededBytes() == 0 {
        assert item.Value() == now;
        FinishValue(item, m);
      }
    }

    /** The block is complete: ask for it to be stored, or complain. */
    method FinishValue(item: Item, ghost m: Mode)
      requires state == InValue && policy.Some? && item.Valid() && item.NeededBytes() == 0 && m.Receive?
      requires m.policy == policy.value && m.key == item.KeyOf() && m.quiet == noreply
      requires m.flags == item.flags && m.exptime == item.exptime && m.cas == item.cas
      modifies this
      ensures Valid() && state == AtCommand && Owned() == {}
      ensures events == old(events) + Completed(m, item.Value())
    {
      var ends := item.EndsWithCRLF();
      if ends {
        events := events + [Ask(Store(item.KeyOf(), item.View(), policy.value), noreply)];
      } else {
        Reply("CLIENT_ERROR bad data chunk\r\n");
      }
      ResetRequest();
      state := AtCommand;
    }

    method DiscardValue(buf: string) returns (rest: string)
      requires Valid() && state == InDiscard && buf != ""
      modifies this
      ensures Valid() && Owned() == old(Owned()) && |rest| < |buf|
      ensures var s := old(Step(View(), buf, startTime));
        View() == s.mode && rest == s.rest && events == old(events) + s.events
    {
      if |buf| < bytesToDiscard {
        bytesToDiscard := bytesToDiscard - |buf|;
        rest := "";
      } else {
        rest := buf[bytesToDiscard..];
        ResetRequest();
        state := AtCommand;
      }
    }

    /** Between two requests, with the request line's flags already read. */
    ghost predicate Parsing()
      reads this
    {
      state == AtCommand && currItem == null && bytesToDiscard == 0
    }

    /** Handles an update command; false when a value block is to follow. */
    method DoUpdate(command: string, words: seq<string>) returns (finished: bool)
      requires Parsing() && PolicyOf(command).Some?
      modifies this
      ensures var r := ProcessUpdate(PolicyOf(command).value, words, old(noreply), startTime);
        && events == old(events) + r.1
        && (finished <==> r.0 == NewCommand)
        && (finished ==> Parsing())
        && (!finished ==> Valid() && View() == r.0 && fresh(Owned()))
    {
      policy := PolicyOf(command);
      if words == [] {
        state := Broken;
        return false;
      }
      var key := words[0];
      var good := |key| <= LONGEST_KEY;
      var flags, exptime, bytes := ReadAt(words, 1), ReadAt(words, 2), ReadAt(words, 3);
      good := good && flags.Some? && exptime.Some? && bytes.Some?;
      var cas := Some(0);
      if good && policy.value.Cas? {
        cas := ReadAt(words, 4);
        good := cas.Some?;
      }
      if !good {
        Reply(BAD_LINE);
        return true;
      }
      BeginValue(key, ToUint32(flags.value), RelativeExpiry(ToInt64(exptime.value), startTime),
                 ToInt32(bytes.value), cas.value);
      return false;
    }

    /** Gets ready for the value block of a good update line: to fill an item or to skip it. */
    method BeginValue(key: Key, flags: nat, exptime: int, size: int, cas: nat)
      requires Parsing() && policy.Some? && |key| <= LONGEST_KEY && size <= INT_MAX
      modifies this`state, this`events, this`bytesToDiscard, this`currItem
      ensures Valid() && fresh(Owned())
      ensures var r := UpdateMode(policy.value, key, flags, exptime, size, cas, noreply);
        View() == r.0 && events == old(events) + r.1
    {
      if size > MAX_VALUE {
        if size + 2 > INT_MAX {
          state := Broken;
        } else {
          Reply("SERVER_ERROR object too large for cache\r\n");
          events := events + [Ask(Delete(key), true)];
          bytesToDiscard := size + 2;
          state := InDiscard;
        }
      } else if size < 0 {
        state := Broken;
      } else {
        var item := new Item(key, flags, exptime, size + 2, cas);
        assert item.KeyOf() == item.Written();
        currItem := item;
        state := InValue;
      }
    }

    method DoGet(words: seq<string>, withToken: bool)
      modifies this`events
      ensures events == old(events) + ProcessGet(words, withToken, noreply)
    {
      var i := 0;
      while i < |words|
        invariant 0 <= i <= |words|
        invariant events + ProcessGet(words[i..], withToken, noreply) ==
                  old(events) + ProcessGet(words, withToken, noreply)
      {
        if |words[i]| > LONGEST_KEY {
          Reply(BAD_LINE);
          return;
        }
        assert words[i..][1..] == words[i + 1..];
        events := events + [Look(words[i], withToken)];
        i := i + 1;
      }
      events := events + [Flush];
    }

    method DoDelete(words: seq<string>)
      requires Parsing()
      modifies this`events, this`state
      ensures var r := ProcessDelete(words, noreply);
        events == old(events) + r.1 && (r.0 == NewCommand || r.0 == Mode.Failed)
        && state == if r.0 == NewCommand then AtCommand else Broken
    {
      if words == [] {
        state := Broken;
      } else if |words[0]| > LONGEST_KEY {
        Reply(BAD_LINE);
      } else if |words| > 1 && words[1] != "0" {
        Reply("CLIENT_ERROR bad command line format.  Usage: delete <key> [noreply]\r\n");
      } else {
        events := events + [Ask(Delete(words[0]), noreply)];
      }
    }

    method DoCommand(command: string, words: seq<string>) returns (finished: bool)
      requires Parsing()
      modifies this
      ensures var r := ProcessCommand(command, words, old(noreply), startTime);
        && events == old(events) + r.1
        && (finished <==> r.0 == NewCommand)
        && (finished ==> Parsing())
        && (!finished ==> Valid() && View() == r.0 && fresh(Owned()))
    {
      finished := true;
      if PolicyOf(command).Some? {
        finished := DoUpdate(command, words);
      } else if command == "get" || command == "gets" {
        DoGet(words, command == "gets");
      } else if command == "delete" {
        DoDelete(words);
        finished := state == AtCommand;
      } else if command == "version" {
        Reply("VERSION 0.01 muduo\r\n");
      } else if command == "quit" {
        events := events + [Shutdown];
      } else if command == "shutdown" {
        events := events + [Shutdown, StopServer];
      } else {
        Reply("ERROR\r\n");
      }
    }

    method ProcessRequest(line: string)
      requires Valid() && state == AtCommand
      modifies this
      ensures Valid() && fresh(Owned())
      ensures var r := Process(line, startTime); View() == r.0 && events == old(events) + r.1
    {
      var request := line;
      if EndsWithNoreply(request) {
        noreply := true;
        request := request[..|request| - |NOREPLY|];
      }
      var words := Tokens(request);
      var finished := true;
      if words == [] {
        Reply("ERROR\r\n");
      } else {
        finished := DoCommand(words[0], words[1..]);
      }
      if finished {
        ResetRequest();
      }
    }

    /** One turn of the loop; no progress when a line is not complete or the server has failed. */
    method Turn(buf: string) returns (rest: string, progress: bool)
      requires Valid() && buf != ""
      modifies this, Owned()
      ensures Valid() && fresh(Owned() - old(Owned()))
      ensures progress == CanStep(old(View()), buf)
      ensures progress ==>
        var s := Step(old(View()), buf, startTime);
        View() == s.mode && rest == s.rest && events == old(events) + s.events
      ensures !progress ==> View() == old(View()) && rest == buf && events == old(events)
    {
      rest, progress := buf, true;
      if state == AtCommand {
        var i := FindCrlf(buf);
        if i >= 0 {
          ProcessRequest(buf[..i]);
          rest := buf[i + 2..];
        } else {
          progress := false;
        }
      } else if state == InValue {
        rest := ReceiveValue(buf);
      } else if state == InDiscard {
        rest := DiscardValue(buf);
      } else {
        progress := false;
      }
    }

    /** The message callback: consumes what it can and leaves the rest in the buffer. */
    method OnMessage(buf: string) returns (rest: string, tooLong: bool)
      requires Valid()
      modifies this, Owned()
      ensures Valid() && fresh(Owned() - old(Owned()))
      ensures var d := Drain(old(View()), buf, startTime);
        View() == d.mode && rest == d.rest && events == old(events) + d.events && tooLong == TooLong(d)
    {
      rest := buf;
      var progress := true;
      ghost var start := events;
      while rest != "" && progress
        invariant Valid() && fresh(Owned() - old(Owned()))
        invariant Continues(old(View()), buf, start, View(), rest, events, startTime)
        invariant !progress ==> !CanStep(View(), rest)
        decreases |rest|, progress
      {
        ghost var m, b, e := View(), rest, events;
        rest, progress := Turn(rest);
        if progress {
          TurnContinues(old(View()), buf, start, m, b, e, startTime);
        }
      }
      tooLong := state == AtCommand && |rest| > MAX_PENDING;
    }
  }
}
