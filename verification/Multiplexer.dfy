/** Many client connections over one link: the multiplexer cuts each client's bytes into packets
    marked with an id, the demultiplexer takes them apart and feeds one socket per id.
    Bytes are characters here. */
module Multiplexer {
  import opened Common
  import L = LogStream

  const MAX_CONNS := 10
  const MAX_PACKET_LEN := 255
  const HEADER_LEN := 3

  type Id = nat
  type Bytes = string

  datatype Packet = Packet(id: Id, payload: Bytes)

  // ---------------------------------------------------------- on the wire

  predicate Sendable(p: Packet) {
    p.id < 0x1_0000 && 0 < |p.payload| <= MAX_PACKET_LEN
  }

  function Header(id: Id, len: nat): (h: Bytes)
    requires id < 0x1_0000 && len <= MAX_PACKET_LEN
    ensures |h| == HEADER_LEN
  {
    [len as char, (id % 256) as char, (id / 256) as char]
  }

  function Encode(p: Packet): Bytes
    requires Sendable(p)
  {
    Header(p.id, |p.payload|) + p.payload
  }

  ghost predicate AllSendable(ps: seq<Packet>) {
    forall i :: 0 <= i < |ps| ==> Sendable(ps[i])
  }

  function EncodeAll(ps: seq<Packet>): Bytes
    requires AllSendable(ps)
  {
    if ps == [] then "" else Encode(ps[0]) + EncodeAll(ps[1..])
  }

  /** A whole packet is at the front. With the header alone the reader still waits. */
  predicate Ready(s: Bytes) {
    |s| > HEADER_LEN && |s| >= s[0] as int + HEADER_LEN
  }

  function Front(s: Bytes): Packet
    requires Ready(s)
  {
    Packet(s[1] as int + 256 * (s[2] as int), s[HEADER_LEN..HEADER_LEN + s[0] as int])
  }

  function Behind(s: Bytes): (r: Bytes)
    requires Ready(s)
    ensures |r| < |s|
  {
    s[HEADER_LEN + s[0] as int..]
  }

  datatype Parsed = Parsed(packets: seq<Packet>, rest: Bytes)

  function Parse(s: Bytes): (p: Parsed)
    ensures !Ready(p.rest)
    decreases |s|
  {
    if Ready(s) then
      var p := Parse(Behind(s));
      p.(packets := [Front(s)] + p.packets)
    else Parsed([], s)
  }

  lemma FrontOfEncoded(p: Packet, t: Bytes)
    requires Sendable(p)
    ensures Ready(Encode(p) + t) && Front(Encode(p) + t) == p && Behind(Encode(p) + t) == t
  {
    var s := Encode(p) + t;
    assert s[0] == |p.payload| as char && s[1] == (p.id % 256) as char && s[2] == (p.id / 256) as char;
    assert s[HEADER_LEN..HEADER_LEN + |p.payload|] == p.payload;
    assert s[HEADER_LEN + |p.payload|..] == t;
  }

  lemma ParseOne(p: Packet, t: Bytes)
    requires Sendable(p)
    ensures Parse(Encode(p) + t) == Parsed([p] + Parse(t).packets, Parse(t).rest)
  {
    FrontOfEncoded(p, t);
  }

  /** `p` is what has been read and kept when the first bytes, `s`, of the encoded packets `ps` have
      arrived. */
  ghost predicate ReadsPrefix(ps: seq<Packet>, s: Bytes, p: Parsed)
    requires AllSendable(ps) && |s| <= |EncodeAll(ps)|
  {
    && p.packets <= ps && AllSendable(ps[|p.packets|..])
    && p.rest <= EncodeAll(ps[|p.packets|..])
    && EncodeAll(ps[|p.packets|..])[|p.rest|..] == EncodeAll(ps)[|s|..]
  }

  lemma FirstRead(ps: seq<Packet>, t: Bytes, p: Parsed)
    requires AllSendable(ps) && ps != [] && |t| <= |EncodeAll(ps[1..])| && ReadsPrefix(ps[1..], t, p)
    ensures ReadsPrefix(ps, Encode(ps[0]) + t, Parsed([ps[0]] + p.packets, p.rest))
  {
    assert ps == [ps[0]] + ps[1..];
    assert ps[|p.packets| + 1..] == ps[1..][|p.packets|..];
    var first, all := Encode(ps[0]), EncodeAll(ps);
    assert all[|first + t|..] == EncodeAll(ps[1..])[|t|..];
  }

  lemma NoneRead(ps: seq<Packet>, s: Bytes)
    requires AllSendable(ps) && s <= EncodeAll(ps)
    ensures ReadsPrefix(ps, s, Parsed([], s))
  {
    assert ps[0..] == ps;
  }

  /** Whatever has arrived of an encoded list of packets, the packets read are a prefix of it and
      the bytes kept are the beginning of what is still to be read. */
  lemma {:induction false} ParsePrefix(ps: seq<Packet>, s: Bytes)
    requires AllSendable(ps) && s <= EncodeAll(ps)
    ensures ReadsPrefix(ps, s, Parse(s))
    decreases |ps|
  {
    if ps == [] {
      NoneRead(ps, s);
    } else if |s| < |Encode(ps[0])| {
      NotReady(ps[0], s, EncodeAll(ps[1..]));
      NoneRead(ps, s);
    } else {
      var t := s[|Encode(ps[0])|..];
      assert s == Encode(ps[0]) + t && t <= EncodeAll(ps[1..]);
      ParseOne(ps[0], t);
      ParsePrefix(ps[1..], t);
      FirstRead(ps, t, Parse(t));
    }
  }

  lemma NotReady(p: Packet, s: Bytes, t: Bytes)
    requires Sendable(p) && s <= Encode(p) + t && |s| < |Encode(p)|
    ensures !Ready(s)
  {
    if |s| > HEADER_LEN {
      assert s[0] == Encode(p)[0] == |p.payload| as char;
    }
  }

  /** A client's bytes cut into packets: as many full ones as there are, then the remainder. */
  function Split(id: Id, s: Bytes): (ps: seq<Packet>)
    requires id < 0x1_0000
    ensures AllSendable(ps)
    ensures forall i :: 0 <= i < |ps| ==> ps[i].id == id
    decreases |s|
  {
    if |s| > MAX_PACKET_LEN then [Packet(id, s[..MAX_PACKET_LEN])] + Split(id, s[MAX_PACKET_LEN..])
    else if |s| > 0 then [Packet(id, s)]
    else []
  }

  // ------------------------------------------------------------- commands

  datatype Message = Data(id: Id, bytes: Bytes) | Up(id: Id) | Down(id: Id)

  predicate SubAt(s: string, i: nat, sub: string) {
    i + |sub| <= |s| && s[i..i + |sub|] == sub
  }

  predicate Contains(s: string, sub: string) {
    exists i :: 0 <= i <= |s| && SubAt(s, i, sub)
  }

  function DigitsAhead(s: string): (n: nat)
    ensures n <= |s| && (forall i :: 0 <= i < n ==> '0' <= s[i] <= '9')
    ensures n < |s| ==> !('0' <= s[n] <= '9')
  {
    if s == "" || !('0' <= s[0] <= '9') then 0 else 1 + DigitsAhead(s[1..])
  }

  /** The C library's reading of a number at the front of a text, for texts without a sign. */
  function Atoi(s: string): Id {
    match L.ParseNat(s[..DigitsAhead(s)], 10)
    case None => 0
    case Some(n) => n
  }

  const CONN := "CONN "
  const IS_UP := " IS UP"

  function CommandText(id: Id, peer: string, state: string): string {
    CONN + (L.Decimal(id) + (" FROM " + (peer + state)))
  }

  function UpText(id: Id, peer: string): string {
    CommandText(id, peer, " IS UP\r\n")
  }

  function DownText(id: Id, peer: string): string {
    CommandText(id, peer, " IS DOWN\r\n")
  }

  /** What a packet means to the demultiplexer; a command is at least as long as its keyword. */
  function Meaning(p: Packet): Message {
    if p.id != 0 then Data(p.id, p.payload)
    else
      var id := Atoi(if |p.payload| >= |CONN| then p.payload[|CONN|..] else "");
      if Contains(p.payload, IS_UP) then Up(id) else Down(id)
  }

  /** An address and port in text. */
  predicate IsPeer(peer: string) {
    |peer| <= 64 && forall i :: 0 <= i < |peer| ==> '.' <= peer[i] <= ':'
  }

  lemma {:induction false} DigitsStop(digits: string, rest: string)
    requires L.AllDigits(digits) && (rest == "" || !('0' <= rest[0] <= '9'))
    ensures DigitsAhead(digits + rest) == |digits|
    decreases |digits|
  {
    if digits == "" {
      assert digits + rest == rest;
    } else {
      assert (digits + rest)[1..] == digits[1..] + rest;
      DigitsStop(digits[1..], rest);
    }
  }

  lemma AtoiReads(id: Id, rest: string)
    requires rest != "" && !('0' <= rest[0] <= '9')
    ensures Atoi(L.Decimal(id) + rest) == id
  {
    L.TextIsDigits(id);
    L.TextParses(id, 10);
    assert L.Decimal(id) == L.Text(id, 10);
    DigitsStop(L.Decimal(id), rest);
    assert (L.Decimal(id) + rest)[..|L.Decimal(id)|] == L.Decimal(id);
  }

  lemma IdRead(id: Id, peer: string, state: string)
    ensures var s := CommandText(id, peer, state); |s| >= |CONN| && Atoi(s[|CONN|..]) == id
  {
    var rest := " FROM " + (peer + state);
    assert CommandText(id, peer, state)[|CONN|..] == L.Decimal(id) + rest;
    AtoiReads(id, rest);
  }

  lemma TextInTwo(id: Id, peer: string, state: string)
    ensures CommandText(id, peer, state) == CONN + (L.Decimal(id) + (" FROM " + peer)) + state
  {
  }

  lemma SubAfter(front: string, sub: string, back: string)
    ensures SubAt(front + (sub + back), |front|, sub) && Contains(front + (sub + back), sub)
  {
  }

  lemma UpContains(id: Id, peer: string)
    ensures Contains(UpText(id, peer), IS_UP)
  {
    var front := CONN + (L.Decimal(id) + (" FROM " + peer));
    TextInTwo(id, peer, " IS UP\r\n");
    assert IS_UP + "\r\n" == " IS UP\r\n";
    SubAfter(front, IS_UP, "\r\n");
  }

  lemma UpRead(id: Id, peer: string)
    ensures Meaning(Packet(0, UpText(id, peer))) == Up(id)
  {
    IdRead(id, peer, " IS UP\r\n");
    UpContains(id, peer);
  }

  predicate NoCapitalI(s: string) {
    forall i :: 0 <= i < |s| ==> s[i] != 'I'
  }

  /** The text up to the state, whose first capital I is the one of the state. */
  lemma FrontHasNoI(id: Id, peer: string)
    requires IsPeer(peer)
    ensures NoCapitalI(CONN + (L.Decimal(id) + (" FROM " + peer)))
  {
    L.TextIsDigits(id);
    assert L.Decimal(id) == L.Text(id, 10);
    assert NoCapitalI(L.Decimal(id)) && NoCapitalI(peer) && NoCapitalI(CONN) && NoCapitalI(" FROM ");
  }

  lemma NotUp(front: string)
    requires NoCapitalI(front)
    ensures !Contains(front + " IS DOWN\r\n", IS_UP)
  {
    var s := front + " IS DOWN\r\n";
    assert IS_UP[1] == 'I' && IS_UP[4] == 'U' && NoCapitalI(" IS DOWN\r\n"[2..]);
    forall i | 0 <= i <= |s| ensures !SubAt(s, i, IS_UP) {
      if i + 6 <= |s| {
        var sub := s[i..i + 6];
        assert sub[1] == s[i + 1] && sub[4] == s[i + 4];
        assert i + 1 > |front| + 1 ==> s[i + 1] == " IS DOWN\r\n"[2..][i - 1 - |front|];
        assert s[i + 1] == 'I' ==> i == |front|;
        assert s[|front| + 4] == 'D';
      }
    }
  }

  lemma DownRead(id: Id, peer: string)
    requires IsPeer(peer)
    ensures Meaning(Packet(0, DownText(id, peer))) == Down(id)
  {
    IdRead(id, peer, " IS DOWN\r\n");
    TextInTwo(id, peer, " IS DOWN\r\n");
    FrontHasNoI(id, peer);
    NotUp(CONN + (L.Decimal(id) + (" FROM " + peer)));
  }

  lemma CommandFits(id: Id, peer: string, state: string)
    requires id <= MAX_CONNS && IsPeer(peer) && |state| <= 12
    ensures 0 < |CommandText(id, peer, state)| <= MAX_PACKET_LEN
  {
    assert L.Pow10(2) == 10 * L.Pow10(1) == 100 * L.Pow10(0);
    L.LengthBelow(id, 2);
  }

  // ---------------------------------------------------- the whole session

  /** What the demultiplexer keeps for one id; `out` is all that was handed to its socket. */
  datatype Entry = Entry(connected: bool, pending: Bytes, out: Bytes)

  /** One session between the two programs: the multiplexer's clients and free ids, every packet
      it has written, the bytes under way, the demultiplexer's input buffer, how many packets it
      has read, its entries, and what each client has sent, by id and by use of that id. */
  datatype State = State(
    clients: set<Id>,
    avail: seq<Id>,
    sent: map<(Id, nat), Bytes>,
    all: seq<Packet>,
    wire: Bytes,
    held: Bytes,
    read: nat,
    conns: map<Id, Entry>,
    failed: bool)

  datatype Action =
    | ClientUp(p: Packet)
    | ClientData(id: Id, bytes: Bytes)
    | ClientDown(id: Id, p: Packet)
    | Arrive(n: nat)
    | Read
    | SocksUp(id: Id)

  function Init(): State {
    State({}, [1, 2, 3, 4, 5, 6, 7, 8, 9, 10], map[], [], "", "", 0, map[], false)
  }

  /** The demultiplexer's entries after one packet; None when an assertion of it is violated. */
  function Handle(conns: map<Id, Entry>, m: Message): Option<map<Id, Entry>> {
    match m
    case Data(id, bytes) =>
      if id !in conns || (conns[id].connected && conns[id].pending != "") then None
      else if conns[id].connected then Some(conns[id := conns[id].(out := conns[id].out + bytes)])
      else Some(conns[id := conns[id].(pending := conns[id].pending + bytes)])
    case Up(id) =>
      if id in conns then None else Some(conns[id := Entry(false, "", "")])
    case Down(id) =>
      if id !in conns then None
      else if conns[id].connected then Some(conns)
      else Some(conns - {id})
  }

  predicate Enabled(s: State, a: Action) {
    !s.failed &&
    match a
    case ClientUp(p) => s.avail != [] && Sendable(p) && Meaning(p) == Up(s.avail[0])
    case ClientData(id, _) => id in s.clients && id <= MAX_CONNS
    case ClientDown(id, p) => id in s.clients && Sendable(p) && Meaning(p) == Down(id)
    case Arrive(n) => n <= |s.wire|
    case Read => Ready(s.held)
    case SocksUp(id) => id in s.conns && !s.conns[id].connected
  }

  function Write(s: State, ps: seq<Packet>): State
    requires AllSendable(ps)
  {
    s.(all := s.all + ps, wire := s.wire + EncodeAll(ps))
  }

  /** What the packets say, in order. */
  function Meanings(ps: seq<Packet>): (ms: seq<Message>)
    ensures |ms| == |ps| && forall i :: 0 <= i < |ps| ==> ms[i] == Meaning(ps[i])
  {
    seq(|ps|, i requires 0 <= i < |ps| => Meaning(ps[i]))
  }

  /** How many times an id has come up. */
  function Ups(ms: seq<Message>, id: Id): nat {
    if ms == [] then 0
    else Ups(ms[..|ms| - 1], id) + if ms[|ms| - 1] == Up(id) then 1 else 0
  }

  /** The record of what was sent, when an id comes up: a new, empty use of it. */
  function Opened(sent: map<(Id, nat), Bytes>, ms: seq<Message>, id: Id): map<(Id, nat), Bytes> {
    sent[(id, Ups(ms, id) + 1) := ""]
  }

  function Next(s: State, a: Action): State
    requires Enabled(s, a)
  {
    match a
    case ClientUp(p) =>
      var id := s.avail[0];
      Write(s, [p])
        .(avail := s.avail[1..], clients := s.clients + {id}, sent := Opened(s.sent, Meanings(s.all), id))
    case ClientData(id, bytes) =>
      Write(s, Split(id, bytes)).(sent := Extended(s.sent, Meanings(s.all), id, bytes))
    case ClientDown(id, p) =>
      Write(s, [p])
        .(avail := s.avail + [id], clients := s.clients - {id})
    case Arrive(n) => s.(held := s.held + s.wire[..n], wire := s.wire[n..])
    case Read =>
      match Handle(s.conns, Meaning(Front(s.held))) {
        case None => s.(failed := true)
        case Some(conns) => s.(conns := conns, held := Behind(s.held), read := s.read + 1)
      }
    case SocksUp(id) =>
      var e := s.conns[id];
      s.(conns := s.conns[id := Entry(true, "", e.out + e.pending)])
  }

  function After(acts: seq<Action>): State {
    if acts == [] then Init()
    else
      var t := After(acts[..|acts| - 1]);
      if Enabled(t, acts[|acts| - 1]) then Next(t, acts[|acts| - 1]) else t
  }

  // ------------------------------------------------------ what was written

  /** The bytes sent during the `k`-th use of an id. */
  function Stream(ms: seq<Message>, id: Id, k: nat): Bytes {
    if ms == [] then ""
    else
      var front, m := ms[..|ms| - 1], ms[|ms| - 1];
      Stream(front, id, k) + if m.Data? && m.id == id && Ups(front, id) == k then m.bytes else ""
  }

  /** The id's last command was an up. */
  predicate Open(ms: seq<Message>, id: Id) {
    ms != [] &&
    var front, m := ms[..|ms| - 1], ms[|ms| - 1];
    if m == Up(id) then true else if m == Down(id) then false else Open(front, id)
  }

  predicate Fits(before: seq<Message>, m: Message) {
    match m
    case Data(id, _) => Open(before, id)
    case Up(id) => !Open(before, id)
    case Down(id) => Open(before, id)
  }

  /** Each id comes up, carries data, goes down, in this order. */
  ghost predicate Bracketed(ms: seq<Message>) {
    forall i :: 0 <= i < |ms| ==> MessageOk(ms, i)
  }

  ghost predicate MessageOk(ms: seq<Message>, i: nat)
    requires i < |ms|
  {
    Fits(ms[..i], ms[i])
  }

  // ------------------------------------------------------------ invariant

  ghost predicate LinkOk(s: State) {
    && AllSendable(s.all) && s.read <= |s.all|
    && AllSendable(s.all[s.read..])
    && s.held + s.wire == EncodeAll(s.all[s.read..])
  }

  ghost predicate IdsOk(clients: set<Id>, avail: seq<Id>) {
    && (forall i :: 0 <= i < |avail| ==> 1 <= avail[i] <= MAX_CONNS && avail[i] !in clients)
    && (forall i, j :: 0 <= i < j < |avail| ==> avail[i] != avail[j])
    && (forall id :: id in clients ==> 1 <= id <= MAX_CONNS)
  }

  /** What was sent is what the packets say. */
  ghost predicate SaidOk(clients: set<Id>, sent: map<(Id, nat), Bytes>, ms: seq<Message>) {
    && Bracketed(ms)
    && (forall id :: id in clients <==> Open(ms, id))
    && (forall u: (Id, nat) :: UseOk(sent, ms, u))
  }

  ghost predicate UseOk(sent: map<(Id, nat), Bytes>, ms: seq<Message>, u: (Id, nat)) {
    && (u in sent <==> 1 <= u.1 <= Ups(ms, u.0))
    && (u in sent ==> sent[u] == Stream(ms, u.0, u.1))
  }

  /** The entry for an id, against what has been read so far. */
  ghost predicate EntryOk(ms: seq<Message>, conns: map<Id, Entry>, id: Id) {
    && (Open(ms, id) ==> id in conns)
    && (id in conns ==>
          && Ups(ms, id) >= 1
          && (conns[id].connected ==> conns[id].pending == "")
          && (!conns[id].connected ==> Open(ms, id))
          && conns[id].out + conns[id].pending == Stream(ms, id, Ups(ms, id)))
  }

  ghost predicate EntriesOk(ms: seq<Message>, conns: map<Id, Entry>) {
    forall id :: EntryOk(ms, conns, id)
  }

  ghost predicate MessagesOk(s: State) {
    && s.read <= |s.all|
    && SaidOk(s.clients, s.sent, Meanings(s.all))
    && EntriesOk(Meanings(s.all)[..s.read], s.conns)
  }

  ghost predicate Inv(s: State) {
    && LinkOk(s) && IdsOk(s.clients, s.avail) && MessagesOk(s)
  }

  // ------------------------------------------------------------ the steps

  lemma {:induction false} EncodeAppend(a: seq<Packet>, b: seq<Packet>)
    requires AllSendable(a) && AllSendable(b)
    ensures AllSendable(a + b) && EncodeAll(a + b) == EncodeAll(a) + EncodeAll(b)
    decreases |a|
  {
    if a == [] {
      assert a + b == b;
    } else {
      EncodeAppend(a[1..], b);
      assert (a + b)[1..] == a[1..] + b;
    }
  }

  lemma Snoc(ms: seq<Message>, m: Message, id: Id, k: nat)
    ensures var t := ms + [m];
      && Ups(t, id) == Ups(ms, id) + (if m == Up(id) then 1 else 0)
      && Open(t, id) == (if m == Up(id) then true else if m == Down(id) then false else Open(ms, id))
      && Stream(t, id, k) == Stream(ms, id, k) + if m.Data? && m.id == id && Ups(ms, id) == k then m.bytes else ""
  {
    assert (ms + [m])[..|ms|] == ms;
  }

  lemma BracketSnoc(ms: seq<Message>, m: Message)
    requires Bracketed(ms) && Fits(ms, m)
    ensures Bracketed(ms + [m])
  {
    var t := ms + [m];
    forall i | 0 <= i < |t| ensures MessageOk(t, i) {
      assert t[..i] == if i < |ms| then ms[..i] else ms;
      assert i < |ms| ==> MessageOk(ms, i);
    }
  }

  lemma {:induction false} StreamPrefix(ms: seq<Message>, i: nat, id: Id, k: nat)
    requires i <= |ms|
    ensures Ups(ms[..i], id) <= Ups(ms, id) && Stream(ms[..i], id, k) <= Stream(ms, id, k)
    decreases |ms|
  {
    if i < |ms| {
      var front := ms[..|ms| - 1];
      StreamPrefix(front, i, id, k);
      assert front[..i] == ms[..i];
    } else {
      assert ms[..i] == ms;
    }
  }

  /** No use of an id that has not yet come up has any bytes. */
  lemma {:induction false} NothingLater(ms: seq<Message>, id: Id, k: nat)
    requires k > Ups(ms, id)
    ensures Stream(ms, id, k) == ""
    decreases |ms|
  {
    if ms != [] {
      NothingLater(ms[..|ms| - 1], id, k);
    }
  }

  lemma {:induction false} OpenHasUp(ms: seq<Message>, id: Id)
    requires Open(ms, id)
    ensures Ups(ms, id) >= 1
    decreases |ms|
  {
    if ms[|ms| - 1] != Up(id) {
      OpenHasUp(ms[..|ms| - 1], id);
    }
  }

  lemma UpSaid(clients: set<Id>, sent: map<(Id, nat), Bytes>, ms: seq<Message>, id: Id)
    requires SaidOk(clients, sent, ms) && id !in clients
    ensures SaidOk(clients + {id}, Opened(sent, ms, id), ms + [Up(id)])
  {
    var t, sent' := ms + [Up(id)], Opened(sent, ms, id);
    BracketSnoc(ms, Up(id));
    NothingLater(ms, id, Ups(ms, id) + 1);
    forall j ensures j in clients + {id} <==> Open(t, j) {
      Snoc(ms, Up(id), j, 0);
    }
    forall u: (Id, nat) ensures UseOk(sent', t, u) {
      Snoc(ms, Up(id), u.0, u.1);
      assert UseOk(sent, ms, u);
    }
  }

  lemma DownSaid(clients: set<Id>, sent: map<(Id, nat), Bytes>, ms: seq<Message>, id: Id)
    requires SaidOk(clients, sent, ms) && id in clients
    ensures SaidOk(clients - {id}, sent, ms + [Down(id)])
  {
    var t := ms + [Down(id)];
    BracketSnoc(ms, Down(id));
    forall j ensures j in clients - {id} <==> Open(t, j) {
      Snoc(ms, Down(id), j, 0);
    }
    forall u: (Id, nat) ensures UseOk(sent, t, u) {
      Snoc(ms, Down(id), u.0, u.1);
      assert UseOk(sent, ms, u);
    }
  }

  /** The record of what was sent, with more bytes in the current use of an id. */
  function Extended(sent: map<(Id, nat), Bytes>, ms: seq<Message>, id: Id, bytes: Bytes): map<(Id, nat), Bytes> {
    var u := (id, Ups(ms, id));
    sent[u := (if u in sent then sent[u] else "") + bytes]
  }

  lemma DataSaid(clients: set<Id>, sent: map<(Id, nat), Bytes>, ms: seq<Message>, id: Id, bytes: Bytes)
    requires SaidOk(clients, sent, ms) && id in clients
    ensures var t := ms + [Data(id, bytes)];
      SaidOk(clients, Extended(sent, ms, id, bytes), t) && Ups(t, id) == Ups(ms, id)
  {
    var v, t := (id, Ups(ms, id)), ms + [Data(id, bytes)];
    OpenHasUp(ms, id);
    assert UseOk(sent, ms, v);
    BracketSnoc(ms, Data(id, bytes));
    var sent' := Extended(sent, ms, id, bytes);
    forall j ensures j in clients <==> Open(t, j) {
      Snoc(ms, Data(id, bytes), j, 0);
    }
    forall u: (Id, nat) ensures UseOk(sent', t, u) {
      Snoc(ms, Data(id, bytes), u.0, u.1);
      assert UseOk(sent, ms, u);
    }
    Snoc(ms, Data(id, bytes), id, 0);
  }

  lemma ExtendedTwice(sent: map<(Id, nat), Bytes>, ms: seq<Message>, id: Id, a: Bytes, b: Bytes)
    requires Ups(ms + [Data(id, a)], id) == Ups(ms, id)
    ensures Extended(Extended(sent, ms, id, a), ms + [Data(id, a)], id, b) == Extended(sent, ms, id, a + b)
  {
    var u := (id, Ups(ms, id));
    var was := if u in sent then sent[u] else "";
    assert was + (a + b) == (was + a) + b;
  }

  /** Cut up and written, a client's bytes continue the current use of its id and nothing else. */
  lemma {:induction false} SplitSaid(clients: set<Id>, sent: map<(Id, nat), Bytes>, ms: seq<Message>, id: Id,
                                     bytes: Bytes)
    requires SaidOk(clients, sent, ms) && id in clients && 1 <= id < 0x1_0000
    ensures SaidOk(clients, Extended(sent, ms, id, bytes), ms + Meanings(Split(id, bytes)))
    decreases |bytes|
  {
    if bytes == "" {
      NothingSaid(clients, sent, ms, id);
    } else {
      var n := if |bytes| > MAX_PACKET_LEN then MAX_PACKET_LEN else |bytes|;
      var first, rest := bytes[..n], bytes[n..];
      DataSaid(clients, sent, ms, id, first);
      SplitSaid(clients, Extended(sent, ms, id, first), ms + [Data(id, first)], id, rest);
      ExtendedTwice(sent, ms, id, first, rest);
      assert first + rest == bytes;
      SplitMeanings(id, bytes, n, ms);
    }
  }

  lemma NothingSaid(clients: set<Id>, sent: map<(Id, nat), Bytes>, ms: seq<Message>, id: Id)
    requires SaidOk(clients, sent, ms) && id in clients
    ensures SaidOk(clients, Extended(sent, ms, id, ""), ms + Meanings([]))
  {
    var u := (id, Ups(ms, id));
    OpenHasUp(ms, id);
    assert UseOk(sent, ms, u);
    assert sent[u] + "" == sent[u];
    assert Extended(sent, ms, id, "") == sent;
    assert ms + Meanings([]) == ms;
  }

  lemma SplitMeanings(id: Id, bytes: Bytes, n: nat, ms: seq<Message>)
    requires 1 <= id < 0x1_0000 && bytes != ""
    requires n == if |bytes| > MAX_PACKET_LEN then MAX_PACKET_LEN else |bytes|
    ensures ms + Meanings(Split(id, bytes)) == ms + [Data(id, bytes[..n])] + Meanings(Split(id, bytes[n..]))
  {
    SplitFirst(id, bytes, n);
    var p := Packet(id, bytes[..n]);
    assert Meanings([p] + Split(id, bytes[n..])) == [Data(id, bytes[..n])] + Meanings(Split(id, bytes[n..]));
  }

  lemma SplitFirst(id: Id, bytes: Bytes, n: nat)
    requires id < 0x1_0000 && bytes != ""
    requires n == if |bytes| > MAX_PACKET_LEN then MAX_PACKET_LEN else |bytes|
    ensures Split(id, bytes) == [Packet(id, bytes[..n])] + Split(id, bytes[n..])
  {
    assert bytes[..|bytes|] == bytes;
  }

  lemma WriteKeepsLink(s: State, ps: seq<Packet>)
    requires LinkOk(s) && AllSendable(ps)
    ensures LinkOk(Write(s, ps))
  {
    EncodeAppend(s.all, ps);
    EncodeAppend(s.all[s.read..], ps);
    assert (s.all + ps)[s.read..] == s.all[s.read..] + ps;
    assert s.held + (s.wire + EncodeAll(ps)) == (s.held + s.wire) + EncodeAll(ps);
  }

  lemma MeaningsAppend(ps: seq<Packet>, qs: seq<Packet>, n: nat)
    requires n <= |ps|
    ensures Meanings(ps + qs) == Meanings(ps) + Meanings(qs) && Meanings(ps + qs)[..n] == Meanings(ps)[..n]
  {
  }

  lemma UpWritten(s: State, p: Packet, id: Id)
    requires MessagesOk(s) && id !in s.clients && Meanings([p]) == [Up(id)]
    ensures MessagesOk(s.(all := s.all + [p], clients := s.clients + {id},
                          sent := Opened(s.sent, Meanings(s.all), id)))
  {
    MeaningsAppend(s.all, [p], s.read);
    UpSaid(s.clients, s.sent, Meanings(s.all), id);
  }

  lemma DownWritten(s: State, p: Packet, id: Id)
    requires MessagesOk(s) && id in s.clients && Meanings([p]) == [Down(id)]
    ensures MessagesOk(s.(all := s.all + [p], clients := s.clients - {id}))
  {
    MeaningsAppend(s.all, [p], s.read);
    DownSaid(s.clients, s.sent, Meanings(s.all), id);
  }

  lemma IdTaken(clients: set<Id>, avail: seq<Id>)
    requires IdsOk(clients, avail) && avail != []
    ensures IdsOk(clients + {avail[0]}, avail[1..])
  {
  }

  lemma IdReturned(clients: set<Id>, avail: seq<Id>, id: Id)
    requires IdsOk(clients, avail) && id in clients
    ensures IdsOk(clients - {id}, avail + [id])
  {
  }

  lemma SameMessages(s: State, s': State)
    requires MessagesOk(s) && s'.all == s.all && s'.read == s.read && s'.clients == s.clients
    requires s'.sent == s.sent && s'.conns == s.conns
    ensures MessagesOk(s')
  {
  }

  lemma SameLink(s: State, s': State)
    requires LinkOk(s) && s'.all == s.all && s'.read == s.read && s'.held == s.held && s'.wire == s.wire
    ensures LinkOk(s')
  {
  }

  lemma ClientUpKeeps(s: State, p: Packet)
    requires Inv(s) && Enabled(s, ClientUp(p))
    ensures Inv(Next(s, ClientUp(p)))
  {
    var id := s.avail[0];
    WriteKeepsLink(s, [p]);
    assert Meanings([p]) == [Up(id)];
    UpWritten(s, p, id);
    IdTaken(s.clients, s.avail);
    var w := s.(all := s.all + [p], clients := s.clients + {id}, sent := Opened(s.sent, Meanings(s.all), id));
    var s' := Next(s, ClientUp(p));
    SameMessages(w, s');
    SameLink(Write(s, [p]), s');
  }

  lemma ClientDataKeeps(s: State, id: Id, bytes: Bytes)
    requires Inv(s) && Enabled(s, ClientData(id, bytes))
    ensures Inv(Next(s, ClientData(id, bytes)))
  {
    WriteKeepsLink(s, Split(id, bytes));
    MeaningsAppend(s.all, Split(id, bytes), s.read);
    SplitSaid(s.clients, s.sent, Meanings(s.all), id, bytes);
  }

  lemma ClientDownKeeps(s: State, id: Id, p: Packet)
    requires Inv(s) && Enabled(s, ClientDown(id, p))
    ensures Inv(Next(s, ClientDown(id, p)))
  {
    WriteKeepsLink(s, [p]);
    assert Meanings([p]) == [Down(id)];
    DownWritten(s, p, id);
    IdReturned(s.clients, s.avail, id);
    var s' := Next(s, ClientDown(id, p));
    SameMessages(s.(all := s.all + [p], clients := s.clients - {id}), s');
    SameLink(Write(s, [p]), s');
  }

  lemma ArriveKeeps(s: State, n: nat)
    requires Inv(s) && Enabled(s, Arrive(n))
    ensures Inv(Next(s, Arrive(n)))
  {
    assert s.held + s.wire[..n] + s.wire[n..] == s.held + s.wire;
  }

  lemma ReadyMeansWhole(p: Packet, s: Bytes, t: Bytes)
    requires Sendable(p) && Ready(s) && s <= Encode(p) + t
    ensures |s| >= |Encode(p)|
  {
    assert s[0] == Encode(p)[0] == |p.payload| as char;
  }

  /** The packet at the front of the input is the next one written. */
  lemma NextPacket(s: State)
    requires LinkOk(s) && Ready(s.held)
    ensures s.read < |s.all| && Front(s.held) == s.all[s.read]
    ensures AllSendable(s.all[s.read + 1..]) && Behind(s.held) + s.wire == EncodeAll(s.all[s.read + 1..])
  {
    var rest := s.all[s.read..];
    var bytes := EncodeAll(rest);
    assert s.held == bytes[..|s.held|];
    assert rest != [];
    assert rest[1..] == s.all[s.read + 1..];
    var first := Encode(rest[0]);
    ReadyMeansWhole(rest[0], s.held, EncodeAll(rest[1..]));
    var t := s.held[|first|..];
    assert s.held == first + t;
    FrontOfEncoded(rest[0], t);
    assert first + (t + s.wire) == first + EncodeAll(rest[1..]);
    assert (first + (t + s.wire))[|first|..] == t + s.wire;
    assert (first + EncodeAll(rest[1..]))[|first|..] == EncodeAll(rest[1..]);
  }

  lemma EntryKept(ms: seq<Message>, m: Message, conns: map<Id, Entry>, id: Id)
    requires EntryOk(ms, conns, id) && Fits(ms, m) && Handle(conns, m).Some?
    ensures EntryOk(ms + [m], Handle(conns, m).value, id)
  {
    var k := Ups(ms, id);
    Snoc(ms, m, id, k);
    Snoc(ms, m, id, k + 1);
    NothingLater(ms, id, k + 1);
    if m.id != id {
      assert Stream(ms, id, k) + "" == Stream(ms, id, k);
    } else {
      match m
      case Data(_, bytes) =>
        assert Open(ms, id) && id in conns;
        assert conns[id].out + conns[id].pending + bytes == Stream(ms + [m], id, k);
        assert conns[id].out + (conns[id].pending + bytes) == conns[id].out + conns[id].pending + bytes;
        assert conns[id].pending == "" ==> conns[id].out + bytes + "" == conns[id].out + conns[id].pending + bytes;
      case Up(_) =>
        assert Stream(ms, id, k + 1) + "" == "" + "";
      case Down(_) =>
        assert Stream(ms, id, k) + "" == Stream(ms, id, k);
    }
  }

  /** One packet read: the entries still agree, and an assertion is violated exactly when an id
      comes up again although its former entry is still there. */
  lemma HandleKeeps(ms: seq<Message>, m: Message, conns: map<Id, Entry>)
    requires EntriesOk(ms, conns) && Fits(ms, m)
    ensures Handle(conns, m).None? <==> m.Up? && m.id in conns
    ensures Handle(conns, m).Some? ==> EntriesOk(ms + [m], Handle(conns, m).value)
  {
    assert EntryOk(ms, conns, m.id);
    if Handle(conns, m).Some? {
      forall id ensures EntryOk(ms + [m], Handle(conns, m).value, id) {
        assert EntryOk(ms, conns, id);
        EntryKept(ms, m, conns, id);
      }
    }
  }

  lemma MessageRead(s: State, m: Message)
    requires MessagesOk(s) && s.read < |s.all| && m == Meanings(s.all)[s.read]
    ensures Handle(s.conns, m).None? <==> m.Up? && m.id in s.conns
    ensures Handle(s.conns, m).Some? ==> MessagesOk(s.(read := s.read + 1, conns := Handle(s.conns, m).value))
    ensures m.id in s.conns && !s.conns[m.id].connected ==> !m.Up?
  {
    var all := Meanings(s.all);
    OneMoreMessage(all, s.read);
    HandleKeeps(all[..s.read], m, s.conns);
    assert EntryOk(all[..s.read], s.conns, m.id);
  }

  lemma OneMoreMessage(ms: seq<Message>, i: nat)
    requires Bracketed(ms) && i < |ms|
    ensures Fits(ms[..i], ms[i]) && ms[..i + 1] == ms[..i] + [ms[i]]
  {
    assert MessageOk(ms, i);
  }

  lemma ReadKeeps(s: State)
    requires Inv(s) && Enabled(s, Read) && !Next(s, Read).failed
    ensures Inv(Next(s, Read))
  {
    NextPacket(s);
    var m := Meanings(s.all)[s.read];
    MessageRead(s, m);
    SameMessages(s.(read := s.read + 1, conns := Handle(s.conns, m).value), Next(s, Read));
  }

  lemma SocksUpKeeps(s: State, id: Id)
    requires Inv(s) && Enabled(s, SocksUp(id))
    ensures Inv(Next(s, SocksUp(id)))
  {
    var ms, s' := Meanings(s.all)[..s.read], Next(s, SocksUp(id));
    forall j ensures EntryOk(ms, s'.conns, j) {
      assert EntryOk(ms, s.conns, j);
    }
  }

  lemma StepKeeps(s: State, a: Action)
    requires Inv(s) && Enabled(s, a) && !Next(s, a).failed
    ensures Inv(Next(s, a))
  {
    match a
    case ClientUp(p) => ClientUpKeeps(s, p);
    case ClientData(id, bytes) => ClientDataKeeps(s, id, bytes);
    case ClientDown(id, p) => ClientDownKeeps(s, id, p);
    case Arrive(n) => ArriveKeeps(s, n);
    case Read => ReadKeeps(s);
    case SocksUp(id) => SocksUpKeeps(s, id);
  }

  lemma InitOk()
    ensures Inv(Init())
  {
    assert Meanings([]) == [];
    assert SaidOk({}, map[], []) && EntriesOk([], map[]);
    assert IdsOk({}, Init().avail) && LinkOk(Init());
  }

  lemma {:induction false} RunKeeps(acts: seq<Action>)
    requires !After(acts).failed
    ensures Inv(After(acts))
  {
    if acts == [] {
      InitOk();
    } else {
      var t, a := After(acts[..|acts| - 1]), acts[|acts| - 1];
      RunKeeps(acts[..|acts| - 1]);
      if Enabled(t, a) {
        StepKeeps(t, a);
      }
    }
  }

  // --------------------------------------------------------- main results

  /** Streams are preserved: for every id the demultiplexer serves, what its socket was given
      followed by what is still pending is a prefix of what the client sent in the same use of the
      id, whatever the interleaving, the packets and the chunks. */
  lemma StreamsPreserved(acts: seq<Action>, id: Id)
    requires var s := After(acts); !s.failed && id in s.conns
    ensures var s := After(acts); var e := s.conns[id];
      && s.read <= |s.all|
      && var use := (id, Ups(Meanings(s.all)[..s.read], id));
      && use in s.sent && e.out + e.pending <= s.sent[use]
      && (e.connected ==> e.pending == "")
  {
    RunKeeps(acts);
    var s := After(acts);
    var all := Meanings(s.all);
    var ms := all[..s.read];
    assert EntryOk(ms, s.conns, id);
    StreamPrefix(all, s.read, id, Ups(ms, id));
    assert UseOk(s.sent, all, (id, Ups(ms, id)));
  }

  /** Once the link is empty, nothing is missing: every connected client's bytes are all with its
      socket or pending for it. */
  lemma NothingMissing(acts: seq<Action>, id: Id)
    requires var s := After(acts); !s.failed && id in s.clients && s.wire == "" && s.held == ""
    ensures var s := After(acts);
      && id in s.conns
      && var use := (id, Ups(Meanings(s.all), id));
      use in s.sent && s.conns[id].out + s.conns[id].pending == s.sent[use]
  {
    RunKeeps(acts);
    var s := After(acts);
    var all := Meanings(s.all);
    AllRead(s);
    assert all[..s.read] == all;
    assert EntryOk(all, s.conns, id);
    assert UseOk(s.sent, all, (id, Ups(all, id)));
  }

  lemma NothingEncoded(ps: seq<Packet>)
    requires AllSendable(ps) && EncodeAll(ps) == ""
    ensures ps == []
  {
  }

  lemma AllRead(s: State)
    requires LinkOk(s) && s.wire == "" && s.held == ""
    ensures s.read == |s.all|
  {
    NothingEncoded(s.all[s.read..]);
  }

  /** An assertion of the demultiplexer is violated exactly when an id comes up whose entry is still
      there; that entry's last socket had been connected, for otherwise going down removes it. */
  lemma FailsOnlyOnReuse(acts: seq<Action>)
    requires !After(acts).failed && Enabled(After(acts), Read)
    ensures var s := After(acts); var m := Meaning(Front(s.held));
      && (Next(s, Read).failed <==> m.Up? && m.id in s.conns)
      && (Next(s, Read).failed ==> s.conns[m.id].connected)
  {
    RunKeeps(acts);
    var s := After(acts);
    NextPacket(s);
    MessageRead(s, Meanings(s.all)[s.read]);
  }

  // ---------------------------------------------- a run in which it fails

  /** Everything written has been read. */
  predicate Quiet(s: State) {
    !s.failed && s.wire == "" && s.held == ""
  }

  predicate IsCommand(a: Action, p: Packet) {
    Sendable(p) && (a == ClientUp(p) || (a.ClientDown? && a.p == p))
  }

  lemma OneStep(acts: seq<Action>, a: Action)
    requires Enabled(After(acts), a)
    ensures After(acts + [a]) == Next(After(acts), a)
  {
    assert (acts + [a])[..|acts|] == acts;
  }

  lemma WholeRead(p: Packet)
    requires Sendable(p)
    ensures EncodeAll([p]) == Encode(p) && Ready(Encode(p)) && Front(Encode(p)) == p && Behind(Encode(p)) == ""
  {
    EncodeOne(p);
    FrontOfEncoded(p, "");
    assert Encode(p) + "" == Encode(p);
  }

  /** A command is written, arrives in one piece, and is read. */
  lemma CommandRead(acts: seq<Action>, a: Action, p: Packet) returns (more: seq<Action>)
    requires Quiet(After(acts)) && Enabled(After(acts), a) && IsCommand(a, p)
    ensures var s, t, n := After(acts), After(more), Next(After(acts), a);
      var h := Handle(s.conns, Meaning(p));
      && (h.None? ==> t.failed)
      && (h.Some? ==> Quiet(t) && t.conns == h.value && t.avail == n.avail && t.clients == n.clients)
  {
    WholeRead(p);
    var arrive := Arrive(|Encode(p)|);
    OneStep(acts, a);
    var n := Next(After(acts), a);
    assert n.wire == Encode(p);
    OneStep(acts + [a], arrive);
    assert Next(n, arrive).held == Encode(p);
    OneStep(acts + [a] + [arrive], Read);
    more := acts + [a] + [arrive] + [Read];
  }

  /** The first free id comes up and its command is read. */
  lemma UpDelivered(acts: seq<Action>, peer: string) returns (more: seq<Action>)
    requires IsPeer(peer)
    requires var s := After(acts); Quiet(s) && s.avail != [] && s.avail[0] <= MAX_CONNS
    ensures var s, t := After(acts), After(more);
      if s.avail[0] in s.conns then t.failed
      else Quiet(t) && t.avail == s.avail[1..] && t.conns == s.conns[s.avail[0] := Entry(false, "", "")]
           && t.clients == s.clients + {s.avail[0]}
  {
    var id := After(acts).avail[0];
    var p := Packet(0, UpText(id, peer));
    CommandFits(id, peer, " IS UP\r\n");
    UpRead(id, peer);
    more := CommandRead(acts, ClientUp(p), p);
  }

  /** The free ids from `k` on, and then the first one again. */
  function Rest(k: nat): seq<Id>
    decreases MAX_CONNS + 1 - k
  {
    if k > MAX_CONNS then [1] else [k] + Rest(k + 1)
  }

  lemma RestFirst(k: nat)
    requires k <= MAX_CONNS
    ensures Rest(k) != [] && Rest(k)[0] == k && Rest(k)[1..] == Rest(k + 1)
  {
  }

  /** The first id's entry is there, and none from `k` on. */
  ghost predicate UsedBelow(conns: map<Id, Entry>, k: nat) {
    1 in conns && forall id :: id in conns ==> id < k
  }

  lemma OneMoreUsed(conns: map<Id, Entry>, k: nat, e: Entry)
    requires UsedBelow(conns, k)
    ensures k !in conns && UsedBelow(conns[k := e], k + 1)
  {
  }

  /** The other ids come up one after the other, while the entry of the first one stays. */
  lemma {:induction false} OthersUp(acts: seq<Action>, k: nat, peer: string) returns (more: seq<Action>)
    requires IsPeer(peer)
    requires var s := After(acts); Quiet(s) && s.avail == Rest(k) && UsedBelow(s.conns, k)
    ensures var t := After(more); Quiet(t) && t.avail == [1] && 1 in t.conns
    decreases MAX_CONNS + 1 - k
  {
    if k > MAX_CONNS {
      more := acts;
    } else {
      RestFirst(k);
      OneMoreUsed(After(acts).conns, k, Entry(false, "", ""));
      var first := UpDelivered(acts, peer);
      more := OthersUp(first, k + 1, peer);
    }
  }

  /** The first client comes and its socket is connected. */
  lemma FirstUp(peer: string) returns (acts: seq<Action>)
    requires IsPeer(peer)
    ensures var s := After(acts);
      && Quiet(s) && s.avail == Init().avail[1..] && s.clients == {1}
      && s.conns == map[1 := Entry(true, "", "")]
  {
    var up := UpDelivered([], peer);
    OneStep(up, SocksUp(1));
    var e := After(up).conns[1];
    assert e.out + e.pending == "";
    assert After(up + [SocksUp(1)]).conns == map[1 := Entry(true, "", "")];
    acts := up + [SocksUp(1)];
  }

  /** It goes, which leaves its entry and puts its id behind the others. */
  lemma FirstGone(peer: string) returns (acts: seq<Action>)
    requires IsPeer(peer)
    ensures var s := After(acts);
      Quiet(s) && s.avail == Init().avail[1..] + [1] && s.conns == map[1 := Entry(true, "", "")]
  {
    var up := FirstUp(peer);
    var p := Packet(0, DownText(1, peer));
    CommandFits(1, peer, " IS DOWN\r\n");
    DownRead(1, peer);
    acts := CommandRead(up, ClientDown(1, p), p);
  }

  lemma RestIsFree()
    ensures Rest(2) == Init().avail[1..] + [1]
  {
    assert Rest(9) == [9, 10, 1];
    assert Rest(6) == [6, 7, 8] + Rest(9);
    assert Rest(3) == [3, 4, 5] + Rest(6);
  }

  /** It does fail, whatever address the clients have: the first id is used, its socket is connected
      and its client goes; every other id is used; then the first one comes up again. */
  lemma ReuseFails(peer: string) returns (acts: seq<Action>)
    requires IsPeer(peer)
    ensures After(acts).failed
  {
    var gone := FirstGone(peer);
    RestIsFree();
    var others := OthersUp(gone, 2, peer);
    acts := UpDelivered(others, peer);
  }

  // -------------------------------------------------------------- the code

  lemma EncodeOne(p: Packet)
    requires Sendable(p)
    ensures EncodeAll([p]) == Encode(p)
  {
    assert EncodeAll([p][1..]) == "";
    assert Encode(p) + "" == Encode(p);
  }

  lemma EncodeSplit(id: Id, s: Bytes)
    requires id < 0x1_0000 && |s| > MAX_PACKET_LEN
    ensures EncodeAll(Split(id, s)) ==
            Encode(Packet(id, s[..MAX_PACKET_LEN])) + EncodeAll(Split(id, s[MAX_PACKET_LEN..]))
  {
    var p := Packet(id, s[..MAX_PACKET_LEN]);
    EncodeOne(p);
    EncodeAppend([p], Split(id, s[MAX_PACKET_LEN..]));
  }

  class MultiplexServer {
    var availIds: seq<Id>
    var clientConns: set<Id>
    /** All bytes given to the backend connection. */
    var backend: Bytes

    ghost predicate Valid()
      reads this
    {
      IdsOk(clientConns, availIds)
    }

    /** A backend session begins: all ids are free. */
    constructor ()
      ensures Valid() && clientConns == {} && backend == "" && availIds == Init().avail
    {
      availIds, clientConns, backend := [], {}, "";
      new;
      var i := 1;
      while i <= MAX_CONNS
        invariant 1 <= i <= MAX_CONNS + 1 && |availIds| == i - 1 && clientConns == {} && backend == ""
        invariant forall k :: 0 <= k < i - 1 ==> availIds[k] == k + 1
      {
        availIds := availIds + [i];
        i := i + 1;
      }
      assert availIds == Init().avail;
    }

    method SendBackendPacket(id: Id, payload: Bytes)
      requires Sendable(Packet(id, payload))
      modifies this`backend
      ensures backend == old(backend) + Encode(Packet(id, payload))
    {
      var header := Header(id, |payload|);
      backend := backend + (header + payload);
    }

    /** The command that tells of a client; the buffer for it is long enough. */
    method FormatCommand(id: Id, peer: string, up: bool) returns (p: Packet)
      requires id <= MAX_CONNS && IsPeer(peer)
      ensures p == Packet(0, if up then UpText(id, peer) else DownText(id, peer))
      ensures Sendable(p) && Meaning(p) == if up then Up(id) else Down(id)
    {
      CommandFits(id, peer, if up then " IS UP\r\n" else " IS DOWN\r\n");
      if up {
        UpRead(id, peer);
        p := Packet(0, UpText(id, peer));
      } else {
        DownRead(id, peer);
        p := Packet(0, DownText(id, peer));
      }
    }

    /** Cuts a client's bytes into packets, in order. */
    method SendBackendBuffer(id: Id, bytes: Bytes)
      requires id < 0x1_0000
      modifies this`backend
      ensures backend == old(backend) + EncodeAll(Split(id, bytes))
    {
      var buf := bytes;
      ghost var left := EncodeAll(Split(id, bytes));
      ghost var whole := backend + left;
      while |buf| > MAX_PACKET_LEN
        invariant left == EncodeAll(Split(id, buf)) && backend + left == whole
      {
        EncodeSplit(id, buf);
        var packet := buf[..MAX_PACKET_LEN];
        buf := buf[MAX_PACKET_LEN..];
        ghost var before := backend;
        SendBackendPacket(id, packet);
        left := EncodeAll(Split(id, buf));
        assert before + (Encode(Packet(id, packet)) + left) == backend + left;
      }
      if |buf| > 0 {
        EncodeOne(Packet(id, buf));
        SendBackendPacket(id, buf);
      }
    }

    /** A client connects: it gets the first free id, or is turned away. */
    method OnClientUp(peer: string) returns (id: Id, ghost p: Packet)
      requires Valid() && IsPeer(peer)
      modifies this
      ensures Valid()
      ensures old(availIds) == [] ==>
        id == 0 && backend == old(backend) && clientConns == old(clientConns) && availIds == []
      ensures old(availIds) != [] ==>
        && id == old(availIds[0]) && id !in old(clientConns) && 1 <= id <= MAX_CONNS
        && availIds == old(availIds)[1..] && clientConns == old(clientConns) + {id}
        && p.id == 0 && Sendable(p) && Meaning(p) == Up(id) && backend == old(backend) + EncodeAll([p])
    {
      id := 0;
      p := Packet(0, "");
      if availIds != [] {
        id := availIds[0];
        IdTaken(clientConns, availIds);
        availIds := availIds[1..];
        clientConns := clientConns + {id};
        var command := FormatCommand(id, peer, true);
        p := command;
        EncodeOne(command);
        SendBackendPacket(0, command.payload);
      }
    }

    /** A client is gone: its id goes to the end of the queue. */
    method OnClientDown(id: Id, peer: string) returns (ghost p: Packet)
      requires Valid() && IsPeer(peer) && id in clientConns
      modifies this
      ensures Valid() && availIds == old(availIds) + [id] && clientConns == old(clientConns) - {id}
      ensures p.id == 0 && Sendable(p) && Meaning(p) == Down(id) && backend == old(backend) + EncodeAll([p])
    {
      var command := FormatCommand(id, peer, false);
      p := command;
      EncodeOne(command);
      SendBackendPacket(0, command.payload);
      IdReturned(clientConns, availIds, id);
      availIds := availIds + [id];
      clientConns := clientConns - {id};
    }
  }

  /** Reading goes on while a whole packet is there and no assertion is violated. */
  function ReadWhileReady(s: State): (r: State)
    decreases |s.held|
  {
    if s.failed || !Ready(s.held) then s
    else
      var n := Next(s, Read);
      if n.failed then n else ReadWhileReady(n)
  }

  class DemuxServer {
    var socksConns: map<Id, Entry>
    var failed: bool

    constructor ()
      ensures socksConns == map[] && !failed
    {
      socksConns, failed := map[], false;
    }

    /** Takes the packets off the input and feeds the sockets; the state is that of the session
        after as many reads as there are whole packets. */
    method OnServerMessage(buf: Bytes, ghost s: State) returns (rest: Bytes)
      requires !failed && s.held == buf && s.conns == socksConns && !s.failed
      modifies this
      ensures var r := ReadWhileReady(s); socksConns == r.conns && failed == r.failed && rest == r.held
    {
      rest := buf;
      ghost var t := s;
      while |rest| > HEADER_LEN && !failed
        invariant rest == t.held && socksConns == t.conns && failed == t.failed
        invariant ReadWhileReady(s) == ReadWhileReady(t)
        decreases |rest|, !failed
      {
        var len := rest[0] as int;
        if |rest| < len + HEADER_LEN {
          break;
        }
        TakePacket(rest, len);
        t := Next(t, Read);
        if !failed {
          rest := rest[HEADER_LEN + len..];
        }
      }
    }

    /** The packet at the front of the input. */
    method TakePacket(rest: Bytes, len: nat)
      requires !failed && Ready(rest) && len == rest[0] as int
      modifies this
      ensures match Handle(old(socksConns), Meaning(Front(rest)))
        case None => failed && socksConns == old(socksConns)
        case Some(conns) => !failed && socksConns == conns
    {
      var connId := rest[1] as int + 256 * (rest[2] as int);
      var payload := rest[HEADER_LEN..HEADER_LEN + len];
      assert Front(rest) == Packet(connId, payload);
      if connId != 0 {
        OnData(connId, payload);
      } else {
        DoCommand(payload);
      }
    }

    method OnData(connId: Id, payload: Bytes)
      requires connId != 0 && !failed
      modifies this
      ensures match Handle(old(socksConns), Data(connId, payload))
        case None => failed && socksConns == old(socksConns)
        case Some(conns) => !failed && socksConns == conns
    {
      if connId !in socksConns {
        failed := true;
      } else if socksConns[connId].connected {
        if socksConns[connId].pending != "" {
          failed := true;
        } else {
          socksConns := socksConns[connId := socksConns[connId].(out := socksConns[connId].out + payload)];
        }
      } else {
        socksConns := socksConns[connId := socksConns[connId].(pending := socksConns[connId].pending + payload)];
      }
    }

    method DoCommand(cmd: Bytes)
      requires !failed
      modifies this
      ensures match Handle(old(socksConns), Meaning(Packet(0, cmd)))
        case None => failed && socksConns == old(socksConns)
        case Some(conns) => !failed && socksConns == conns
    {
      var connId := Atoi(if |cmd| >= |CONN| then cmd[|CONN|..] else "");
      var isUp := Contains(cmd, IS_UP);
      if isUp {
        if connId in socksConns {
          failed := true;
        } else {
          socksConns := socksConns[connId := Entry(false, "", "")];
        }
      } else {
        if connId !in socksConns {
          failed := true;
        } else if !socksConns[connId].connected {
          socksConns := socksConns - {connId};
        }
      }
    }

    /** The socket for an id is connected: what was pending is sent first. */
    method OnSocksConnection(connId: Id, ghost s: State)
      requires !failed && s.conns == socksConns && Enabled(s, SocksUp(connId))
      modifies this
      ensures !failed && socksConns == Next(s, SocksUp(connId)).conns
    {
      var e := socksConns[connId].(connected := true);
      if e.pending != "" {
        e := e.(out := e.out + e.pending, pending := "");
      }
      socksConns := socksConns[connId := e];
      assert s.conns[connId].out + "" == s.conns[connId].out;
    }
  }
}
