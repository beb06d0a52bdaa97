/** Length-prefixed framing over the byte buffer, for any cutting of the stream into chunks. */
module Codec {
  import opened Bytes
  import opened ByteBuffer
  import opened Common

  const HEADER_LEN := 4
  const MAX_LEN := 65536

  type Message = seq<Byte>

  /** What a stretch of the stream holds: the complete messages, the bytes left over, and
      whether those start with a length that no message can have. */
  datatype Decoded = Decoded(messages: seq<Message>, rest: seq<Byte>, invalid: bool)

  function Decode(s: seq<Byte>): (d: Decoded) {
    if |s| < HEADER_LEN then Decoded([], s, false)
    else
      var len := DecodeInt(s[..HEADER_LEN]);
      if len > MAX_LEN || len < 0 then Decoded([], s, true)
      else if |s| >= len + HEADER_LEN then
        var d := Decode(s[HEADER_LEN + len..]);
        d.(messages := [s[HEADER_LEN..HEADER_LEN + len]] + d.messages)
      else Decoded([], s, false)
  }

  predicate Sendable(msg: Message) {
    |msg| <= MAX_LEN
  }

  lemma FourBytes()
    ensures Pow256(HEADER_LEN) == 0x1_0000_0000
  {
    assert Pow256(4) == 256 * Pow256(3) == 256 * 256 * Pow256(2) == 256 * 256 * 256 * Pow256(1);
    assert Pow256(1) == 256;
  }

  lemma SendableFits(n: nat)
    requires n <= MAX_LEN
    ensures Fits(n, HEADER_LEN)
  {
    FourBytes();
  }

  function Encode(msg: Message): (s: seq<Byte>)
    requires Sendable(msg)
    ensures |s| == HEADER_LEN + |msg|
  {
    SendableFits(|msg|);
    EncodeInt(|msg|, HEADER_LEN) + msg
  }

  /** What a frame looks like: the length as four bytes, the most significant first, then the message. */
  lemma FrameBytes(msg: Message)
    requires Sendable(msg)
    ensures Encode(msg) == [0, |msg| / 65536, |msg| / 256 % 256, |msg| % 256] + msg
  {
    SendableFits(|msg|);
    assert Pow256(0) == 1 && Pow256(1) == 256 && Pow256(2) == 65536 && Pow256(3) == 16777216;
    forall k: nat | k < HEADER_LEN
      ensures EncodeInt(|msg|, HEADER_LEN)[k] == |msg| / Pow256(3 - k) % 256
    {
      IntDigitAt(|msg|, HEADER_LEN, k);
    }
  }

  ghost predicate AllSendable(msgs: seq<Message>) {
    forall i :: 0 <= i < |msgs| ==> Sendable(msgs[i])
  }

  function EncodeAll(msgs: seq<Message>): (s: seq<Byte>)
    requires AllSendable(msgs)
  {
    if msgs == [] then [] else Encode(msgs[0]) + EncodeAll(msgs[1..])
  }

  /** One message at the front of any bytes is decoded, and the rest as it would be alone. */
  lemma DecodeFirst(msg: Message, t: seq<Byte>)
    requires Sendable(msg)
    ensures Decode(Encode(msg) + t) == Decode(t).(messages := [msg] + Decode(t).messages)
  {
    var s := Encode(msg) + t;
    SendableFits(|msg|);
    IntRoundTrip(|msg|, HEADER_LEN);
    assert s[..HEADER_LEN] == EncodeInt(|msg|, HEADER_LEN);
    assert s[HEADER_LEN..HEADER_LEN + |msg|] == msg;
    assert s[HEADER_LEN + |msg|..] == t;
  }

  /** The round trip: what is sent is what arrives, in order, with nothing left over. */
  lemma {:induction false} RoundTrip(msgs: seq<Message>)
    requires AllSendable(msgs)
    ensures Decode(EncodeAll(msgs)) == Decoded(msgs, [], false)
  {
    if msgs != [] {
      var rest := EncodeAll(msgs[1..]);
      RoundTrip(msgs[1..]);
      DecodeFirst(msgs[0], rest);
      assert EncodeAll(msgs) == Encode(msgs[0]) + rest && msgs == [msgs[0]] + msgs[1..];
    }
  }

  /** A complete frame is at the front of `s`. */
  predicate FrameReady(s: seq<Byte>) {
    |s| >= HEADER_LEN && 0 <= DecodeInt(s[..HEADER_LEN]) <= MAX_LEN && |s| >= HEADER_LEN + DecodeInt(s[..HEADER_LEN])
  }

  function FrontMessage(s: seq<Byte>): Message
    requires FrameReady(s)
  {
    s[HEADER_LEN..HEADER_LEN + DecodeInt(s[..HEADER_LEN])]
  }

  function BehindFrame(s: seq<Byte>): (r: seq<Byte>)
    requires FrameReady(s)
    ensures |r| < |s|
  {
    s[HEADER_LEN + DecodeInt(s[..HEADER_LEN])..]
  }

  lemma FrontAppend(s: seq<Byte>, t: seq<Byte>)
    requires FrameReady(s)
    ensures FrameReady(s + t) && FrontMessage(s + t) == FrontMessage(s) && BehindFrame(s + t) == BehindFrame(s) + t
  {
    assert (s + t)[..HEADER_LEN] == s[..HEADER_LEN];
  }

  lemma DecodeFrame(s: seq<Byte>)
    requires FrameReady(s)
    ensures Decode(s) == Decode(BehindFrame(s)).(messages := [FrontMessage(s)] + Decode(BehindFrame(s)).messages)
  {
  }

  lemma OneMore(first: Message, a: seq<Message>, b: seq<Message>)
    ensures [first] + (a + b) == [first] + a + b
  {
  }

  /** Decoding can stop after `s` and go on from the bytes left over when `t` arrives. */
  lemma {:induction false} DecodeAppend(s: seq<Byte>, t: seq<Byte>)
    ensures var d, e := Decode(s), Decode(Decode(s).rest + t);
      Decode(s + t) == e.(messages := d.messages + e.messages)
    decreases |s|
  {
    if FrameReady(s) {
      FrontAppend(s, t);
      DecodeFrame(s);
      DecodeFrame(s + t);
      DecodeAppend(BehindFrame(s), t);
      var u := Decode(BehindFrame(s));
      OneMore(FrontMessage(s), u.messages, Decode(u.rest + t).messages);
    } else {
      assert Decode(s).rest == s && Decode(s).messages == [];
    }
  }

  /** After an invalid length nothing is ever delivered again. */
  lemma InvalidForever(s: seq<Byte>, t: seq<Byte>)
    requires Decode(s).invalid
    ensures Decode(s + t).messages == Decode(s).messages && Decode(s + t).invalid
  {
    DecodeAppend(s, t);
    InvalidAtFront(s);
    var r := Decode(s).rest;
    assert (r + t)[..HEADER_LEN] == r[..HEADER_LEN];
  }

  lemma {:induction false} InvalidAtFront(s: seq<Byte>)
    requires Decode(s).invalid
    ensures var r := Decode(s).rest;
      |r| >= HEADER_LEN && (DecodeInt(r[..HEADER_LEN]) > MAX_LEN || DecodeInt(r[..HEADER_LEN]) < 0)
    decreases |s|
  {
    var len := DecodeInt(s[..HEADER_LEN]);
    if 0 <= len <= MAX_LEN {
      InvalidAtFront(s[HEADER_LEN + len..]);
    }
  }

  // ------------------------------------------------------- chunk by chunk

  /** Everything delivered, and what the buffer still holds, after the chunks arrived. */
  function Receive(chunks: seq<seq<Byte>>): (r: (seq<Message>, seq<Byte>)) {
    if chunks == [] then ([], [])
    else
      var (delivered, held) := Receive(chunks[..|chunks| - 1]);
      var d := Decode(held + chunks[|chunks| - 1]);
      (delivered + d.messages, d.rest)
  }

  /** The cutting into chunks makes no difference. */
  lemma {:induction false} ChunkingIrrelevant(chunks: seq<seq<Byte>>)
    ensures Receive(chunks) == (Decode(Concat(chunks)).messages, Decode(Concat(chunks)).rest)
  {
    if chunks != [] {
      var before := chunks[..|chunks| - 1];
      ChunkingIrrelevant(before);
      DecodeAppend(Concat(before), chunks[|chunks| - 1]);
    }
  }

  /** While `s` is a beginning of a stream of messages, the messages delivered are a prefix of those
      sent, nothing invalid is seen, and only an incomplete frame is held; once all bytes are in,
      everything has been delivered. */
  lemma PrefixRoundTrip(msgs: seq<Message>, s: seq<Byte>)
    requires AllSendable(msgs) && s <= EncodeAll(msgs)
    ensures var d := Decode(s);
      && !d.invalid && d.messages <= msgs && AllSendable(d.messages) && s == EncodeAll(d.messages) + d.rest
      && Decode(d.rest) == Decoded([], d.rest, false)
      && (s == EncodeAll(msgs) ==> d.messages == msgs && d.rest == [])
  {
    var t := EncodeAll(msgs)[|s|..];
    assert s + t == EncodeAll(msgs);
    RoundTrip(msgs);
    DecodeAppend(s, t);
    var d := Decode(s);
    forall i | 0 <= i < |d.messages| ensures Sendable(d.messages[i]) {
      assert d.messages[i] == msgs[i];
    }
    if d.invalid {
      InvalidForever(s, t);
    }
    Reassemble(s);
    LeftOver(s);
  }

  /** Framing round trip, for any cutting of the stream into chunks. */
  lemma StreamRoundTrip(msgs: seq<Message>, chunks: seq<seq<Byte>>)
    requires AllSendable(msgs) && Concat(chunks) <= EncodeAll(msgs)
    ensures var (delivered, held) := Receive(chunks);
      && delivered <= msgs && AllSendable(delivered) && Concat(chunks) == EncodeAll(delivered) + held
      && Decode(held) == Decoded([], held, false)
      && (Concat(chunks) == EncodeAll(msgs) ==> delivered == msgs && held == [])
  {
    ChunkingIrrelevant(chunks);
    PrefixRoundTrip(msgs, Concat(chunks));
  }

  lemma {:induction false} Reassemble(s: seq<Byte>)
    requires AllSendable(Decode(s).messages)
    ensures s == EncodeAll(Decode(s).messages) + Decode(s).rest
    decreases |s|
  {
    if FrameReady(s) {
      DecodeFrame(s);
      var u := BehindFrame(s);
      var msg, ms := FrontMessage(s), Decode(u).messages;
      assert ([msg] + ms)[0] == msg && ([msg] + ms)[1..] == ms;
      assert forall i :: 0 <= i < |ms| ==> ms[i] == ([msg] + ms)[i + 1];
      Reassemble(u);
      FrameIsEncoded(s);
    }
  }

  lemma FrameIsEncoded(s: seq<Byte>)
    requires FrameReady(s)
    ensures Sendable(FrontMessage(s)) && s == Encode(FrontMessage(s)) + BehindFrame(s)
  {
    IntBytesRoundTrip(s[..HEADER_LEN]);
    var len := DecodeInt(s[..HEADER_LEN]);
    assert s == s[..HEADER_LEN] + s[HEADER_LEN..HEADER_LEN + len] + s[HEADER_LEN + len..];
  }

  lemma {:induction false} LeftOver(s: seq<Byte>)
    ensures Decode(Decode(s).rest) == Decoded([], Decode(s).rest, Decode(s).invalid)
    decreases |s|
  {
    if Decode(s).messages != [] {
      LeftOver(s[HEADER_LEN + DecodeInt(s[..HEADER_LEN])..]);
    }
  }

  // ------------------------------------------------- over the in-place buffer

  /** Takes the complete message of length `len` off the front of the buffer. */
  method TakeMessage(buf: Buffer, len: nat) returns (message: Message)
    requires buf.Valid() && FrameReady(buf.Contents()) && len == DecodeInt(buf.Contents()[..HEADER_LEN])
    modifies buf
    ensures buf.Valid() && buf.buffer == old(buf.buffer)
    ensures message == FrontMessage(old(buf.Contents())) && buf.Contents() == BehindFrame(old(buf.Contents()))
  {
    ghost var s := buf.Contents();
    buf.Retrieve(HEADER_LEN);
    ghost var rest := buf.Contents();
    assert rest == s[HEADER_LEN..];
    message := buf.buffer[buf.readerIndex..buf.readerIndex + len];
    assert message == rest[..len];
    assert rest[..len] == s[HEADER_LEN..HEADER_LEN + len];
    buf.Retrieve(len);
    assert buf.Contents() == rest[len..];
    assert rest[len..] == s[HEADER_LEN + len..];
  }

  lemma OneLater(done: seq<Message>, message: Message, later: seq<Message>)
    ensures done + ([message] + later) == (done + [message]) + later
  {
  }

  /** Delivers every complete message, in order, and takes it out of the buffer. */
  method OnMessage(buf: Buffer) returns (messages: seq<Message>, shutdown: bool)
    requires buf.Valid()
    modifies buf
    ensures buf.Valid() && buf.buffer == old(buf.buffer)
    ensures Decode(old(buf.Contents())) == Decoded(messages, buf.Contents(), shutdown)
  {
    messages, shutdown := [], false;
    ghost var whole := Decode(buf.Contents());
    assert messages + whole.messages == whole.messages;
    while buf.ReadableBytes() >= HEADER_LEN
      invariant buf.Valid() && buf.buffer == old(buf.buffer)
      invariant !shutdown && whole == Decode(buf.Contents()).(messages := messages + Decode(buf.Contents()).messages)
      decreases |buf.Contents()|
    {
      var len := buf.PeekInt(HEADER_LEN);
      if len > MAX_LEN || len < 0 {
        shutdown := true;
        break;
      } else if buf.ReadableBytes() >= len + HEADER_LEN {
        DecodeFrame(buf.Contents());
        var message := TakeMessage(buf, len);
        OneLater(messages, message, Decode(buf.Contents()).messages);
        messages := messages + [message];
      } else {
        break;
      }
    }
  }

  /** Reads a stream into the buffer, as many bytes at a time as are asked for, offered and there,
      and delivers what is complete after each reading. When the stream is one of encoded messages,
      they are delivered in order and only an incomplete frame is held. */
  method ReceiveStream(buf: Buffer, stream: seq<Byte>, sizes: seq<nat>, ghost msgs: seq<Message>)
    returns (delivered: seq<Message>, pos: nat, shutdown: bool)
    requires buf.Valid() && buf.Contents() == [] && forall i :: 0 <= i < |sizes| ==> sizes[i] > 0
    modifies buf, buf.buffer
    ensures buf.Valid() && pos <= |stream|
    ensures Decode(stream[..pos]) == Decoded(delivered, buf.Contents(), shutdown)
    ensures AllSendable(msgs) && stream == EncodeAll(msgs) ==>
      && !shutdown && delivered <= msgs && AllSendable(delivered)
      && stream[..pos] == EncodeAll(delivered) + buf.Contents()
      && Decode(buf.Contents()) == Decoded([], buf.Contents(), false)
      && (pos == |stream| ==> delivered == msgs && buf.Contents() == [])
  {
    delivered, pos, shutdown := [], 0, false;
    var i := 0;
    while i < |sizes| && pos < |stream|
      invariant 0 <= i <= |sizes| && pos <= |stream|
      invariant buf.Valid() && (buf.buffer == old(buf.buffer) || fresh(buf.buffer))
      invariant Decode(stream[..pos]) == Decoded(delivered, buf.Contents(), shutdown)
    {
      var n := Least(sizes[i], buf.Room(), |stream| - pos);
      var messages, invalid := ReceiveChunk(buf, stream[..pos], stream[pos..pos + n]);
      assert stream[..pos + n] == stream[..pos] + stream[pos..pos + n];
      delivered, shutdown := delivered + messages, invalid;
      pos := pos + n;
      i := i + 1;
    }
    if AllSendable(msgs) && stream == EncodeAll(msgs) {
      PrefixRoundTrip(msgs, stream[..pos]);
    }
  }

  function Least(a: nat, b: nat, c: nat): (n: nat)
    ensures n <= a && n <= b && n <= c && (n == a || n == b || n == c)
  {
    if a <= b && a <= c then a else if b <= c then b else c
  }

  /** One reading, and the messages that it completes. */
  method ReceiveChunk(buf: Buffer, ghost before: seq<Byte>, chunk: seq<Byte>)
    returns (messages: seq<Message>, shutdown: bool)
    requires buf.Valid() && |chunk| <= buf.Room() && buf.Contents() == Decode(before).rest
    modifies buf, buf.buffer
    ensures buf.Valid() && (buf.buffer == old(buf.buffer) || fresh(buf.buffer))
    ensures Decode(before + chunk) == Decoded(Decode(before).messages + messages, buf.Contents(), shutdown)
  {
    DecodeAppend(before, chunk);
    var _, _ := buf.ReadFd(Got(chunk), 0);
    messages, shutdown := OnMessage(buf);
  }

  // --------------------------------------------------------------- sending

  /** The C++ cast of a size to a 32-bit integer. */
  function ToInt32(n: nat): (x: int)
    ensures Fits(x, HEADER_LEN)
    ensures n < 0x8000_0000 ==> x == n
  {
    FourBytes();
    (n + 0x8000_0000) % 0x1_0000_0000 - 0x8000_0000
  }

  /** What send writes for a message of any length. */
  function Frame(msg: Message): (s: seq<Byte>)
    ensures |s| == HEADER_LEN + |msg|
    ensures Sendable(msg) ==> s == Encode(msg)
  {
    EncodeInt(ToInt32(|msg|), HEADER_LEN) + msg
  }

  /** A framed message arrives exactly when it has at most 65536 bytes; send does not check that. Up
      to the 32-bit limit a longer one delivers nothing and makes the receiver give up the stream. */
  lemma FrameArrives(msg: Message)
    ensures Decode(Frame(msg)) == Decoded([msg], [], false) <==> |msg| <= MAX_LEN
    ensures MAX_LEN < |msg| < 0x8000_0000 ==> Decode(Frame(msg)) == Decoded([], Frame(msg), true)
  {
    var s, x := Frame(msg), ToInt32(|msg|);
    IntRoundTrip(x, HEADER_LEN);
    assert s[..HEADER_LEN] == EncodeInt(x, HEADER_LEN);
    if |msg| <= MAX_LEN {
      DecodeFirst(msg, []);
      assert s + [] == s;
    }
  }

  /** Frames a message in a buffer of its own: the bytes handed to the connection. */
  method FrameMessage(message: Message) returns (s: seq<Byte>)
    ensures s == Frame(message)
  {
    var buf := new Buffer();
    buf.Append(message);
    buf.Prepend(EncodeInt(ToInt32(|message|), HEADER_LEN));
    s := buf.buffer[buf.readerIndex..buf.writerIndex];
  }
}
