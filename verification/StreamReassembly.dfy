/** Reassembly of OpenFlow messages from a byte stream: dataReceived of ofagent/of_connection.py.
    The header is that of section A.1 of the OpenFlow 1.3.0 specification: version, type, a
    two-byte length, and a four-byte transaction id. */
module StreamReassembly {
  import opened Wrappers

  newtype byte = x: int | 0 <= x < 256

  /** What the loxi library contributes: which wire versions have a protocol module, and what
      parse_message makes of the bytes of one message (None if it raises). */
  datatype Codec<!M> = Codec(knows: byte -> bool, parse: seq<byte> -> Option<M>)

  /** parse_message begins by parsing the header, so fewer than 8 bytes are never a message. */
  ghost predicate ValidCodec<M>(c: Codec<M>) {
    forall raw :: |raw| < 8 ==> c.parse(raw) == None
  }

  /** Messages enqueued so far, with the bytes kept for later, or with the connection broken by an
      exception. */
  datatype Stream<M> = Open(msgs: seq<M>, buffer: seq<byte>) | Broken(msgs: seq<M>)

  function After<M>(msgs: seq<M>, s: Stream<M>): Stream<M> {
    match s
    case Open(later, buffer) => Open(msgs + later, buffer)
    case Broken(later) => Broken(msgs + later)
  }

  /** The length field of the message that begins at an offset. */
  function LengthAt(buf: seq<byte>, offset: nat): nat
    requires offset + 8 <= |buf|
  {
    buf[offset + 2] as nat * 256 + buf[offset + 3] as nat
  }

  /** What stands at an offset: a message that has not arrived in full, bytes that raise, or a
      message of some length. */
  datatype Front<M> = Incomplete | Raises | Next(msg: M, length: nat)

  function FrontAt<M>(c: Codec<M>, buf: seq<byte>, offset: nat): (front: Front<M>)
    requires ValidCodec(c) && offset <= |buf|
    ensures front.Next? ==> 8 <= front.length <= |buf| - offset
  {
    if offset + 8 > |buf| then Incomplete
    else if !c.knows(buf[offset]) then Raises
    else
      var n := LengthAt(buf, offset);
      if offset + n > |buf| then Incomplete
      else
        match c.parse(buf[offset..offset + n])
        case None => Raises
        case Some(msg) => Next(msg, n)
  }

  /** All complete messages at the front of a buffer. */
  function Parse<M>(c: Codec<M>, buf: seq<byte>): Stream<M>
    requires ValidCodec(c)
    decreases |buf|
  {
    match FrontAt(c, buf, 0)
    case Incomplete => Open([], buf)
    case Raises => Broken([])
    case Next(msg, n) => After([msg], Parse(c, buf[n..]))
  }

  /** One dataReceived call. */
  function Feed<M>(c: Codec<M>, s: Stream<M>, data: seq<byte>): Stream<M>
    requires ValidCodec(c)
  {
    match s
    case Open(msgs, buffer) => After(msgs, Parse(c, buffer + data))
    case Broken(_) => s
  }

  function FeedAll<M>(c: Codec<M>, s: Stream<M>, chunks: seq<seq<byte>>): Stream<M>
    requires ValidCodec(c)
  {
    if chunks == [] then s
    else Feed(c, FeedAll(c, s, chunks[..|chunks| - 1]), chunks[|chunks| - 1])
  }

  function Concat(chunks: seq<seq<byte>>): seq<byte> {
    if chunks == [] then [] else Concat(chunks[..|chunks| - 1]) + chunks[|chunks| - 1]
  }

  lemma AfterTwice<M>(first: seq<M>, second: seq<M>, s: Stream<M>)
    ensures After(first, After(second, s)) == After(first + second, s)
  {
    assert first + (second + s.msgs) == (first + second) + s.msgs;
  }

  /** What stands at the front, once it has arrived, is the same whatever follows it. */
  lemma FrontIsStable<M>(c: Codec<M>, a: seq<byte>, b: seq<byte>)
    requires ValidCodec(c)
    ensures var front := FrontAt(c, a, 0);
            && (!front.Incomplete? ==> FrontAt(c, a + b, 0) == front)
            && (front.Next? ==> (a + b)[front.length..] == a[front.length..] + b)
  {
    if |a| >= 8 && LengthAt(a, 0) <= |a| {
      assert (a + b)[0..LengthAt(a, 0)] == a[0..LengthAt(a, 0)];
    }
  }

  lemma FeedAfter<M>(c: Codec<M>, msgs: seq<M>, s: Stream<M>, data: seq<byte>)
    requires ValidCodec(c)
    ensures Feed(c, After(msgs, s), data) == After(msgs, Feed(c, s, data))
  {
    if s.Open? {
      AfterTwice(msgs, s.msgs, Parse(c, s.buffer + data));
    }
  }

  /** Parsing can stop anywhere and resume with what is left. */
  lemma {:induction false} ParseResumes<M>(c: Codec<M>, a: seq<byte>, b: seq<byte>)
    requires ValidCodec(c)
    ensures Parse(c, a + b) == Feed(c, Parse(c, a), b)
    decreases |a|
  {
    FrontIsStable(c, a, b);
    match FrontAt(c, a, 0) {
      case Incomplete => assert After([], Parse(c, a + b)) == Parse(c, a + b);
      case Raises =>
      case Next(msg, n) =>
        ParseResumes(c, a[n..], b);
        FeedAfter(c, [msg], Parse(c, a[n..]), b);
    }
  }

  /** Chunking invariance: for every byte stream and every split of it, valid or not, the same
      messages are enqueued, the same bytes are left over, and the connection breaks or not, as if
      the stream had come in one piece. */
  lemma {:induction false} ChunkingInvariance<M>(c: Codec<M>, chunks: seq<seq<byte>>)
    requires ValidCodec(c)
    ensures FeedAll(c, Open([], []), chunks) == Parse(c, Concat(chunks))
  {
    if chunks != [] {
      var n := |chunks| - 1;
      ChunkingInvariance(c, chunks[..n]);
      ParseResumes(c, Concat(chunks[..n]), chunks[n]);
    }
  }

  // ----- well-formed streams -----

  /** The bytes stand for one message, all of them. */
  ghost predicate Whole<M>(c: Codec<M>, raw: seq<byte>)
    requires ValidCodec(c)
  {
    FrontAt(c, raw, 0).Next? && FrontAt(c, raw, 0).length == |raw|
  }

  ghost predicate AllWhole<M>(c: Codec<M>, raws: seq<seq<byte>>)
    requires ValidCodec(c)
  {
    forall raw :: raw in raws ==> Whole(c, raw)
  }

  function Join(raws: seq<seq<byte>>): seq<byte> {
    if raws == [] then [] else raws[0] + Join(raws[1..])
  }

  ghost function Decoded<M>(c: Codec<M>, raws: seq<seq<byte>>): seq<M>
    requires ValidCodec(c) && AllWhole(c, raws)
  {
    if raws == [] then []
    else (assert Whole(c, raws[0]); [FrontAt(c, raws[0], 0).msg] + Decoded(c, raws[1..]))
  }

  lemma {:induction false} DecodedLength<M>(c: Codec<M>, raws: seq<seq<byte>>)
    requires ValidCodec(c) && AllWhole(c, raws)
    ensures |Decoded(c, raws)| == |raws|
  {
    if raws != [] {
      DecodedLength(c, raws[1..]);
    }
  }

  lemma {:induction false} DecodedAt<M>(c: Codec<M>, raws: seq<seq<byte>>, i: nat)
    requires ValidCodec(c) && AllWhole(c, raws) && i < |raws|
    ensures i < |Decoded(c, raws)| && Whole(c, raws[i]) && Decoded(c, raws)[i] == FrontAt(c, raws[i], 0).msg
  {
    DecodedLength(c, raws);
    assert raws[i] in raws;
    if i > 0 {
      DecodedAt(c, raws[1..], i - 1);
    }
  }

  /** Whole messages are received, whatever comes after them. */
  lemma {:induction false} ReceivesThenParses<M>(c: Codec<M>, raws: seq<seq<byte>>, tail: seq<byte>)
    requires ValidCodec(c) && AllWhole(c, raws)
    ensures Parse(c, Join(raws) + tail) == After(Decoded(c, raws), Parse(c, tail))
  {
    if raws == [] {
      assert Join(raws) + tail == tail;
      assert After([], Parse(c, tail)) == Parse(c, tail);
    } else {
      var raw, rest := raws[0], Join(raws[1..]) + tail;
      assert raw in raws && Whole(c, raw);
      assert Join(raws) + tail == raw + rest;
      FrontIsStable(c, raw, rest);
      assert raw[|raw|..] + rest == rest;
      ReceivesThenParses(c, raws[1..], tail);
      AfterTwice([FrontAt(c, raw, 0).msg], Decoded(c, raws[1..]), Parse(c, tail));
    }
  }

  lemma {:induction false} BreaksThere<M>(c: Codec<M>, raws: seq<seq<byte>>, tail: seq<byte>)
    requires ValidCodec(c) && AllWhole(c, raws) && Parse(c, tail) == Broken([])
    ensures Parse(c, Join(raws) + tail) == Broken(Decoded(c, raws))
  {
    ReceivesThenParses(c, raws, tail);
  }

  // ----- what senders write -----

  /** A message as its sender knows it. */
  datatype Sent = Sent(version: byte, kind: byte, xid: seq<byte>, body: seq<byte>)

  ghost predicate Sendable(m: Sent) {
    |m.xid| == 4 && 8 + |m.body| < 0x1_0000
  }

  /** Version, type, the size of the whole in network order, transaction id; then the body. */
  function Bytes(m: Sent): seq<byte>
    requires Sendable(m)
  {
    var n := 8 + |m.body|;
    [m.version, m.kind, (n / 256) as byte, (n % 256) as byte] + m.xid + m.body
  }

  /** The receiver has the protocol of the message and can parse it. */
  ghost predicate Understood<M>(c: Codec<M>, m: Sent) {
    Sendable(m) && c.knows(m.version) && c.parse(Bytes(m)).Some?
  }

  ghost predicate AllUnderstood<M>(c: Codec<M>, sent: seq<Sent>) {
    forall i :: 0 <= i < |sent| ==> Understood(c, sent[i])
  }

  /** The bytes of each message, and what the parser makes of each. */
  function Raws<M>(c: Codec<M>, sent: seq<Sent>): seq<seq<byte>>
    requires AllUnderstood(c, sent)
  {
    seq(|sent|, i requires 0 <= i < |sent| => Bytes(sent[i]))
  }

  ghost function Received<M>(c: Codec<M>, sent: seq<Sent>): seq<M>
    requires AllUnderstood(c, sent)
  {
    seq(|sent|, i requires 0 <= i < |sent| => c.parse(Bytes(sent[i])).value)
  }

  lemma FrontOfSent<M>(c: Codec<M>, m: Sent, k: nat)
    requires ValidCodec(c) && Sendable(m) && k <= |Bytes(m)|
    ensures FrontAt(c, Bytes(m)[..k], 0) ==
            if k < 8 then Incomplete
            else if !c.knows(m.version) then Raises
            else if k < |Bytes(m)| then Incomplete
            else if c.parse(Bytes(m)).None? then Raises
            else Next(c.parse(Bytes(m)).value, |Bytes(m)|)
  {
    var raw := Bytes(m);
    assert raw[0..|raw|] == raw && raw[..|raw|] == raw;
    if k >= 8 {
      assert LengthAt(raw[..k], 0) == |raw|;
    }
  }

  lemma SentIsWhole<M>(c: Codec<M>, m: Sent)
    requires ValidCodec(c) && Understood(c, m)
    ensures Whole(c, Bytes(m)) && FrontAt(c, Bytes(m), 0).msg == c.parse(Bytes(m)).value
  {
    FrontOfSent(c, m, |Bytes(m)|);
    assert Bytes(m)[..|Bytes(m)|] == Bytes(m);
  }

  lemma SentAreWhole<M>(c: Codec<M>, sent: seq<Sent>)
    requires ValidCodec(c) && AllUnderstood(c, sent)
    ensures AllWhole(c, Raws(c, sent))
  {
    forall raw | raw in Raws(c, sent) ensures Whole(c, raw) {
      var i :| 0 <= i < |sent| && Bytes(sent[i]) == raw;
      SentIsWhole(c, sent[i]);
    }
  }

  lemma {:induction false} SentIsDecoded<M>(c: Codec<M>, sent: seq<Sent>)
    requires ValidCodec(c) && AllUnderstood(c, sent)
    ensures AllWhole(c, Raws(c, sent)) && Decoded(c, Raws(c, sent)) == Received(c, sent)
  {
    var raws := Raws(c, sent);
    SentAreWhole(c, sent);
    DecodedLength(c, raws);
    forall i | 0 <= i < |sent| ensures Decoded(c, raws)[i] == Received(c, sent)[i] {
      DecodedAt(c, raws, i);
      SentIsWhole(c, sent[i]);
    }
  }

  /** Reassembly inverts sending: messages sent back to back are recovered one by one, and of one that
      has not arrived in full every byte stays in the buffer. */
  lemma {:induction false} RecoversMessages<M>(c: Codec<M>, sent: seq<Sent>, last: Sent, k: nat)
    requires ValidCodec(c) && AllUnderstood(c, sent)
    requires Sendable(last) && k < |Bytes(last)| && (k < 8 || c.knows(last.version))
    ensures Parse(c, Join(Raws(c, sent)) + Bytes(last)[..k]) == Open(Received(c, sent), Bytes(last)[..k])
  {
    SentIsDecoded(c, sent);
    ReceivesThenParses(c, Raws(c, sent), Bytes(last)[..k]);
    FrontOfSent(c, last, k);
  }

  lemma {:induction false} BadFrontBreaks<M>(c: Codec<M>, bad: Sent, k: nat, rest: seq<byte>)
    requires ValidCodec(c) && Sendable(bad)
    requires if c.knows(bad.version) then k == |Bytes(bad)| && c.parse(Bytes(bad)).None? else 8 <= k <= |Bytes(bad)|
    ensures Parse(c, Bytes(bad)[..k] + rest) == Broken([])
  {
    FrontOfSent(c, bad, k);
    FrontIsStable(c, Bytes(bad)[..k], rest);
  }

  /** A message of an unknown version breaks the connection once its header is there, and one that
      cannot be parsed once it is there in full; what came before it has been received. */
  lemma {:induction false} BreaksAtMessage<M>(c: Codec<M>, sent: seq<Sent>, bad: Sent, k: nat, rest: seq<byte>)
    requires ValidCodec(c) && AllUnderstood(c, sent) && Sendable(bad)
    requires if c.knows(bad.version) then k == |Bytes(bad)| && c.parse(Bytes(bad)).None? else 8 <= k <= |Bytes(bad)|
    ensures Parse(c, Join(Raws(c, sent)) + (Bytes(bad)[..k] + rest)) == Broken(Received(c, sent))
  {
    SentIsDecoded(c, sent);
    BadFrontBreaks(c, bad, k, rest);
    BreaksThere(c, Raws(c, sent), Bytes(bad)[..k] + rest);
  }

  lemma FrontOfRest<M>(c: Codec<M>, buf: seq<byte>, offset: nat)
    requires ValidCodec(c) && offset <= |buf|
    ensures var front := FrontAt(c, buf, offset);
            && FrontAt(c, buf[offset..], 0) == front
            && (front.Next? ==> buf[offset..][front.length..] == buf[offset + front.length..])
  {
    if offset + 8 <= |buf| {
      var n := LengthAt(buf, offset);
      assert buf[offset..][0] == buf[offset] && LengthAt(buf[offset..], 0) == n;
      if offset + n <= |buf| {
        assert buf[offset..][0..n] == buf[offset..offset + n];
      }
    }
  }

  lemma {:induction false} ParseStep<M>(c: Codec<M>, rx: seq<M>, rest: seq<byte>)
    requires ValidCodec(c)
    ensures var front, all := FrontAt(c, rest, 0), After(rx, Parse(c, rest));
            && (front.Incomplete? ==> all == Open(rx, rest))
            && (front.Raises? ==> all == Broken(rx))
            && (front.Next? ==> all == After(rx + [front.msg], Parse(c, rest[front.length..])))
  {
    match FrontAt(c, rest, 0) {
      case Incomplete =>
      case Raises =>
      case Next(msg, n) => AfterTwice(rx, [msg], Parse(c, rest[n..]));
    }
  }

  ghost predicate IsRest(rest: seq<byte>, buf: seq<byte>, offset: nat) {
    |buf| == offset + |rest| && forall i :: 0 <= i < |rest| ==> rest[i] == buf[offset + i]
  }

  lemma RestStep<M>(c: Codec<M>, buf: seq<byte>, offset: nat, rest: seq<byte>)
    requires ValidCodec(c) && IsRest(rest, buf, offset)
    ensures var front := FrontAt(c, buf, offset);
            && FrontAt(c, rest, 0) == front
            && (front.Next? ==> IsRest(rest[front.length..], buf, offset + front.length))
  {
    FrontOfRest(c, buf, offset);
    assert rest == buf[offset..];
  }

  lemma RestIsSlice(buf: seq<byte>, offset: nat, rest: seq<byte>)
    requires IsRest(rest, buf, offset)
    ensures rest == buf[offset..]
  {}

  // ----- the connection object -----

  class Connection<M> {
    const codec: Codec<M>
    var readBuffer: seq<byte>   // [] stands for None
    var rx: seq<M>              // everything put on the receive queue
    var broken: bool

    ghost function State(): Stream<M>
      reads this
    {
      if broken then Broken(rx) else Open(rx, readBuffer)
    }

    constructor (codec: Codec<M>)
      ensures State() == Open([], []) && this.codec == codec
    {
      this.codec := codec;
      readBuffer, rx, broken := [], [], false;
    }

    /** The parsing loop advances `offset` over the joined buffer and puts messages on the queue. */
    static method ParseLoop(codec: Codec<M>, queue: seq<M>, buf: seq<byte>) returns (result: Stream<M>)
      requires ValidCodec(codec)
      ensures result == After(queue, Parse(codec, buf))
    {
      var rx, offset := queue, 0;
      ghost var rest := buf;
      while offset < |buf|
        invariant IsRest(rest, buf, offset) && After(rx, Parse(codec, rest)) == After(queue, Parse(codec, buf))
        decreases |buf| - offset
      {
        ParseStep(codec, rx, rest);
        RestStep(codec, buf, offset, rest);
        var front := FrontAt(codec, buf, offset);
        if front.Incomplete? {
          break;
        }
        if front.Raises? {
          return Broken(rx);
        }
        rx, offset, rest := rx + [front.msg], offset + front.length, rest[front.length..];
      }
      ParseStep(codec, rx, rest);
      RestIsSlice(buf, offset, rest);
      return Open(rx, buf[offset..]);
    }

    method DataReceived(data: seq<byte>)
      requires ValidCodec(codec) && !broken
      modifies this
      ensures State() == Feed(codec, old(State()), data)
    {
      var buf := readBuffer + data;
      var result := ParseLoop(codec, rx, buf);
      match result {
        case Open(msgs, rest) => rx, readBuffer := msgs, rest;
        case Broken(msgs) => rx, broken := msgs, true;
      }
    }
  }
}
