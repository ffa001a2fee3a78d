/**
 The receiver's framing machine (server/recceiver/recast.py:83-102, 201-206): a buffer, and a handler that
 waits for the next eight header bytes or for a body of announced length. Once the connection is being
 dropped no further handler runs and buffered bytes are discarded.
 */
module Framing {
  import opened Bytes
  import opened Messages
  import Caster

  datatype Want = Header | Body(msgId: nat, length: nat)

  /** A message as it travels: its id and its body. */
  datatype Packet = Packet(id: nat, body: seq<byte>)

  /** `delivered` lists the bodies handed to message handlers. */
  datatype Parser = Parser(want: Want, buf: seq<byte>, delivered: seq<Packet>, lost: bool)

  const START := Parser(Header, [], [], false)

  /** States the machine can be in: announced bodies are not empty. */
  ghost predicate Ok(p: Parser) {
    p.want.Body? ==> p.want.length > 0
  }

  function Need(w: Want): nat {
    if w.Header? then 8 else w.length
  }

  function Lose(p: Parser): Parser {
    p.(buf := [], lost := true)
  }

  /** recvHeader, and the handlers' end of a body. An unknown message has no handler that can be called. */
  function Consume(p: Parser): Parser
    requires !p.lost && |p.buf| >= Need(p.want)
  {
    match p.want
    case Header =>
      var rest := p.buf[8..];
      var msgId, length := FromU16(p.buf[2..4]), FromU32(p.buf[4..8]);
      if FromU16(p.buf[..2]) != Caster.MAGIC then Lose(p)
      else if length == 0 then p.(buf := rest)
      else p.(want := Body(msgId, length), buf := rest)
    case Body(msgId, length) =>
      var next := p.(want := Header, buf := p.buf[length..]);
      if !Known(msgId) then Lose(p)
      else if length < FixedSize(msgId) then next
      else next.(delivered := p.delivered + [Packet(msgId, p.buf[..length])])
  }

  function Drain(p: Parser): Parser
    requires Ok(p)
    decreases |p.buf|
  {
    if p.lost || |p.buf| < Need(p.want) then p else Drain(Consume(p))
  }

  /** dataReceived. */
  function Feed(p: Parser, data: seq<byte>): Parser
    requires Ok(p)
  {
    if p.lost then p else Drain(p.(buf := p.buf + data))
  }

  function FeedAll(p: Parser, chunks: seq<seq<byte>>): (r: Parser)
    requires Ok(p)
    ensures Ok(r)
  {
    if chunks == [] then p else
    var before := FeedAll(p, chunks[..|chunks| - 1]);
    DrainIsOk(before.(buf := before.buf + chunks[|chunks| - 1]));
    Feed(before, chunks[|chunks| - 1])
  }

  lemma {:induction false} DrainIsOk(p: Parser)
    requires Ok(p)
    ensures Ok(Drain(p))
    ensures !Drain(p).lost ==> |Drain(p).buf| < Need(Drain(p).want)
    decreases |p.buf|
  {
    if !p.lost && |p.buf| >= Need(p.want) {
      DrainIsOk(Consume(p));
    }
  }

  /** The receiver as the source writes it: a buffer consumed by a loop. */
  class Receiver {
    var state: Parser

    constructor ()
      ensures state == START
    {
      state := START;
    }

    method DataReceived(data: seq<byte>)
      requires Ok(state)
      modifies this
      ensures Ok(state) && state == Feed(old(state), data)
    {
      if state.lost {
        return;
      }
      state := state.(buf := state.buf + data);
      while !state.lost && |state.buf| >= Need(state.want)
        invariant Ok(state)
        invariant Drain(state) == Feed(old(state), data)
        decreases |state.buf|, state.lost
      {
        state := Consume(state);
      }
    }
  }

  // ---------------------------------------------------------------- segmentation does not matter

  /** Consuming looks only at the bytes it needs. */
  lemma ConsumeExtends(p: Parser, more: seq<byte>)
    requires Ok(p) && !p.lost && |p.buf| >= Need(p.want)
    ensures var q := Consume(p);
            Consume(p.(buf := p.buf + more)) == if q.lost then q else q.(buf := q.buf + more)
  {
    var b, n := p.buf + more, Need(p.want);
    assert b[n..] == p.buf[n..] + more;
    if p.want.Header? {
      assert b[..2] == p.buf[..2] && b[2..4] == p.buf[2..4] && b[4..8] == p.buf[4..8];
    } else {
      assert b[..n] == p.buf[..n];
    }
  }

  lemma {:induction false} DrainExtends(p: Parser, more: seq<byte>)
    requires Ok(p) && !p.lost
    ensures var q := Drain(p);
            Ok(q) && Drain(p.(buf := p.buf + more)) == Feed(q, more)
    decreases |p.buf|
  {
    DrainIsOk(p);
    if |p.buf| >= Need(p.want) {
      var q := Consume(p);
      ConsumeExtends(p, more);
      if !q.lost {
        DrainExtends(q, more);
      }
    }
  }

  lemma FeedTwice(p: Parser, a: seq<byte>, b: seq<byte>)
    requires Ok(p)
    ensures Ok(Feed(p, a)) && Feed(Feed(p, a), b) == Feed(p, a + b)
  {
    if !p.lost {
      DrainExtends(p.(buf := p.buf + a), b);
      assert p.buf + a + b == p.buf + (a + b);
    }
  }

  /** A parser that has taken in everything it can. */
  ghost predicate Settled(p: Parser) {
    Ok(p) && (!p.lost ==> |p.buf| < Need(p.want))
  }

  /** However the stream is cut into pieces, the receiver ends in the state the whole stream leads to. */
  lemma {:induction false} SegmentationDoesNotMatter(p: Parser, chunks: seq<seq<byte>>)
    requires Settled(p)
    ensures FeedAll(p, chunks) == Feed(p, Concat(chunks))
  {
    if chunks == [] {
      assert p.buf + [] == p.buf;
    } else {
      var n := |chunks| - 1;
      SegmentationDoesNotMatter(p, chunks[..n]);
      FeedTwice(p, Concat(chunks[..n]), chunks[n]);
    }
  }

  // ---------------------------------------------------------------- parsing inverts printing

  /** A frame as printed: TCPMessage.frame and casterSendPHead followed by a body. */
  function Frame(id: nat, body: seq<byte>): seq<byte>
    requires id < TWO16
  {
    Caster.HeaderOf(id, |body|) + body
  }

  ghost predicate Printable(m: Packet) {
    m.id < TWO16 && |m.body| < TWO32
  }

  ghost predicate AllPrintable(ms: seq<Packet>) {
    forall m | m in ms :: Printable(m)
  }

  function Stream(ms: seq<Packet>): seq<byte>
    requires AllPrintable(ms)
  {
    if ms == [] then [] else
    assert Printable(ms[0]);
    Frame(ms[0].id, ms[0].body) + Stream(ms[1..])
  }

  /** A message the machine can skip or deliver. */
  predicate Acceptable(m: Packet) {
    Known(m.id) || m.body == []
  }

  /** The messages that reach a handler: known and at least as long as their fixed part. */
  function Wanted(ms: seq<Packet>): seq<Packet> {
    if ms == [] then [] else
    (if Known(ms[0].id) && |ms[0].body| >= FixedSize(ms[0].id) then [ms[0]] else []) + Wanted(ms[1..])
  }

  lemma FrameFields(m: Packet, rest: seq<byte>)
    requires Printable(m)
    ensures var b := Frame(m.id, m.body) + rest;
            && |b| >= 8 && FromU16(b[..2]) == Caster.MAGIC && FromU16(b[2..4]) == m.id
            && FromU32(b[4..8]) == |m.body| && b[8..] == m.body + rest
  {
    var b := Frame(m.id, m.body) + rest;
    U16RoundTrip(Caster.MAGIC);
    U16RoundTrip(m.id);
    U32RoundTrip(|m.body|);
    assert b[..2] == U16(Caster.MAGIC) && b[2..4] == U16(m.id) && b[4..8] == U32(|m.body|);
  }

  function Deliver(p: Parser, m: Packet): Parser {
    if Known(m.id) && |m.body| >= FixedSize(m.id) then p.(delivered := p.delivered + [m]) else p
  }

  lemma ConsumeBody(p: Parser, m: Packet, rest: seq<byte>)
    requires !p.lost && m.body != [] && p.want == Body(m.id, |m.body|) && p.buf == m.body + rest
    ensures Consume(p) == if Known(m.id) then Deliver(p.(want := Header, buf := rest), m) else Lose(p)
  {
    assert p.buf[..|m.body|] == m.body && p.buf[|m.body|..] == rest;
  }

  /** One frame at the head of the buffer. */
  lemma DrainFrame(p: Parser, m: Packet, rest: seq<byte>)
    requires Printable(m) && p.want == Header && !p.lost && p.buf == Frame(m.id, m.body) + rest
    ensures Acceptable(m) ==> Drain(p) == Drain(Deliver(p.(buf := rest), m))
    ensures !Acceptable(m) ==> Drain(p).lost
  {
    FrameFields(m, rest);
    if m.body == [] {
      assert m.body + rest == rest;
      assert Consume(p) == p.(buf := rest);
    } else {
      var q := p.(want := Body(m.id, |m.body|), buf := m.body + rest);
      assert Consume(p) == q;
      ConsumeBody(q, m, rest);
      assert Drain(q) == Drain(Consume(q));
    }
  }

  predicate AllAcceptable(ms: seq<Packet>) {
    forall m | m in ms :: Acceptable(m)
  }

  /** The first frame of a stream goes; the rest remains to be drained. */
  lemma DrainFirst(p: Parser, ms: seq<Packet>)
    requires ms != [] && AllPrintable(ms)
    requires p.want == Header && !p.lost && p.buf == Stream(ms)
    ensures AllPrintable(ms[1..])
    ensures Acceptable(ms[0]) ==> Drain(p) == Drain(Deliver(p.(buf := Stream(ms[1..])), ms[0]))
    ensures !Acceptable(ms[0]) ==> Drain(p).lost
    ensures AllAcceptable(ms) <==> Acceptable(ms[0]) && AllAcceptable(ms[1..])
  {
    assert ms == [ms[0]] + ms[1..];
    assert ms[0] in ms && Printable(ms[0]);
    DrainFrame(p, ms[0], Stream(ms[1..]));
  }

  function Received(p: Parser, ms: seq<Packet>): Parser {
    p.(buf := [], delivered := p.delivered + Wanted(ms))
  }

  lemma ReceivedFirst(p: Parser, ms: seq<Packet>, b: seq<byte>)
    requires ms != []
    ensures Received(Deliver(p.(buf := b), ms[0]), ms[1..]) == Received(p, ms)
  {
    if Known(ms[0].id) && |ms[0].body| >= FixedSize(ms[0].id) {
      assert p.delivered + [ms[0]] + Wanted(ms[1..]) == p.delivered + ([ms[0]] + Wanted(ms[1..]));
    } else {
      assert [] + Wanted(ms[1..]) == Wanted(ms[1..]);
    }
  }

  /** Good frames go, whatever follows them. */
  lemma {:induction false} DrainGoodStream(p: Parser, ms: seq<Packet>, tail: seq<byte>)
    requires AllPrintable(ms) && AllAcceptable(ms)
    requires p.want == Header && !p.lost && p.buf == Stream(ms) + tail
    ensures Drain(p) == Drain(Received(p, ms).(buf := tail))
    decreases |ms|
  {
    if ms == [] {
      assert p == Received(p, ms).(buf := tail);
    } else {
      FramesSplit(ms, tail);
      DrainFrame(p, ms[0], Stream(ms[1..]) + tail);
      var q := Deliver(p.(buf := Stream(ms[1..]) + tail), ms[0]);
      DrainGoodStream(q, ms[1..], tail);
      ReceivedFirst(p, ms, Stream(ms[1..]) + tail);
    }
  }

  lemma FramesSplit(ms: seq<Packet>, tail: seq<byte>)
    requires ms != [] && AllPrintable(ms)
    ensures Printable(ms[0]) && AllPrintable(ms[1..])
    ensures AllAcceptable(ms) <==> Acceptable(ms[0]) && AllAcceptable(ms[1..])
    ensures Stream(ms) + tail == Frame(ms[0].id, ms[0].body) + (Stream(ms[1..]) + tail)
  {
    assert ms == [ms[0]] + ms[1..];
    assert ms[0] in ms;
  }

  lemma {:induction false} DrainBadStream(p: Parser, ms: seq<Packet>)
    requires AllPrintable(ms) && !AllAcceptable(ms)
    requires p.want == Header && !p.lost && p.buf == Stream(ms)
    ensures Drain(p).lost
    decreases |ms|
  {
    DrainFirst(p, ms);
    if Acceptable(ms[0]) {
      DrainBadStream(Deliver(p.(buf := Stream(ms[1..])), ms[0]), ms[1..]);
    }
  }

  /**
   Any sequence of frames, cut into pieces in any way: the bodies of the known messages that are long
   enough are delivered, in order and unchanged, empty and short messages are skipped without losing the
   frame boundary, and nothing is left in the buffer.
   */
  lemma ParsingInvertsPrinting(ms: seq<Packet>, chunks: seq<seq<byte>>)
    requires AllPrintable(ms) && AllAcceptable(ms)
    requires Concat(chunks) == Stream(ms)
    ensures FeedAll(START, chunks) == Parser(Header, [], Wanted(ms), false)
  {
    SegmentationDoesNotMatter(START, chunks);
    assert [] + Stream(ms) == Stream(ms) == Stream(ms) + [];
    DrainGoodStream(START.(buf := Stream(ms)), ms, []);
    assert [] + Wanted(ms) == Wanted(ms);
  }

  /**
   The protocol asks endpoints to ignore messages with unknown ids. The receiver does so exactly when
   their bodies are empty: any other unknown message costs the connection.
   */
  lemma UnknownMessagesAreFatal(ms: seq<Packet>, chunks: seq<seq<byte>>)
    requires AllPrintable(ms)
    requires Concat(chunks) == Stream(ms)
    ensures FeedAll(START, chunks).lost <==> !AllAcceptable(ms)
  {
    SegmentationDoesNotMatter(START, chunks);
    assert [] + Stream(ms) == Stream(ms) == Stream(ms) + [];
    if AllAcceptable(ms) {
      DrainGoodStream(START.(buf := Stream(ms)), ms, []);
    } else {
      DrainBadStream(START.(buf := Stream(ms)), ms);
    }
  }

  /**
   Good frames followed by anything that does not start with the magic number: the frames are delivered and
   the connection is dropped, however the bytes are cut.
   */
  lemma GarbageIsFatal(ms: seq<Packet>, junk: seq<byte>, chunks: seq<seq<byte>>)
    requires AllPrintable(ms) && AllAcceptable(ms)
    requires Concat(chunks) == Stream(ms) + junk
    requires |junk| >= 8 && FromU16(junk[..2]) != Caster.MAGIC
    ensures FeedAll(START, chunks) == Parser(Header, [], Wanted(ms), true)
  {
    SegmentationDoesNotMatter(START, chunks);
    var p := START.(buf := Concat(chunks));
    assert START.buf + Concat(chunks) == p.buf;
    DrainGoodStream(p, ms, junk);
    var q := Received(p, ms).(buf := junk);
    assert [] + Wanted(ms) == Wanted(ms);
    assert Drain(q) == Drain(Consume(q));
  }
}
