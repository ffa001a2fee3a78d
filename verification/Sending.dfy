/**
 Sending over a socket that takes what it likes (client/castApp/src/sockhelpers.c:402-424), on values: what
 is on the wire after a send, and whether it is reported as done, for everything the socket may do.
 */
module Sending {
  import opened Bytes

  /** What one send does: take some bytes, ask to try again, or fail. */
  datatype SendEvent = Accept(limit: nat) | TryAgain | Fail

  /** `future` is all that will ever happen on the socket; afterwards waiting for it times out. */
  datatype Line = Line(wire: seq<byte>, future: seq<SendEvent>)

  datatype Outcome = Outcome(line: Line, ok: bool)

  /** shSendAll */
  function Put(l: Line, buf: seq<byte>): Outcome
    decreases |l.future|
  {
    if buf == [] then Outcome(l, true)
    else if l.future == [] then Outcome(l, false)
    else
      var rest := l.future[1..];
      match l.future[0]
      case TryAgain => Put(l.(future := rest), buf)
      case Fail => Outcome(l.(future := rest), false)
      case Accept(limit) =>
        if limit == 0 then Outcome(l.(future := rest), false)
        else if limit >= |buf| then Outcome(Line(l.wire + buf, rest), true)
        else Put(Line(l.wire + buf[..limit], rest), buf[limit..])
  }

  /** Several buffers, up to the first that fails. */
  function PutAll(l: Line, parts: seq<seq<byte>>): Outcome
    decreases |parts|
  {
    if parts == [] then Outcome(l, true) else
    var first := Put(l, parts[0]);
    if first.ok then PutAll(first.line, parts[1..]) else first
  }

  // ---------------------------------------------------------------- what is on the wire

  ghost predicate Partly(before: seq<byte>, frame: seq<byte>, after: seq<byte>) {
    exists k | 0 <= k < |frame| :: after == before + frame[..k]
  }

  /** Success means the whole frame, failure a proper prefix of it. */
  ghost predicate Sent(before: seq<byte>, frame: seq<byte>, r: Outcome) {
    if r.ok then r.line.wire == before + frame else Partly(before, frame, r.line.wire)
  }

  /** So the wire tells the two apart. */
  lemma SentIff(before: seq<byte>, frame: seq<byte>, r: Outcome)
    requires Sent(before, frame, r)
    ensures r.ok <==> r.line.wire == before + frame
    ensures !r.ok ==> |r.line.wire| < |before| + |frame|
  {
    if !r.ok {
      var k :| 0 <= k < |frame| && r.line.wire == before + frame[..k];
    }
  }

  lemma PartlyMore(before: seq<byte>, a: seq<byte>, b: seq<byte>, after: seq<byte>)
    requires Partly(before, a, after)
    ensures Partly(before, a + b, after)
  {
    var k :| 0 <= k < |a| && after == before + a[..k];
    assert (a + b)[..k] == a[..k];
  }

  lemma PartlyLater(before: seq<byte>, a: seq<byte>, b: seq<byte>, after: seq<byte>)
    requires Partly(before + a, b, after)
    ensures Partly(before, a + b, after)
  {
    var k :| 0 <= k < |b| && after == before + a + b[..k];
    assert (a + b)[..|a| + k] == a + b[..k];
  }

  /** One thing after the other, the second only if the first went through. */
  lemma SentInTurn(before: seq<byte>, a: seq<byte>, b: seq<byte>, first: Outcome, second: Outcome)
    requires Sent(before, a, first)
    requires if first.ok then Sent(first.line.wire, b, second) else second == first
    ensures Sent(before, a + b, second)
  {
    if !first.ok {
      PartlyMore(before, a, b, second.line.wire);
    } else if second.ok {
      assert before + a + b == before + (a + b);
    } else {
      PartlyLater(before, a, b, second.line.wire);
    }
  }

  lemma {:induction false} PutSends(l: Line, buf: seq<byte>)
    ensures Sent(l.wire, buf, Put(l, buf))
    decreases |l.future|
  {
    if buf == [] {
      assert l.wire + buf == l.wire;
    } else {
      assert l.wire + buf[..0] == l.wire;
      if l.future != [] {
        var rest := l.future[1..];
        if l.future[0].TryAgain? {
          PutSends(l.(future := rest), buf);
        } else if l.future[0].Accept? && 0 < l.future[0].limit < |buf| {
          var n := l.future[0].limit;
          var next := Line(l.wire + buf[..n], rest);
          PutSends(next, buf[n..]);
          SentInTurn(l.wire, buf[..n], buf[n..], Outcome(next, true), Put(next, buf[n..]));
          assert buf[..n] + buf[n..] == buf;
        }
      }
    }
  }

  lemma {:induction false} ConcatHead(parts: seq<seq<byte>>)
    requires parts != []
    ensures Concat(parts) == parts[0] + Concat(parts[1..])
    decreases |parts|
  {
    var n := |parts| - 1;
    if n == 0 {
      assert parts[..0] == [] && parts[1..] == [];
    } else {
      var middle := Concat(parts[1..n]);
      ConcatHead(parts[..n]);
      assert parts[..n][1..] == parts[1..n] == parts[1..][..n - 1];
      assert Concat(parts[1..]) == middle + parts[n];
      assert Concat(parts) == parts[0] + middle + parts[n];
    }
  }

  lemma {:induction false} PutAllSends(l: Line, parts: seq<seq<byte>>)
    ensures Sent(l.wire, Concat(parts), PutAll(l, parts))
    decreases |parts|
  {
    if parts == [] {
      assert l.wire + [] == l.wire;
    } else {
      hide Put;
      var first := Put(l, parts[0]);
      PutSends(l, parts[0]);
      ConcatHead(parts);
      if first.ok {
        PutAllSends(first.line, parts[1..]);
      }
      SentInTurn(l.wire, parts[0], Concat(parts[1..]), first, PutAll(l, parts));
    }
  }

  // ---------------------------------------------------------------- when it succeeds

  /** How many bytes the socket takes before it fails for the first time. */
  function Room(future: seq<SendEvent>): nat {
    if future == [] then 0 else
    match future[0]
    case TryAgain => Room(future[1..])
    case Fail => 0
    case Accept(limit) => if limit == 0 then 0 else limit + Room(future[1..])
  }

  /** A buffer is sent if and only if it fits. */
  lemma {:induction false} PutSucceedsIff(l: Line, buf: seq<byte>)
    ensures Put(l, buf).ok <==> |buf| <= Room(l.future)
    decreases |l.future|
  {
    if buf != [] && l.future != [] {
      var rest := l.future[1..];
      if l.future[0].TryAgain? {
        PutSucceedsIff(l.(future := rest), buf);
      } else if l.future[0].Accept? && 0 < l.future[0].limit < |buf| {
        var n := l.future[0].limit;
        PutSucceedsIff(Line(l.wire + buf[..n], rest), buf[n..]);
      }
    }
  }

  /** A socket that takes a buffer at a time takes them all. */
  lemma {:induction false} PutAllAccepted(l: Line, parts: seq<seq<byte>>, limit: nat)
    requires |parts| <= |l.future|
    requires forall k | 0 <= k < |parts| :: l.future[k] == Accept(limit) && 0 < |parts[k]| <= limit
    ensures PutAll(l, parts) == Outcome(Line(l.wire + Concat(parts), l.future[|parts|..]), true)
    decreases |parts|
  {
    if parts == [] {
      assert l.wire + [] == l.wire;
    } else {
      var next := Line(l.wire + parts[0], l.future[1..]);
      assert Put(l, parts[0]) == Outcome(next, true);
      PutAllAccepted(next, parts[1..], limit);
      ConcatHead(parts);
      assert l.wire + parts[0] + Concat(parts[1..]) == l.wire + (parts[0] + Concat(parts[1..]));
    }
  }

  lemma PutAllFails(l: Line, parts: seq<seq<byte>>)
    requires parts != [] && parts[0] != [] && l.future != [] && l.future[0].Fail?
    ensures PutAll(l, parts) == Outcome(Line(l.wire, l.future[1..]), false)
  {
  }
}
