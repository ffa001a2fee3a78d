/**
 The C client's encoders (client/castApp/src/caster.c:192-269, 323-332) and the partial-send loop under
 them (sockhelpers.c:402-424). Lengths are stored in 8 and 16 bit fields and record ids in 32 bits, so
 they are truncated there; the strings themselves are sent whole.
 */
module Caster {
  import opened Wrappers
  import opened Bytes
  import opened Messages
  import opened Sending

  const MAGIC := 0x5243

  /** casterSendPHead: the body length is a 32 bit field as well. */
  function HeaderOf(id: nat, bodyLen: nat): seq<byte>
    requires id < TWO16
  {
    U16(MAGIC) + U16(id) + U32(bodyLen % TWO32)
  }

  /** The body casterSendRA sends; `rtype` is empty for NULL. */
  function AddBody(kind: byte, rid: nat, rtype: Text, rname: Text): seq<byte> {
    U32(rid % TWO32) + [kind, |rtype| % TWO8] + U16(|rname| % TWO16) + rtype + rname
  }

  function InfoBody(rid: nat, name: Text, value: Text): seq<byte> {
    U32(rid % TWO32) + [|name| % TWO8, 0] + U16(|value| % TWO16) + name + value
  }

  // ---------------------------------------------------------------- against the server's decoder

  lemma AddBodyFields(kind: byte, rid: nat, rtype: Text, rname: Text)
    ensures var b := AddBody(kind, rid, rtype, rname);
            && |b| >= 8 && FromU32(b[..4]) == rid % TWO32 && b[4] == kind && b[5] == |rtype| % TWO8
            && FromU16(b[6..8]) == |rname| % TWO16 && b[8..] == rtype + rname
  {
    var b := AddBody(kind, rid, rtype, rname);
    U32RoundTrip(rid % TWO32);
    U16RoundTrip(|rname| % TWO16);
    assert b[..4] == U32(rid % TWO32) && b[6..8] == U16(|rname| % TWO16);
  }

  /** Truncated lengths only ever add up to the text that follows when nothing was truncated. */
  lemma TruncationIsVisible(a: nat, b: nat)
    ensures a % TWO8 + b % TWO16 == a + b <==> a < TWO8 && b < TWO16
  {
    assert a % TWO8 <= a && b % TWO16 <= b;
    assert a % TWO8 == a <==> a < TWO8;
    assert b % TWO16 == b <==> b < TWO16;
  }

  /**
   A record of any string lengths is either received exactly, with its id modulo 2^32, or rejected;
   it is received iff its type fits one byte of length and its name two, neither being empty.
   */
  lemma RecordExactOrRejected(rid: nat, rtype: Text, rname: Text)
    ensures Decode(3, AddBody(0, rid, rtype, rname)) ==
            if 0 < |rtype| < TWO8 && 0 < |rname| < TWO16
            then Success(AddRecord(rid % TWO32, false, rtype, rname)) else Failure
  {
    AddBodyFields(0, rid, rtype, rname);
    TruncationIsVisible(|rtype|, |rname|);
    var text := rtype + rname;
    if |rtype| < TWO8 {
      assert text[..|rtype|] == rtype && text[|rtype|..] == rname;
    }
  }

  lemma AliasExactOrRejected(rid: nat, rname: Text)
    ensures Decode(3, AddBody(1, rid, [], rname)) ==
            if 0 < |rname| < TWO16 then Success(AddRecord(rid % TWO32, true, [], rname)) else Failure
  {
    AddBodyFields(1, rid, [], rname);
    TruncationIsVisible(0, |rname|);
    assert [] + rname == rname;
  }

  lemma InfoExactOrRejected(rid: nat, name: Text, value: Text)
    ensures Decode(6, InfoBody(rid, name, value)) ==
            if 0 < |name| < TWO8 && |value| < TWO16
            then Success(AddInfo(rid % TWO32, name, value)) else Failure
  {
    var b := InfoBody(rid, name, value);
    U32RoundTrip(rid % TWO32);
    U16RoundTrip(|value| % TWO16);
    assert b[..4] == U32(rid % TWO32) && b[6..8] == U16(|value| % TWO16) && b[8..] == name + value;
    TruncationIsVisible(|name|, |value|);
    var text := name + value;
    if |name| < TWO8 {
      assert text[..|name|] == name && text[|name|..] == value;
    }
  }

  // ---------------------------------------------------------------- sending

  /** What casterSendRA sends, buffer by buffer; nothing is sent for a NULL type. */
  function RAParts(kind: byte, rid: nat, rtype: Option<Text>, rname: Text): seq<seq<byte>> {
    var lt, ln := if rtype.Some? then |rtype.value| else 0, |rname|;
    [HeaderOf(3, 8 + lt + ln), U32(rid % TWO32) + [kind, lt % TWO8] + U16(ln % TWO16)]
    + (if rtype.Some? then [rtype.value] else []) + [rname]
  }

  function InfoParts(rid: nat, name: Text, value: Text): seq<seq<byte>> {
    [HeaderOf(6, 8 + |name| + |value|), U32(rid % TWO32) + [|name| % TWO8, 0] + U16(|value| % TWO16), name, value]
  }

  lemma ConcatTwo(a: seq<byte>, b: seq<byte>)
    ensures Concat([a, b]) == a + b
  {
    assert [a, b][..1] == [a];
    assert Concat([a]) == [] + a == a by {
      assert [a][..0] == [];
    }
  }

  lemma ConcatThree(a: seq<byte>, b: seq<byte>, c: seq<byte>)
    ensures Concat([a, b, c]) == a + b + c
  {
    assert [a, b, c][..2] == [a, b];
    ConcatTwo(a, b);
  }

  lemma ConcatFour(a: seq<byte>, b: seq<byte>, c: seq<byte>, d: seq<byte>)
    ensures Concat([a, b, c, d]) == a + b + c + d
  {
    assert [a, b, c, d][..3] == [a, b, c];
    ConcatThree(a, b, c);
  }

  /** The buffers make up one frame: a header that announces exactly the body behind it. */
  lemma RAPartsAreFrame(kind: byte, rid: nat, rtype: Option<Text>, rname: Text)
    ensures var body := AddBody(kind, rid, if rtype.Some? then rtype.value else [], rname);
            Concat(RAParts(kind, rid, rtype, rname)) == HeaderOf(3, |body|) + body
  {
    var lt, ln := if rtype.Some? then |rtype.value| else 0, |rname|;
    var head, fixed := HeaderOf(3, 8 + lt + ln), U32(rid % TWO32) + [kind, lt % TWO8] + U16(ln % TWO16);
    var body := AddBody(kind, rid, if rtype.Some? then rtype.value else [], rname);
    hide HeaderOf, Concat;
    if rtype.Some? {
      assert RAParts(kind, rid, rtype, rname) == [head, fixed, rtype.value, rname];
      ConcatFour(head, fixed, rtype.value, rname);
      assert head + fixed + rtype.value + rname == head + body;
    } else {
      assert RAParts(kind, rid, rtype, rname) == [head, fixed, rname];
      ConcatThree(head, fixed, rname);
      assert fixed + [] + rname == fixed + rname;
      assert head + fixed + rname == head + body;
    }
  }

  lemma InfoPartsAreFrame(rid: nat, name: Text, value: Text)
    ensures var body := InfoBody(rid, name, value);
            Concat(InfoParts(rid, name, value)) == HeaderOf(6, |body|) + body
  {
    var head, fixed := HeaderOf(6, 8 + |name| + |value|), U32(rid % TWO32) + [|name| % TWO8, 0] + U16(|value| % TWO16);
    hide HeaderOf, Concat;
    ConcatFour(head, fixed, name, value);
    assert head + fixed + name + value == head + InfoBody(rid, name, value);
  }

  class Socket {
    var wire: seq<byte>
    var future: seq<SendEvent>

    constructor (future: seq<SendEvent>)
      ensures View() == Line([], future)
    {
      wire, this.future := [], future;
    }

    ghost function View(): Line
      reads this
    {
      Line(wire, future)
    }

    /** shSendAll */
    method SendAll(buf: seq<byte>) returns (ok: bool)
      modifies this
      ensures Outcome(View(), ok) == Put(old(View()), buf)
    {
      var sofar := 0;
      assert buf[0..] == buf;
      while sofar < |buf|
        invariant 0 <= sofar <= |buf|
        invariant Put(View(), buf[sofar..]) == Put(old(View()), buf)
        decreases |future|
      {
        if future == [] {
          return false;
        }
        var e := future[0];
        future := future[1..];
        match e
        case TryAgain =>
        case Fail => return false;
        case Accept(limit) =>
          if limit == 0 {
            return false;
          }
          var end := if sofar + limit <= |buf| then sofar + limit else |buf|;
          wire := wire + buf[sofar..end];
          assert buf[sofar..][..end - sofar] == buf[sofar..end] && buf[sofar..][end - sofar..] == buf[end..];
          assert end == |buf| ==> buf[sofar..end] == buf[sofar..] && buf[end..] == [];
          sofar := end;
      }
      ok := true;
    }
  }

  class Client {
    var nextRecId: int
    const csock: Socket

    constructor (csock: Socket)
      ensures nextRecId == 1 && this.csock == csock
    {
      nextRecId, this.csock := 1, csock;
    }

    /** Send the parts of one frame one after the other, giving up at the first failure. */
    method SendParts(parts: seq<seq<byte>>) returns (ok: bool)
      modifies csock
      ensures Outcome(csock.View(), ok) == PutAll(old(csock.View()), parts)
    {
      hide Put;
      for j := 0 to |parts|
        invariant PutAll(csock.View(), parts[j..]) == PutAll(old(csock.View()), parts)
      {
        ok := csock.SendAll(parts[j]);
        assert parts[j..][0] == parts[j] && parts[j..][1..] == parts[j + 1..];
        if !ok {
          return;
        }
      }
      ok := true;
    }

    method SendRA(kind: byte, rid: nat, rtype: Option<Text>, rname: Text) returns (ok: bool)
      modifies csock
      ensures Outcome(csock.View(), ok) == PutAll(old(csock.View()), RAParts(kind, rid, rtype, rname))
    {
      hide HeaderOf, PutAll;
      var lt, ln := if rtype.Some? then |rtype.value| else 0, |rname|;
      var head := HeaderOf(3, 8 + lt + ln);
      var fixed := U32(rid % TWO32) + [kind, lt % TWO8] + U16(ln % TWO16);
      var parts := if rtype.Some? then [head, fixed, rtype.value, rname] else [head, fixed, rname];
      assert parts == RAParts(kind, rid, rtype, rname);
      ok := SendParts(parts);
    }

    /** casterSendRecord: the id is taken whether or not the send succeeds. */
    method SendRecord(rtype: Text, rname: Text) returns (r: Option<nat>)
      modifies this, csock
      ensures old(nextRecId) < 0 ==> r.None? && nextRecId == old(nextRecId) && csock.View() == old(csock.View())
      ensures old(nextRecId) >= 0 ==>
                && nextRecId == old(nextRecId) + 1
                && (r.Some? ==> r.value == old(nextRecId))
                && Outcome(csock.View(), r.Some?) ==
                   PutAll(old(csock.View()), RAParts(0, old(nextRecId), Some(rtype), rname))
    {
      if nextRecId < 0 {
        return None;
      }
      var rid := nextRecId;
      nextRecId := nextRecId + 1;
      var ok := SendRA(0, rid, Some(rtype), rname);
      r := if ok then Some(rid) else None;
    }

    method SendAlias(rid: nat, rname: Text) returns (ok: bool)
      modifies csock
      ensures Outcome(csock.View(), ok) == PutAll(old(csock.View()), RAParts(1, rid, None, rname))
    {
      ok := SendRA(1, rid, None, rname);
    }

    method SendInfo(rid: int, name: Text, value: Text) returns (ok: bool)
      modifies csock
      ensures rid < 0 ==> !ok && csock.View() == old(csock.View())
      ensures rid >= 0 ==> Outcome(csock.View(), ok) == PutAll(old(csock.View()), InfoParts(rid, name, value))
    {
      if rid < 0 {
        return false;
      }
      var head := HeaderOf(6, 8 + |name| + |value|);
      var fixed := U32(rid % TWO32) + [|name| % TWO8, 0] + U16(|value| % TWO16);
      ok := SendParts([head, fixed, name, value]);
    }
  }
}
