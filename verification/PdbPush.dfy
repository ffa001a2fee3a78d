/**
 The C client's side of a connection (client/castApp/src/dbcb.c:46-166, casttcp.c:10-107): greeting, upload
 of the process database message by message, Done, and then answering pings.
 */
module PdbPush {
  import opened Wrappers
  import opened Bytes
  import opened Messages
  import opened Upload
  import opened Framing
  import opened Pipeline
  import opened Sending
  import opened Caster
  import SessionSpec
  import DbStore

  /** The bytes the client sends for a message. */
  function FrameOf(m: Message): seq<byte> {
    if ClientSends(m) then Frame(MsgId(m), ClientBody(m)) else []
  }

  function WireOf(ms: seq<Message>): seq<byte> {
    if ms == [] then [] else WireOf(ms[..|ms| - 1]) + FrameOf(ms[|ms| - 1])
  }

  lemma {:induction false} WireConcat(a: seq<Message>, b: seq<Message>)
    ensures WireOf(a + b) == WireOf(a) + WireOf(b)
  {
    hide FrameOf;
    if b == [] {
      assert a + b == a;
    } else {
      var n := |b| - 1;
      assert (a + b)[..|a + b| - 1] == a + b[..n];
      WireConcat(a, b[..n]);
    }
  }

  lemma WireOne(m: Message)
    ensures WireOf([m]) == FrameOf(m)
  {
    hide FrameOf;
    assert [m][..0] == [];
  }

  lemma WireSnoc(a: seq<Message>, m: Message)
    ensures WireOf(a + [m]) == WireOf(a) + FrameOf(m)
  {
    hide FrameOf;
    WireConcat(a, [m]);
    WireOne(m);
  }

  lemma {:induction false} StreamSnoc(ps: seq<Packet>, p: Packet)
    requires AllPrintable(ps) && Printable(p)
    ensures AllPrintable(ps + [p]) && Stream(ps + [p]) == Stream(ps) + Frame(p.id, p.body)
  {
    if ps == [] {
      assert ps + [p] == [p] && [p][1..] == [];
    } else {
      assert forall q | q in ps[1..] :: q in ps;
      assert (ps + [p])[1..] == ps[1..] + [p];
      StreamSnoc(ps[1..], p);
    }
  }

  lemma PacketsPrefix(ms: seq<Message>)
    requires ms != [] && Sendable(ms) && AllPrintable(Packets(ms))
    ensures var n := |ms| - 1;
            && Sendable(ms[..n]) && Packets(ms[..n]) == Packets(ms)[..n] && AllPrintable(Packets(ms[..n]))
            && Printable(Packets(ms)[n]) && Frame(Packets(ms)[n].id, Packets(ms)[n].body) == FrameOf(ms[n])
  {
    hide ClientBody, Fits;
    var n := |ms| - 1;
    assert Packets(ms)[n] in Packets(ms);
    assert ms[n] in ms && Sends(ms[n]);
  }

  /** What the server calls the stream of the messages' packets is what the client sends. */
  lemma {:induction false} WireIsStream(ms: seq<Message>)
    requires Sendable(ms) && AllPrintable(Packets(ms))
    ensures Stream(Packets(ms)) == WireOf(ms)
  {
    hide FrameOf, ClientBody, Frame;
    if ms != [] {
      var n := |ms| - 1;
      var p := Packets(ms);
      PacketsPrefix(ms);
      WireIsStream(ms[..n]);
      StreamSnoc(p[..n], p[n]);
      assert p == p[..n] + [p[n]];
    }
  }

  // ---------------------------------------------------------------- sending messages

  /** The buffers in which the client sends a message. */
  function PartsOf(m: Message): seq<seq<byte>> {
    if !ClientSends(m) then []
    else if m.AddRecord? then
      RAParts(if m.alias then 1 else 0, m.recordId, if m.alias then None else Some(m.recordType), m.recordName)
    else if m.AddInfo? then InfoParts(m.recordId, m.key, m.value)
    else [HeaderOf(MsgId(m), |ClientBody(m)|), ClientBody(m)]
  }

  function Send(l: Line, m: Message): Outcome {
    PutAll(l, PartsOf(m))
  }

  lemma SendOfInfo(l: Line, id: nat, k: Text, v: Text)
    ensures Send(l, AddInfo(id, k, v)) == PutAll(l, InfoParts(id, k, v))
  {
  }

  lemma SendOfRecord(l: Line, id: nat, rt: Text, rn: Text)
    ensures Send(l, AddRecord(id, false, rt, rn)) == PutAll(l, RAParts(0, id, Some(rt), rn))
  {
  }

  lemma SendOfAlias(l: Line, id: nat, rn: Text)
    ensures Send(l, AddRecord(id, true, [], rn)) == PutAll(l, RAParts(1, id, None, rn))
  {
  }

  /** Messages one after the other, up to the first that fails. */
  function SendEach(l: Line, ms: seq<Message>): Outcome {
    if ms == [] then Outcome(l, true) else
    var before := SendEach(l, ms[..|ms| - 1]);
    if before.ok then Send(before.line, ms[|ms| - 1]) else before
  }

  lemma PartsAreFrame(m: Message)
    ensures Concat(PartsOf(m)) == FrameOf(m)
  {
    hide Concat, HeaderOf, AddBody, InfoBody, RAParts, InfoParts;
    if !ClientSends(m) {
      ConcatNone();
    } else if m.AddRecord? {
      RAPartsAreFrame(if m.alias then 1 else 0, m.recordId, if m.alias then None else Some(m.recordType), m.recordName);
    } else if m.AddInfo? {
      InfoPartsAreFrame(m.recordId, m.key, m.value);
    } else {
      ConcatTwo(HeaderOf(MsgId(m), |ClientBody(m)|), ClientBody(m));
    }
  }

  lemma ConcatNone()
    ensures Concat([]) == []
  {
  }

  lemma SendSends(l: Line, m: Message)
    ensures Sent(l.wire, FrameOf(m), Send(l, m))
  {
    hide PartsOf, FrameOf, PutAll;
    PartsAreFrame(m);
    PutAllSends(l, PartsOf(m));
  }

  lemma {:induction false} SendEachSends(l: Line, ms: seq<Message>)
    ensures Sent(l.wire, WireOf(ms), SendEach(l, ms))
  {
    hide FrameOf, Send, Sent;
    if ms == [] {
      SentNothing(l);
    } else {
      var n := |ms| - 1;
      var before := SendEach(l, ms[..n]);
      SendEachSends(l, ms[..n]);
      if before.ok {
        SendSends(before.line, ms[n]);
      }
      SentInTurn(l.wire, WireOf(ms[..n]), FrameOf(ms[n]), before, SendEach(l, ms));
    }
  }

  lemma SentNothing(l: Line)
    ensures Sent(l.wire, [], Outcome(l, true))
  {
    assert l.wire + [] == l.wire;
  }

  /** After a failure nothing more is sent. */
  lemma {:induction false} SendEachConcat(l: Line, a: seq<Message>, b: seq<Message>)
    ensures var first := SendEach(l, a);
            SendEach(l, a + b) == if first.ok then SendEach(first.line, b) else first
  {
    hide Send;
    if b == [] {
      assert a + b == a;
    } else {
      var n := |b| - 1;
      assert (a + b)[..|a + b| - 1] == a + b[..n];
      SendEachConcat(l, a, b[..n]);
    }
  }

  lemma SendEachOne(l: Line, m: Message)
    ensures SendEach(l, [m]) == Send(l, m)
  {
    hide Send;
    assert [m][..0] == [];
  }

  lemma InfoMessagesSnoc(id: nat, infos: seq<(Text, Text)>, k: nat)
    requires k < |infos|
    ensures InfoMessages(id, infos[..k + 1]) ==
            InfoMessages(id, infos[..k]) + if infos[k].1 != [] then [AddInfo(id, infos[k].0, infos[k].1)] else []
  {
    assert infos[..k + 1][..k] == infos[..k];
  }

  lemma AliasMessagesSnoc(id: nat, aliases: seq<Text>, k: nat)
    requires k < |aliases|
    ensures AliasMessages(id, aliases[..k + 1])
         == AliasMessages(id, aliases[..k]) + [AddRecord(id, true, [], aliases[k])]
  {
  }

  lemma InfoSendSnoc(l: Line, id: nat, infos: seq<(Text, Text)>, k: nat)
    requires k < |infos|
    ensures var before, m := SendEach(l, InfoMessages(id, infos[..k])), AddInfo(id, infos[k].0, infos[k].1);
            SendEach(l, InfoMessages(id, infos[..k + 1])) ==
            if infos[k].1 != [] && before.ok then Send(before.line, m) else before
  {
    hide Send;
    var before, m := InfoMessages(id, infos[..k]), AddInfo(id, infos[k].0, infos[k].1);
    InfoMessagesSnoc(id, infos, k);
    if infos[k].1 != [] {
      SendEachConcat(l, before, [m]);
      SendEachOne(SendEach(l, before).line, m);
    } else {
      assert before + [] == before;
    }
  }

  lemma {:induction false} InfoSendStops(l: Line, id: nat, infos: seq<(Text, Text)>, k: nat)
    requires k <= |infos| && !SendEach(l, InfoMessages(id, infos[..k])).ok
    ensures SendEach(l, InfoMessages(id, infos)) == SendEach(l, InfoMessages(id, infos[..k]))
    decreases |infos| - k
  {
    hide SendEach, InfoMessages, Send;
    if k < |infos| {
      InfoSendSnoc(l, id, infos, k);
      InfoSendStops(l, id, infos, k + 1);
    } else {
      assert infos[..k] == infos;
    }
  }

  /** Infos with a value, in order, until a send fails. */
  method PushInfos(c: Client, id: nat, infos: seq<(Text, Text)>) returns (ok: bool)
    modifies c.csock
    ensures Outcome(c.csock.View(), ok) == SendEach(old(c.csock.View()), InfoMessages(id, infos))
  {
    ghost var l := c.csock.View();
    assert SendEach(l, InfoMessages(id, infos[..0])) == Outcome(l, true);
    hide SendEach, InfoMessages, PutAll, InfoParts, Send;
    ok := true;
    var k := 0;
    while k < |infos| && ok
      invariant 0 <= k <= |infos|
      invariant Outcome(c.csock.View(), ok) == SendEach(l, InfoMessages(id, infos[..k]))
      decreases |infos| - k
    {
      InfoSendSnoc(l, id, infos, k);
      SendOfInfo(c.csock.View(), id, infos[k].0, infos[k].1);
      if infos[k].1 != [] {
        ok := c.SendInfo(id, infos[k].0, infos[k].1);
      }
      k := k + 1;
    }
    if !ok {
      InfoSendStops(l, id, infos, k);
    } else {
      assert infos[..k] == infos;
    }
  }

  lemma AliasSendSnoc(l: Line, id: nat, aliases: seq<Text>, k: nat)
    requires k < |aliases|
    ensures var before := SendEach(l, AliasMessages(id, aliases[..k]));
            SendEach(l, AliasMessages(id, aliases[..k + 1])) ==
            if before.ok then Send(before.line, AddRecord(id, true, [], aliases[k])) else before
  {
    hide Send;
    var before, m := AliasMessages(id, aliases[..k]), AddRecord(id, true, [], aliases[k]);
    AliasMessagesSnoc(id, aliases, k);
    SendEachConcat(l, before, [m]);
    SendEachOne(SendEach(l, before).line, m);
  }

  lemma {:induction false} AliasSendStops(l: Line, id: nat, aliases: seq<Text>, k: nat)
    requires k <= |aliases| && !SendEach(l, AliasMessages(id, aliases[..k])).ok
    ensures SendEach(l, AliasMessages(id, aliases)) == SendEach(l, AliasMessages(id, aliases[..k]))
    decreases |aliases| - k
  {
    hide SendEach, AliasMessages, Send;
    if k < |aliases| {
      AliasSendSnoc(l, id, aliases, k);
      AliasSendStops(l, id, aliases, k + 1);
    } else {
      assert aliases[..k] == aliases;
    }
  }

  method PushAliases(c: Client, id: nat, aliases: seq<Text>) returns (ok: bool)
    modifies c.csock
    ensures Outcome(c.csock.View(), ok) == SendEach(old(c.csock.View()), AliasMessages(id, aliases))
  {
    ghost var l := c.csock.View();
    assert SendEach(l, AliasMessages(id, aliases[..0])) == Outcome(l, true);
    hide SendEach, AliasMessages, PutAll, RAParts, Send;
    ok := true;
    var k := 0;
    while k < |aliases| && ok
      invariant 0 <= k <= |aliases|
      invariant Outcome(c.csock.View(), ok) == SendEach(l, AliasMessages(id, aliases[..k]))
      decreases |aliases| - k
    {
      AliasSendSnoc(l, id, aliases, k);
      SendOfAlias(c.csock.View(), id, aliases[k]);
      ok := c.SendAlias(id, aliases[k]);
      k := k + 1;
    }
    if !ok {
      AliasSendStops(l, id, aliases, k);
    } else {
      assert aliases[..k] == aliases;
    }
  }

  // ---------------------------------------------------------------- one record

  /**
   How the push of a record went: `ok` is what it reports; the record was added, its aliases and infos were
   all sent, and so was its description or there is none.
   */
  datatype Pushed = Pushed(line: Line, ok: bool, added: bool, filled: bool, described: bool)

  predicate Everything(p: Pushed) {
    p.added && p.filled && p.described
  }

  /** Aliases and infos, without the description. */
  function Filling(id: nat, r: DbRecord): seq<Message> {
    AliasMessages(id, r.aliases) + InfoMessages(id, r.infos)
  }

  /** pushRecord: the status of the description, if there is one, replaces that of the filling. */
  function PushedRecord(l: Line, id: nat, r: DbRecord): Pushed {
    var a := Send(l, AddRecord(id, false, r.rtype, r.name));
    if !a.ok then Pushed(a.line, false, false, false, false) else
    var f := SendEach(a.line, Filling(id, r));
    if r.desc == [] then Pushed(f.line, f.ok, true, f.ok, true) else
    var d := Send(f.line, AddInfo(id, RECORD_DESC, r.desc));
    Pushed(d.line, d.ok, true, f.ok, d.ok)
  }

  method PushRecord(c: Client, r: DbRecord) returns (ok: bool)
    requires c.nextRecId > 0
    modifies c, c.csock
    ensures c.nextRecId == old(c.nextRecId) + 1
    ensures var p := PushedRecord(old(c.csock.View()), old(c.nextRecId), r);
            c.csock.View() == p.line && ok == p.ok
  {
    hide PutAll, RAParts, InfoParts, SendEach, AliasMessages, InfoMessages, Send;
    var id: nat := c.nextRecId;
    SendOfRecord(c.csock.View(), id, r.rtype, r.name);
    var rid := c.SendRecord(r.rtype, r.name);
    if rid.None? {
      return false;
    }
    SendEachConcat(c.csock.View(), AliasMessages(id, r.aliases), InfoMessages(id, r.infos));
    ok := PushAliases(c, id, r.aliases);
    if ok {
      ok := PushInfos(c, id, r.infos);
    }
    if r.desc != [] {
      SendOfInfo(c.csock.View(), id, RECORD_DESC, r.desc);
      ok := c.SendInfo(id, RECORD_DESC, r.desc);
    }
  }

  lemma DescWire(id: nat, r: DbRecord)
    ensures WireOf(InfoMessages(id, InfosWithDesc(r))) ==
            WireOf(InfoMessages(id, r.infos)) + if r.desc != [] then FrameOf(AddInfo(id, RECORD_DESC, r.desc)) else []
  {
    hide FrameOf, WireOf;
    var infos := InfosWithDesc(r);
    InfoMessagesSnoc(id, infos, |r.infos|);
    assert infos[..|r.infos|] == r.infos && infos[..|r.infos| + 1] == infos;
    if r.desc != [] {
      WireSnoc(InfoMessages(id, r.infos), AddInfo(id, RECORD_DESC, r.desc));
    } else {
      assert InfoMessages(id, r.infos) + [] == InfoMessages(id, r.infos);
    }
  }

  lemma RecordWire(id: nat, r: DbRecord)
    ensures WireOf(RecordMessages(id, r)) ==
            FrameOf(AddRecord(id, false, r.rtype, r.name)) + WireOf(AliasMessages(id, r.aliases))
            + WireOf(InfoMessages(id, InfosWithDesc(r)))
  {
    hide FrameOf, WireOf, InfoMessages, InfosWithDesc;
    var added := AddRecord(id, false, r.rtype, r.name);
    WireConcat([added] + AliasMessages(id, r.aliases), InfoMessages(id, InfosWithDesc(r)));
    WireConcat([added], AliasMessages(id, r.aliases));
    WireOne(added);
  }

  /** All of a frame is on the wire, or what is there is too short. */
  ghost predicate Delivered(before: seq<byte>, frame: seq<byte>, after: seq<byte>, all: bool) {
    if all then after == before + frame else |after| < |before| + |frame|
  }

  lemma DeliveredIff(before: seq<byte>, frame: seq<byte>, after: seq<byte>, all: bool)
    requires Delivered(before, frame, after, all)
    ensures all <==> after == before + frame
  {
  }

  lemma SentIsDelivered(before: seq<byte>, frame: seq<byte>, r: Outcome)
    requires Sent(before, frame, r)
    ensures Delivered(before, frame, r.line.wire, r.ok)
  {
    SentIff(before, frame, r);
  }

  lemma DeliveredInTurn(before: seq<byte>, a: seq<byte>, b: seq<byte>, x: seq<byte>, y: seq<byte>, p: bool, q: bool)
    requires Delivered(before, a, x, p) && Delivered(x, b, y, q)
    ensures Delivered(before, a + b, y, p && q)
  {
    assert before + a + b == before + (a + b);
  }

  /** Nothing more is sent. */
  lemma DeliveredShort(before: seq<byte>, a: seq<byte>, b: seq<byte>, x: seq<byte>)
    requires Delivered(before, a, x, false)
    ensures Delivered(before, a + b, x, false)
  {
  }

  lemma FillingWire(id: nat, r: DbRecord)
    ensures WireOf(RecordMessages(id, r)) ==
            FrameOf(AddRecord(id, false, r.rtype, r.name)) + WireOf(Filling(id, r))
            + if r.desc != [] then FrameOf(AddInfo(id, RECORD_DESC, r.desc)) else []
  {
    hide FrameOf, WireOf, RecordMessages, AliasMessages, InfoMessages;
    RecordWire(id, r);
    DescWire(id, r);
    WireConcat(AliasMessages(id, r.aliases), InfoMessages(id, r.infos));
  }

  /** Everything was sent if and only if the wire carries exactly the record's messages. */
  lemma RecordIsSentIff(l: Line, id: nat, r: DbRecord)
    ensures var p := PushedRecord(l, id, r);
            && Delivered(l.wire, WireOf(RecordMessages(id, r)), p.line.wire, Everything(p))
            && (Everything(p) <==> p.line.wire == l.wire + WireOf(RecordMessages(id, r)))
  {
    hide FrameOf, WireOf, RecordMessages, Send, SendEach, Filling, Delivered, Sent;
    var p := PushedRecord(l, id, r);
    FillingWire(id, r);
    var added, filling := AddRecord(id, false, r.rtype, r.name), Filling(id, r);
    var a := Send(l, added);
    SendSends(l, added);
    SentIsDelivered(l.wire, FrameOf(added), a);
    var desc := if r.desc != [] then FrameOf(AddInfo(id, RECORD_DESC, r.desc)) else [];
    if !a.ok {
      DeliveredShort(l.wire, FrameOf(added), WireOf(filling), a.line.wire);
      DeliveredShort(l.wire, FrameOf(added) + WireOf(filling), desc, a.line.wire);
    } else {
      var f := SendEach(a.line, filling);
      SendEachSends(a.line, filling);
      SentIsDelivered(a.line.wire, WireOf(filling), f);
      DeliveredInTurn(l.wire, FrameOf(added), WireOf(filling), a.line.wire, f.line.wire, true, f.ok);
      if r.desc != [] {
        SendSends(f.line, AddInfo(id, RECORD_DESC, r.desc));
        SentIsDelivered(f.line.wire, desc, Send(f.line, AddInfo(id, RECORD_DESC, r.desc)));
      } else {
        DeliveredNothing(f.line.wire);
      }
      DeliveredInTurn(l.wire, FrameOf(added) + WireOf(filling), desc, f.line.wire, p.line.wire, f.ok, p.described);
    }
    DeliveredIff(l.wire, WireOf(RecordMessages(id, r)), p.line.wire, Everything(p));
  }

  lemma DeliveredNothing(wire: seq<byte>)
    ensures Delivered(wire, [], wire, true)
  {
    assert wire + [] == wire;
  }

  /**
   A push that reports success although the wire does not carry the record: exactly when an alias or info
   could not be sent, the record has a description, and that could be sent again.
   */
  lemma LossIsHiddenIff(l: Line, id: nat, r: DbRecord)
    ensures var p := PushedRecord(l, id, r);
            p.ok && p.line.wire != l.wire + WireOf(RecordMessages(id, r))
            <==> p.added && !p.filled && r.desc != [] && p.described
  {
    RecordIsSentIff(l, id, r);
    hide Send, SendEach, WireOf, RecordMessages;
  }

  /** A socket on which this happens. */
  function Flaky(limit: nat): seq<SendEvent> {
    [Accept(limit), Accept(limit), Accept(limit), Accept(limit), Fail,
     Accept(limit), Accept(limit), Accept(limit), Accept(limit)]
  }

  lemma HiddenLoss(id: nat, r: DbRecord, limit: nat)
    requires r.rtype != [] && r.name != [] && Filling(id, r) != [] && r.desc != []
    requires limit >= 16 + |r.rtype| + |r.name| + |r.desc|
    ensures var p := PushedRecord(Line([], Flaky(limit)), id, r);
            && p.ok && p.line.wire != [] + WireOf(RecordMessages(id, r))
            && p.line.wire == FrameOf(AddRecord(id, false, r.rtype, r.name)) + FrameOf(AddInfo(id, RECORD_DESC, r.desc))
  {
    var l := Line([], Flaky(limit));
    var added, described := AddRecord(id, false, r.rtype, r.name), AddInfo(id, RECORD_DESC, r.desc);
    hide Filling;
    SendAccepted(l, added, limit);
    var f := Line(FrameOf(added), l.future[4..]);
    assert [] + FrameOf(added) == FrameOf(added);
    FillingFails(f, id, r);
    SendAccepted(Line(f.wire, f.future[1..]), described, limit);
    LossIsHiddenIff(l, id, r);
    hide FrameOf, WireOf, Send, SendEach, RecordMessages;
  }

  lemma SendAccepted(l: Line, m: Message, limit: nat)
    requires m.AddInfo? || (m.AddRecord? && !m.alias)
    requires m.AddInfo? ==> m.key != [] && m.value != [] && 8 + |m.key| + |m.value| <= limit
    requires m.AddRecord? ==> m.recordType != [] && m.recordName != [] && 8 + |m.recordType| + |m.recordName| <= limit
    requires |l.future| >= 4 && forall k | 0 <= k < 4 :: l.future[k] == Accept(limit)
    ensures Send(l, m) == Outcome(Line(l.wire + FrameOf(m), l.future[4..]), true)
  {
    hide FrameOf, Concat, PutAll;
    PartsAreFrame(m);
    PutAllAccepted(l, PartsOf(m), limit);
  }

  /** What fills a record: aliases and infos. */
  lemma FillingForm(id: nat, r: DbRecord)
    requires Filling(id, r) != []
    ensures var m := Filling(id, r)[0]; m.AddInfo? || (m.AddRecord? && m.alias && m.recordType == [])
  {
    InfoMessagesForm(id, r.infos);
    if r.aliases == [] {
      assert Filling(id, r) == InfoMessages(id, r.infos);
      assert Filling(id, r)[0] in InfoMessages(id, r.infos);
    }
  }

  lemma FirstPartFails(l: Line, m: Message)
    requires m.AddInfo? || (m.AddRecord? && m.alias && m.recordType == [])
    requires l.future != [] && l.future[0].Fail?
    ensures Send(l, m) == Outcome(Line(l.wire, l.future[1..]), false)
  {
    var parts := PartsOf(m);
    assert parts != [] && |parts[0]| == 8;
    PutAllFails(l, parts);
  }

  /** A failure at the first message ends the filling with nothing sent. */
  lemma FillingFails(l: Line, id: nat, r: DbRecord)
    requires Filling(id, r) != [] && l.future != [] && l.future[0].Fail?
    ensures SendEach(l, Filling(id, r)) == Outcome(Line(l.wire, l.future[1..]), false)
  {
    FillingForm(id, r);
    hide Send, Filling;
    var ms := Filling(id, r);
    assert ms == [ms[0]] + ms[1..];
    FirstPartFails(l, ms[0]);
    SendEachOne(l, ms[0]);
    SendEachConcat(l, [ms[0]], ms[1..]);
  }

  /** The push of this record on this socket reports success without having sent it all. */
  ghost predicate Loses(l: Line, id: nat, r: DbRecord) {
    PushedRecord(l, id, r).ok && PushedRecord(l, id, r).line.wire != l.wire + WireOf(RecordMessages(id, r))
  }

  /** On some socket that happens exactly to the records that have a description and an alias or info besides. */
  lemma LossIsPossibleIff(id: nat, r: DbRecord)
    requires r.rtype != [] && r.name != []
    ensures (exists l :: Loses(l, id, r)) <==> r.desc != [] && Filling(id, r) != []
  {
    if r.desc != [] && Filling(id, r) != [] {
      var limit := 16 + |r.rtype| + |r.name| + |r.desc|;
      HiddenLoss(id, r, limit);
      assert Loses(Line([], Flaky(limit)), id, r);
    } else {
      forall l ensures !Loses(l, id, r) {
        LossIsHiddenIff(l, id, r);
        NothingToFill(l, id, r);
      }
    }
  }

  lemma NothingToFill(l: Line, id: nat, r: DbRecord)
    requires Filling(id, r) == [] || r.desc == []
    ensures var p := PushedRecord(l, id, r); !(p.added && !p.filled && r.desc != [] && p.described)
  {
    hide Send, Filling;
  }

  // ---------------------------------------------------------------- the process database

  /** `complete`: every single send went through. `next` is the id of the next record. */
  datatype Progress = Progress(line: Line, next: nat, ok: bool, complete: bool)

  /** Records one after the other, up to the first push that reports a failure. */
  function PushedRecords(l: Line, first: nat, records: seq<DbRecord>): Progress {
    if records == [] then Progress(l, first, true, true) else
    var before := PushedRecords(l, first, records[..|records| - 1]);
    if !before.ok then before else
    var p := PushedRecord(before.line, before.next, records[|records| - 1]);
    Progress(p.line, before.next + 1, p.ok, before.complete && Everything(p))
  }

  lemma {:induction false} NextId(l: Line, first: nat, records: seq<DbRecord>)
    ensures var p := PushedRecords(l, first, records);
            (p.ok ==> p.next == first + |records|) && (p.complete ==> p.ok)
  {
    hide PushedRecord;
    if records != [] {
      var n := |records| - 1;
      NextId(l, first, records[..n]);
      var before := PushedRecords(l, first, records[..n]);
      if before.ok {
        EverythingIsOk(before.line, before.next, records[n]);
      }
    }
  }

  lemma EverythingIsOk(l: Line, id: nat, r: DbRecord)
    ensures Everything(PushedRecord(l, id, r)) ==> PushedRecord(l, id, r).ok
  {
    hide Send, SendEach, Filling;
  }

  lemma {:induction false} PushedRecordsStop(l: Line, first: nat, records: seq<DbRecord>, k: nat)
    requires k <= |records| && !PushedRecords(l, first, records[..k]).ok
    ensures PushedRecords(l, first, records) == PushedRecords(l, first, records[..k])
    decreases |records| - k
  {
    hide PushedRecord;
    if k < |records| {
      assert records[..k + 1][..k] == records[..k];
      PushedRecordsStop(l, first, records, k + 1);
    } else {
      assert records[..k] == records;
    }
  }

  lemma RecordsWireSnoc(first: nat, records: seq<DbRecord>, k: nat)
    requires k < |records|
    ensures WireOf(RecordsMessages(first, records[..k + 1])) ==
            WireOf(RecordsMessages(first, records[..k])) + WireOf(RecordMessages(first + k, records[k]))
  {
    hide FrameOf;
    assert records[..k + 1][..k] == records[..k];
    WireConcat(RecordsMessages(first, records[..k]), RecordMessages(first + k, records[k]));
  }

  /** All records were sent completely if and only if the wire carries exactly their messages. */
  lemma {:induction false} RecordsAreSentIff(l: Line, first: nat, records: seq<DbRecord>)
    ensures var p := PushedRecords(l, first, records);
            && Delivered(l.wire, WireOf(RecordsMessages(first, records)), p.line.wire, p.complete)
            && (p.complete <==> p.line.wire == l.wire + WireOf(RecordsMessages(first, records)))
  {
    hide FrameOf, WireOf, RecordMessages, PushedRecord, Everything, Delivered;
    var p := PushedRecords(l, first, records);
    if records == [] {
      WireOfNone();
      DeliveredNothing(l.wire);
    } else {
      var n := |records| - 1;
      var before := PushedRecords(l, first, records[..n]);
      var a, b := WireOf(RecordsMessages(first, records[..n])), WireOf(RecordMessages(first + n, records[n]));
      RecordsAreSentIff(l, first, records[..n]);
      NextId(l, first, records[..n]);
      assert records[..n + 1] == records;
      RecordsWireSnoc(first, records, n);
      if before.ok {
        RecordIsSentIff(before.line, first + n, records[n]);
        DeliveredInTurn(l.wire, a, b, before.line.wire, p.line.wire, before.complete,
                        Everything(PushedRecord(before.line, first + n, records[n])));
      } else {
        DeliveredShort(l.wire, a, b, before.line.wire);
      }
    }
    DeliveredIff(l.wire, WireOf(RecordsMessages(first, records)), p.line.wire, p.complete);
  }

  lemma WireOfNone()
    ensures WireOf([]) == []
  {
  }

  /** The push of the k-th record hides a loss. */
  ghost predicate HidesLoss(l: Line, first: nat, records: seq<DbRecord>, k: nat)
    requires k < |records|
  {
    var before := PushedRecords(l, first, records[..k]);
    var p := PushedRecord(before.line, before.next, records[k]);
    before.ok && p.added && !p.filled && records[k].desc != [] && p.described
  }

  /** The push of all records reports success without having sent everything exactly if one of them hides a loss. */
  lemma {:induction false} IncompleteIff(l: Line, first: nat, records: seq<DbRecord>)
    requires PushedRecords(l, first, records).ok
    ensures !PushedRecords(l, first, records).complete
            <==> exists k | 0 <= k < |records| :: HidesLoss(l, first, records, k)
  {
    hide PushedRecord;
    if records != [] {
      var n := |records| - 1;
      var before := PushedRecords(l, first, records[..n]);
      IncompleteIff(l, first, records[..n]);
      OkButNotEverything(before.line, before.next, records[n]);
      forall k | 0 <= k < n ensures HidesLoss(l, first, records, k) <==> HidesLoss(l, first, records[..n], k) {
        assert records[..n][..k] == records[..k];
      }
      assert HidesLoss(l, first, records, n) <==> !Everything(PushedRecord(before.line, before.next, records[n]));
      if before.complete {
      } else {
        var k :| 0 <= k < n && HidesLoss(l, first, records[..n], k);
        assert HidesLoss(l, first, records, k);
      }
    }
  }

  lemma OkButNotEverything(l: Line, id: nat, r: DbRecord)
    ensures var p := PushedRecord(l, id, r);
            p.ok ==> (!Everything(p) <==> p.added && !p.filled && r.desc != [] && p.described)
  {
    hide Send, SendEach, Filling;
  }

  /** casterPushPDB */
  function PushedPdb(l: Line, pdb: Pdb, first: nat): Progress {
    var env := SendEach(l, InfoMessages(0, pdb.env));
    if !env.ok then Progress(env.line, first, false, false) else PushedRecords(env.line, first, pdb.records)
  }

  method PushPdb(c: Client, pdb: Pdb) returns (ok: bool)
    requires c.nextRecId > 0
    modifies c, c.csock
    ensures var p := PushedPdb(old(c.csock.View()), pdb, old(c.nextRecId));
            c.csock.View() == p.line && c.nextRecId == p.next && ok == p.ok
  {
    hide PushedRecord, SendEach, InfoMessages;
    ok := PushInfos(c, 0, pdb.env);
    if !ok {
      return;
    }
    var first: nat := c.nextRecId;
    ghost var l := c.csock.View();
    var k := 0;
    while k < |pdb.records| && ok
      invariant 0 <= k <= |pdb.records| && c.nextRecId > 0
      invariant var p := PushedRecords(l, first, pdb.records[..k]);
                c.csock.View() == p.line && c.nextRecId == p.next && ok == p.ok
      decreases |pdb.records| - k
    {
      assert pdb.records[..k + 1][..k] == pdb.records[..k];
      ok := PushRecord(c, pdb.records[k]);
      k := k + 1;
    }
    if !ok {
      PushedRecordsStop(l, first, pdb.records, k);
    } else {
      assert pdb.records[..k] == pdb.records;
    }
  }

  // ---------------------------------------------------------------- the whole connection

  /** Greeting, process database and Done; `greeted`: the server's greeting has come in between. */
  function UploadOf(l: Line, key: nat, pdb: Pdb, first: nat, greeted: bool): Progress {
    var g := Send(l, ClientGreeting(0, 0, key));
    if !g.ok || !greeted then Progress(g.line, first, false, false) else
    var p := PushedPdb(g.line, pdb, first);
    if !p.ok then p else
    var d := Send(p.line, UploadDone);
    Progress(d.line, p.next, d.ok, d.ok && p.complete)
  }

  lemma ConversationWire(key: nat, pdb: Pdb, first: nat)
    ensures WireOf(Conversation(key, pdb, first)) ==
            FrameOf(ClientGreeting(0, 0, key)) + WireOf(InfoMessages(0, pdb.env))
            + WireOf(RecordsMessages(first, pdb.records)) + FrameOf(UploadDone)
  {
    hide FrameOf, WireOf, InfoMessages, RecordsMessages;
    var env, recs := InfoMessages(0, pdb.env), RecordsMessages(first, pdb.records);
    WireConcat([ClientGreeting(0, 0, key)], env + recs + [UploadDone]);
    WireOne(ClientGreeting(0, 0, key));
    WireSnoc(env + recs, UploadDone);
    WireConcat(env, recs);
  }

  lemma PdbIsSent(l: Line, pdb: Pdb, first: nat)
    ensures var p := PushedPdb(l, pdb, first);
            Delivered(l.wire, WireOf(InfoMessages(0, pdb.env)) + WireOf(RecordsMessages(first, pdb.records)),
                      p.line.wire, p.complete)
  {
    hide WireOf, InfoMessages, RecordsMessages, SendEach, PushedRecords, Delivered, Sent;
    var ms := InfoMessages(0, pdb.env);
    var env := SendEach(l, ms);
    var a, b := WireOf(ms), WireOf(RecordsMessages(first, pdb.records));
    SendEachSends(l, ms);
    SentIsDelivered(l.wire, a, env);
    if env.ok {
      RecordsAreSentIff(env.line, first, pdb.records);
      var p := PushedRecords(env.line, first, pdb.records);
      DeliveredInTurn(l.wire, a, b, env.line.wire, p.line.wire, true, p.complete);
    } else {
      DeliveredShort(l.wire, a, b, env.line.wire);
    }
  }

  lemma DoneIsSomething()
    ensures FrameOf(UploadDone) != []
  {
  }

  /**
   The upload is complete if and only if the wire carries exactly the greeting, the environment, all records
   with all their aliases, infos and descriptions, and Done.
   */
  lemma UploadIsSentIff(l: Line, key: nat, pdb: Pdb, first: nat, greeted: bool)
    ensures var u := UploadOf(l, key, pdb, first, greeted);
            u.complete <==> u.line.wire == l.wire + WireOf(Conversation(key, pdb, first))
  {
    DoneIsSomething();
    hide FrameOf, WireOf, InfoMessages, RecordsMessages, Send, PushedPdb, Conversation, Sent;
    var u := UploadOf(l, key, pdb, first, greeted);
    var greeting := ClientGreeting(0, 0, key);
    var g := Send(l, greeting);
    var middle := WireOf(InfoMessages(0, pdb.env)) + WireOf(RecordsMessages(first, pdb.records));
    ConversationWire(key, pdb, first);
    SendSends(l, greeting);
    SentIsDelivered(l.wire, FrameOf(greeting), g);
    assert FrameOf(greeting) + middle + FrameOf(UploadDone) == WireOf(Conversation(key, pdb, first));
    if g.ok && greeted {
      var p := PushedPdb(g.line, pdb, first);
      PdbIsSent(g.line, pdb, first);
      DeliveredInTurn(l.wire, FrameOf(greeting), middle, g.line.wire, p.line.wire, true, p.complete);
      if p.ok {
        SendSends(p.line, UploadDone);
        SentIsDelivered(p.line.wire, FrameOf(UploadDone), Send(p.line, UploadDone));
        DeliveredInTurn(l.wire, FrameOf(greeting) + middle, FrameOf(UploadDone), p.line.wire, u.line.wire,
                        p.complete, Send(p.line, UploadDone).ok);
      } else {
        CompleteIsOk(g.line, pdb, first);
      }
    }
  }

  lemma CompleteIsOk(l: Line, pdb: Pdb, first: nat)
    ensures PushedPdb(l, pdb, first).complete ==> PushedPdb(l, pdb, first).ok
  {
    NextId(SendEach(l, InfoMessages(0, pdb.env)).line, first, pdb.records);
  }

  /** What a receive gives: a message with its body, or an error, a timeout or the end of the connection. */
  datatype Recv = Got(id: nat, body: seq<byte>) | Broken

  const PING := 0x8002
  const SERVER_GREETING := 0x8001

  /** A message that is answered or passed over. */
  predicate Fine(m: Recv) {
    m.Got? && m.body != [] && (m.id == PING ==> |m.body| >= 4)
  }

  predicate Greets(m: Recv) {
    m.Got? && m.id == SERVER_GREETING && m.body != []
  }

  /** The answers to the pings among received messages. */
  function Pongs(got: seq<Recv>): seq<Message> {
    if got == [] then [] else
    var m := got[|got| - 1];
    Pongs(got[..|got| - 1]) + if Fine(m) && m.id == PING then [Pong(FromU32(m.body[..4]))] else []
  }

  /** Pings are answered until something goes wrong; the list ends when the client is shut down. */
  function Answered(l: Line, got: seq<Recv>): Outcome {
    if got == [] then Outcome(l, true) else
    var m := got[|got| - 1];
    var before := Answered(l, got[..|got| - 1]);
    if !before.ok then before
    else if !Fine(m) then Outcome(before.line, false)
    else if m.id == PING then Send(before.line, Pong(FromU32(m.body[..4])))
    else before
  }

  lemma PongsWire(got: seq<Recv>)
    requires got != []
    ensures var n := |got| - 1;
            WireOf(Pongs(got)) == WireOf(Pongs(got[..n]))
            + if Fine(got[n]) && got[n].id == PING then FrameOf(Pong(FromU32(got[n].body[..4]))) else []
  {
    hide FrameOf;
    var n := |got| - 1;
    var before := Pongs(got[..n]);
    if Fine(got[n]) && got[n].id == PING {
      WireSnoc(before, Pong(FromU32(got[n].body[..4])));
    } else {
      assert before + [] == before;
    }
  }

  ghost predicate AllFine(got: seq<Recv>) {
    forall k | 0 <= k < |got| :: Fine(got[k])
  }

  lemma {:induction false} FinePingsAreAnswered(l: Line, got: seq<Recv>)
    requires AllFine(got)
    ensures Delivered(l.wire, WireOf(Pongs(got)), Answered(l, got).line.wire, Answered(l, got).ok)
  {
    hide FrameOf, WireOf, Send, Sent, Delivered;
    if got == [] {
      WireOfNone();
      DeliveredNothing(l.wire);
    } else {
      var n := |got| - 1;
      var before, m := Answered(l, got[..n]), got[n];
      var w := WireOf(Pongs(got[..n]));
      FinePingsAreAnswered(l, got[..n]);
      PongsWire(got);
      if !before.ok {
        DeliveredShort(l.wire, w, if m.id == PING then FrameOf(Pong(FromU32(m.body[..4]))) else [], before.line.wire);
      } else if m.id == PING {
        var pong := Pong(FromU32(m.body[..4]));
        SendSends(before.line, pong);
        SentIsDelivered(before.line.wire, FrameOf(pong), Send(before.line, pong));
        DeliveredInTurn(l.wire, w, FrameOf(pong), before.line.wire, Send(before.line, pong).line.wire, true,
                        Send(before.line, pong).ok);
      } else {
        assert w + [] == w;
      }
    }
  }

  lemma {:induction false} BadMessagesEndIt(l: Line, got: seq<Recv>)
    requires !AllFine(got)
    ensures !Answered(l, got).ok
  {
    hide Send;
    var n := |got| - 1;
    if !AllFine(got[..n]) {
      BadMessagesEndIt(l, got[..n]);
    }
  }

  /** It goes well if and only if all messages are fine and every ping has got its own nonce back, in order. */
  lemma PingsAreAnswered(l: Line, got: seq<Recv>)
    ensures Answered(l, got).ok <==> AllFine(got) && Answered(l, got).line.wire == l.wire + WireOf(Pongs(got))
  {
    hide Answered, WireOf, Pongs;
    if AllFine(got) {
      FinePingsAreAnswered(l, got);
    } else {
      BadMessagesEndIt(l, got);
    }
  }

  lemma {:induction false} AnsweredStops(l: Line, got: seq<Recv>, k: nat)
    requires k <= |got| && !Answered(l, got[..k]).ok
    ensures Answered(l, got) == Answered(l, got[..k])
    decreases |got| - k
  {
    hide Send;
    if k < |got| {
      assert got[..k + 1][..k] == got[..k];
      AnsweredStops(l, got, k + 1);
    } else {
      assert got[..k] == got;
    }
  }

  lemma SendOfBody(l: Line, m: Message)
    requires ClientSends(m) && !m.AddRecord? && !m.AddInfo?
    ensures Send(l, m) == PutAll(l, [HeaderOf(MsgId(m), |ClientBody(m)|), ClientBody(m)])
  {
  }

  method SendBody(c: Client, m: Message) returns (ok: bool)
    requires ClientSends(m) && !m.AddRecord? && !m.AddInfo?
    modifies c.csock
    ensures Outcome(c.csock.View(), ok) == Send(old(c.csock.View()), m)
  {
    SendOfBody(c.csock.View(), m);
    hide PutAll, Send, ClientBody, HeaderOf;
    ok := c.SendParts([HeaderOf(MsgId(m), |ClientBody(m)|), ClientBody(m)]);
  }

  method AnswerPings(c: Client, got: seq<Recv>) returns (ok: bool)
    modifies c.csock
    ensures Outcome(c.csock.View(), ok) == Answered(old(c.csock.View()), got)
  {
    hide Send;
    ghost var l := c.csock.View();
    for n := 0 to |got|
      invariant Outcome(c.csock.View(), true) == Answered(l, got[..n])
    {
      assert got[..n + 1][..n] == got[..n];
      if !Fine(got[n]) {
        AnsweredStops(l, got, n + 1);
        return false;
      }
      if got[n].id == PING {
        ok := SendBody(c, Pong(FromU32(got[n].body[..4])));
        if !ok {
          AnsweredStops(l, got, n + 1);
          return;
        }
      }
    }
    assert got[..|got|] == got;
    return true;
  }

  /** doCasterTCPPhase: greeting, the server's greeting, the upload, then pings until the client is shut down. */
  method DoCasterTcpPhase(c: Client, key: nat, pdb: Pdb, got: seq<Recv>) returns (ok: bool)
    requires c.nextRecId > 0
    modifies c, c.csock
    ensures var u := UploadOf(old(c.csock.View()), key, pdb, old(c.nextRecId), got != [] && Greets(got[0]));
            && c.nextRecId == u.next
            && Outcome(c.csock.View(), ok) == if u.ok then Answered(u.line, got[1..]) else Outcome(u.line, false)
  {
    hide Send, PushedPdb, Answered;
    ok := SendBody(c, ClientGreeting(0, 0, key));
    if !ok {
      return;
    }
    if got == [] || !Greets(got[0]) {
      return false;
    }
    ok := PushPdb(c, pdb);
    if !ok {
      return;
    }
    ok := SendBody(c, UploadDone);
    if !ok {
      return;
    }
    ok := AnswerPings(c, got[1..]);
  }

  /**
   End to end with the C client's bytes: whatever pieces they arrive in, however the server cuts them into
   transactions, the server's tables end up with exactly the client's process database.
   */
  lemma ClientBytesReachTheTables(key: nat, pdb: Pdb, first: nat, chunks: seq<seq<byte>>,
                                  l: SessionSpec.Limits, ins: seq<SessionSpec.Input>)
    requires first != 0 && Sensible(pdb) && PdbFits(pdb, first) && key < TWO32
    requires Concat(chunks) == WireOf(Conversation(key, pdb, first))
    requires SessionSpec.MessagesOf(ins) == Decoded(FeedAll(START, chunks).delivered)
    ensures !FeedAll(START, chunks).lost
    ensures DbStore.CommitAll(DbStore.NOTHING, SessionSpec.Run(l, ins).flushed) == Success(TablesOf(pdb, first))
  {
    hide *;
    ConversationIsSendable(key, pdb, first);
    WireIsStream(Conversation(key, pdb, first));
    UploadReachesTheTables(key, pdb, first, chunks, l, ins);
  }

  /** A complete upload over a new connection is such a stream of bytes. */
  lemma CompleteUploadsReachTheTables(
    key: nat, pdb: Pdb, first: nat, greeted: bool, future: seq<SendEvent>, chunks: seq<seq<byte>>,
    l: SessionSpec.Limits, ins: seq<SessionSpec.Input>)
    requires first != 0 && Sensible(pdb) && PdbFits(pdb, first) && key < TWO32
    requires UploadOf(Line([], future), key, pdb, first, greeted).complete
    requires Concat(chunks) == UploadOf(Line([], future), key, pdb, first, greeted).line.wire
    requires SessionSpec.MessagesOf(ins) == Decoded(FeedAll(START, chunks).delivered)
    ensures DbStore.CommitAll(DbStore.NOTHING, SessionSpec.Run(l, ins).flushed) == Success(TablesOf(pdb, first))
  {
    hide *;
    UploadIsSentIff(Line([], future), key, pdb, first, greeted);
    assert [] + WireOf(Conversation(key, pdb, first)) == WireOf(Conversation(key, pdb, first));
    ClientBytesReachTheTables(key, pdb, first, chunks, l, ins);
  }
}
