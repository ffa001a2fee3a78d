/**
 From the C client's process database to the server's tables: encoding, framing in arbitrary pieces,
 decoding, batching with any limit and clock, and committing, composed.
 */
module Pipeline {
  import opened Wrappers
  import opened Bytes
  import opened Messages
  import opened SessionSpec
  import opened Batching
  import opened CutPoints
  import opened Upload
  import opened Framing
  import DbStore
  import Caster

  // ---------------------------------------------------------------- the shape of an upload

  /** Messages about one record: its addition, then aliases and infos. */
  ghost predicate IsRecordBlock(ms: seq<Message>, id: nat) {
    && ms != [] && Adds(ms[0], id)
    && forall k | 1 <= k < |ms| :: Aliases(ms[k], id) || (ms[k].AddInfo? && ms[k].recordId == id)
  }

  lemma {:induction false} InfoMessagesForm(id: nat, infos: seq<(Text, Text)>)
    ensures forall m | m in InfoMessages(id, infos) :: m.AddInfo? && m.recordId == id && (m.key, m.value) in infos
  {
    if infos != [] {
      var n := |infos| - 1;
      assert infos == infos[..n] + [infos[n]];
      InfoMessagesForm(id, infos[..n]);
    }
  }

  lemma RecordMessagesForm(id: nat, r: DbRecord)
    ensures IsRecordBlock(RecordMessages(id, r), id)
  {
    var ms := RecordMessages(id, r);
    InfoMessagesForm(id, InfosWithDesc(r));
    forall k | 1 <= k < |ms| ensures Aliases(ms[k], id) || (ms[k].AddInfo? && ms[k].recordId == id) {
      if k > |r.aliases| {
        assert ms[k] in InfoMessages(id, InfosWithDesc(r));
      }
    }
  }

  lemma {:induction false} CurrentInBlock(a: seq<Message>, b: seq<Message>, id: nat, k: nat)
    requires IsRecordBlock(b, id) && 1 <= k <= |b|
    ensures Current(a + b[..k]) == Some(id)
  {
    var ms := a + b[..k];
    assert ms[|ms| - 1] == b[k - 1];
    if k > 1 {
      assert ms[..|ms| - 1] == a + b[..k - 1];
      CurrentInBlock(a, b, id, k - 1);
    }
  }

  lemma ShapeConcat(a: seq<Message>, b: seq<Message>)
    requires ClientShape(a) && forall k | 0 <= k < |b| :: Allowed(a + b[..k], b[k])
    ensures ClientShape(a + b)
  {
    var ms := a + b;
    forall k | 0 <= k < |ms| ensures Allowed(ms[..k], ms[k]) {
      if k < |a| {
        assert ms[..k] == a[..k];
      } else {
        assert ms[..k] == a + b[..k - |a|];
      }
    }
  }

  lemma ShapeWithBlock(a: seq<Message>, b: seq<Message>, id: nat)
    requires ClientShape(a) && IsRecordBlock(b, id)
    ensures ClientShape(a + b)
  {
    forall k | 0 <= k < |b| ensures Allowed(a + b[..k], b[k]) {
      if k >= 1 {
        CurrentInBlock(a, b, id, k);
      }
    }
    ShapeConcat(a, b);
  }

  /** No record is added under an id of `limit` or above. */
  ghost predicate IdsBelow(ms: seq<Message>, limit: nat) {
    forall k, id: nat | 0 <= k < |ms| && Adds(ms[k], id) :: id < limit
  }

  lemma AddedOnceWithBlock(a: seq<Message>, b: seq<Message>, id: nat)
    requires AddedOnce(a) && IdsBelow(a, id) && IsRecordBlock(b, id)
    ensures AddedOnce(a + b) && IdsBelow(a + b, id + 1)
  {
    var ms := a + b;
    forall k, i: nat | 0 <= k < |ms| && Adds(ms[k], i)
      ensures i < id + 1 && (k < |a| ==> i < id) && (k >= |a| ==> k == |a|)
    {
      if k < |a| {
        assert Adds(a[k], i);
      } else {
        assert ms[k] == b[k - |a|];
      }
    }
  }

  ghost predicate Growing(ms: seq<Message>, next: nat) {
    ClientShape(ms) && AddedOnce(ms) && IdsBelow(ms, next)
  }

  lemma GrowByRecord(ms: seq<Message>, id: nat, r: DbRecord)
    requires Growing(ms, id)
    ensures Growing(ms + RecordMessages(id, r), id + 1)
  {
    RecordMessagesForm(id, r);
    ShapeWithBlock(ms, RecordMessages(id, r), id);
    AddedOnceWithBlock(ms, RecordMessages(id, r), id);
  }

  lemma Regroup(a: seq<Message>, b: seq<Message>, c: seq<Message>)
    ensures a + (b + c) == a + b + c
  {
  }

  lemma {:induction false} GrowByRecords(a: seq<Message>, first: nat, records: seq<DbRecord>)
    requires Growing(a, first)
    ensures Growing(a + RecordsMessages(first, records), first + |records|)
  {
    if records == [] {
      assert a + [] == a;
    } else {
      hide Growing, RecordMessages;
      var n := |records| - 1;
      GrowByRecords(a, first, records[..n]);
      GrowByRecord(a + RecordsMessages(first, records[..n]), first + n, records[n]);
      Regroup(a, RecordsMessages(first, records[..n]), RecordMessages(first + n, records[n]));
    }
  }

  lemma EnvShape(env: seq<(Text, Text)>, limit: nat)
    ensures Growing(InfoMessages(0, env), limit)
  {
    var ms := InfoMessages(0, env);
    InfoMessagesForm(0, env);
    forall k | 0 <= k < |ms| ensures ms[k].AddInfo? && ms[k].recordId == 0 {
      assert ms[k] in ms;
    }
  }

  /** What the C client uploads has the shape on which cut points are safe, and adds each id once. */
  lemma UploadHasClientShape(pdb: Pdb, first: nat)
    ensures ClientShape(UploadMessages(pdb, first)) && AddedOnce(UploadMessages(pdb, first))
  {
    EnvShape(pdb.env, first);
    var a := InfoMessages(0, pdb.env);
    GrowByRecords(a, first, pdb.records);
    var before := a + RecordsMessages(first, pdb.records);
    ShapeConcat(before, [UploadDone]);
    var ms := before + [UploadDone];
    assert ms == UploadMessages(pdb, first);
    forall i, j, id | 0 <= i < j < |ms| && Adds(ms[i], id) ensures !Adds(ms[j], id) {
      if j < |before| {
        assert Adds(before[i], id);
      }
    }
  }

  /** The upload is a stream on which batching preserves meaning. */
  lemma UploadIsWellFormed(pdb: Pdb, first: nat)
    requires first != 0 && Sensible(pdb)
    ensures WellFormed(UploadMessages(pdb, first))
  {
    UploadHasClientShape(pdb, first);
    UploadFoldsToTables(pdb, first);
    var ms := UploadMessages(pdb, first);
    forall j | 0 <= j < |ms| ensures !ms[j].DelRecord? {
      assert Allowed(ms[..j], ms[j]);
    }
  }

  // ---------------------------------------------------------------- on the wire

  predicate ClientSends(m: Message) {
    match m
    case ClientGreeting(v, t, _) => v == 0 && t == 0
    case Pong(_) => true
    case AddRecord(_, alias, rt, _) => alias ==> rt == []
    case DelRecord(_) => false
    case UploadDone => true
    case AddInfo(_, _, _) => true
  }

  /** The body the C client sends for a message. */
  function ClientBody(m: Message): seq<byte>
    requires ClientSends(m)
  {
    match m
    case ClientGreeting(_, _, k) => [0, 0, 0, 0] + U32(k % TWO32)
    case Pong(n) => U32(n % TWO32)
    case AddRecord(id, alias, rt, rn) => Caster.AddBody(if alias then 1 else 0, id, rt, rn)
    case UploadDone => U32(0)
    case AddInfo(id, k, v) => Caster.InfoBody(id, k, v)
  }

  /** Within the field widths the C client and the Python reference encoder write the same bytes. */
  lemma EncodersAgree(m: Message)
    requires ClientSends(m) && Fits(m)
    ensures Encode(m) == Success(ClientBody(m))
  {
    match m
    case AddRecord(_, _, _, _) => RecordEncodersAgree(m);
    case AddInfo(_, _, _) => InfoEncodersAgree(m);
    case ClientGreeting(_, _, k) => assert k % TWO32 == k;
    case Pong(n) => assert n % TWO32 == n;
    case UploadDone =>
  }

  lemma RecordEncodersAgree(m: Message)
    requires m.AddRecord? && ClientSends(m) && Fits(m)
    ensures Encode(m) == Success(ClientBody(m))
  {
    assert m.recordId % TWO32 == m.recordId;
    assert |m.recordType| % TWO8 == |m.recordType| && |m.recordName| % TWO16 == |m.recordName|;
  }

  lemma InfoEncodersAgree(m: Message)
    requires m.AddInfo? && Fits(m)
    ensures Encode(m) == Success(ClientBody(m))
  {
    assert m.recordId % TWO32 == m.recordId;
    assert |m.key| % TWO8 == |m.key| && |m.value| % TWO16 == |m.value|;
  }

  ghost predicate Sends(m: Message) {
    ClientSends(m) && Fits(m)
  }

  ghost predicate Sendable(ms: seq<Message>) {
    forall m | m in ms :: Sends(m)
  }

  function Packets(ms: seq<Message>): seq<Packet>
    requires Sendable(ms)
  {
    seq(|ms|, k requires 0 <= k < |ms| => assert ms[k] in ms; Packet(MsgId(ms[k]), ClientBody(ms[k])))
  }

  lemma PacketIsGood(m: Message)
    requires ClientSends(m) && Fits(m)
    ensures var p := Packet(MsgId(m), ClientBody(m));
            Printable(p) && Acceptable(p) && |p.body| >= FixedSize(p.id) && Decode(p.id, p.body) == Success(m)
  {
    EncodersAgree(m);
    DecodeInvertsEncode(m);
  }

  /** What the message handlers make of the delivered bodies; bodies that do not decode are skipped. */
  function Decoded(ps: seq<Packet>): seq<Message> {
    if ps == [] then [] else
    var d := Decode(ps[0].id, ps[0].body);
    (if d.Success? then [d.value] else []) + Decoded(ps[1..])
  }

  lemma {:induction false} AllWanted(ms: seq<Message>)
    requires Sendable(ms)
    ensures AllPrintable(Packets(ms)) && AllAcceptable(Packets(ms))
    ensures Wanted(Packets(ms)) == Packets(ms) && Decoded(Packets(ms)) == ms
    decreases |ms|
  {
    hide ClientBody, Decode, Fits, ClientSends, FixedSize;
    var ps := Packets(ms);
    forall p | p in ps ensures Printable(p) && Acceptable(p) {
      var k :| 0 <= k < |ps| && ps[k] == p;
      assert ms[k] in ms;
      PacketIsGood(ms[k]);
    }
    if ms != [] {
      assert ms[0] in ms;
      PacketIsGood(ms[0]);
      assert forall m | m in ms[1..] :: m in ms;
      AllWanted(ms[1..]);
      assert ps[1..] == Packets(ms[1..]);
      assert ps == [ps[0]] + ps[1..];
    }
  }

  /** Everything a client sends arrives, as the same messages in the same order, however the bytes are cut. */
  lemma MessagesArrive(ms: seq<Message>, chunks: seq<seq<byte>>)
    requires Sendable(ms)
    requires AllPrintable(Packets(ms)) && Concat(chunks) == Stream(Packets(ms))
    ensures var p := FeedAll(START, chunks);
            !p.lost && p.buf == [] && Decoded(p.delivered) == ms
  {
    AllWanted(ms);
    ParsingInvertsPrinting(Packets(ms), chunks);
  }

  // ---------------------------------------------------------------- all the way

  /** The strings of a process database that fit their length fields. */
  ghost predicate TextFits(r: DbRecord) {
    && 0 < |r.rtype| < TWO8 && 0 < |r.name| < TWO16 && |r.desc| < TWO16
    && (forall a | a in r.aliases :: 0 < |a| < TWO16)
    && (forall i | i in r.infos :: 0 < |i.0| < TWO8 && |i.1| < TWO16)
  }

  ghost predicate AllFit(records: seq<DbRecord>) {
    forall k | 0 <= k < |records| :: TextFits(records[k])
  }

  ghost predicate PdbFits(pdb: Pdb, first: nat) {
    && first + |pdb.records| <= TWO32
    && (forall i | i in pdb.env :: 0 < |i.0| < TWO8 && |i.1| < TWO16)
    && AllFit(pdb.records)
  }

  lemma RecordIsSendable(id: nat, r: DbRecord)
    requires id < TWO32 && TextFits(r)
    ensures Sendable(RecordMessages(id, r))
  {
    InfoMessagesForm(id, InfosWithDesc(r));
    forall m | m in RecordMessages(id, r) ensures ClientSends(m) && Fits(m) {
      if m in AliasMessages(id, r.aliases) {
        var k :| 0 <= k < |r.aliases| && m == AddRecord(id, true, [], r.aliases[k]);
        assert r.aliases[k] in r.aliases;
      } else if m in InfoMessages(id, InfosWithDesc(r)) {
        assert (m.key, m.value) in r.infos || (m.key, m.value) == (RECORD_DESC, r.desc);
      }
    }
  }

  lemma SendableConcat(a: seq<Message>, b: seq<Message>)
    requires Sendable(a) && Sendable(b)
    ensures Sendable(a + b)
  {
  }

  lemma SendableSnoc(first: nat, records: seq<DbRecord>, before: seq<Message>)
    requires records != [] && first + |records| <= TWO32 && TextFits(records[|records| - 1]) && Sendable(before)
    ensures Sendable(before + RecordMessages(first + |records| - 1, records[|records| - 1]))
  {
    RecordIsSendable(first + |records| - 1, records[|records| - 1]);
    SendableConcat(before, RecordMessages(first + |records| - 1, records[|records| - 1]));
  }

  lemma {:induction false} RecordsAreSendable(first: nat, records: seq<DbRecord>)
    requires first + |records| <= TWO32 && AllFit(records)
    ensures Sendable(RecordsMessages(first, records))
  {
    if records != [] {
      var n := |records| - 1;
      RecordsAreSendable(first, records[..n]);
      SendableSnoc(first, records, RecordsMessages(first, records[..n]));
    }
  }

  lemma UploadIsSendable(pdb: Pdb, first: nat)
    requires PdbFits(pdb, first)
    ensures Sendable(UploadMessages(pdb, first))
  {
    InfoMessagesForm(0, pdb.env);
    RecordsAreSendable(first, pdb.records);
  }

  /** The whole conversation of a client up to the end of its upload. */
  function Conversation(key: nat, pdb: Pdb, first: nat): seq<Message> {
    [ClientGreeting(0, 0, key)] + UploadMessages(pdb, first)
  }

  lemma {:induction false} FoldAfterGreeting(key: nat, ms: seq<Message>)
    ensures DbStore.Fold([ClientGreeting(0, 0, key)] + ms) == DbStore.Fold(ms)
  {
    var g := [ClientGreeting(0, 0, key)];
    if ms == [] {
      assert g + ms == g && g[..0] == [];
    } else {
      assert (g + ms)[..|g + ms| - 1] == g + ms[..|ms| - 1];
      FoldAfterGreeting(key, ms[..|ms| - 1]);
    }
  }

  lemma ConversationIsWellFormed(key: nat, pdb: Pdb, first: nat)
    requires first != 0 && Sensible(pdb)
    ensures WellFormed(Conversation(key, pdb, first))
    ensures DbStore.Fold(Conversation(key, pdb, first)) == Success(TablesOf(pdb, first))
  {
    UploadIsWellFormed(pdb, first);
    UploadFoldsToTables(pdb, first);
    FoldAfterGreeting(key, UploadMessages(pdb, first));
    var u, ms := UploadMessages(pdb, first), Conversation(key, pdb, first);
    assert forall k | 1 <= k < |ms| :: ms[k] == u[k - 1];
    forall i, j, id | 0 <= i < j < |ms| && Adds(ms[i], id) ensures !Adds(ms[j], id) {
      assert Adds(u[i - 1], id);
    }
    forall i, j | 0 <= i < |ms| && 0 <= j < |ms| && ms[j].DelRecord? ensures !Aliases(ms[i], ms[j].recordId) {
      assert u[j - 1].DelRecord?;
    }
  }

  /**
   End to end. A client whose strings fit the wire format sends its process database. However the bytes
   are cut on the way, whatever the transaction limit and whenever the deadlines fire, the connection
   survives and the transactions committed by the end of the upload leave exactly the database's records,
   names, aliases and infos in the tables.
   */
  lemma UploadReachesTheTables(key: nat, pdb: Pdb, first: nat, chunks: seq<seq<byte>>, l: Limits, ins: seq<Input>)
    requires first != 0 && Sensible(pdb) && PdbFits(pdb, first) && key < TWO32
    requires Sendable(Conversation(key, pdb, first)) && AllPrintable(Packets(Conversation(key, pdb, first)))
    requires Concat(chunks) == Stream(Packets(Conversation(key, pdb, first)))
    requires MessagesOf(ins) == Decoded(FeedAll(START, chunks).delivered)
    ensures !FeedAll(START, chunks).lost
    ensures DbStore.CommitAll(DbStore.NOTHING, Run(l, ins).flushed) == Success(TablesOf(pdb, first))
  {
    var ms := Conversation(key, pdb, first);
    MessagesArrive(ms, chunks);
    ConversationIsWellFormed(key, pdb, first);
    assert ms[|ms| - 1] == UploadDone;
    assert ins[|ins| - 1].m == MessagesOf(ins)[|ins| - 1];
    UploadIsComplete(l, ins);
  }

  /** The two side conditions above hold for every database that fits. */
  lemma ConversationIsSendable(key: nat, pdb: Pdb, first: nat)
    requires PdbFits(pdb, first) && key < TWO32
    ensures Sendable(Conversation(key, pdb, first)) && AllPrintable(Packets(Conversation(key, pdb, first)))
  {
    UploadIsSendable(pdb, first);
    AllWanted(Conversation(key, pdb, first));
  }
}
