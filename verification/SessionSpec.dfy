/**
 CollectionSession on values (server/recceiver/recast.py:256-356): what each message does to the pending
 transaction, and when a transaction is cut off and flushed. `now` is the clock at the time of a message
 and can be anything.
 */
module SessionSpec {
  import opened Wrappers
  import opened Bytes
  import opened Messages
  import opened Transactions

  /** `trlimit` 0 means no limit. */
  datatype Limits = Limits(trlimit: nat, timeout: int)

  datatype Session = Session(tx: Tx, deadline: Option<int>, dirty: bool, flushed: seq<Tx>)

  const OPENED := Session(NewTx(true, map[]), None, false, [])

  function Flush(s: Session): Session {
    if !s.dirty then s.(deadline := None)
    else Session(NewTx(false, s.tx.clientInfos), None, false, s.flushed + [s.tx])
  }

  function Size(t: Tx): nat {
    |t.recordsToAdd| + |t.recordsToDelete|
  }

  function FlushSafely(s: Session, l: Limits, now: int): Session {
    if s.deadline.Some? && s.deadline.value <= now then Flush(s)
    else if l.trlimit != 0 && l.trlimit <= Size(s.tx) then Flush(s)
    else s
  }

  function MarkDirty(s: Session, l: Limits, now: int): Session {
    s.(deadline := if s.deadline.None? then Some(now + l.timeout) else s.deadline, dirty := true)
  }

  function OnMessage(s: Session, l: Limits, m: Message, now: int): Session {
    match m
    case AddRecord(_, alias, _, _) =>
      var f := if alias then s else FlushSafely(s, l, now);
      MarkDirty(f.(tx := Extend(f.tx, m)), l, now)
    case DelRecord(_) =>
      var f := FlushSafely(s, l, now);
      MarkDirty(f.(tx := Extend(f.tx, m)), l, now)
    case AddInfo(_, _, _) => MarkDirty(s.(tx := Extend(s.tx, m)), l, now)
    case UploadDone => Flush(s)
    case ClientGreeting(_, _, _) => s
    case Pong(_) => s
  }

  /** connectionLost: whatever is pending is dropped and a disconnect is flushed instead. */
  function Close(s: Session): Session {
    Flush(s.(tx := DISCONNECT, dirty := true))
  }

  datatype Input = Input(m: Message, now: int)

  function Run(l: Limits, ins: seq<Input>): Session {
    if ins == [] then OPENED else
    var last := ins[|ins| - 1];
    OnMessage(Run(l, ins[..|ins| - 1]), l, last.m, last.now)
  }

  function MessagesOf(ins: seq<Input>): seq<Message> {
    seq(|ins|, k requires 0 <= k < |ins| => ins[k].m)
  }

  lemma MessagesSnoc(ins: seq<Input>)
    requires ins != []
    ensures var n := |ins| - 1;
            && MessagesOf(ins)[..n] == MessagesOf(ins[..n])
            && MessagesOf(ins) == MessagesOf(ins[..n]) + [ins[n].m]
  {
  }

  // ---------------------------------------------------------------- what a flush finds

  /** Nothing is pending unless the session is dirty; only the first transaction is marked initial. */
  ghost predicate Sound(s: Session) {
    && (!s.dirty ==> s.tx == NewTx(s.tx.initial, s.tx.clientInfos))
    && (s.tx.initial <==> s.flushed == []) && s.tx.connected
    && forall k | 0 <= k < |s.flushed| :: s.flushed[k].connected && (s.flushed[k].initial <==> k == 0)
  }

  lemma FlushIsSound(s: Session)
    requires Sound(s)
    ensures Sound(Flush(s)) && !Flush(s).dirty
  {
  }

  lemma OnMessageIsSound(s: Session, l: Limits, m: Message, now: int)
    requires Sound(s)
    ensures Sound(OnMessage(s, l, m, now))
  {
    FlushIsSound(s);
  }

  /** Every data transaction says it is connected, and exactly the first one is the initial one. */
  lemma {:induction false} RunIsSound(l: Limits, ins: seq<Input>)
    ensures Sound(Run(l, ins))
  {
    if ins != [] {
      var n := |ins| - 1;
      RunIsSound(l, ins[..n]);
      OnMessageIsSound(Run(l, ins[..n]), l, ins[n].m, ins[n].now);
    }
  }

  /** Closing adds one disconnect, at the end, and nothing else; before that there is none. */
  lemma DisconnectIsLast(l: Limits, ins: seq<Input>)
    ensures var s := Run(l, ins);
            && Close(s).flushed == s.flushed + [DISCONNECT]
            && (forall t | t in s.flushed :: t.connected)
            && forall k | 0 <= k < |Close(s).flushed| ::
                 !Close(s).flushed[k].connected <==> k == |Close(s).flushed| - 1
  {
    RunIsSound(l, ins);
  }

  // ---------------------------------------------------------------- what closing drops

  predicate Changes(m: Message) {
    m.AddRecord? || m.DelRecord? || m.AddInfo?
  }

  /** Message k adds, deletes or informs, and no end of upload follows it. */
  ghost predicate Unfinished(ms: seq<Message>, k: nat) {
    k < |ms| && Changes(ms[k]) && forall j | k < j < |ms| :: !ms[j].UploadDone?
  }

  lemma UnfinishedSnoc(ms: seq<Message>, m: Message)
    ensures (exists k :: Unfinished(ms + [m], k)) <==>
            Changes(m) || (!m.UploadDone? && exists k :: Unfinished(ms, k))
  {
    var r := ms + [m];
    if Changes(m) {
      assert Unfinished(r, |ms|);
    } else if !m.UploadDone? {
      forall k: nat ensures Unfinished(r, k) <==> Unfinished(ms, k) {
        assert forall j | 0 <= j < |ms| :: ms[j] == r[j];
        assert k < |ms| && Unfinished(r, k) ==> forall j | k < j < |ms| :: !r[j].UploadDone?;
      }
    } else {
      forall k: nat ensures !Unfinished(r, k) {
        assert k < |ms| ==> r[|ms|].UploadDone?;
      }
    }
  }

  /**
   Something is pending, and would be dropped by a close, if and only if some change has come after which the
   upload was not ended. Limit and clock do not matter: whatever they cut off, the change that made them do so
   is pending afterwards.
   */
  lemma {:induction false} PendingIff(l: Limits, ins: seq<Input>)
    ensures Run(l, ins).dirty <==> exists k :: Unfinished(MessagesOf(ins), k)
  {
    if ins != [] {
      var n := |ins| - 1;
      PendingIff(l, ins[..n]);
      MessagesSnoc(ins);
      UnfinishedSnoc(MessagesOf(ins[..n]), ins[n].m);
    }
  }

  // ---------------------------------------------------------------- when transactions are cut

  /** The change that has been pending longest: after it nothing was flushed, and before it nothing was pending. */
  ghost predicate FirstPending(l: Limits, ins: seq<Input>, j: nat) {
    && j < |ins|
    && |Run(l, ins[..j + 1]).flushed| == |Run(l, ins).flushed|
    && (Run(l, ins[..j]).dirty ==> |Run(l, ins[..j]).flushed| < |Run(l, ins).flushed|)
    && Run(l, ins).deadline == Some(ins[j].now + l.timeout)
  }

  lemma {:induction false} DirtyMeansDeadline(l: Limits, ins: seq<Input>)
    ensures Run(l, ins).dirty <==> Run(l, ins).deadline.Some?
  {
    if ins != [] {
      DirtyMeansDeadline(l, ins[..|ins| - 1]);
    }
  }

  lemma FlushesOnce(s: Session, l: Limits, m: Message, now: int)
    ensures var r := OnMessage(s, l, m, now);
            && (r.flushed == s.flushed || (s.dirty && r.flushed == s.flushed + [s.tx]))
            && (r.flushed == s.flushed && s.dirty && r.dirty && s.deadline.Some? ==> r.deadline == s.deadline)
            && (r.dirty && s.dirty && r.flushed != s.flushed ==> r.deadline == Some(now + l.timeout))
            && (r.dirty && !s.dirty && s.deadline.None? ==> r.deadline == Some(now + l.timeout))
  {
  }

  lemma {:induction false} SomethingIsPendingLongest(l: Limits, ins: seq<Input>)
    requires Run(l, ins).dirty
    ensures exists j: nat :: FirstPending(l, ins, j)
  {
    var n := |ins| - 1;
    var s := Run(l, ins[..n]);
    FlushesOnce(s, l, ins[n].m, ins[n].now);
    DirtyMeansDeadline(l, ins[..n]);
    assert ins[..n + 1] == ins;
    if s.dirty && Run(l, ins).flushed == s.flushed {
      SomethingIsPendingLongest(l, ins[..n]);
      var j: nat :| FirstPending(l, ins[..n], j);
      assert ins[..n][..j + 1] == ins[..j + 1] && ins[..n][..j] == ins[..j];
      assert FirstPending(l, ins, j);
    } else {
      assert FirstPending(l, ins, n);
    }
  }

  /**
   An add or delete cuts off what is pending exactly if the oldest pending change is `timeout` old or the
   limit is reached; the end of the upload cuts off whatever is pending; nothing else cuts.
   */
  lemma CutIff(l: Limits, ins: seq<Input>, j: nat)
    requires ins != []
    requires var before := ins[..|ins| - 1]; Run(l, before).dirty && FirstPending(l, before, j)
    ensures var s, e := Run(l, ins[..|ins| - 1]), ins[|ins| - 1];
            && (Run(l, ins).flushed == s.flushed + [s.tx] <==>
                  || e.m.UploadDone?
                  || ((e.m.DelRecord? || (e.m.AddRecord? && !e.m.alias))
                      && (ins[j].now + l.timeout <= e.now || (l.trlimit != 0 && l.trlimit <= Size(s.tx)))))
            && (Run(l, ins).flushed == s.flushed || Run(l, ins).flushed == s.flushed + [s.tx])
  {
    var n := |ins| - 1;
    FlushesOnce(Run(l, ins[..n]), l, ins[n].m, ins[n].now);
    assert ins[..n][j] == ins[j];
  }

  // ---------------------------------------------------------------- the size limit

  ghost predicate Bounded(s: Session, l: Limits) {
    l.trlimit != 0 ==> Size(s.tx) <= l.trlimit && forall t | t in s.flushed :: Size(t) <= l.trlimit
  }

  lemma PutSize<K, V>(m: map<K, V>, k: K, v: V)
    ensures |m[k := v]| <= |m| + 1
  {
    assert m[k := v].Keys == m.Keys + {k};
    assert |m.Keys + {k}| <= |m.Keys| + 1;
  }

  lemma RemoveSize<K, V>(m: map<K, V>, k: K)
    ensures |m - {k}| <= |m|
  {
    assert (m - {k}).Keys == m.Keys - {k};
    assert |m.Keys - {k}| <= |m.Keys|;
  }

  lemma ExtendSize(t: Tx, m: Message)
    ensures Size(Extend(t, m)) <= Size(t) + 1
    ensures m.AddInfo? || (m.AddRecord? && m.alias) ==> Size(Extend(t, m)) == Size(t)
  {
    if m.DelRecord? {
      RemoveSize(t.recordsToAdd, m.recordId);
      assert |t.recordsToDelete + {m.recordId}| <= |t.recordsToDelete| + 1;
    } else if m.AddRecord? && !m.alias {
      PutSize(t.recordsToAdd, m.recordId, (m.recordName, m.recordType));
    }
  }

  lemma OnMessageIsBounded(s: Session, l: Limits, m: Message, now: int)
    requires Sound(s) && Bounded(s, l)
    ensures Bounded(OnMessage(s, l, m, now), l)
  {
    var f := FlushSafely(s, l, now);
    FlushSafelyMakesRoom(s, l, now);
    ExtendSize(s.tx, m);
    ExtendSize(f.tx, m);
    hide FlushSafely, Extend, Size, Sound;
  }

  /** After the check there is room for one more. */
  lemma FlushSafelyMakesRoom(s: Session, l: Limits, now: int)
    requires Sound(s) && Bounded(s, l)
    ensures var f := FlushSafely(s, l, now); Bounded(f, l) && (l.trlimit != 0 ==> Size(f.tx) < l.trlimit)
  {
  }

  /** With a limit set, no transaction ever holds more adds and deletes together than the limit. */
  lemma {:induction false} TransactionsAreBounded(l: Limits, ins: seq<Input>)
    ensures Bounded(Run(l, ins), l)
  {
    if ins != [] {
      var n := |ins| - 1;
      TransactionsAreBounded(l, ins[..n]);
      RunIsSound(l, ins[..n]);
      OnMessageIsBounded(Run(l, ins[..n]), l, ins[n].m, ins[n].now);
    }
  }

  // ---------------------------------------------------------------- client infos

  /** All client-wide infos of a stream, later values winning. */
  function ClientInfosOf(ms: seq<Message>): map<Text, Text> {
    if ms == [] then map[] else
    InfosWith(ClientInfosOf(ms[..|ms| - 1]), ms[|ms| - 1])
  }

  function InfosWith(infos: map<Text, Text>, m: Message): map<Text, Text> {
    if m.AddInfo? && m.recordId == 0 then infos[m.key := m.value] else infos
  }

  lemma ExtendClientInfos(t: Tx, m: Message)
    ensures Extend(t, m).clientInfos == InfosWith(t.clientInfos, m)
  {
  }

  lemma InfosAfterFlush(s: Session, l: Limits, now: int)
    ensures var f := FlushSafely(s, l, now);
            f.tx.clientInfos == s.tx.clientInfos && (f.flushed == s.flushed || f.flushed == s.flushed + [s.tx])
  {
  }

  lemma InfosAfterMessage(s: Session, l: Limits, m: Message, now: int)
    ensures var r := OnMessage(s, l, m, now);
            && r.tx.clientInfos == InfosWith(s.tx.clientInfos, m)
            && (r.flushed == s.flushed || r.flushed == s.flushed + [s.tx])
  {
    InfosAfterFlush(s, l, now);
    ExtendClientInfos(s.tx, m);
    ExtendClientInfos(FlushSafely(s, l, now).tx, m);
  }

  /** For each flushed transaction, how many messages had been collected when it was cut off. */
  function CutAt(l: Limits, ins: seq<Input>): seq<nat> {
    if ins == [] then [] else
    var n := |ins| - 1;
    CutAt(l, ins[..n]) + if |Run(l, ins).flushed| > |Run(l, ins[..n]).flushed| then [n] else []
  }

  lemma {:induction false} CutsAreInOrder(l: Limits, ins: seq<Input>)
    ensures |CutAt(l, ins)| == |Run(l, ins).flushed|
    ensures forall k | 0 <= k < |CutAt(l, ins)| :: CutAt(l, ins)[k] < |ins|
    ensures forall j, k | 0 <= j < k < |CutAt(l, ins)| :: CutAt(l, ins)[j] < CutAt(l, ins)[k]
  {
    if ins != [] {
      var n := |ins| - 1;
      CutsAreInOrder(l, ins[..n]);
      InfosAfterMessage(Run(l, ins[..n]), l, ins[n].m, ins[n].now);
    }
  }

  /** The cuts are where they were before, and the messages before them are the same. */
  lemma CutsStay(l: Limits, ins: seq<Input>, k: nat)
    requires ins != [] && k < |CutAt(l, ins[..|ins| - 1])|
    ensures var n := |ins| - 1;
            && k < |CutAt(l, ins)| && CutAt(l, ins)[k] == CutAt(l, ins[..n])[k] <= n
            && MessagesOf(ins)[..CutAt(l, ins)[k]] == MessagesOf(ins[..n])[..CutAt(l, ins)[k]]
  {
    CutsAreInOrder(l, ins[..|ins| - 1]);
  }

  /** Every transaction carries all client infos received up to its cut, the pending one all up to now. */
  lemma {:induction false} ClientInfosAreCumulative(l: Limits, ins: seq<Input>)
    ensures Run(l, ins).tx.clientInfos == ClientInfosOf(MessagesOf(ins))
    ensures |CutAt(l, ins)| == |Run(l, ins).flushed|
    ensures forall k | 0 <= k < |CutAt(l, ins)| :: CutAt(l, ins)[k] <= |ins|
              && Run(l, ins).flushed[k].clientInfos == ClientInfosOf(MessagesOf(ins)[..CutAt(l, ins)[k]])
  {
    CutsAreInOrder(l, ins);
    if ins != [] {
      var n := |ins| - 1;
      var before, ms := Run(l, ins[..n]), MessagesOf(ins);
      MessagesSnoc(ins);
      CutsAreInOrder(l, ins[..n]);
      ClientInfosAreCumulative(l, ins[..n]);
      InfosAfterMessage(before, l, ins[n].m, ins[n].now);
      forall k | 0 <= k < |CutAt(l, ins)|
        ensures Run(l, ins).flushed[k].clientInfos == ClientInfosOf(ms[..CutAt(l, ins)[k]])
      {
        if k < |before.flushed| {
          CutsStay(l, ins, k);
        }
      }
    }
  }
}
