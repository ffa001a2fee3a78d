/**
 Cutting a message stream into transactions does not change what it means: whatever the limit and the
 clock, the tables the transactions produce one after the other are those the messages produce one by one.
 */
module Batching {
  import opened Wrappers
  import opened Messages
  import opened Transactions
  import opened DbStore
  import opened SessionSpec

  predicate Adds(m: Message, id: nat) {
    m.AddRecord? && !m.alias && m.recordId == id
  }

  predicate Aliases(m: Message, id: nat) {
    m.AddRecord? && m.alias && m.recordId == id
  }

  /** A record id is added at most once. */
  ghost predicate AddedOnce(ms: seq<Message>) {
    forall i, j, id | 0 <= i < j < |ms| && Adds(ms[i], id) :: !Adds(ms[j], id)
  }

  /** A record that is given an alias is not deleted. */
  ghost predicate AliasedStay(ms: seq<Message>) {
    forall i, j | 0 <= i < |ms| && 0 <= j < |ms| && ms[j].DelRecord? :: !Aliases(ms[i], ms[j].recordId)
  }

  /** Aliases and infos refer to present records and no name repeats: the messages make sense one by one. */
  ghost predicate WellFormed(ms: seq<Message>) {
    AddedOnce(ms) && AliasedStay(ms) && Fold(ms).Success?
  }

  lemma WellFormedPrefix(ms: seq<Message>)
    requires ms != [] && WellFormed(ms)
    ensures WellFormed(ms[..|ms| - 1])
  {
    var before := ms[..|ms| - 1];
    forall i, j, id | 0 <= i < j < |before| && Adds(before[i], id) ensures !Adds(before[j], id) {
      assert Adds(ms[i], id);
    }
    forall i, j | 0 <= i < |before| && 0 <= j < |before| && before[j].DelRecord?
      ensures !Aliases(before[i], before[j].recordId)
    {
      assert ms[j].DelRecord?;
    }
  }

  /** Only added records are present. */
  lemma {:induction false} PresentWasAdded(ms: seq<Message>, id: nat) returns (i: nat)
    requires Fold(ms).Success? && id in Fold(ms).value.records
    ensures i < |ms| && Adds(ms[i], id)
  {
    var n := |ms| - 1;
    if Adds(ms[n], id) {
      i := n;
    } else {
      i := PresentWasAdded(ms[..n], id);
    }
  }

  ghost predicate AliasSeen(ms: seq<Message>, id: nat) {
    exists i | 0 <= i < |ms| :: Aliases(ms[i], id)
  }

  /** What is pending on top of what has been committed means what the messages mean. */
  ghost predicate Faithful(s: Session, ms: seq<Message>) {
    && CommitAll(NOTHING, s.flushed).Success?
    && var d := CommitAll(NOTHING, s.flushed).value;
       && CommitTables(d, s.tx) == Fold(ms)
       && Tight(s.tx) && Sound(s)
       && (forall id | id in s.tx.aliases :: AliasSeen(ms, id))
       && (!s.dirty ==> forall k | k in s.tx.clientInfos :: k in d.infos && d.infos[k] == s.tx.clientInfos[k])
  }

  /** A flush moves the pending part over without changing the whole. */
  lemma FlushIsFaithful(s: Session, ms: seq<Message>)
    requires Faithful(s, ms) && Fold(ms).Success?
    ensures Faithful(Flush(s), ms)
  {
    FlushIsSound(s);
    if s.dirty {
      CommitAllSnoc(NOTHING, s.flushed, s.tx);
      var f := Flush(s);
      RepeatedInfosAreInert(Fold(ms).value, f.tx);
    }
  }

  lemma FlushSafelyIsFaithful(s: Session, l: Limits, now: int, ms: seq<Message>)
    requires Faithful(s, ms) && Fold(ms).Success?
    ensures Faithful(FlushSafely(s, l, now), ms)
  {
    FlushIsFaithful(s, ms);
  }

  /** Under the stream's conditions a message can be collected as well as applied. */
  lemma StreamIsCollectable(s: Session, before: seq<Message>, m: Message)
    requires WellFormed(before + [m]) && Faithful(s, before) && Fold(before).Success?
    ensures Collectable(Fold(before).value, s.tx, m)
  {
    var ms := before + [m];
    if m.AddRecord? && !m.alias && m.recordId in Fold(before).value.records {
      var i := PresentWasAdded(before, m.recordId);
      assert Adds(ms[i], m.recordId) && Adds(ms[|before|], m.recordId);
    }
    if m.DelRecord? {
      forall i | 0 <= i < |before| ensures !Aliases(before[i], m.recordId) {
        assert !Aliases(ms[i], ms[|before|].recordId);
      }
    }
  }

  lemma AliasSeenLater(before: seq<Message>, m: Message, id: nat)
    requires AliasSeen(before, id) || Aliases(m, id)
    ensures AliasSeen(before + [m], id)
  {
    var ms := before + [m];
    if AliasSeen(before, id) {
      var i :| 0 <= i < |before| && Aliases(before[i], id);
      assert Aliases(ms[i], id);
    } else {
      assert Aliases(ms[|before|], id);
    }
  }

  lemma FoldSnoc(before: seq<Message>, m: Message)
    ensures Fold(before + [m]) == if Fold(before).Failure? then Failure else ApplyMessage(Fold(before).value, m)
  {
    assert (before + [m])[..|before|] == before;
  }

  lemma CollectCommutes(s: Session, before: seq<Message>, m: Message)
    requires WellFormed(before + [m]) && Faithful(s, before) && Fold(before).Success?
    ensures CommitTables(CommitAll(NOTHING, s.flushed).value, Extend(s.tx, m)) == Fold(before + [m])
  {
    FoldSnoc(before, m);
    StreamIsCollectable(s, before, m);
    ExtendCommutes(CommitAll(NOTHING, s.flushed).value, s.tx, Fold(before).value, m);
  }

  lemma CollectAliases(s: Session, before: seq<Message>, m: Message)
    requires forall id | id in s.tx.aliases :: AliasSeen(before, id)
    ensures forall id | id in Extend(s.tx, m).aliases :: AliasSeen(before + [m], id)
  {
    forall id | id in Extend(s.tx, m).aliases ensures AliasSeen(before + [m], id) {
      AliasSeenLater(before, m, id);
    }
  }

  lemma CollectIsSound(s: Session, l: Limits, now: int, m: Message)
    requires Sound(s)
    ensures Sound(MarkDirty(s.(tx := Extend(s.tx, m)), l, now))
  {
  }

  lemma CollectIsFaithful(s: Session, l: Limits, now: int, before: seq<Message>, m: Message)
    requires WellFormed(before + [m]) && Faithful(s, before) && Fold(before).Success?
    ensures Faithful(MarkDirty(s.(tx := Extend(s.tx, m)), l, now), before + [m])
  {
    CollectCommutes(s, before, m);
    CollectAliases(s, before, m);
    CollectIsSound(s, l, now, m);
    ExtendIsTight(s.tx, m);
  }

  lemma {:induction false} RunIsFaithful(l: Limits, ins: seq<Input>)
    requires WellFormed(MessagesOf(ins))
    ensures Faithful(Run(l, ins), MessagesOf(ins))
  {
    if ins == [] {
      RepeatedInfosAreInert(NOTHING, NewTx(true, map[]));
    } else {
      var n := |ins| - 1;
      var before, m, now, ms := MessagesOf(ins[..n]), ins[n].m, ins[n].now, MessagesOf(ins);
      MessagesSnoc(ins);
      WellFormedPrefix(ms);
      RunIsFaithful(l, ins[..n]);
      var s := Run(l, ins[..n]);
      if m.UploadDone? {
        FlushIsFaithful(s, before);
        FaithfulAfterNothing(Flush(s), before, m);
      } else if m.ClientGreeting? || m.Pong? {
        FaithfulAfterNothing(s, before, m);
      } else {
        FlushSafelyIsFaithful(s, l, now, before);
        if m.DelRecord? || (m.AddRecord? && !m.alias) {
          CollectIsFaithful(FlushSafely(s, l, now), l, now, before, m);
        } else {
          CollectIsFaithful(s, l, now, before, m);
        }
      }
    }
  }

  lemma FaithfulAfterNothing(s: Session, before: seq<Message>, m: Message)
    requires Faithful(s, before) && (m.UploadDone? || m.ClientGreeting? || m.Pong?)
    ensures Faithful(s, before + [m])
  {
    var ms := before + [m];
    assert ms[..|before|] == before;
    forall id | id in s.tx.aliases ensures AliasSeen(ms, id) {
      AliasSeenLater(before, m, id);
    }
  }

  /**
   At any moment, committing the transactions flushed so far and then the pending one gives the tables of
   the messages received so far, whatever the limit, the deadline and the clock.
   */
  lemma BatchingPreservesMeaning(l: Limits, ins: seq<Input>)
    requires WellFormed(MessagesOf(ins))
    ensures CommitAll(NOTHING, Run(l, ins).flushed + [Run(l, ins).tx]) == Fold(MessagesOf(ins))
  {
    RunIsFaithful(l, ins);
    var s := Run(l, ins);
    CommitAllSnoc(NOTHING, s.flushed, s.tx);
  }

  /** After the upload is done nothing is pending: the committed transactions alone give the tables. */
  lemma UploadIsComplete(l: Limits, ins: seq<Input>)
    requires WellFormed(MessagesOf(ins)) && ins != [] && ins[|ins| - 1].m.UploadDone?
    ensures CommitAll(NOTHING, Run(l, ins).flushed) == Fold(MessagesOf(ins))
  {
    RunIsFaithful(l, ins);
    var s := Run(l, ins);
    assert !s.dirty;
    RepeatedInfosAreInert(CommitAll(NOTHING, s.flushed).value, s.tx);
  }

  /** Two receivers with different limits and clocks end with the same tables. */
  lemma CutsDoNotMatter(l: Limits, ins: seq<Input>, l': Limits, ins': seq<Input>)
    requires WellFormed(MessagesOf(ins)) && MessagesOf(ins) == MessagesOf(ins')
    ensures CommitAll(NOTHING, Run(l, ins).flushed + [Run(l, ins).tx])
         == CommitAll(NOTHING, Run(l', ins').flushed + [Run(l', ins').tx])
  {
    BatchingPreservesMeaning(l, ins);
    BatchingPreservesMeaning(l', ins');
  }
}
