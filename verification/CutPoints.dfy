/**
 Where transactions are cut when the stream has the shape the C client emits: each record is followed by
 its own aliases and infos, nothing is deleted, and nothing follows the end of the upload.
 */
module CutPoints {
  import opened Wrappers
  import opened Bytes
  import opened Messages
  import opened Transactions
  import opened SessionSpec
  import opened Batching

  /** The record that aliases and infos may now refer to. */
  function Current(ms: seq<Message>): Option<nat> {
    if ms == [] then None else
    var m := ms[|ms| - 1];
    if m.AddRecord? && !m.alias then Some(m.recordId)
    else if m.UploadDone? then None
    else Current(ms[..|ms| - 1])
  }

  ghost predicate Allowed(before: seq<Message>, m: Message) {
    match m
    case AddRecord(id, alias, _, _) => alias ==> Current(before) == Some(id)
    case AddInfo(id, _, _) => id != 0 ==> Current(before) == Some(id)
    case DelRecord(_) => false
    case _ => true
  }

  ghost predicate ClientShape(ms: seq<Message>) {
    forall k | 0 <= k < |ms| :: Allowed(ms[..k], ms[k])
  }

  lemma ShapePrefix(ms: seq<Message>)
    requires ms != [] && ClientShape(ms)
    ensures ClientShape(ms[..|ms| - 1]) && Allowed(ms[..|ms| - 1], ms[|ms| - 1])
  {
    var before := ms[..|ms| - 1];
    forall k | 0 <= k < |before| ensures Allowed(before[..k], before[k]) {
      assert before[..k] == ms[..k];
    }
  }

  // ---------------------------------------------------------------- records keep their aliases and infos

  /** A transaction mentions no record it does not add. */
  ghost predicate SelfContained(t: Tx) {
    t.aliases.Keys <= t.recordsToAdd.Keys && t.recordInfosToAdd.Keys <= t.recordsToAdd.Keys && t.recordsToDelete == {}
  }

  ghost predicate CutsAreSafe(s: Session, ms: seq<Message>) {
    && (forall t | t in s.flushed :: SelfContained(t))
    && SelfContained(s.tx)
    && (Current(ms).Some? ==> Current(ms).value in s.tx.recordsToAdd)
  }

  lemma StepIsSafe(s: Session, l: Limits, now: int, before: seq<Message>, m: Message)
    requires Sound(s) && CutsAreSafe(s, before) && Allowed(before, m)
    ensures CutsAreSafe(OnMessage(s, l, m, now), before + [m])
  {
    assert (before + [m])[..|before|] == before;
    var f := FlushSafely(s, l, now);
    assert SelfContained(f.tx);
  }

  /** No flush separates a record from its aliases or infos. */
  lemma {:induction false} RecordsAreNotSplit(l: Limits, ins: seq<Input>)
    requires ClientShape(MessagesOf(ins))
    ensures CutsAreSafe(Run(l, ins), MessagesOf(ins))
  {
    if ins != [] {
      var n := |ins| - 1;
      MessagesSnoc(ins);
      ShapePrefix(MessagesOf(ins));
      RecordsAreNotSplit(l, ins[..n]);
      RunIsSound(l, ins[..n]);
      StepIsSafe(Run(l, ins[..n]), l, ins[n].now, MessagesOf(ins[..n]), ins[n].m);
    }
  }

  // ---------------------------------------------------------------- the transactions partition the upload

  /** All records a stream adds. */
  function Uploaded(ms: seq<Message>): map<nat, (Text, Text)> {
    if ms == [] then map[] else
    var m := ms[|ms| - 1];
    var before := Uploaded(ms[..|ms| - 1]);
    if m.AddRecord? && !m.alias then before[m.recordId := (m.recordName, m.recordType)] else before
  }

  lemma {:induction false} UploadedWasAdded(ms: seq<Message>, id: nat) returns (i: nat)
    requires id in Uploaded(ms)
    ensures i < |ms| && Adds(ms[i], id)
  {
    var n := |ms| - 1;
    if Adds(ms[n], id) {
      i := n;
    } else {
      i := UploadedWasAdded(ms[..n], id);
    }
  }

  /** Every record is in exactly one of the transactions, with its name and type. */
  ghost predicate Partition(ts: seq<Tx>, all: map<nat, (Text, Text)>) {
    && (forall k, id | 0 <= k < |ts| && id in ts[k].recordsToAdd :: id in all && ts[k].recordsToAdd[id] == all[id])
    && (forall id | id in all :: exists k | 0 <= k < |ts| :: id in ts[k].recordsToAdd)
    && (forall j, k, id | 0 <= j < k < |ts| && id in ts[j].recordsToAdd :: id !in ts[k].recordsToAdd)
  }

  lemma PartitionWithEmpty(ts: seq<Tx>, t: Tx, all: map<nat, (Text, Text)>)
    requires t.recordsToAdd == map[]
    ensures Partition(ts, all) <==> Partition(ts + [t], all)
  {
    var us := ts + [t];
    if Partition(ts, all) {
      forall id | id in all ensures exists k | 0 <= k < |us| :: id in us[k].recordsToAdd {
        var k :| 0 <= k < |ts| && id in ts[k].recordsToAdd;
        assert id in us[k].recordsToAdd;
      }
    }
    if Partition(us, all) {
      forall id | id in all ensures exists k | 0 <= k < |ts| :: id in ts[k].recordsToAdd {
        var k :| 0 <= k < |us| && id in us[k].recordsToAdd;
        assert id in ts[k].recordsToAdd;
      }
      forall k, id | 0 <= k < |ts| && id in ts[k].recordsToAdd ensures id in all && ts[k].recordsToAdd[id] == all[id] {
        assert us[k] == ts[k];
      }
      forall j, k, id | 0 <= j < k < |ts| && id in ts[j].recordsToAdd ensures id !in ts[k].recordsToAdd {
        assert us[j] == ts[j] && us[k] == ts[k];
      }
    }
  }

  lemma PartitionExtended(ts: seq<Tx>, t: Tx, u: Tx, all: map<nat, (Text, Text)>, id: nat, r: (Text, Text))
    requires Partition(ts + [t], all) && id !in all && u.recordsToAdd == t.recordsToAdd[id := r]
    ensures Partition(ts + [u], all[id := r])
  {
    var was, us := ts + [t], ts + [u];
    var more := all[id := r];
    forall i | i in more ensures exists k | 0 <= k < |us| :: i in us[k].recordsToAdd {
      if i == id {
        assert id in us[|ts|].recordsToAdd;
      } else {
        var k :| 0 <= k < |was| && i in was[k].recordsToAdd;
        assert i in us[k].recordsToAdd;
      }
    }
    forall k, i | 0 <= k < |us| && i in us[k].recordsToAdd ensures i in more && us[k].recordsToAdd[i] == more[i] {
      if i != id || k < |ts| {
        assert i in was[k].recordsToAdd;
      }
    }
    forall j, k, i | 0 <= j < k < |us| && i in us[j].recordsToAdd ensures i !in us[k].recordsToAdd {
      assert i in was[j].recordsToAdd;
      assert i !in was[k].recordsToAdd;
    }
  }

  lemma PartitionSame(ts: seq<Tx>, t: Tx, u: Tx, all: map<nat, (Text, Text)>)
    requires Partition(ts + [t], all) && u.recordsToAdd == t.recordsToAdd
    ensures Partition(ts + [u], all)
  {
    var was, us := ts + [t], ts + [u];
    assert forall k | 0 <= k < |us| :: us[k].recordsToAdd == was[k].recordsToAdd;
    forall i | i in all ensures exists k | 0 <= k < |us| :: i in us[k].recordsToAdd {
      var k :| 0 <= k < |was| && i in was[k].recordsToAdd;
      assert i in us[k].recordsToAdd;
    }
    forall j, k, i | 0 <= j < k < |us| && i in us[j].recordsToAdd ensures i !in us[k].recordsToAdd {
      assert i in was[j].recordsToAdd;
      assert i !in was[k].recordsToAdd;
    }
  }

  lemma FlushKeepsPartition(s: Session, all: map<nat, (Text, Text)>)
    requires Partition(s.flushed + [s.tx], all)
    ensures Partition(Flush(s).flushed + [Flush(s).tx], all)
  {
    if s.dirty {
      PartitionWithEmpty(s.flushed + [s.tx], Flush(s).tx, all);
    }
  }

  lemma StepKeepsPartition(s: Session, l: Limits, now: int, before: seq<Message>, m: Message)
    requires Partition(s.flushed + [s.tx], Uploaded(before)) && !m.DelRecord?
    requires AddedOnce(before + [m])
    ensures var r := OnMessage(s, l, m, now);
            Partition(r.flushed + [r.tx], Uploaded(before + [m]))
  {
    var ms := before + [m];
    assert ms[..|before|] == before;
    FlushKeepsPartition(s, Uploaded(before));
    if m.AddRecord? && !m.alias {
      var f := FlushSafely(s, l, now);
      if m.recordId in Uploaded(before) {
        var i := UploadedWasAdded(before, m.recordId);
        assert Adds(ms[i], m.recordId) && Adds(ms[|before|], m.recordId);
      }
      PartitionExtended(f.flushed, f.tx, Extend(f.tx, m), Uploaded(before), m.recordId, (m.recordName, m.recordType));
    } else {
      PartitionSame(s.flushed, s.tx, Extend(s.tx, m), Uploaded(before));
    }
  }

  lemma AddedOncePrefix(ms: seq<Message>)
    requires ms != [] && AddedOnce(ms)
    ensures AddedOnce(ms[..|ms| - 1])
  {
    var before := ms[..|ms| - 1];
    forall i, j, id | 0 <= i < j < |before| && Adds(before[i], id) ensures !Adds(before[j], id) {
      assert Adds(ms[i], id);
    }
  }

  lemma {:induction false} RunPartitions(l: Limits, ins: seq<Input>)
    requires ClientShape(MessagesOf(ins)) && AddedOnce(MessagesOf(ins))
    ensures Partition(Run(l, ins).flushed + [Run(l, ins).tx], Uploaded(MessagesOf(ins)))
  {
    if ins != [] {
      var n := |ins| - 1;
      MessagesSnoc(ins);
      ShapePrefix(MessagesOf(ins));
      AddedOncePrefix(MessagesOf(ins));
      RunPartitions(l, ins[..n]);
      StepKeepsPartition(Run(l, ins[..n]), l, ins[n].now, MessagesOf(ins[..n]), ins[n].m);
    }
  }

  /** After the upload, the committed transactions partition exactly the records that were uploaded. */
  lemma UploadIsPartitioned(l: Limits, ins: seq<Input>)
    requires ClientShape(MessagesOf(ins)) && AddedOnce(MessagesOf(ins))
    requires ins != [] && ins[|ins| - 1].m.UploadDone?
    ensures Partition(Run(l, ins).flushed, Uploaded(MessagesOf(ins)))
  {
    RunPartitions(l, ins);
    RunIsSound(l, ins);
    PartitionWithEmpty(Run(l, ins).flushed, Run(l, ins).tx, Uploaded(MessagesOf(ins)));
  }
}
