/**
 CollectionSession and Transaction as objects (server/recceiver/recast.py:209-356). The session fills one
 transaction object in place and replaces it when it flushes; what has been flushed is never written again.
 */
module CollectionSession {
  import opened Wrappers
  import opened Bytes
  import opened Messages
  import opened Transactions
  import opened SessionSpec
  import opened CommitChain

  class Transaction {
    var initial: bool
    var connected: bool
    var recordsToAdd: map<nat, (Text, Text)>
    var clientInfos: map<Text, Text>
    var recordInfosToAdd: map<nat, map<Text, Text>>
    var aliases: map<nat, seq<Text>>
    var recordsToDelete: set<nat>

    constructor ()
      ensures View() == NewTx(false, map[])
    {
      initial, connected := false, true;
      recordsToAdd, clientInfos, recordInfosToAdd, aliases, recordsToDelete := map[], map[], map[], map[], {};
    }

    ghost function View(): Tx
      reads this
    {
      Tx(initial, connected, recordsToAdd, clientInfos, recordInfosToAdd, aliases, recordsToDelete)
    }

    method Delete(id: nat)
      modifies this
      ensures View() == Extend(old(View()), DelRecord(id))
    {
      recordsToAdd := recordsToAdd - {id};
      recordsToDelete := recordsToDelete + {id};
      recordInfosToAdd := recordInfosToAdd - {id};
    }
  }

  ghost function Views(ts: seq<Transaction>): (r: seq<Tx>)
    reads ts
  {
    seq(|ts|, k requires 0 <= k < |ts| reads ts => ts[k].View())
  }

  class Session {
    var transaction: Transaction
    var deadline: Option<int>
    var dirty: bool
    var chain: Chain<Transaction>
    const limits: Limits

    constructor (limits: Limits)
      ensures Valid() && View() == OPENED && chain == Idle() && this.limits == limits && fresh(transaction)
    {
      this.limits := limits;
      var t := new Transaction();
      t.initial := true;
      transaction, deadline, dirty, chain := t, None, false, Idle();
    }

    /** All transactions flushed so far, in order. */
    ghost function Flushed(): seq<Transaction>
      reads this
    {
      chain.handed + chain.waiting
    }

    /** The pending transaction is not one of those flushed; nothing waits for an idle chain. */
    ghost predicate Valid()
      reads this
    {
      transaction !in Flushed() && (!chain.busy ==> chain.waiting == [])
    }

    ghost function View(): SessionSpec.Session
      reads this, transaction, Flushed()
    {
      SessionSpec.Session(transaction.View(), deadline, dirty, Views(Flushed()))
    }

    method Flush()
      requires Valid()
      modifies this
      ensures Valid() && View() == SessionSpec.Flush(old(View()))
      ensures chain == if old(dirty) then Enqueue(old(chain), old(transaction)) else old(chain)
      ensures if old(dirty) then fresh(transaction) else transaction == old(transaction)
    {
      deadline := None;
      if !dirty {
        return;
      }
      var flushed := transaction;
      transaction := new Transaction();
      transaction.clientInfos := flushed.clientInfos;
      dirty := false;
      chain := Enqueue(chain, flushed);
      assert Flushed() == old(Flushed()) + [flushed];
    }

    method FlushSafely(now: int)
      requires Valid()
      modifies this
      ensures Valid() && View() == SessionSpec.FlushSafely(old(View()), limits, now)
      ensures Grown(old(chain), chain) && (transaction == old(transaction) || fresh(transaction))
    {
      if deadline.Some? && deadline.value <= now {
        Flush();
      } else if limits.trlimit != 0 && limits.trlimit <= |transaction.recordsToAdd| + |transaction.recordsToDelete| {
        Flush();
      }
    }

    method MarkDirty(now: int)
      requires Valid()
      modifies this`deadline, this`dirty
      ensures Valid() && View() == SessionSpec.MarkDirty(old(View()), limits, now)
    {
      if deadline.None? {
        deadline := Some(now + limits.timeout);
      }
      dirty := true;
    }

    method IocInfo(key: Text, val: Text, now: int)
      requires Valid()
      modifies this, transaction
      ensures Valid() && View() == OnMessage(old(View()), limits, AddInfo(0, key, val), now)
      ensures chain == old(chain)
    {
      transaction.clientInfos := transaction.clientInfos[key := val];
      MarkDirty(now);
    }

    method AddRec(id: nat, recordType: Text, name: Text, now: int)
      requires Valid()
      modifies this, transaction
      ensures Valid() && View() == OnMessage(old(View()), limits, AddRecord(id, false, recordType, name), now)
      ensures Grown(old(chain), chain)
    {
      FlushSafely(now);
      ghost var f := View();
      transaction.recordsToAdd := transaction.recordsToAdd[id := (name, recordType)];
      assert View() == f.(tx := Extend(f.tx, AddRecord(id, false, recordType, name)));
      MarkDirty(now);
    }

    method AddAlias(id: nat, name: Text, now: int)
      requires Valid()
      modifies this, transaction
      ensures Valid() && View() == OnMessage(old(View()), limits, AddRecord(id, true, [], name), now)
      ensures chain == old(chain)
    {
      transaction.aliases := transaction.aliases[id := AliasesOf(transaction.aliases, id) + [name]];
      MarkDirty(now);
    }

    method DelRec(id: nat, now: int)
      requires Valid()
      modifies this, transaction
      ensures Valid() && View() == OnMessage(old(View()), limits, DelRecord(id), now)
      ensures Grown(old(chain), chain)
    {
      FlushSafely(now);
      ghost var f := View();
      transaction.Delete(id);
      assert View() == f.(tx := Extend(f.tx, DelRecord(id)));
      MarkDirty(now);
    }

    method RecInfo(id: nat, key: Text, val: Text, now: int)
      requires Valid() && id != 0
      modifies this, transaction
      ensures Valid() && View() == OnMessage(old(View()), limits, AddInfo(id, key, val), now)
      ensures chain == old(chain)
    {
      var infos := InfosOf(transaction.recordInfosToAdd, id);
      transaction.recordInfosToAdd := transaction.recordInfosToAdd[id := infos[key := val]];
      MarkDirty(now);
    }

    method Done()
      requires Valid()
      modifies this
      ensures Valid() && View() == SessionSpec.Flush(old(View()))
      ensures Grown(old(chain), chain)
    {
      Flush();
    }

    method Close()
      requires Valid()
      modifies this
      ensures Valid() && View() == SessionSpec.Close(old(View()))
      ensures Grown(old(chain), chain)
    {
      transaction := new Transaction();
      transaction.connected := false;
      dirty := true;
      Flush();
    }

    /** What the connection does with a decoded message (recvInfo, recvAddRec, recvDelRec, recvDone). */
    method Receive(m: Message, now: int)
      requires Valid()
      modifies this, transaction
      ensures Valid() && View() == OnMessage(old(View()), limits, m, now)
      ensures Grown(old(chain), chain)
    {
      match m
      case AddRecord(id, alias, rt, rn) =>
        if alias { AddAlias(id, rn, now); } else { AddRec(id, rt, rn, now); }
      case DelRecord(id) => DelRec(id, now);
      case AddInfo(id, k, v) =>
        if id == 0 { IocInfo(k, v, now); } else { RecInfo(id, k, v, now); }
      case UploadDone => Done();
      case ClientGreeting(_, _, _) =>
      case Pong(_) =>
    }

    /** The factory's commit of the transaction in flight has come to an end. */
    method CommitEnded(outcome: Outcome)
      requires Valid() && chain.busy
      modifies this`chain
      ensures Valid() && View() == old(View()) && chain == Finish(old(chain), outcome)
    {
      chain := chain.(dropping := chain.dropping || outcome.Failed?);
      if chain.waiting == [] {
        chain := chain.(busy := false);
      } else {
        chain := chain.(handed := chain.handed + [chain.waiting[0]], waiting := chain.waiting[1..]);
        assert Flushed() == old(Flushed());
      }
    }
  }
}
