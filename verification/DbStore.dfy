/**
 The SQL consumer of transactions (server/recceiver/dbstore.py:122-172) over the tables of
 server/recceiver.sqlite3, the names of whose columns are taken to be those the consumer writes: per client
 a key/value table and records, each with its primary name, its other names and its infos. Deleting a record
 deletes its names and infos with it; a name that repeats or a row for a missing record violates a constraint
 and the whole transaction is rolled back.
 */
module DbStore {
  import opened Wrappers
  import opened Bytes
  import opened Lists
  import opened Messages
  import opened Transactions

  datatype Rec = Rec(recordType: Text, name: Text, aliases: set<Text>, infos: map<Text, Text>)

  datatype Tables = Tables(infos: map<Text, Text>, records: map<nat, Rec>)

  const NOTHING := Tables(map[], map[])

  // ---------------------------------------------------------------- the meaning of single messages

  /** What a message means on its own. */
  function ApplyMessage(d: Tables, m: Message): Result<Tables> {
    match m
    case AddRecord(id, alias, rt, rn) =>
      if !alias then Success(d.(records := d.records[id := Rec(rt, rn, {}, map[])]))
      else if id in d.records && rn != d.records[id].name && rn !in d.records[id].aliases
      then Success(d.(records := d.records[id := d.records[id].(aliases := d.records[id].aliases + {rn})]))
      else Failure
    case DelRecord(id) => Success(d.(records := d.records - {id}))
    case AddInfo(id, k, v) =>
      if id == 0 then Success(d.(infos := d.infos[k := v]))
      else if id in d.records
      then Success(d.(records := d.records[id := d.records[id].(infos := d.records[id].infos[k := v])]))
      else Failure
    case ClientGreeting(_, _, _) => Success(d)
    case Pong(_) => Success(d)
    case UploadDone => Success(d)
  }

  function Fold(ms: seq<Message>): Result<Tables> {
    if ms == [] then Success(NOTHING) else
    var before := Fold(ms[..|ms| - 1]);
    if before.Failure? then Failure else ApplyMessage(before.value, ms[|ms| - 1])
  }

  // ---------------------------------------------------------------- the meaning of a transaction

  /** The records after the deletes and the first inserts. */
  function Recreated(d: Tables, t: Tx): map<nat, Rec> {
    (d.records - (t.recordsToAdd.Keys + t.recordsToDelete))
    + map id | id in t.recordsToAdd :: Rec(t.recordsToAdd[id].1, t.recordsToAdd[id].0, {}, map[])
  }

  /** Names a record can take in addition to those it has. */
  ghost predicate NewNames(r: Rec, names: seq<Text>) {
    NoDups(names) && forall n | n in names :: n != r.name && n !in r.aliases
  }

  type Aliases = map<nat, seq<Text>>
  type Infos = map<nat, map<Text, Text>>

  /** No alias or info refers to a missing record, and no name repeats. */
  ghost predicate Insertable(records: map<nat, Rec>, aliases: Aliases, infos: Infos) {
    && (forall id | id in aliases :: aliases[id] != [] ==> id in records && NewNames(records[id], aliases[id]))
    && (forall id | id in infos :: infos[id] != map[] ==> id in records)
  }

  function Completed(r: Rec, names: seq<Text>, infos: map<Text, Text>): Rec {
    r.(aliases := r.aliases + SetOf(names), infos := r.infos + infos)
  }

  function Filled(records: map<nat, Rec>, aliases: Aliases, infos: Infos): map<nat, Rec> {
    map id | id in records :: Completed(records[id], AliasesOf(aliases, id), InfosOf(infos, id))
  }

  /** The tables after a data transaction, in one piece. */
  ghost function CommitTables(d: Tables, t: Tx): Result<Tables> {
    var records := Recreated(d, t);
    if !Insertable(records, t.aliases, t.recordInfosToAdd) then Failure else
    Success(Tables(d.infos + t.clientInfos, Filled(records, t.aliases, t.recordInfosToAdd)))
  }

  ghost function CommitAll(d: Tables, ts: seq<Tx>): Result<Tables> {
    if ts == [] then Success(d) else
    var before := CommitAll(d, ts[..|ts| - 1]);
    if before.Failure? then Failure else CommitTables(before.value, ts[|ts| - 1])
  }

  lemma CommitAllSnoc(d: Tables, ts: seq<Tx>, t: Tx)
    ensures CommitAll(d, ts + [t]) ==
            if CommitAll(d, ts).Failure? then Failure else CommitTables(CommitAll(d, ts).value, t)
  {
    assert (ts + [t])[..|ts|] == ts;
  }

  // ---------------------------------------------------------------- collecting is folding

  /** Where collecting a message into a transaction differs from applying it. */
  ghost predicate Collectable(r: Tables, t: Tx, m: Message) {
    match m
    case AddRecord(id, alias, _, _) => !alias ==> id !in r.records
    case DelRecord(id) => id !in t.aliases
    case _ => true
  }

  /** Transactions hold no empty lists or maps. */
  ghost predicate Tight(t: Tx) {
    && (forall id | id in t.aliases :: t.aliases[id] != [])
    && (forall id | id in t.recordInfosToAdd :: t.recordInfosToAdd[id] != map[])
  }

  lemma ExtendIsTight(t: Tx, m: Message)
    requires Tight(t)
    ensures Tight(Extend(t, m))
  {
    if m.AddInfo? && m.recordId != 0 {
      assert m.key in InfosOf(t.recordInfosToAdd, m.recordId)[m.key := m.value];
    }
  }

  /** A record without pending aliases and infos stays as it is. */
  lemma NothingPending(r: Rec)
    ensures Completed(r, [], map[]) == r
  {
    assert SetOf<Text>([]) == {};
    assert r.infos + map[] == r.infos;
  }

  lemma FilledAdd(records: map<nat, Rec>, aliases: Aliases, infos: Infos, id: nat, r: Rec)
    requires Insertable(records, aliases, infos) && id !in records && id !in aliases && id !in infos
    ensures Insertable(records[id := r], aliases, infos)
    ensures Filled(records[id := r], aliases, infos) == Filled(records, aliases, infos)[id := r]
  {
    NothingPending(r);
  }

  lemma RecreatedAdd(d: Tables, t: Tx, id: nat, rn: Text, rt: Text)
    ensures Recreated(d, t.(recordsToAdd := t.recordsToAdd[id := (rn, rt)]))
         == Recreated(d, t)[id := Rec(rt, rn, {}, map[])]
  {
  }

  lemma FilledLacks(records: map<nat, Rec>, aliases: Aliases, infos: Infos, id: nat)
    requires Insertable(records, aliases, infos) && id !in Filled(records, aliases, infos)
    requires id in aliases ==> aliases[id] != []
    requires id in infos ==> infos[id] != map[]
    ensures id !in records && id !in aliases && id !in infos
  {
  }

  lemma ExtendAdd(d: Tables, t: Tx, r: Tables, m: Message)
    requires m.AddRecord? && !m.alias && Tight(t)
    requires CommitTables(d, t) == Success(r) && m.recordId !in r.records
    ensures CommitTables(d, Extend(t, m)) == ApplyMessage(r, m)
  {
    var id, added := m.recordId, Rec(m.recordType, m.recordName, {}, map[]);
    RecreatedAdd(d, t, id, m.recordName, m.recordType);
    FilledLacks(Recreated(d, t), t.aliases, t.recordInfosToAdd, id);
    FilledAdd(Recreated(d, t), t.aliases, t.recordInfosToAdd, id, added);
  }

  lemma CompletedAlias(r: Rec, names: seq<Text>, infos: map<Text, Text>, name: Text)
    requires names == [] || NewNames(r, names)
    requires var c := Completed(r, names, infos); name != c.name && name !in c.aliases
    ensures NewNames(r, names + [name])
    ensures var c := Completed(r, names, infos);
            Completed(r, names + [name], infos) == c.(aliases := c.aliases + {name})
  {
    forall n | n in names ensures n != name {
      assert n in SetOf(names);
    }
    assert SetOf(names + [name]) == SetOf(names) + {name};
    assert r.aliases + (SetOf(names) + {name}) == r.aliases + SetOf(names) + {name};
  }

  lemma InsertableAlias(records: map<nat, Rec>, aliases: Aliases, infos: Infos, id: nat, name: Text)
    requires Insertable(records, aliases, infos) && id in records
    requires NewNames(records[id], AliasesOf(aliases, id) + [name])
    ensures Insertable(records, aliases[id := AliasesOf(aliases, id) + [name]], infos)
  {
    hide NewNames;
  }

  lemma FilledWithAlias(records: map<nat, Rec>, aliases: Aliases, infos: Infos, id: nat, names: seq<Text>)
    requires id in records
    ensures Filled(records, aliases[id := names], infos)
         == Filled(records, aliases, infos)[id := Completed(records[id], names, InfosOf(infos, id))]
  {
    hide Completed;
  }

  lemma FilledAlias(records: map<nat, Rec>, aliases: Aliases, infos: Infos, id: nat, name: Text)
    requires Insertable(records, aliases, infos) && id in records
    requires id in aliases ==> aliases[id] != []
    requires var c := Filled(records, aliases, infos)[id]; name != c.name && name !in c.aliases
    ensures var more := aliases[id := AliasesOf(aliases, id) + [name]];
            var c := Filled(records, aliases, infos)[id];
            && Insertable(records, more, infos)
            && Filled(records, more, infos) == Filled(records, aliases, infos)[id := c.(aliases := c.aliases + {name})]
  {
    CompletedAlias(records[id], AliasesOf(aliases, id), InfosOf(infos, id), name);
    hide NewNames, Completed, SetOf;
    InsertableAlias(records, aliases, infos, id, name);
    FilledWithAlias(records, aliases, infos, id, AliasesOf(aliases, id) + [name]);
  }

  lemma ExtendAlias(d: Tables, t: Tx, r: Tables, m: Message)
    requires m.AddRecord? && m.alias && Tight(t)
    requires CommitTables(d, t) == Success(r) && ApplyMessage(r, m).Success?
    ensures CommitTables(d, Extend(t, m)) == ApplyMessage(r, m)
  {
    RecreatedSame(d, t, Extend(t, m));
    FilledAlias(Recreated(d, t), t.aliases, t.recordInfosToAdd, m.recordId, m.recordName);
  }

  lemma FilledDelete(records: map<nat, Rec>, aliases: Aliases, infos: Infos, id: nat)
    requires Insertable(records, aliases, infos) && id !in aliases
    ensures Insertable(records - {id}, aliases, infos - {id})
    ensures Filled(records - {id}, aliases, infos - {id}) == Filled(records, aliases, infos) - {id}
  {
  }

  lemma RecreatedDelete(d: Tables, t: Tx, id: nat)
    ensures Recreated(d, Extend(t, DelRecord(id))) == Recreated(d, t) - {id}
  {
  }

  lemma ExtendDelete(d: Tables, t: Tx, r: Tables, m: Message)
    requires m.DelRecord? && Tight(t)
    requires CommitTables(d, t) == Success(r) && m.recordId !in t.aliases
    ensures CommitTables(d, Extend(t, m)) == ApplyMessage(r, m)
  {
    RecreatedDelete(d, t, m.recordId);
    FilledDelete(Recreated(d, t), t.aliases, t.recordInfosToAdd, m.recordId);
  }

  lemma FilledInfo(records: map<nat, Rec>, aliases: Aliases, infos: Infos, id: nat, k: Text, v: Text)
    requires Insertable(records, aliases, infos) && id in records
    ensures var more := infos[id := InfosOf(infos, id)[k := v]];
            var c := Filled(records, aliases, infos)[id];
            && Insertable(records, aliases, more)
            && Filled(records, aliases, more) == Filled(records, aliases, infos)[id := c.(infos := c.infos[k := v])]
  {
    assert records[id].infos + InfosOf(infos, id)[k := v] == (records[id].infos + InfosOf(infos, id))[k := v];
  }

  lemma RecreatedSame(d: Tables, t: Tx, u: Tx)
    requires t.recordsToAdd == u.recordsToAdd && t.recordsToDelete == u.recordsToDelete
    ensures Recreated(d, t) == Recreated(d, u)
  {
  }

  lemma ExtendClientInfo(d: Tables, t: Tx, r: Tables, m: Message)
    requires m.AddInfo? && m.recordId == 0 && CommitTables(d, t) == Success(r)
    ensures CommitTables(d, Extend(t, m)) == ApplyMessage(r, m)
  {
    RecreatedSame(d, t, Extend(t, m));
    hide Recreated, Filled, Insertable;
    assert d.infos + t.clientInfos[m.key := m.value] == (d.infos + t.clientInfos)[m.key := m.value];
  }

  lemma ExtendRecordInfo(d: Tables, t: Tx, r: Tables, m: Message)
    requires m.AddInfo? && m.recordId != 0 && CommitTables(d, t) == Success(r) && ApplyMessage(r, m).Success?
    ensures CommitTables(d, Extend(t, m)) == ApplyMessage(r, m)
  {
    RecreatedSame(d, t, Extend(t, m));
    FilledInfo(Recreated(d, t), t.aliases, t.recordInfosToAdd, m.recordId, m.key, m.value);
  }

  /** Committing a transaction extended by a message is committing it and then applying the message. */
  lemma ExtendCommutes(d: Tables, t: Tx, r: Tables, m: Message)
    requires Tight(t) && CommitTables(d, t) == Success(r)
    requires ApplyMessage(r, m).Success? && Collectable(r, t, m)
    ensures CommitTables(d, Extend(t, m)) == ApplyMessage(r, m)
  {
    match m
    case AddRecord(id, alias, _, _) =>
      if alias { ExtendAlias(d, t, r, m); } else { ExtendAdd(d, t, r, m); }
    case DelRecord(id) => ExtendDelete(d, t, r, m);
    case AddInfo(id, _, _) =>
      if id == 0 { ExtendClientInfo(d, t, r, m); } else { ExtendRecordInfo(d, t, r, m); }
    case ClientGreeting(_, _, _) =>
    case Pong(_) =>
    case UploadDone =>
  }

  /** A transaction that only repeats known client infos changes nothing. */
  lemma RepeatedInfosAreInert(d: Tables, t: Tx)
    requires t == NewTx(t.initial, t.clientInfos)
    requires forall k | k in t.clientInfos :: k in d.infos && d.infos[k] == t.clientInfos[k]
    ensures CommitTables(d, t) == Success(d)
  {
    assert Recreated(d, t) == d.records;
    assert d.infos + t.clientInfos == d.infos;
    forall id | id in d.records ensures Completed(d.records[id], [], map[]) == d.records[id] {
      NothingPending(d.records[id]);
    }
    assert Filled(d.records, map[], map[]) == d.records;
  }

  /**
   Deleting a record in the transaction that gave it an alias makes the transaction fail: the pending alias
   is not withdrawn and refers to a record that no longer exists.
   */
  lemma AliasOfDeletedRecordFails(d: Tables, t: Tx, id: nat)
    requires id in t.aliases && t.aliases[id] != []
    ensures CommitTables(d, Extend(t, DelRecord(id))) == Failure
  {
    var u := Extend(t, DelRecord(id));
    assert id !in Recreated(d, u);
    assert u.aliases[id] != [];
  }

  /** That is the only way in which collecting a delete can spoil a transaction. */
  lemma DeleteSpoilsIff(d: Tables, t: Tx, r: Tables, id: nat)
    requires Tight(t) && CommitTables(d, t) == Success(r)
    ensures CommitTables(d, Extend(t, DelRecord(id))).Failure? <==> id in t.aliases
  {
    if id in t.aliases {
      AliasOfDeletedRecordFails(d, t, id);
    } else {
      ExtendDelete(d, t, r, DelRecord(id));
    }
  }
}
