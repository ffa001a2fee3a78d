/**
 DBProcessor._commit statement by statement (server/recceiver/dbstore.py:78-172). Statements work on the
 connection's own copy of the rows, which replaces the stored ones only when all of them went through.
 */
module DbProcessor {
  import opened Wrappers
  import opened Bytes
  import opened Lists
  import opened Transactions
  import opened DbStore
  import opened DbServers

  /** Inserts the other names of one record; a name it has already is refused. */
  method InsertNames(rec: Rec, names: seq<Text>) returns (r: Result<Rec>)
    ensures r.Success? <==> NewNames(rec, names)
    ensures r.Success? ==> r.value == rec.(aliases := rec.aliases + SetOf(names))
  {
    var now := rec;
    assert SetOf(names[..0]) == {};
    for k := 0 to |names|
      invariant now == rec.(aliases := rec.aliases + SetOf(names[..k]))
      invariant NewNames(rec, names[..k])
    {
      SetOfSnoc(names, k);
      if names[k] == now.name || names[k] in now.aliases {
        assert !NewNames(rec, names) by {
          assert names[k] in names;
          if names[k] in SetOf(names[..k]) {
            assert names[k] in names[..k];
          }
        }
        return Failure;
      }
      NewNamesSnoc(rec, names, k);
      now := now.(aliases := now.aliases + {names[k]});
    }
    assert names[..|names|] == names;
    return Success(now);
  }

  lemma NewNamesSnoc(rec: Rec, names: seq<Text>, k: nat)
    requires k < |names| && NewNames(rec, names[..k])
    requires names[k] != rec.name && names[k] !in rec.aliases && names[k] !in SetOf(names[..k])
    ensures NewNames(rec, names[..k + 1])
  {
    assert forall n | n in names[..k] :: n in SetOf(names[..k]);
    assert names[..k + 1] == names[..k] + [names[k]];
  }

  /** The part of the pending aliases or infos that belongs to `ids`. */
  function Only<V>(pending: map<nat, V>, ids: set<nat>): map<nat, V> {
    map id | id in pending && id in ids :: pending[id]
  }

  ghost predicate AliasesFit(records: map<nat, Rec>, aliases: Aliases) {
    forall id | id in aliases :: aliases[id] != [] ==> id in records && NewNames(records[id], aliases[id])
  }

  ghost predicate InfosFit(records: map<nat, Rec>, infos: Infos) {
    forall id | id in infos :: infos[id] != map[] ==> id in records
  }

  method InsertAliases(records: map<nat, Rec>, aliases: Aliases) returns (r: Result<map<nat, Rec>>)
    ensures r.Success? <==> AliasesFit(records, aliases)
    ensures r.Success? ==> r.value == Filled(records, aliases, map[])
  {
    var now, todo := records, aliases.Keys;
    ghost var done: set<nat> := {};
    FilledWithNothing(records);
    assert Only(aliases, done) == map[];
    while todo != {}
      invariant todo !! done && todo + done == aliases.Keys
      invariant AliasesFit(records, Only(aliases, done))
      invariant now == Filled(records, Only(aliases, done), map[])
      decreases todo
    {
      var id :| id in todo;
      if aliases[id] != [] {
        if id !in now {
          return Failure;
        }
        AliasesOfOne(records, aliases, done, id);
        var got := InsertNames(now[id], aliases[id]);
        if got.Failure? {
          return Failure;
        }
        now := now[id := got.value];
      } else {
        AliasesOfNone(records, aliases, done, id);
      }
      todo, done := todo - {id}, done + {id};
    }
    assert done == aliases.Keys;
    assert Only(aliases, done) == aliases;
    return Success(now);
  }

  lemma FilledWithNothing(records: map<nat, Rec>)
    ensures Filled(records, map[], map[]) == records
  {
    forall id | id in records ensures Completed(records[id], [], map[]) == records[id] {
      NothingPending(records[id]);
    }
  }

  lemma AliasesOfOne(records: map<nat, Rec>, aliases: Aliases, done: set<nat>, id: nat)
    requires id in aliases && id !in done && id in records
    ensures var f, g := Filled(records, Only(aliases, done), map[]), Filled(records, Only(aliases, done + {id}), map[]);
            f[id] == records[id] && g == f[id := records[id].(aliases := records[id].aliases + SetOf(aliases[id]))]
  {
    NothingPending(records[id]);
    assert records[id].infos + map[] == records[id].infos;
  }

  lemma AliasesOfNone(records: map<nat, Rec>, aliases: Aliases, done: set<nat>, id: nat)
    requires id in aliases && id !in done && aliases[id] == []
    ensures Filled(records, Only(aliases, done + {id}), map[]) == Filled(records, Only(aliases, done), map[])
  {
  }

  /** Inserts or replaces the infos of existing records. */
  method InsertInfos(records: map<nat, Rec>, infos: Infos) returns (r: Result<map<nat, Rec>>)
    ensures r.Success? <==> InfosFit(records, infos)
    ensures r.Success? ==> r.value == Filled(records, map[], infos)
  {
    var now, todo := records, infos.Keys;
    ghost var done: set<nat> := {};
    FilledWithNothing(records);
    assert Only(infos, done) == map[];
    while todo != {}
      invariant todo !! done && todo + done == infos.Keys
      invariant InfosFit(records, Only(infos, done))
      invariant now == Filled(records, map[], Only(infos, done))
      decreases todo
    {
      var id :| id in todo;
      InfosOfOne(records, infos, done, id);
      if infos[id] != map[] {
        if id !in now {
          return Failure;
        }
        now := now[id := now[id].(infos := now[id].infos + infos[id])];
      }
      todo, done := todo - {id}, done + {id};
    }
    assert done == infos.Keys;
    assert Only(infos, done) == infos;
    return Success(now);
  }

  lemma InfosOfOne(records: map<nat, Rec>, infos: Infos, done: set<nat>, id: nat)
    requires id in infos && id !in done
    ensures var f, g := Filled(records, map[], Only(infos, done)), Filled(records, map[], Only(infos, done + {id}));
            && (id in records ==>
                  && f[id] == records[id]
                  && g == f[id := records[id].(infos := records[id].infos + infos[id])])
            && (id !in records || infos[id] == map[] ==> g == f)
  {
    assert SetOf<Text>([]) == {};
    if id in records {
      NothingPending(records[id]);
    }
  }

  /** Aliases first, infos second, is both at once. */
  lemma FilledInTurn(records: map<nat, Rec>, aliases: Aliases, infos: Infos)
    ensures Filled(Filled(records, aliases, map[]), map[], infos) == Filled(records, aliases, infos)
  {
    assert SetOf<Text>([]) == {};
    forall id | id in records
      ensures Completed(Completed(records[id], AliasesOf(aliases, id), map[]), [], InfosOf(infos, id))
           == Completed(records[id], AliasesOf(aliases, id), InfosOf(infos, id))
    {
      assert records[id].infos + map[] == records[id].infos;
    }
  }

  class Processor {
    var sources: map<nat, nat>
    var servers: Servers
    const key: int

    constructor (key: int)
      ensures View() == Db(map[], map[]) && this.key == key
    {
      sources, servers, this.key := map[], map[], key;
    }

    ghost function View(): Db
      reads this
    {
      Db(sources, servers)
    }

    /** At start and stop: every client of this server is forgotten, other servers' clients stay. */
    method Cleanup()
      modifies this`servers
      ensures forall row | row in old(servers) :: old(servers)[row].owner != key ==> row in servers
      ensures forall row | row in servers ::
                row in old(servers) && servers[row] == old(servers)[row] && servers[row].owner != key
    {
      servers := map row | row in servers && servers[row].owner != key :: servers[row];
    }

    /** The statements of a data transaction on one client's tables. */
    method Fill(d: Tables, t: Tx) returns (r: Result<Tables>)
      ensures r == CommitTables(d, t)
    {
      var infos := d.infos + t.clientInfos;
      var kept := d.records - (t.recordsToAdd.Keys + t.recordsToDelete);
      var records := kept + map id | id in t.recordsToAdd :: Rec(t.recordsToAdd[id].1, t.recordsToAdd[id].0, {}, map[]);
      assert records == Recreated(d, t);
      var named := InsertAliases(records, t.aliases);
      if named.Failure? {
        return Failure;
      }
      var filled := InsertInfos(named.value, t.recordInfosToAdd);
      if filled.Failure? {
        return Failure;
      }
      FilledInTurn(records, t.aliases, t.recordInfosToAdd);
      return Success(Tables(infos, filled.value));
    }

    method NextId() returns (id: nat)
      ensures id == NextRow(servers)
    {
      var todo := servers.Keys;
      var largest: nat := 0;
      while todo != {}
        invariant todo <= servers.Keys
        invariant largest == 0 || largest in servers.Keys
        invariant forall x | x in servers :: x in todo || x <= largest
        decreases todo
      {
        var x :| x in todo;
        if x > largest {
          largest := x;
        }
        todo := todo - {x};
      }
      assert largest == MaxOf(servers.Keys);
      return largest + 1;
    }

    method Commit(src: nat, ep: Endpoint, t: Tx) returns (ok: bool, row: nat)
      modifies this
      ensures Possible(old(View()), key, Event(src, ep, t, row))
      ensures Outcome(View(), ok) == Step(old(View()), key, Event(src, ep, t, row))
    {
      row := 0;
      var now := servers;
      if t.initial {
        var id := NextId();
        now := now[id := Server(ep, key, NOTHING)];
        assert Matches(now, key, ep, id);
        row :| Matches(now, key, ep, row);
        sources := sources[src := row];
      } else {
        if src !in sources {
          return false, row;
        }
        row := sources[src];
      }
      if !t.connected {
        if row in now && now[row].owner == key {
          now := now - {row};
        }
        servers, sources := now, sources - {src};
        return true, row;
      }
      if row !in now {
        if !InsertsNothing(t) {
          return false, row;
        }
      } else {
        var filled := Fill(now[row].tables, t);
        if filled.Failure? {
          return false, row;
        }
        now := now[row := now[row].(tables := filled.value)];
      }
      servers := now;
      return true, row;
    }
  }
}
