/**
 Several clients in one database (server/recceiver/dbstore.py:85-126): a server row per client, found again
 through a dictionary that lives outside the database and is not rolled back with it.
 */
module DbServers {
  import opened Wrappers
  import opened Bytes
  import opened Transactions
  import opened DbStore

  datatype Endpoint = Endpoint(host: Text, port: nat)

  /** A row of the server table with everything that is deleted with it. */
  datatype Server = Server(ep: Endpoint, owner: int, tables: Tables)

  type Servers = map<nat, Server>

  datatype Db = Db(sources: map<nat, nat>, servers: Servers)

  /** A transaction of the session `src`; `row` is what the database answers when asked for the endpoint's row. */
  datatype Event = Event(src: nat, ep: Endpoint, t: Tx, row: nat)

  datatype Outcome = Outcome(db: Db, ok: bool)

  ghost function MaxOf(s: set<nat>): (m: nat)
    ensures (m in s || m == 0) && forall x | x in s :: x <= m
  {
    if s == {} then 0 else
    var x :| x in s;
    var m := MaxOf(s - {x});
    assert forall y | y in s :: y == x || y in s - {x};
    if x > m then x else m
  }

  /** The id an insert gets: one more than the largest in use, so ids are used again. */
  ghost function NextRow(servers: Servers): (row: nat)
    ensures row !in servers
  {
    MaxOf(servers.Keys) + 1
  }

  ghost function Opened(servers: Servers, key: int, ep: Endpoint): Servers {
    servers[NextRow(servers) := Server(ep, key, NOTHING)]
  }

  predicate Matches(servers: Servers, key: int, ep: Endpoint, row: nat) {
    row in servers && servers[row].owner == key && servers[row].ep == ep
  }

  ghost predicate Possible(db: Db, key: int, e: Event) {
    e.t.initial ==> Matches(Opened(db.servers, key, e.ep), key, e.ep, e.row)
  }

  predicate InsertsNothing(t: Tx) {
    && t.clientInfos == map[] && t.recordsToAdd == map[]
    && (forall id | id in t.aliases :: t.aliases[id] == [])
    && (forall id | id in t.recordInfosToAdd :: t.recordInfosToAdd[id] == map[])
  }

  /** The statements of a transaction on a server row, which may be missing. */
  ghost function Persist(servers: Servers, key: int, row: nat, t: Tx): Result<Servers> {
    if !t.connected then
      Success(if row in servers && servers[row].owner == key then servers - {row} else servers)
    else if row in servers then
      var r := CommitTables(servers[row].tables, t);
      if r.Failure? then Failure else Success(servers[row := servers[row].(tables := r.value)])
    else if InsertsNothing(t) then Success(servers) else Failure
  }

  /** A failing transaction is rolled back, but its session keeps the row id it was given. */
  ghost function Step(db: Db, key: int, e: Event): Outcome {
    if !e.t.initial && e.src !in db.sources then Outcome(db, false) else
    var row := if e.t.initial then e.row else db.sources[e.src];
    var sources := db.sources[e.src := row];
    var r := Persist(if e.t.initial then Opened(db.servers, key, e.ep) else db.servers, key, row, e.t);
    if r.Failure? then Outcome(Db(sources, db.servers), false)
    else Outcome(Db(if e.t.connected then sources else sources - {e.src}, r.value), true)
  }

  // ---------------------------------------------------------------- who owns which row

  /** Every session that is not `dead` has a row of this server's own, and no two of them share one. */
  ghost predicate Linked(db: Db, key: int, dead: set<nat>) {
    && (forall s | s in db.sources && s !in dead ::
          db.sources[s] in db.servers && db.servers[db.sources[s]].owner == key)
    && (forall s, u | s in db.sources && u in db.sources && s !in dead && u !in dead && s != u ::
          db.sources[s] != db.sources[u])
  }

  ghost predicate EndpointFree(db: Db, key: int, ep: Endpoint) {
    forall row | row in db.servers :: !Matches(db.servers, key, ep, row)
  }

  ghost predicate Regular(db: Db, key: int, e: Event) {
    Possible(db, key, e) && (e.t.initial ==> e.t.connected && EndpointFree(db, key, e.ep))
  }

  /** A first transaction refers to no record it does not add and repeats no name of one. */
  ghost predicate Opens(t: Tx) {
    Insertable(Recreated(NOTHING, t), t.aliases, t.recordInfosToAdd)
  }

  ghost predicate FailsToOpen(e: Event) {
    e.t.initial && !Opens(e.t)
  }

  lemma RowIsNew(db: Db, key: int, e: Event)
    requires Regular(db, key, e) && e.t.initial
    ensures e.row == NextRow(db.servers)
  {
    assert e.row in db.servers ==> !Matches(db.servers, key, e.ep, e.row);
  }

  /** Rows stay attributed unless a session opens with a transaction that cannot be inserted, and then they never do. */
  lemma LinksSurviveIff(db: Db, key: int, dead: set<nat>, e: Event)
    requires Linked(db, key, dead) && Regular(db, key, e) && e.src !in dead
    ensures Linked(Step(db, key, e).db, key, dead) <==> !FailsToOpen(e)
    ensures e.t.initial ==> (Step(db, key, e).ok <==> Opens(e.t))
  {
    if e.t.initial {
      RowIsNew(db, key, e);
      var n := Step(db, key, e).db;
      if !Step(db, key, e).ok {
        assert e.src in n.sources && n.sources[e.src] !in n.servers;
      }
    }
  }

  /** A session that fails to open is the only one whose row is then in doubt. */
  lemma OnlyTheFailedIsLost(db: Db, key: int, dead: set<nat>, e: Event)
    requires Linked(db, key, dead) && Regular(db, key, e) && e.src !in dead
    ensures Linked(Step(db, key, e).db, key, dead + if FailsToOpen(e) then {e.src} else {})
  {
    if FailsToOpen(e) {
      RowIsNew(db, key, e);
    } else {
      LinksSurviveIff(db, key, dead, e);
      assert dead + {} == dead;
    }
  }

  /** A transaction of one session leaves the row and the tables of every other session alone. */
  lemma SessionsAreIsolated(db: Db, key: int, dead: set<nat>, e: Event, other: nat)
    requires Linked(db, key, dead) && Regular(db, key, e) && e.src !in dead
    requires other in db.sources && other !in dead && other != e.src
    ensures var n := Step(db, key, e).db;
            && other in n.sources && n.sources[other] == db.sources[other]
            && n.sources[other] in n.servers && n.servers[n.sources[other]] == db.servers[db.sources[other]]
  {
    if e.t.initial {
      RowIsNew(db, key, e);
    }
  }

  /**
   What keeps them apart is that nothing more comes from a session that failed to open. After such a failure
   the next session is given the same row, and a disconnect of the first would delete the data of the second.
   */
  lemma FailedOpeningErasesTheNext(db: Db, key: int, a: Event, b: Event, bye: Event)
    requires Linked(db, key, {}) && Regular(db, key, a) && FailsToOpen(a)
    requires var d := Step(db, key, a).db;
             && Regular(d, key, b) && b.t.initial && Opens(b.t)
    requires a.src != b.src && bye.src == a.src && bye.t == DISCONNECT
    ensures var d := Step(Step(db, key, a).db, key, b).db;
            && b.src in d.sources && d.sources[b.src] in d.servers
            && Step(d, key, bye).ok && b.src in Step(d, key, bye).db.sources
            && d.sources[b.src] !in Step(d, key, bye).db.servers
  {
    RowIsNew(db, key, a);
    RowIsNew(Step(db, key, a).db, key, b);
  }

  /**
   What the consumer takes: an opening that stands by itself; later only from a session it knows, and then
   nothing that refers to a missing record or repeats a name in that session's tables.
   */
  ghost predicate Accepts(db: Db, e: Event) {
    if e.t.initial then Opens(e.t)
    else
      && e.src in db.sources
      && (e.t.connected ==>
            && db.sources[e.src] in db.servers
            && var d := db.servers[db.sources[e.src]].tables;
               Insertable(Recreated(d, e.t), e.t.aliases, e.t.recordInfosToAdd))
  }

  lemma SucceedsIffAccepted(db: Db, key: int, dead: set<nat>, e: Event)
    requires Linked(db, key, dead) && Regular(db, key, e) && e.src !in dead
    ensures Step(db, key, e).ok <==> Accepts(db, e)
  {
    if e.t.initial {
      RowIsNew(db, key, e);
    }
  }

  /** Such first transactions exist: one with an info for a record it does not hold. */
  lemma OpeningsDoFail(t: Tx, id: nat)
    requires id in t.recordInfosToAdd && t.recordInfosToAdd[id] != map[] && id !in t.recordsToAdd
    ensures !Opens(t)
  {
    assert id !in Recreated(NOTHING, t);
  }

  // ---------------------------------------------------------------- over runs

  ghost function Run(key: int, es: seq<Event>): Db {
    if es == [] then Db(map[], map[]) else Step(Run(key, es[..|es| - 1]), key, es[|es| - 1]).db
  }

  /** The sessions that failed to open. */
  ghost function Dead(es: seq<Event>): set<nat> {
    if es == [] then {} else
    var n := |es| - 1;
    Dead(es[..n]) + if FailsToOpen(es[n]) then {es[n].src} else {}
  }

  /** Nothing more comes from a session that failed to open. */
  ghost predicate IsRun(key: int, es: seq<Event>) {
    forall k | 0 <= k < |es| :: Regular(Run(key, es[..k]), key, es[k]) && es[k].src !in Dead(es[..k])
  }

  /** The transactions of a session among all that were executed. */
  function HandedBy(es: seq<Event>, src: nat): seq<Tx> {
    if es == [] then [] else
    var n := |es| - 1;
    HandedBy(es[..n], src) + if es[n].src == src then [es[n].t] else []
  }

  /** The transactions of a session that took effect, from its latest opening on. */
  ghost function EffectiveOf(key: int, es: seq<Event>, src: nat): seq<Tx> {
    if es == [] then [] else
    var n := |es| - 1;
    var before := EffectiveOf(key, es[..n], src);
    if es[n].src != src || !Step(Run(key, es[..n]), key, es[n]).ok then before
    else (if es[n].t.initial then [] else before) + [es[n].t]
  }

  lemma RunPrefix(key: int, es: seq<Event>)
    requires es != [] && IsRun(key, es)
    ensures IsRun(key, es[..|es| - 1])
  {
    var b := es[..|es| - 1];
    forall k | 0 <= k < |b| ensures b[..k] == es[..k] && b[k] == es[k] {
    }
  }

  lemma {:induction false} RunIsLinked(key: int, es: seq<Event>)
    requires IsRun(key, es)
    ensures Linked(Run(key, es), key, Dead(es))
  {
    if es != [] {
      var n := |es| - 1;
      RunPrefix(key, es);
      RunIsLinked(key, es[..n]);
      OnlyTheFailedIsLost(Run(key, es[..n]), key, Dead(es[..n]), es[n]);
    }
  }

  lemma CommitAllOne(t: Tx)
    ensures CommitAll(NOTHING, [t]) == CommitTables(NOTHING, t)
  {
    assert [t][..0] == [];
  }

  /** The session's own transaction, opening or continuing. */
  lemma OwnStep(db: Db, key: int, dead: set<nat>, e: Event, before: seq<Tx>)
    requires Linked(db, key, dead) && Regular(db, key, e) && e.src !in dead
    requires Step(db, key, e).ok && e.t.connected
    requires e.src in db.sources ==> CommitAll(NOTHING, before) == Success(db.servers[db.sources[e.src]].tables)
    ensures var n := Step(db, key, e).db;
            && e.src in n.sources && n.sources[e.src] in n.servers
            && CommitAll(NOTHING, (if e.t.initial then [] else before) + [e.t])
               == Success(n.servers[n.sources[e.src]].tables)
  {
    if e.t.initial {
      RowIsNew(db, key, e);
      CommitAllOne(e.t);
      assert [] + [e.t] == [e.t];
    } else {
      CommitAllSnoc(NOTHING, before, e.t);
    }
  }

  /**
   Over every run of any number of sessions, whether or not some fail to open: the tables of each session that
   opened are those its own effective transactions make by themselves.
   */
  lemma {:induction false} EachSessionByItself(key: int, es: seq<Event>, src: nat)
    requires IsRun(key, es) && src in Run(key, es).sources && src !in Dead(es)
    ensures var db := Run(key, es);
            && db.sources[src] in db.servers
            && CommitAll(NOTHING, EffectiveOf(key, es, src)) == Success(db.servers[db.sources[src]].tables)
  {
    var n := |es| - 1;
    var before, e := Run(key, es[..n]), es[n];
    RunPrefix(key, es);
    RunIsLinked(key, es[..n]);
    RunIsLinked(key, es);
    if src in before.sources {
      EachSessionByItself(key, es[..n], src);
    }
    if e.src != src {
      SessionsAreIsolated(before, key, Dead(es[..n]), e, src);
    } else if Step(before, key, e).ok {
      OwnStep(before, key, Dead(es[..n]), e, EffectiveOf(key, es[..n], src));
    }
  }

  /** Event k is the latest opening of the session. */
  ghost predicate OpenedAt(es: seq<Event>, src: nat, k: nat) {
    && k < |es| && es[k].src == src && es[k].t.initial
    && forall q | k < q < |es| && es[q].src == src :: !es[q].t.initial
  }

  /** The row of a session is this server's, and carries the host and port `ep`. */
  ghost predicate HasRow(db: Db, key: int, src: nat, ep: Endpoint) {
    && src in db.sources && db.sources[src] in db.servers
    && db.servers[db.sources[src]].ep == ep && db.servers[db.sources[src]].owner == key
  }

  /** Every session that has not failed to open has the row of the endpoint it gave with its latest opening. */
  lemma {:induction false} RowsCarryTheirEndpoint(key: int, es: seq<Event>, src: nat) returns (k: nat)
    requires IsRun(key, es) && src in Run(key, es).sources && src !in Dead(es)
    ensures OpenedAt(es, src, k) && HasRow(Run(key, es), key, src, es[k].ep)
  {
    hide Step, Linked, FailsToOpen, HasRow, Regular;
    var n := |es| - 1;
    var before, e := Run(key, es[..n]), es[n];
    RunPrefix(key, es);
    RunIsLinked(key, es[..n]);
    RunIsLinked(key, es);
    if e.src == src && e.t.initial {
      OpeningHasRow(before, key, Dead(es[..n]), e);
      k := n;
    } else {
      RowStays(before, key, Dead(es[..n]), e, src);
      k := RowsCarryTheirEndpoint(key, es[..n], src);
      assert es[..n][k] == es[k];
      OpenedEarlier(es, src, k);
    }
  }

  lemma OpenedEarlier(es: seq<Event>, src: nat, k: nat)
    requires es != [] && OpenedAt(es[..|es| - 1], src, k)
    requires !(es[|es| - 1].src == src && es[|es| - 1].t.initial)
    ensures OpenedAt(es, src, k)
  {
    var b := es[..|es| - 1];
    forall q | k < q < |es| && es[q].src == src ensures !es[q].t.initial {
      assert q < |b| ==> b[q] == es[q];
    }
  }

  lemma OpeningHasRow(db: Db, key: int, dead: set<nat>, e: Event)
    requires Linked(db, key, dead) && Regular(db, key, e) && e.src !in dead && e.t.initial
    requires !FailsToOpen(e)
    ensures HasRow(Step(db, key, e).db, key, e.src, e.ep)
  {
    RowIsNew(db, key, e);
    LinksSurviveIff(db, key, dead, e);
  }

  lemma RowStays(db: Db, key: int, dead: set<nat>, e: Event, src: nat)
    requires Linked(db, key, dead) && Regular(db, key, e) && e.src !in dead && src !in dead
    requires !(e.src == src && e.t.initial) && src in Step(db, key, e).db.sources
    ensures src in db.sources
    ensures forall ep :: HasRow(db, key, src, ep) ==> HasRow(Step(db, key, e).db, key, src, ep)
  {
    if e.src != src && src in db.sources {
      SessionsAreIsolated(db, key, dead, e, src);
    }
  }

  /** Sessions open once. */
  ghost predicate OpensOnce(key: int, es: seq<Event>) {
    forall k | 0 <= k < |es| && es[k].t.initial :: es[k].src !in Run(key, es[..k]).sources
  }

  /** Every row belongs to a session that is still there. */
  ghost predicate AllClaimed(db: Db, dead: set<nat>) {
    forall row | row in db.servers :: exists s | s in db.sources && s !in dead :: db.sources[s] == row
  }

  lemma StaysClaimed(db: Db, key: int, dead: set<nat>, e: Event)
    requires Linked(db, key, dead) && Regular(db, key, e) && e.src !in dead && AllClaimed(db, dead)
    requires e.t.initial ==> e.src !in db.sources
    ensures AllClaimed(Step(db, key, e).db, dead + if FailsToOpen(e) then {e.src} else {})
  {
    var n, gone := Step(db, key, e).db, dead + if FailsToOpen(e) then {e.src} else {};
    OpeningOrNot(db, key, dead, e);
    forall row | row in n.servers ensures exists s | s in n.sources && s !in gone :: n.sources[s] == row {
      if row in db.servers {
        var s :| s in db.sources && s !in dead && db.sources[s] == row;
        assert s in n.sources && s !in gone && n.sources[s] == row;
      } else {
        assert n.sources[e.src] == row;
      }
    }
  }

  /** What a step does to the set of rows and to the sessions that have them. */
  lemma OpeningOrNot(db: Db, key: int, dead: set<nat>, e: Event)
    requires Linked(db, key, dead) && Regular(db, key, e) && e.src !in dead
    requires e.t.initial ==> e.src !in db.sources
    ensures var n := Step(db, key, e).db;
            && (forall s | s in db.sources && s != e.src :: s in n.sources && n.sources[s] == db.sources[s])
            && (e.src in db.sources && e.src !in n.sources ==> n.servers == db.servers - {db.sources[e.src]})
            && (e.src in db.sources && e.src in n.sources ==>
                  n.sources[e.src] == db.sources[e.src] && n.servers.Keys == db.servers.Keys)
            && (e.src !in db.sources && n.servers.Keys != db.servers.Keys ==>
                  !FailsToOpen(e) && e.src in n.sources && n.servers.Keys == db.servers.Keys + {n.sources[e.src]})
  {
    if e.t.initial {
      RowIsNew(db, key, e);
    }
  }

  /** So nothing is left of sessions that have ended: in every run in which sessions open once, all rows are claimed. */
  lemma {:induction false} NoRowIsLeft(key: int, es: seq<Event>)
    requires IsRun(key, es) && OpensOnce(key, es)
    ensures AllClaimed(Run(key, es), Dead(es))
  {
    if es != [] {
      hide Step, Linked, FailsToOpen, Regular, AllClaimed;
      var n := |es| - 1;
      RunPrefix(key, es);
      OncePrefix(key, es);
      RunIsLinked(key, es[..n]);
      NoRowIsLeft(key, es[..n]);
      StaysClaimed(Run(key, es[..n]), key, Dead(es[..n]), es[n]);
    }
  }

  lemma OncePrefix(key: int, es: seq<Event>)
    requires es != [] && OpensOnce(key, es)
    ensures OpensOnce(key, es[..|es| - 1])
  {
    var b := es[..|es| - 1];
    forall k | 0 <= k < |b| ensures b[..k] == es[..k] && b[k] == es[k] {
    }
  }
}
