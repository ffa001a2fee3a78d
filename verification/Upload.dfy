/**
 What the C client uploads (client/castApp/src/dbcb.c:46-166): its environment, then each record with its
 aliases and infos, then the end mark.
 */
module Upload {
  import opened Wrappers
  import opened Bytes
  import opened Lists
  import opened Messages
  import opened DbStore

  /** A record of the process database; `infos` includes those with empty values, which are not sent. */
  datatype DbRecord = DbRecord(name: Text, rtype: Text, aliases: seq<Text>, infos: seq<(Text, Text)>, desc: Text)

  /** The process database: client-wide infos, and the records no exclude pattern matches. */
  datatype Pdb = Pdb(env: seq<(Text, Text)>, records: seq<DbRecord>)

  /** "recordDesc" */
  const RECORD_DESC: Text := [114, 101, 99, 111, 114, 100, 68, 101, 115, 99]

  function AliasMessages(id: nat, aliases: seq<Text>): seq<Message> {
    seq(|aliases|, k requires 0 <= k < |aliases| => AddRecord(id, true, [], aliases[k]))
  }

  function InfoMessages(id: nat, infos: seq<(Text, Text)>): seq<Message> {
    if infos == [] then [] else
    var i := infos[|infos| - 1];
    InfoMessages(id, infos[..|infos| - 1]) + if i.1 != [] then [AddInfo(id, i.0, i.1)] else []
  }

  /** All infos of a record, its description last. */
  function InfosWithDesc(r: DbRecord): seq<(Text, Text)> {
    r.infos + [(RECORD_DESC, r.desc)]
  }

  function RecordMessages(id: nat, r: DbRecord): seq<Message> {
    [AddRecord(id, false, r.rtype, r.name)] + AliasMessages(id, r.aliases) + InfoMessages(id, InfosWithDesc(r))
  }

  /** Record ids are allocated one after the other. */
  function RecordsMessages(first: nat, records: seq<DbRecord>): seq<Message> {
    if records == [] then [] else
    var n := |records| - 1;
    RecordsMessages(first, records[..n]) + RecordMessages(first + n, records[n])
  }

  function UploadMessages(pdb: Pdb, first: nat): seq<Message> {
    InfoMessages(0, pdb.env) + RecordsMessages(first, pdb.records) + [UploadDone]
  }

  // ---------------------------------------------------------------- what it should amount to

  /** The sent infos as a table, later values winning. */
  function InfoTable(infos: seq<(Text, Text)>): map<Text, Text> {
    if infos == [] then map[] else
    var i := infos[|infos| - 1];
    var before := InfoTable(infos[..|infos| - 1]);
    if i.1 != [] then before[i.0 := i.1] else before
  }

  function RecOf(r: DbRecord): Rec {
    Rec(r.rtype, r.name, SetOf(r.aliases), InfoTable(InfosWithDesc(r)))
  }

  function RecordTable(first: nat, records: seq<DbRecord>): map<nat, Rec> {
    if records == [] then map[] else
    var n := |records| - 1;
    RecordTable(first, records[..n])[first + n := RecOf(records[n])]
  }

  function TablesOf(pdb: Pdb, first: nat): Tables {
    Tables(InfoTable(pdb.env), RecordTable(first, pdb.records))
  }

  /** No record has two names that are the same; EPICS guarantees this. */
  ghost predicate NamesDiffer(r: DbRecord) {
    NoDups(r.aliases) && r.name !in r.aliases
  }

  ghost predicate Sensible(pdb: Pdb) {
    forall r | r in pdb.records :: NamesDiffer(r)
  }

  // ---------------------------------------------------------------- message by message

  function FoldFrom(d: Tables, ms: seq<Message>): Result<Tables> {
    if ms == [] then Success(d) else
    var before := FoldFrom(d, ms[..|ms| - 1]);
    if before.Failure? then Failure else ApplyMessage(before.value, ms[|ms| - 1])
  }

  lemma {:induction false} FoldConcat(a: seq<Message>, b: seq<Message>)
    requires Fold(a).Success?
    ensures Fold(a + b) == FoldFrom(Fold(a).value, b)
  {
    if b == [] {
      assert a + b == a;
    } else {
      assert (a + b)[..|a + b| - 1] == a + b[..|b| - 1];
      FoldConcat(a, b[..|b| - 1]);
    }
  }

  lemma {:induction false} FoldFromConcat(d: Tables, a: seq<Message>, b: seq<Message>)
    requires FoldFrom(d, a).Success?
    ensures FoldFrom(d, a + b) == FoldFrom(FoldFrom(d, a).value, b)
  {
    if b == [] {
      assert a + b == a;
    } else {
      assert (a + b)[..|a + b| - 1] == a + b[..|b| - 1];
      FoldFromConcat(d, a, b[..|b| - 1]);
    }
  }

  lemma FoldFromOne(d: Tables, m: Message)
    ensures FoldFrom(d, [m]) == ApplyMessage(d, m)
  {
    assert [m][..0] == [];
  }

  lemma FoldFromSnoc(d: Tables, ms: seq<Message>, m: Message)
    requires FoldFrom(d, ms).Success?
    ensures FoldFrom(d, ms + [m]) == ApplyMessage(FoldFrom(d, ms).value, m)
  {
    assert (ms + [m])[..|ms|] == ms;
  }

  function WithRec(d: Tables, id: nat, r: Rec): Tables {
    d.(records := d.records[id := r])
  }

  function WithInfos(d: Tables, infos: map<Text, Text>): Tables {
    d.(infos := infos)
  }

  lemma WithRecTwice(d: Tables, id: nat, a: Rec, b: Rec)
    ensures WithRec(WithRec(d, id, a), id, b) == WithRec(d, id, b)
  {
    assert d.records[id := a][id := b] == d.records[id := b];
  }

  lemma ApplyInfo(d: Tables, id: nat, r: Rec, k: Text, v: Text)
    requires id != 0
    ensures ApplyMessage(WithRec(d, id, r), AddInfo(id, k, v)) == Success(WithRec(d, id, r.(infos := r.infos[k := v])))
  {
    WithRecTwice(d, id, r, r.(infos := r.infos[k := v]));
  }

  lemma ApplyAlias(d: Tables, id: nat, r: Rec, name: Text)
    requires name != r.name && name !in r.aliases
    ensures ApplyMessage(WithRec(d, id, r), AddRecord(id, true, [], name))
         == Success(WithRec(d, id, r.(aliases := r.aliases + {name})))
  {
    WithRecTwice(d, id, r, r.(aliases := r.aliases + {name}));
  }

  lemma {:induction false} FoldEnv(d: Tables, env: seq<(Text, Text)>)
    requires d.infos == map[]
    ensures FoldFrom(d, InfoMessages(0, env)) == Success(WithInfos(d, InfoTable(env)))
  {
    if env != [] {
      var n := |env| - 1;
      FoldEnv(d, env[..n]);
      if env[n].1 != [] {
        FoldFromSnoc(d, InfoMessages(0, env[..n]), AddInfo(0, env[n].0, env[n].1));
      } else {
        assert InfoMessages(0, env[..n]) + [] == InfoMessages(0, env[..n]);
      }
    }
  }

  lemma {:induction false} FoldInfos(d: Tables, id: nat, r: Rec, infos: seq<(Text, Text)>)
    requires id != 0 && r.infos == map[]
    ensures FoldFrom(WithRec(d, id, r), InfoMessages(id, infos))
         == Success(WithRec(d, id, r.(infos := InfoTable(infos))))
  {
    if infos != [] {
      var n := |infos| - 1;
      FoldInfos(d, id, r, infos[..n]);
      if infos[n].1 != [] {
        FoldFromSnoc(WithRec(d, id, r), InfoMessages(id, infos[..n]), AddInfo(id, infos[n].0, infos[n].1));
        ApplyInfo(d, id, r.(infos := InfoTable(infos[..n])), infos[n].0, infos[n].1);
      } else {
        assert InfoMessages(id, infos[..n]) + [] == InfoMessages(id, infos[..n]);
      }
    }
  }

  lemma {:induction false} FoldAliases(d: Tables, id: nat, r: Rec, aliases: seq<Text>)
    requires r.aliases == {} && NoDups(aliases) && r.name !in aliases
    ensures FoldFrom(WithRec(d, id, r), AliasMessages(id, aliases))
         == Success(WithRec(d, id, r.(aliases := SetOf(aliases))))
  {
    if aliases == [] {
      assert SetOf(aliases) == {};
    } else {
      var n := |aliases| - 1;
      var init, last := aliases[..n], aliases[n];
      LastIsNew(aliases, r.name);
      FoldAliases(d, id, r, init);
      assert AliasMessages(id, aliases) == AliasMessages(id, init) + [AddRecord(id, true, [], last)];
      FoldFromSnoc(WithRec(d, id, r), AliasMessages(id, init), AddRecord(id, true, [], last));
      ApplyAlias(d, id, r.(aliases := SetOf(init)), last);
    }
  }

  lemma LastIsNew(names: seq<Text>, other: Text)
    requires names != [] && NoDups(names) && other !in names
    ensures var init, last := names[..|names| - 1], names[|names| - 1];
            && NoDups(init) && other !in init && last != other && last !in SetOf(init)
            && SetOf(names) == SetOf(init) + {last}
  {
    var init, last := names[..|names| - 1], names[|names| - 1];
    assert names == init + [last];
    assert last in names;
  }

  lemma FoldRecord(d: Tables, id: nat, r: DbRecord)
    requires id != 0 && NamesDiffer(r)
    ensures FoldFrom(d, RecordMessages(id, r)) == Success(WithRec(d, id, RecOf(r)))
  {
    var add, aliases, infos :=
      [AddRecord(id, false, r.rtype, r.name)], AliasMessages(id, r.aliases), InfoMessages(id, InfosWithDesc(r));
    var bare := Rec(r.rtype, r.name, {}, map[]);
    FoldFromOne(d, add[0]);
    assert FoldFrom(d, add) == Success(WithRec(d, id, bare));
    FoldFromConcat(d, add, aliases);
    FoldAliases(d, id, bare, r.aliases);
    FoldFromConcat(d, add + aliases, infos);
    FoldInfos(d, id, bare.(aliases := SetOf(r.aliases)), InfosWithDesc(r));
  }

  lemma {:induction false} FoldRecords(d: Tables, first: nat, records: seq<DbRecord>)
    requires first != 0 && d.records == map[] && forall r | r in records :: NamesDiffer(r)
    ensures FoldFrom(d, RecordsMessages(first, records)) == Success(d.(records := RecordTable(first, records)))
  {
    assert FoldFrom(d, []) == Success(d);
    if records != [] {
      hide RecordMessages, FoldFrom, RecOf;
      var n := |records| - 1;
      assert records == records[..n] + [records[n]];
      FoldRecords(d, first, records[..n]);
      FoldFromConcat(d, RecordsMessages(first, records[..n]), RecordMessages(first + n, records[n]));
      FoldRecord(d.(records := RecordTable(first, records[..n])), first + n, records[n]);
    }
  }

  lemma {:induction false} FoldIsFoldFrom(ms: seq<Message>)
    ensures Fold(ms) == FoldFrom(NOTHING, ms)
  {
    if ms != [] {
      FoldIsFoldFrom(ms[..|ms| - 1]);
    }
  }

  /** Message by message, the upload amounts to the process database. */
  lemma UploadFoldsToTables(pdb: Pdb, first: nat)
    requires first != 0 && Sensible(pdb)
    ensures Fold(UploadMessages(pdb, first)) == Success(TablesOf(pdb, first))
  {
    var env, records := InfoMessages(0, pdb.env), RecordsMessages(first, pdb.records);
    FoldIsFoldFrom(UploadMessages(pdb, first));
    FoldEnv(NOTHING, pdb.env);
    FoldFromConcat(NOTHING, env, records);
    FoldRecords(NOTHING.(infos := InfoTable(pdb.env)), first, pdb.records);
    FoldFromConcat(NOTHING, env + records, [UploadDone]);
    FoldFromOne(TablesOf(pdb, first), UploadDone);
  }
}
