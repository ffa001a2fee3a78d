/**
 Which properties the processor manages (processor.py:104-149) and which it attaches to a record
 (processor.py:223-290). The configured texts are taken as already split: pairs of environment
 variable and property name, and a list of info tags in some order.
 */
module Settings {
  import opened Wrappers
  import opened CfModel
  import opened Properties
  import PushDiff

  datatype Options = Options(
    aliases: bool, recordTypes: bool, envVars: seq<(string, string)>,
    connectionInfo: bool, infoTags: seq<string>, descriptions: bool)

  datatype Settings = Settings(envVars: seq<(string, string)>, tags: seq<string>, managed: set<string>)

  /** A dictionary assignment: the key keeps its place if it has one. */
  function Assign(d: seq<(string, string)>, k: string, v: string): seq<(string, string)> {
    if d == [] then [(k, v)]
    else if d[0].0 == k then [(k, v)] + d[1..]
    else [d[0]] + Assign(d[1..], k, v)
  }

  function Setup(o: Options): Settings {
    var required :=
      PushDiff.FIXED
      + (if o.aliases then {ALIAS} else {})
      + (if o.recordTypes then {RECORD_TYPE} else {})
      + (set e | e in o.envVars :: e.1)
      + (if o.connectionInfo then {CA_PORT, PVA_PORT} else {});
    var env :=
      if o.connectionInfo
      then Assign(Assign(o.envVars, "RSRV_SERVER_PORT", CA_PORT), "PVAS_SERVER_PORT", PVA_PORT)
      else o.envVars;
    var tags := o.infoTags + if o.descriptions && RECORD_DESC !in o.infoTags then [RECORD_DESC] else [];
    Settings(env, tags, required + set t | t in tags)
  }

  /** The whitelisted info tags of one record. */
  function TagProps(tags: seq<string>, infos: map<string, string>, owner: string): seq<Prop> {
    if tags == [] then [] else
    (if tags[0] in infos then [Prop(tags[0], owner, infos[tags[0]])] else []) + TagProps(tags[1..], infos, owner)
  }

  /** The environment variables the IOC sent, under their configured property names. */
  function EnvProps(env: seq<(string, string)>, clientInfos: map<string, string>, owner: string): seq<Prop> {
    if env == [] then [] else
    (if env[0].0 in clientInfos then [Prop(env[0].1, owner, clientInfos[env[0].0])] else [])
    + EnvProps(env[1..], clientInfos, owner)
  }

  /** One record of a transaction: id, name and type, with its infos and aliases. */
  datatype Added = Added(name: string, recordType: string, infos: map<string, string>, aliases: seq<string>)

  function RecordInfoOf(o: Options, a: Added, clientInfos: map<string, string>, owner: string): RecordInfo {
    var s := Setup(o);
    RecordInfo(
      a.name,
      if o.recordTypes then Some(a.recordType) else None,
      TagProps(s.tags, a.infos, owner) + EnvProps(s.envVars, clientInfos, owner),
      a.aliases)
  }

  /** Re-keying by name: of several records with one name the first in the transaction wins. */
  function ByName(o: Options, added: seq<Added>, clientInfos: map<string, string>, owner: string)
    : map<string, RecordInfo>
  {
    if added == [] then map[] else
    var before := ByName(o, added[..|added| - 1], clientInfos, owner);
    var a := added[|added| - 1];
    if a.name in before then before else before[a.name := RecordInfoOf(o, a, clientInfos, owner)]
  }

  // ----------------------------------------------------------------

  lemma {:induction false} TagPropsNames(tags: seq<string>, infos: map<string, string>, owner: string)
    ensures forall p | p in TagProps(tags, infos, owner) ::
              p.name in tags && p.name in infos && p.value == infos[p.name]
    ensures forall t | t in tags && t in infos :: Has(TagProps(tags, infos, owner), t, infos[t])
  {
    if tags == [] {
    } else {
      TagPropsNames(tags[1..], infos, owner);
      var rest, all := TagProps(tags[1..], infos, owner), TagProps(tags, infos, owner);
      if tags[0] in infos {
        assert all == [Prop(tags[0], owner, infos[tags[0]])] + rest;
        assert all[0] in all;
      } else {
        assert all == rest;
      }
      forall t | t in tags && t in infos ensures Has(all, t, infos[t]) {
        if t in tags[1..] {
          var p :| p in rest && p.name == t && p.value == infos[t];
          assert p in all;
        }
      }
    }
  }

  /** Property `p` is what the IOC says about one of the configured variables. */
  ghost predicate FromEnv(env: seq<(string, string)>, clientInfos: map<string, string>, p: Prop) {
    exists e | e in env :: e.1 == p.name && e.0 in clientInfos && p.value == clientInfos[e.0]
  }

  lemma {:induction false} EnvPropsNames(env: seq<(string, string)>, clientInfos: map<string, string>, owner: string)
    ensures forall p | p in EnvProps(env, clientInfos, owner) :: FromEnv(env, clientInfos, p) && p.owner == owner
    ensures forall e | e in env && e.0 in clientInfos :: Has(EnvProps(env, clientInfos, owner), e.1, clientInfos[e.0])
  {
    if env != [] {
      EnvPropsNames(env[1..], clientInfos, owner);
      var rest, all := EnvProps(env[1..], clientInfos, owner), EnvProps(env, clientInfos, owner);
      assert env[0] in env;
      forall p | p in all ensures FromEnv(env, clientInfos, p) && p.owner == owner {
        if p in rest {
          var e :| e in env[1..] && e.1 == p.name && e.0 in clientInfos && p.value == clientInfos[e.0];
          assert e in env;
        }
      }
      forall e | e in env && e.0 in clientInfos ensures Has(all, e.1, clientInfos[e.0]) {
        if e in env[1..] {
          var p :| p in rest && p.name == e.1 && p.value == clientInfos[e.0];
          assert p in all;
        } else {
          assert all[0] == Prop(e.1, owner, clientInfos[e.0]) && all[0] in all;
        }
      }
    }
  }

  /** Every entry but the one under this key stays, and the key has its new value. */
  lemma {:induction false} AssignValues(d: seq<(string, string)>, k: string, v: string)
    ensures forall e | e in Assign(d, k, v) :: e in d || e == (k, v)
    ensures (k, v) in Assign(d, k, v) && forall e | e in d && e.0 != k :: e in Assign(d, k, v)
  {
    if d != [] && d[0].0 != k {
      AssignValues(d[1..], k, v);
    }
  }

  /** Added record k is the first of its name. */
  predicate IsFirst(added: seq<Added>, k: nat) {
    k < |added| && forall j | 0 <= j < k :: added[j].name != added[k].name
  }

  /** Exactly the names of the transaction are keys. */
  lemma {:induction false} ByNameKeys(o: Options, added: seq<Added>, clientInfos: map<string, string>, owner: string,
                                      n: string)
    ensures n in ByName(o, added, clientInfos, owner) <==> exists a | a in added :: a.name == n
  {
    if added != [] {
      hide RecordInfoOf;
      var m := |added| - 1;
      assert added == added[..m] + [added[m]];
      ByNameKeys(o, added[..m], clientInfos, owner, n);
    }
  }

  /** And each has the record that came first under it. */
  lemma {:induction false} ByNameIsFirst(o: Options, added: seq<Added>, clientInfos: map<string, string>,
                                         owner: string, k: nat)
    requires IsFirst(added, k)
    ensures added[k].name in ByName(o, added, clientInfos, owner)
    ensures ByName(o, added, clientInfos, owner)[added[k].name] == RecordInfoOf(o, added[k], clientInfos, owner)
  {
    hide RecordInfoOf;
    var m := |added| - 1;
    ByNameKeys(o, added[..m], clientInfos, owner, added[k].name);
    if k < m {
      ByNameIsFirst(o, added[..m], clientInfos, owner, k);
    }
  }

  lemma ByNameFrom(o: Options, added: seq<Added>, clientInfos: map<string, string>, owner: string, n: string)
    requires n in ByName(o, added, clientInfos, owner)
    ensures exists a | a in added ::
              a.name == n && ByName(o, added, clientInfos, owner)[n] == RecordInfoOf(o, a, clientInfos, owner)
  {
    hide ByName, RecordInfoOf;
    ByNameKeys(o, added, clientInfos, owner, n);
    var k := FirstOf(added, n);
    ByNameIsFirst(o, added, clientInfos, owner, k);
    assert added[k] in added;
  }

  lemma {:induction false} FirstOf(added: seq<Added>, n: string) returns (k: nat)
    requires exists a | a in added :: a.name == n
    ensures IsFirst(added, k) && added[k].name == n
  {
    if added[0].name == n {
      k := 0;
    } else {
      var a :| a in added && a.name == n;
      assert a in added[1..];
      k := FirstOf(added[1..], n);
      k := k + 1;
    }
  }

  /**
   What a record says: every whitelisted info tag it came with and every configured variable its IOC sent, each with
   the value sent, and nothing else.
   */
  lemma RecordSaysWhatWasSent(o: Options, a: Added, clientInfos: map<string, string>, owner: string)
    ensures var ps, s := RecordInfoOf(o, a, clientInfos, owner).infoProps, Setup(o);
            && (forall t | t in s.tags && t in a.infos :: Has(ps, t, a.infos[t]))
            && (forall e | e in s.envVars && e.0 in clientInfos :: Has(ps, e.1, clientInfos[e.0]))
            && forall p | p in ps ::
                 (p.name in s.tags && p.name in a.infos && p.value == a.infos[p.name])
                 || FromEnv(s.envVars, clientInfos, p)
  {
    hide Setup, TagProps, EnvProps, Has, FromEnv;
    var s := Setup(o);
    TagPropsNames(s.tags, a.infos, owner);
    EnvPropsNames(s.envVars, clientInfos, owner);
    var tags, env := TagProps(s.tags, a.infos, owner), EnvProps(s.envVars, clientInfos, owner);
    forall name, value ensures Has(tags, name, value) || Has(env, name, value) ==> Has(tags + env, name, value) {
      HasEither(tags, env, name, value);
    }
  }

  lemma HasEither(a: seq<Prop>, b: seq<Prop>, name: string, value: string)
    ensures Has(a + b, name, value) <==> Has(a, name, value) || Has(b, name, value)
  {
    if Has(a, name, value) {
      var p :| p in a && p.name == name && p.value == value;
      assert p in a + b;
    }
    if Has(b, name, value) {
      var p :| p in b && p.name == name && p.value == value;
      assert p in a + b;
    }
  }

  lemma InfoPropsManaged(o: Options, a: Added, clientInfos: map<string, string>, owner: string)
    ensures Names(RecordInfoOf(o, a, clientInfos, owner).infoProps) <= Setup(o).managed
  {
    var s := Setup(o);
    TagPropsNames(s.tags, a.infos, owner);
    EnvPropsNames(s.envVars, clientInfos, owner);
    var base := o.envVars;
    AssignValues(base, "RSRV_SERVER_PORT", CA_PORT);
    AssignValues(Assign(base, "RSRV_SERVER_PORT", CA_PORT), "PVAS_SERVER_PORT", PVA_PORT);
    forall e | e in s.envVars ensures e.1 in s.managed {
    }
  }

  /**
   Every name the processor can write is in `managed_properties`, whatever the configuration and
   whatever the IOC sends. This is what UserPropertiesSurvive asks for.
   */
  lemma WrittenNamesAreManaged(o: Options, added: seq<Added>, clientInfos: map<string, string>, owner: string,
                               p: PushDiff.Push)
    requires p.managed == Setup(o).managed && p.recordTypes == o.recordTypes
    requires p.records == ByName(o, added, clientInfos, owner)
    ensures PushDiff.WritesManaged(p)
  {
    forall n | n in p.records ensures Names(p.records[n].infoProps) <= p.managed {
      ByNameFrom(o, added, clientInfos, owner, n);
      var a :| a in added && a.name == n && p.records[n] == RecordInfoOf(o, a, clientInfos, owner);
      InfoPropsManaged(o, a, clientInfos, owner);
    }
  }

  /**
   The configured variables and tags are all looked for; connection info adds the two server ports, under their own
   property names whatever was configured for these variables, and descriptions one tag.
   */
  lemma SetupKeepsConfiguration(o: Options)
    ensures var s := Setup(o);
            && (forall e | e in o.envVars && !(o.connectionInfo && e.0 in {"RSRV_SERVER_PORT", "PVAS_SERVER_PORT"}) ::
                  e in s.envVars)
            && (o.connectionInfo ==>
                  ("RSRV_SERVER_PORT", CA_PORT) in s.envVars && ("PVAS_SERVER_PORT", PVA_PORT) in s.envVars)
            && (forall t | t in o.infoTags :: t in s.tags)
            && (o.descriptions ==> RECORD_DESC in s.tags)
  {
    var ca := Assign(o.envVars, "RSRV_SERVER_PORT", CA_PORT);
    AssignValues(o.envVars, "RSRV_SERVER_PORT", CA_PORT);
    AssignValues(ca, "PVAS_SERVER_PORT", PVA_PORT);
  }

  predicate AvoidsFixed(o: Options) {
    && (forall t | t in o.infoTags :: t !in PushDiff.FIXED)
    && (forall e | e in o.envVars :: e.1 !in PushDiff.FIXED)
  }

  lemma SetupAvoidsFixed(o: Options)
    requires AvoidsFixed(o)
    ensures forall t | t in Setup(o).tags :: t !in PushDiff.FIXED
    ensures forall e | e in Setup(o).envVars :: e.1 !in PushDiff.FIXED
  {
    assert CA_PORT !in PushDiff.FIXED && PVA_PORT !in PushDiff.FIXED && RECORD_DESC !in PushDiff.FIXED;
    AssignValues(o.envVars, "RSRV_SERVER_PORT", CA_PORT);
    AssignValues(Assign(o.envVars, "RSRV_SERVER_PORT", CA_PORT), "PVAS_SERVER_PORT", PVA_PORT);
  }

  lemma InfoPropsAvoidFixed(o: Options, a: Added, clientInfos: map<string, string>, owner: string)
    requires AvoidsFixed(o)
    ensures Names(RecordInfoOf(o, a, clientInfos, owner).infoProps) !! PushDiff.FIXED
  {
    SetupAvoidsFixed(o);
    TagPropsNames(Setup(o).tags, a.infos, owner);
    EnvPropsNames(Setup(o).envVars, clientInfos, owner);
  }

  /**
   The condition on the configuration under which pushes converge: info tags and environment
   properties that avoid the seven fixed names never clash with them.
   */
  lemma SeparateNamesNeverClash(o: Options, added: seq<Added>, clientInfos: map<string, string>, owner: string,
                                p: PushDiff.Push)
    requires AvoidsFixed(o)
    requires p.records == ByName(o, added, clientInfos, owner)
    ensures PushDiff.NoClash(p)
  {
    forall n | n in p.records ensures Names(p.records[n].infoProps) !! PushDiff.FIXED {
      ByNameFrom(o, added, clientInfos, owner, n);
      var a :| a in added && a.name == n && p.records[n] == RecordInfoOf(o, a, clientInfos, owner);
      InfoPropsAvoidFixed(o, a, clientInfos, owner);
    }
  }
}
