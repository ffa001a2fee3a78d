/**
 The diff one commit writes to ChannelFinder (processor.py:516-764, aliases off).

 ChannelFinder is a map from names to channels; writing a channel creates or overwrites it.
 `find_by_ioc_id` and the iteration over the Python set of new names come in an order the code does
 not control: `olds` and `order` are arbitrary enumerations.
 */
module PushDiff {
  import opened Wrappers
  import opened CfModel
  import opened Lists
  import opened Properties
  import opened ChannelIndex

  type Cf = map<string, Channel>

  ghost predicate WellKeyed(cf: Cf) {
    forall n | n in cf :: cf[n].name == n
  }

  predicate IsTagged(c: Channel, ioc: string) {
    Has(c.props, IOC_ID, ioc)
  }

  /** The answer of find_by_ioc_id. */
  function Tagged(cf: Cf, ioc: string): set<string> {
    set n | n in cf && IsTagged(cf[n], ioc)
  }

  /** Everything _update_channelfinder reads besides ChannelFinder itself. */
  datatype Push = Push(
    ix: Index, managed: set<string>, recceiverId: string, recordTypes: bool,
    info: IocInfo, records: map<string, RecordInfo>, deleted: set<string>)

  /** Data commits delete no names, disconnects carry no records. */
  ghost predicate Proper(p: Push) {
    && (p.deleted == {} || p.records == map[])
    && ListsOk(p.ix)
  }

  function IocProps(owner: string, time: string, recceiverId: string, of: IocInfo): seq<Prop> {
    [ Prop(HOSTNAME, owner, of.hostname),
      Prop(IOC_NAME, owner, of.iocName),
      Prop(IOC_ID, owner, of.id),
      Prop(IOC_IP, owner, of.iocIp),
      Prop(PV_STATUS, owner, ACTIVE),
      Prop(TIME, owner, time),
      Prop(RECCEIVER_ID, owner, recceiverId) ]
  }

  const FIXED: set<string> := {HOSTNAME, IOC_NAME, IOC_ID, IOC_IP, PV_STATUS, TIME, RECCEIVER_ID}

  function StatusProps(info: IocInfo, status: string): seq<Prop> {
    [Prop(PV_STATUS, info.owner, status), Prop(TIME, info.owner, info.time)]
  }

  function Orphaned(p: Push, c: Channel): Channel {
    c.(props := Merge(StatusProps(p.info, INACTIVE), c.props, {}))
  }

  function Reassigned(p: Push, c: Channel, last: IocInfo): Channel {
    c.(owner := last.owner,
       props := Merge(IocProps(p.info.owner, p.info.time, p.recceiverId, last), c.props, p.managed))
  }

  /** A channel of this IOC that the commit gives up: back to its last owner, or inactive. */
  function OldOnly(p: Push, c: Channel): Channel
    requires ListsOk(p.ix)
  {
    if c.name in p.ix.owners then
      var owners := p.ix.owners[c.name];
      var last := owners[|owners| - 1];
      if last in p.ix.iocs then Reassigned(p, c, p.ix.iocs[last]) else Orphaned(p, c)
    else Orphaned(p, c)
  }

  function Refreshed(p: Push, c: Channel): Channel {
    c.(props := Merge(StatusProps(p.info, ACTIVE), c.props, p.managed))
  }

  function NewProps(p: Push, name: string): seq<Prop>
    requires name in p.records
  {
    var r := p.records[name];
    IocProps(p.info.owner, p.info.time, p.recceiverId, p.info)
    + (if p.recordTypes && r.recordType.Some? && r.recordType.value != ""
       then [Prop(RECORD_TYPE, p.info.owner, r.recordType.value)] else [])
    + r.infoProps
  }

  /** A record not found under this IOC: moved here if ChannelFinder knows it, created otherwise. */
  function NewChannel(p: Push, cf: Cf, name: string): Channel
    requires name in p.records
  {
    if name in cf then cf[name].(props := Merge(NewProps(p, name), cf[name].props, p.managed))
    else Channel(name, p.info.owner, NewProps(p, name))
  }

  /** One old channel; `news` is what remains of the set of new names. */
  function ScanOne(p: Push, c: Channel, news: set<string>): (Option<Channel>, set<string>)
    requires ListsOk(p.ix)
  {
    if news == {} || c.name in p.deleted then (Some(OldOnly(p, c)), news)
    else if c.name in news then (Some(Refreshed(p, c)), news - {c.name})
    else (None, news)
  }

  function Scan(p: Push, cf: Cf, olds: seq<string>): (seq<Channel>, set<string>)
    requires ListsOk(p.ix) && forall n | n in olds :: n in cf
  {
    if olds == [] then ([], p.records.Keys) else
    var n := |olds| - 1;
    var (written, news) := Scan(p, cf, olds[..n]);
    var (w, rest) := ScanOne(p, cf[olds[n]], news);
    (if w.Some? then written + [w.value] else written, rest)
  }

  function Creations(p: Push, cf: Cf, order: seq<string>): seq<Channel>
    requires forall n | n in order :: n in p.records
  {
    seq(|order|, k requires 0 <= k < |order| => NewChannel(p, cf, order[k]))
  }

  ghost predicate Enumerates(s: seq<string>, names: set<string>) {
    NoDups(s) && forall n :: n in s <==> n in names
  }

  /** `olds` lists what ChannelFinder returns for this IOC, `order` what is left of the new names. */
  ghost predicate Choices(p: Push, cf: Cf, olds: seq<string>, order: seq<string>) {
    && Proper(p) && WellKeyed(cf)
    && Enumerates(olds, Tagged(cf, p.info.id))
    && Enumerates(order, p.records.Keys - Tagged(cf, p.info.id))
  }

  function Writes(p: Push, cf: Cf, olds: seq<string>, order: seq<string>): seq<Channel>
    requires Choices(p, cf, olds, order)
  {
    Scan(p, cf, olds).0 + Creations(p, cf, order)
  }

  /** What the commit wants a channel to look like, read off ChannelFinder before the first write. */
  function Target(p: Push, cf: Cf, name: string): Channel
    requires Proper(p) && (name in p.records || name in cf)
  {
    if name !in p.records then OldOnly(p, cf[name])
    else if name in Tagged(cf, p.info.id) then Refreshed(p, cf[name])
    else NewChannel(p, cf, name)
  }

  function NamesOf(ws: seq<Channel>): seq<string> {
    seq(|ws|, k requires 0 <= k < |ws| => ws[k].name)
  }

  // ---------------------------------------------------------------- the shape of the written list

  /** What scanning `olds` has led to. */
  ghost predicate Scanned(p: Push, cf: Cf, olds: seq<string>, ws: seq<Channel>, rest: set<string>)
    requires Proper(p) && forall n | n in olds :: n in cf
  {
    && rest == p.records.Keys - (set n | n in olds)
    && NoDups(NamesOf(ws))
    && (forall w | w in ws :: w.name in olds && w == Target(p, cf, w.name))
    && (forall n | n in olds && (n in p.records || n in p.deleted || p.records == map[]) :: n in NamesOf(ws))
  }

  lemma ScannedMore(p: Push, cf: Cf, olds: seq<string>, ws: seq<Channel>, rest: set<string>, w: Channel)
    requires Proper(p) && forall n | n in olds + [w.name] :: n in cf
    requires Scanned(p, cf, olds, ws, rest) && w.name !in olds && w == Target(p, cf, w.name)
    ensures Scanned(p, cf, olds + [w.name], ws + [w], rest - {w.name})
  {
    hide Target;
    assert NamesOf(ws + [w]) == NamesOf(ws) + [w.name];
    forall k | 0 <= k < |ws| ensures NamesOf(ws)[k] != w.name {
      assert ws[k] in ws;
    }
  }

  lemma ScannedPast(p: Push, cf: Cf, olds: seq<string>, ws: seq<Channel>, rest: set<string>, n: string)
    requires Proper(p) && forall m | m in olds + [n] :: m in cf
    requires Scanned(p, cf, olds, ws, rest) && n !in p.records && n !in p.deleted && p.records != map[]
    ensures Scanned(p, cf, olds + [n], ws, rest)
  {
    hide Target;
  }

  lemma ScanOneTarget(p: Push, cf: Cf, olds: seq<string>, n: string)
    requires Proper(p) && WellKeyed(cf) && n in cf && n in Tagged(cf, p.info.id) && n !in olds
    ensures var (w, rest) := ScanOne(p, cf[n], p.records.Keys - (set m | m in olds));
            && (w.Some? ==> w.value.name == n && w.value == Target(p, cf, n)
                            && rest == p.records.Keys - (set m | m in olds) - {n})
            && (w.None? ==> n !in p.records && n !in p.deleted && p.records != map[]
                            && rest == p.records.Keys - (set m | m in olds))
  {
    assert n in p.records.Keys - (set m | m in olds) <==> n in p.records;
    assert n !in p.records ==> p.records.Keys - (set m | m in olds) - {n} == p.records.Keys - (set m | m in olds);
  }

  /**
   The order in which ChannelFinder lists the old channels does not matter: a name that is both old and
   new is still among the new names when its turn comes, so it is always refreshed; and once the new
   names run out every further old channel is given up.
   */
  lemma {:induction false} ScanShape(p: Push, cf: Cf, olds: seq<string>)
    requires Proper(p) && WellKeyed(cf) && NoDups(olds)
    requires forall n | n in olds :: n in cf && n in Tagged(cf, p.info.id)
    ensures Scanned(p, cf, olds, Scan(p, cf, olds).0, Scan(p, cf, olds).1)
  {
    if olds != [] {
      hide OldOnly, Refreshed, NewChannel, ScanOne, Target;
      var n := |olds| - 1;
      assert olds == olds[..n] + [olds[n]];
      ScanShape(p, cf, olds[..n]);
      var (ws, news) := Scan(p, cf, olds[..n]);
      ScanOneTarget(p, cf, olds[..n], olds[n]);
      var w := ScanOne(p, cf[olds[n]], news).0;
      if w.Some? {
        ScannedMore(p, cf, olds[..n], ws, news, w.value);
      } else {
        ScannedPast(p, cf, olds[..n], ws, news, olds[n]);
      }
    }
  }

  lemma CreationsShape(p: Push, cf: Cf, order: seq<string>)
    requires Proper(p) && NoDups(order) && WellKeyed(cf)
    requires forall n | n in order :: n in p.records && n !in Tagged(cf, p.info.id)
    ensures var ws := Creations(p, cf, order);
            && NamesOf(ws) == order
            && forall w | w in ws :: w.name in p.records && w == Target(p, cf, w.name)
  {
    var ws := Creations(p, cf, order);
    forall k | 0 <= k < |ws| ensures ws[k].name == order[k] && ws[k] == Target(p, cf, order[k]) {
      assert order[k] in order;
    }
  }

  /** A write list names every channel at most once, and each entry is what the commit wants that channel to be. */
  ghost predicate GoodList(p: Push, cf: Cf, ws: seq<Channel>)
    requires Proper(p)
  {
    && NoDups(NamesOf(ws))
    && (forall w | w in ws ::
          && (w.name in p.records || (w.name in cf && w.name in Tagged(cf, p.info.id)))
          && w == Target(p, cf, w.name))
  }

  lemma DisjointNames(a: seq<string>, b: seq<string>)
    requires NoDups(a) && NoDups(b) && forall n | n in a :: n !in b
    ensures NoDups(a + b)
  {
    forall x, y | 0 <= x < y < |a + b| ensures (a + b)[x] != (a + b)[y] {
      if x < |a| <= y {
        assert a[x] in a && b[y - |a|] in b;
      }
    }
  }

  lemma MemberName(ws: seq<Channel>, n: string) returns (w: Channel)
    requires n in NamesOf(ws)
    ensures w in ws && w.name == n
  {
    var k :| 0 <= k < |ws| && NamesOf(ws)[k] == n;
    w := ws[k];
  }

  lemma JoinLists(p: Push, cf: Cf, a: seq<Channel>, b: seq<Channel>)
    requires Proper(p) && GoodList(p, cf, a) && GoodList(p, cf, b)
    requires forall n | n in NamesOf(a) :: n !in NamesOf(b)
    ensures GoodList(p, cf, a + b) && NamesOf(a + b) == NamesOf(a) + NamesOf(b)
  {
    assert NamesOf(a + b) == NamesOf(a) + NamesOf(b);
    DisjointNames(NamesOf(a), NamesOf(b));
  }

  lemma ScanGood(p: Push, cf: Cf, olds: seq<string>)
    requires Proper(p) && WellKeyed(cf) && Enumerates(olds, Tagged(cf, p.info.id))
    ensures forall n | n in olds :: n in cf
    ensures GoodList(p, cf, Scan(p, cf, olds).0)
    ensures forall n | n in NamesOf(Scan(p, cf, olds).0) :: n in olds
    ensures forall n | n in olds && (n in p.records || p.records == map[]) :: n in NamesOf(Scan(p, cf, olds).0)
  {
    forall n | n in olds ensures n in cf && n in Tagged(cf, p.info.id) { }
    ScanShape(p, cf, olds);
    forall n | n in NamesOf(Scan(p, cf, olds).0) ensures n in olds {
      var w := MemberName(Scan(p, cf, olds).0, n);
    }
  }

  lemma WritesShape(p: Push, cf: Cf, olds: seq<string>, order: seq<string>)
    requires Choices(p, cf, olds, order)
    ensures GoodList(p, cf, Writes(p, cf, olds, order))
    ensures forall n | n in p.records :: n in NamesOf(Writes(p, cf, olds, order))
    ensures p.records == map[] ==>
              forall n | n in Tagged(cf, p.info.id) :: n in NamesOf(Writes(p, cf, olds, order))
  {
    ScanGood(p, cf, olds);
    CreationsShape(p, cf, order);
    JoinLists(p, cf, Scan(p, cf, olds).0, Creations(p, cf, order));
    forall n | n in p.records ensures n in NamesOf(Writes(p, cf, olds, order)) {
      assert n in olds || n in order;
    }
  }

  // ---------------------------------------------------------------- writing the list

  /** set_channels: create or overwrite, in list order. */
  function Apply(cf: Cf, ws: seq<Channel>): Cf {
    if ws == [] then cf else
    var w := ws[|ws| - 1];
    Apply(cf, ws[..|ws| - 1])[w.name := w]
  }

  lemma {:induction false} ApplyConcat(cf: Cf, a: seq<Channel>, b: seq<Channel>)
    ensures Apply(Apply(cf, a), b) == Apply(cf, a + b)
  {
    if b == [] {
      assert a + b == a;
    } else {
      assert (a + b)[..|a + b| - 1] == a + b[..|b| - 1];
      ApplyConcat(cf, a, b[..|b| - 1]);
    }
  }

  lemma {:induction false} ApplyAt(cf: Cf, ws: seq<Channel>, n: string)
    requires NoDups(NamesOf(ws))
    ensures forall k | 0 <= k < |ws| && ws[k].name == n :: n in Apply(cf, ws) && Apply(cf, ws)[n] == ws[k]
    ensures n !in NamesOf(ws) ==> (n in Apply(cf, ws) <==> n in cf)
    ensures n !in NamesOf(ws) && n in cf ==> Apply(cf, ws)[n] == cf[n]
  {
    if ws == [] {
    } else {
      var m := |ws| - 1;
      assert NamesOf(ws[..m]) == NamesOf(ws)[..m];
      assert NamesOf(ws) == NamesOf(ws[..m]) + [ws[m].name];
      ApplyAt(cf, ws[..m], n);
      forall k | 0 <= k < |ws| && ws[k].name == n ensures n in Apply(cf, ws) && Apply(cf, ws)[n] == ws[k] {
        if k < m {
          assert NamesOf(ws)[k] != NamesOf(ws)[m];
          assert ws[..m][k] == ws[k];
        }
      }
    }
  }

  /** ChannelFinder after the first k channels of the list have been written. */
  function Landed(p: Push, cf: Cf, olds: seq<string>, order: seq<string>, k: nat): Cf
    requires Choices(p, cf, olds, order) && k <= |Writes(p, cf, olds, order)|
  {
    Apply(cf, Writes(p, cf, olds, order)[..k])
  }

  /** Any one channel is either as it was or as the commit wants it, whatever part of the list has been written. */
  lemma LandedAt(p: Push, cf: Cf, olds: seq<string>, order: seq<string>, k: nat, n: string)
    requires Choices(p, cf, olds, order) && k <= |Writes(p, cf, olds, order)|
    ensures var r := Landed(p, cf, olds, order, k);
            || ((n in r <==> n in cf) && (n in cf ==> r[n] == cf[n]))
            || (&& (n in p.records || (n in cf && n in Tagged(cf, p.info.id)))
                && n in r && r[n] == Target(p, cf, n))
    ensures var r := Landed(p, cf, olds, order, k);
            && k == |Writes(p, cf, olds, order)|
            && (n in p.records || (p.records == map[] && n in cf && n in Tagged(cf, p.info.id)))
            ==> n in r && r[n] == Target(p, cf, n)
  {
    WritesShape(p, cf, olds, order);
    var all := Writes(p, cf, olds, order);
    var ws := all[..k];
    assert NamesOf(ws) == NamesOf(all)[..k];
    ApplyAt(cf, ws, n);
    if n in NamesOf(ws) {
      var j :| 0 <= j < |ws| && NamesOf(ws)[j] == n;
      assert ws[j] == all[j] && all[j] in all;
    }
    if k == |all| {
      assert ws == all;
    }
  }

  /** Old channels that are not among the records are passed over as long as there are new names. */
  lemma {:induction false} ScanOfStrangers(p: Push, cf: Cf, olds: seq<string>)
    requires ListsOk(p.ix) && p.deleted == {} && p.records != map[]
    requires forall n | n in olds :: n in cf && cf[n].name == n && n !in p.records
    ensures Scan(p, cf, olds) == ([], p.records.Keys)
  {
    if olds != [] {
      ScanOfStrangers(p, cf, olds[..|olds| - 1]);
      assert p.records.Keys != {};
    }
  }

  lemma StrangersAreKept(p: Push, cf: Cf, olds: seq<string>, order: seq<string>, n: string)
    requires Choices(p, cf, olds, order) && p.deleted == {} && p.records != map[]
    requires (forall m | m in Tagged(cf, p.info.id) :: m !in p.records) && n !in p.records
    ensures var r := Landed(p, cf, olds, order, |Writes(p, cf, olds, order)|);
            (n in r <==> n in cf) && (n in cf ==> r[n] == cf[n])
  {
    ScanOfStrangers(p, cf, olds);
    CreationsShape(p, cf, order);
    var all := Writes(p, cf, olds, order);
    assert all == Creations(p, cf, order) && all[..|all|] == all;
    ApplyAt(cf, all, n);
    assert n !in NamesOf(all);
  }

  lemma LandedIsWellKeyed(p: Push, cf: Cf, olds: seq<string>, order: seq<string>, k: nat)
    requires Choices(p, cf, olds, order) && k <= |Writes(p, cf, olds, order)|
    ensures WellKeyed(Landed(p, cf, olds, order, k))
  {
    var r := Landed(p, cf, olds, order, k);
    forall n | n in r ensures r[n].name == n {
      LandedAt(p, cf, olds, order, k, n);
    }
  }

  // ---------------------------------------------------------------- what every diff preserves

  /** What _setup_cf_properties guarantees about the names the processor writes; see Settings. */
  ghost predicate WritesManaged(p: Push) {
    && FIXED <= p.managed
    && (p.recordTypes ==> RECORD_TYPE in p.managed)
    && forall n | n in p.records :: Names(p.records[n].infoProps) <= p.managed
  }

  /** Configured property names do not reuse one of the fixed names. */
  ghost predicate NoClash(p: Push) {
    forall n | n in p.records :: Names(p.records[n].infoProps) !! FIXED
  }

  lemma NewPropsManaged(p: Push, name: string)
    requires WritesManaged(p) && name in p.records
    ensures Names(NewProps(p, name)) <= p.managed
  {
    forall q | q in NewProps(p, name) ensures q.name in p.managed {
      if q in p.records[name].infoProps {
        assert q.name in Names(p.records[name].infoProps);
      }
    }
  }

  /** Every branch of the diff keeps the properties the processor does not manage. */
  lemma TargetKeepsUserProperties(p: Push, cf: Cf, n: string)
    requires Proper(p) && WritesManaged(p) && n in cf
    ensures Without(Target(p, cf, n).props, p.managed) == Without(cf[n].props, p.managed)
  {
    var prior := cf[n].props;
    assert Names(StatusProps(p.info, ACTIVE)) <= FIXED;
    assert Names(StatusProps(p.info, INACTIVE)) <= FIXED;
    forall of: IocInfo ensures Names(IocProps(p.info.owner, p.info.time, p.recceiverId, of)) <= FIXED {
    }
    if n !in p.records {
      var c := cf[n];
      if c.name in p.ix.owners && p.ix.owners[c.name][|p.ix.owners[c.name]| - 1] in p.ix.iocs {
        var last := p.ix.iocs[p.ix.owners[c.name][|p.ix.owners[c.name]| - 1]];
        MergeKeepsUserProperties(IocProps(p.info.owner, p.info.time, p.recceiverId, last), prior, p.managed, p.managed);
      } else {
        MergeKeepsUserProperties(StatusProps(p.info, INACTIVE), prior, {}, p.managed);
      }
    } else if n in Tagged(cf, p.info.id) {
      MergeKeepsUserProperties(StatusProps(p.info, ACTIVE), prior, p.managed, p.managed);
    } else {
      NewPropsManaged(p, n);
      MergeKeepsUserProperties(NewProps(p, n), prior, p.managed, p.managed);
    }
  }

  /** However much of the list has been written, every channel still has all its unmanaged properties, in order. */
  lemma UserPropertiesSurvive(p: Push, cf: Cf, olds: seq<string>, order: seq<string>, k: nat, n: string)
    requires Choices(p, cf, olds, order) && k <= |Writes(p, cf, olds, order)|
    requires WritesManaged(p) && n in cf
    ensures n in Landed(p, cf, olds, order, k)
    ensures Without(Landed(p, cf, olds, order, k)[n].props, p.managed) == Without(cf[n].props, p.managed)
  {
    LandedAt(p, cf, olds, order, k, n);
    TargetKeepsUserProperties(p, cf, n);
  }

  /** A channel neither tagged with this IOC nor among its records is never touched. */
  lemma OthersUntouched(p: Push, cf: Cf, olds: seq<string>, order: seq<string>, k: nat, n: string)
    requires Choices(p, cf, olds, order) && k <= |Writes(p, cf, olds, order)|
    requires n !in p.records && n !in Tagged(cf, p.info.id)
    ensures n in Landed(p, cf, olds, order, k) <==> n in cf
    ensures n in cf ==> Landed(p, cf, olds, order, k)[n] == cf[n]
  {
    LandedAt(p, cf, olds, order, k, n);
  }

  // ---------------------------------------------------------------- what a complete push achieves

  lemma IocPropsSole(owner: string, time: string, recceiverId: string, of: IocInfo)
    ensures var base := IocProps(owner, time, recceiverId, of);
            Sole(base, IOC_ID, of.id) && Sole(base, PV_STATUS, ACTIVE) && Sole(base, TIME, time)
  {
    var base := IocProps(owner, time, recceiverId, of);
    assert base[2] in base && base[4] in base && base[5] in base;
  }

  lemma SoleConcat(a: seq<Prop>, b: seq<Prop>, name: string, value: string)
    requires Sole(a, name, value) && name !in Names(b)
    ensures Sole(a + b, name, value)
  {
    var q :| q in a && q.name == name && q.value == value;
    assert q in a + b;
  }

  lemma NewPropsSole(p: Push, name: string)
    requires NoClash(p) && name in p.records
    ensures var ps := NewProps(p, name);
            Sole(ps, IOC_ID, p.info.id) && Sole(ps, PV_STATUS, ACTIVE) && Sole(ps, TIME, p.info.time)
  {
    var base := IocProps(p.info.owner, p.info.time, p.recceiverId, p.info);
    var r := p.records[name];
    var extra := if p.recordTypes && r.recordType.Some? && r.recordType.value != ""
                 then [Prop(RECORD_TYPE, p.info.owner, r.recordType.value)] else [];
    IocPropsSole(p.info.owner, p.info.time, p.recceiverId, p.info);
    assert IOC_ID in FIXED && PV_STATUS in FIXED && TIME in FIXED;
    assert RECORD_TYPE != IOC_ID && RECORD_TYPE != PV_STATUS && RECORD_TYPE != TIME;
    SoleConcat(base, extra, IOC_ID, p.info.id);
    SoleConcat(base, extra, PV_STATUS, ACTIVE);
    SoleConcat(base, extra, TIME, p.info.time);
    SoleConcat(base + extra, r.infoProps, IOC_ID, p.info.id);
    SoleConcat(base + extra, r.infoProps, PV_STATUS, ACTIVE);
    SoleConcat(base + extra, r.infoProps, TIME, p.info.time);
  }

  lemma RecordTarget(p: Push, cf: Cf, n: string)
    requires Proper(p) && WellKeyed(cf) && FIXED <= p.managed && NoClash(p) && n in p.records
    ensures var c := Target(p, cf, n);
            && c.name == n
            && Sole(c.props, PV_STATUS, ACTIVE) && Sole(c.props, TIME, p.info.time)
            && (n !in Tagged(cf, p.info.id) ==> Sole(c.props, IOC_ID, p.info.id))
            && (n in Tagged(cf, p.info.id) ==> forall v :: !Has(c.props, IOC_ID, v))
  {
    if n in Tagged(cf, p.info.id) {
      var s := StatusProps(p.info, ACTIVE);
      assert s[0] in s && s[1] in s;
      MergeSets(s, cf[n].props, p.managed, PV_STATUS, ACTIVE);
      MergeSets(s, cf[n].props, p.managed, TIME, p.info.time);
      assert IOC_ID in p.managed && IOC_ID !in Names(s);
      forall v ensures !Has(Target(p, cf, n).props, IOC_ID, v) {
        MergeOfUnwritten(s, cf[n].props, p.managed, IOC_ID, v);
      }
    } else {
      NewPropsSole(p, n);
      if n in cf {
        MergeSets(NewProps(p, n), cf[n].props, p.managed, IOC_ID, p.info.id);
        MergeSets(NewProps(p, n), cf[n].props, p.managed, PV_STATUS, ACTIVE);
        MergeSets(NewProps(p, n), cf[n].props, p.managed, TIME, p.info.time);
      }
    }
  }

  /** When the whole list is written every record is present, Active and carries the time of this commit. */
  lemma PushConverges(p: Push, cf: Cf, olds: seq<string>, order: seq<string>, n: string)
    requires Choices(p, cf, olds, order) && FIXED <= p.managed && NoClash(p) && n in p.records
    ensures var r := Landed(p, cf, olds, order, |Writes(p, cf, olds, order)|);
            n in r && Sole(r[n].props, PV_STATUS, ACTIVE) && Sole(r[n].props, TIME, p.info.time)
  {
    LandedAt(p, cf, olds, order, |Writes(p, cf, olds, order)|, n);
    RecordTarget(p, cf, n);
  }

  /**
   Whether a record ends up findable under its own IOC: exactly if it was not before. A record that
   already carries the tag is only refreshed, and the refresh drops every managed property it does not
   write, the tag included.
   */
  lemma TagAfterPush(p: Push, cf: Cf, olds: seq<string>, order: seq<string>, n: string)
    requires Choices(p, cf, olds, order) && FIXED <= p.managed && NoClash(p) && n in p.records
    ensures n in Tagged(Landed(p, cf, olds, order, |Writes(p, cf, olds, order)|), p.info.id)
            <==> n !in Tagged(cf, p.info.id)
  {
    LandedAt(p, cf, olds, order, |Writes(p, cf, olds, order)|, n);
    RecordTarget(p, cf, n);
  }

  /** What happens to a channel this IOC gives up: back to the last registered owner, inactive iff there is none. */
  lemma GivenUpTarget(p: Push, cf: Cf, n: string)
    requires Proper(p) && WellKeyed(cf) && CountsOk(p.ix) && n in cf && n !in p.records
    ensures var c := Target(p, cf, n);
            && c.name == n
            && (n !in p.ix.owners ==>
                  && Sole(c.props, PV_STATUS, INACTIVE)
                  && forall v :: Has(c.props, IOC_ID, v) <==> Has(cf[n].props, IOC_ID, v))
            && (n in p.ix.owners && p.ix.owners[n][|p.ix.owners[n]| - 1] in p.ix.iocs ==>
                  && Sole(c.props, PV_STATUS, ACTIVE)
                  && Sole(c.props, IOC_ID, p.ix.owners[n][|p.ix.owners[n]| - 1])
                  && c.owner == p.ix.iocs[p.ix.owners[n][|p.ix.owners[n]| - 1]].owner)
  {
    var prior := cf[n].props;
    if n !in p.ix.owners {
      var s := StatusProps(p.info, INACTIVE);
      assert s[0] in s;
      MergeSets(s, prior, {}, PV_STATUS, INACTIVE);
      forall v ensures Has(Target(p, cf, n).props, IOC_ID, v) <==> Has(prior, IOC_ID, v) {
        MergeOfUnwritten(s, prior, {}, IOC_ID, v);
      }
    } else {
      var last := p.ix.owners[n][|p.ix.owners[n]| - 1];
      if last in p.ix.iocs {
        var base := IocProps(p.info.owner, p.info.time, p.recceiverId, p.ix.iocs[last]);
        IocPropsSole(p.info.owner, p.info.time, p.recceiverId, p.ix.iocs[last]);
        MergeSets(base, prior, p.managed, IOC_ID, last);
        MergeSets(base, prior, p.managed, PV_STATUS, ACTIVE);
      }
    }
  }

  /** A merge that drops no managed names replaces exactly the written ones. */
  lemma MergeKeepsTheRest(written: seq<Prop>, prior: seq<Prop>)
    ensures Without(Merge(written, prior, {}), Names(written)) == Without(prior, Names(written))
  {
    var drop := Names(written) + {};
    assert drop == Names(written);
    WithoutConcat(written, Without(prior, drop), drop);
    WithoutAll(written, drop);
    WithoutTwice(prior, drop, drop);
    assert drop + drop == drop;
  }

  /**
   A channel given up by its last IOC becomes Inactive with the time of the commit, and nothing else about it
   changes: it still says where it was, under which account, and which receiver it came from.
   */
  lemma OrphanKeepsTheRest(p: Push, cf: Cf, n: string)
    requires Proper(p) && WellKeyed(cf) && n in cf && n !in p.records && n !in p.ix.owners
    ensures var c := Target(p, cf, n);
            && c.name == n && c.owner == cf[n].owner
            && Sole(c.props, PV_STATUS, INACTIVE) && Sole(c.props, TIME, p.info.time)
            && Without(c.props, {PV_STATUS, TIME}) == Without(cf[n].props, {PV_STATUS, TIME})
  {
    hide Merge, Without;
    var s := StatusProps(p.info, INACTIVE);
    StatusSole(p.info, INACTIVE);
    MergeSets(s, cf[n].props, {}, PV_STATUS, INACTIVE);
    MergeSets(s, cf[n].props, {}, TIME, p.info.time);
    MergeKeepsTheRest(s, cf[n].props);
  }

  lemma StatusSole(info: IocInfo, status: string)
    ensures var s := StatusProps(info, status);
            && Sole(s, PV_STATUS, status) && Sole(s, TIME, info.time) && Names(s) == {PV_STATUS, TIME}
  {
    var s := StatusProps(info, status);
    assert s[0] in s && s[1] in s && |PV_STATUS| == 8 && |TIME| == 4;
  }

  /**
   Accounts: a channel that is created belongs to the account of its IOC, one that is given to another IOC to that
   one's, and any other keeps its own.
   */
  lemma AccountOfTarget(p: Push, cf: Cf, n: string)
    requires Proper(p) && WellKeyed(cf) && (n in p.records || n in cf)
    ensures Target(p, cf, n).owner ==
            if n !in cf then p.info.owner
            else if n in p.records then cf[n].owner
            else AccountOf(p.ix, n, cf[n].owner)
  {
  }

  /**
   What the commit writes, apart from the infos of the record, is under the account of the commit, also when the
   channel goes to another IOC.
   */
  lemma AccountsOfProps(p: Push, cf: Cf, n: string, q: Prop)
    requires Proper(p) && WellKeyed(cf) && (n in p.records || n in cf) && q in Target(p, cf, n).props
    ensures || q.owner == p.info.owner
            || (n in cf && q in cf[n].props)
            || (n in p.records && q in p.records[n].infoProps)
  {
    hide Merge, Names, IocProps, NewProps;
    if n in p.records {
      NewPropsMember(p, n, q);
    }
    if n in cf {
      StatusPropsMember(p.info, q);
      MergeMember(StatusProps(p.info, ACTIVE), cf[n].props, p.managed, q);
      MergeMember(StatusProps(p.info, INACTIVE), cf[n].props, {}, q);
      if n in p.records {
        MergeMember(NewProps(p, n), cf[n].props, p.managed, q);
      } else if n in p.ix.owners && p.ix.owners[n][|p.ix.owners[n]| - 1] in p.ix.iocs {
        var last := p.ix.iocs[p.ix.owners[n][|p.ix.owners[n]| - 1]];
        MergeMember(IocProps(p.info.owner, p.info.time, p.recceiverId, last), cf[n].props, p.managed, q);
        IocPropsMember(p.info.owner, p.info.time, p.recceiverId, last, q);
      }
    }
  }

  lemma IocPropsMember(owner: string, time: string, recceiverId: string, of: IocInfo, q: Prop)
    ensures q in IocProps(owner, time, recceiverId, of) ==> q.owner == owner
  {
  }

  lemma StatusPropsMember(info: IocInfo, q: Prop)
    ensures q in StatusProps(info, ACTIVE) || q in StatusProps(info, INACTIVE) ==> q.owner == info.owner
  {
  }

  lemma NewPropsMember(p: Push, n: string, q: Prop)
    requires n in p.records
    ensures q in NewProps(p, n) ==>
              q in p.records[n].infoProps || q.owner == p.info.owner
  {
    hide IocProps;
    IocPropsMember(p.info.owner, p.info.time, p.recceiverId, p.info, q);
  }

  lemma MergeMember(written: seq<Prop>, prior: seq<Prop>, managed: set<string>, q: Prop)
    ensures q in Merge(written, prior, managed) ==> q in written || (q in prior && q.name !in managed)
  {
    WithoutMembers(prior, Names(written) + managed);
  }

  /**
   Nothing managed is left from before, and nothing else is written: a refreshed record keeps its status and time
   alone, one that is created or moves here has the defaults, its type and its infos, and a channel handed to another
   IOC the defaults.
   */
  lemma NothingIsStale(p: Push, cf: Cf, n: string, q: Prop)
    requires Proper(p) && WellKeyed(cf)
    requires n in p.records || (n in cf && n in p.ix.owners && p.ix.owners[n][|p.ix.owners[n]| - 1] in p.ix.iocs)
    requires q in Target(p, cf, n).props && (n in cf ==> q.name in p.managed)
    ensures if n in p.records && n in Tagged(cf, p.info.id) then q in StatusProps(p.info, ACTIVE)
            else q.name in FIXED || (n in p.records && q in OwnProps(p, p.records[n]))
  {
    hide Merge, Names;
    if n !in cf {
    } else if n !in p.records {
      var last := p.ix.iocs[p.ix.owners[n][|p.ix.owners[n]| - 1]];
      MergeMember(IocProps(p.info.owner, p.info.time, p.recceiverId, last), cf[n].props, p.managed, q);
    } else if n in Tagged(cf, p.info.id) {
      MergeMember(StatusProps(p.info, ACTIVE), cf[n].props, p.managed, q);
    } else {
      MergeMember(NewProps(p, n), cf[n].props, p.managed, q);
    }
  }

  /** The account of the last owner, if there is one the index knows. */
  function AccountOf(ix: Index, n: string, own: string): string
    requires ListsOk(ix)
  {
    if n in ix.owners && ix.owners[n][|ix.owners[n]| - 1] in ix.iocs
    then ix.iocs[ix.owners[n][|ix.owners[n]| - 1]].owner
    else own
  }

  // ---------------------------------------------------------------- what a channel says about its IOC

  /** The seven default properties, each with this value and no other. */
  ghost predicate Describes(ps: seq<Prop>, of: IocInfo, recceiverId: string, time: string) {
    && Sole(ps, HOSTNAME, of.hostname) && Sole(ps, IOC_NAME, of.iocName) && Sole(ps, IOC_ID, of.id)
    && Sole(ps, IOC_IP, of.iocIp) && Sole(ps, PV_STATUS, ACTIVE) && Sole(ps, TIME, time)
    && Sole(ps, RECCEIVER_ID, recceiverId)
  }

  lemma FixedNamesDiffer(owner: string, time: string, recceiverId: string, of: IocInfo)
    ensures var b := IocProps(owner, time, recceiverId, of);
            forall j, k | 0 <= j < k < 7 :: b[j].name != b[k].name
  {
    assert IOC_ID[3] != IOC_IP[3] && HOSTNAME[0] != PV_STATUS[0];
  }

  lemma DescribedAt(owner: string, time: string, recceiverId: string, of: IocInfo, extra: seq<Prop>, k: nat)
    requires k < 7 && Names(extra) !! FIXED
    ensures var b := IocProps(owner, time, recceiverId, of); Sole(b + extra, b[k].name, b[k].value)
  {
    hide FIXED;
    var b := IocProps(owner, time, recceiverId, of);
    FixedNamesDiffer(owner, time, recceiverId, of);
    assert b[k] in b;
    FixedHolds(owner, time, recceiverId, of, k);
    assert Sole(b, b[k].name, b[k].value);
    SoleConcat(b, extra, b[k].name, b[k].value);
  }

  lemma FixedHolds(owner: string, time: string, recceiverId: string, of: IocInfo, k: nat)
    requires k < 7
    ensures IocProps(owner, time, recceiverId, of)[k].name in FIXED
  {
  }

  lemma DefaultsDescribe(owner: string, time: string, recceiverId: string, of: IocInfo, extra: seq<Prop>)
    requires Names(extra) !! FIXED
    ensures Describes(IocProps(owner, time, recceiverId, of) + extra, of, recceiverId, time)
  {
    forall k: nat | k < 7
      ensures var b := IocProps(owner, time, recceiverId, of); Sole(b + extra, b[k].name, b[k].value)
    {
      DescribedAt(owner, time, recceiverId, of, extra, k);
    }
    var b := IocProps(owner, time, recceiverId, of);
    assert b[0].name == HOSTNAME && b[1].name == IOC_NAME && b[2].name == IOC_ID && b[3].name == IOC_IP;
    assert b[4].name == PV_STATUS && b[5].name == TIME && b[6].name == RECCEIVER_ID;
  }

  lemma MergeDescribes(written: seq<Prop>, prior: seq<Prop>, managed: set<string>, of: IocInfo, recceiverId: string,
                       time: string)
    requires Describes(written, of, recceiverId, time)
    ensures Describes(Merge(written, prior, managed), of, recceiverId, time)
  {
    hide Sole, Merge;
    MergeSets(written, prior, managed, HOSTNAME, of.hostname);
    MergeSets(written, prior, managed, IOC_NAME, of.iocName);
    MergeSets(written, prior, managed, IOC_ID, of.id);
    MergeSets(written, prior, managed, IOC_IP, of.iocIp);
    MergeSets(written, prior, managed, PV_STATUS, ACTIVE);
    MergeSets(written, prior, managed, TIME, time);
    MergeSets(written, prior, managed, RECCEIVER_ID, recceiverId);
  }

  /** The record type, if types are kept, and the infos of a record. */
  ghost predicate Carries(ps: seq<Prop>, r: RecordInfo, recordTypes: bool) {
    && (recordTypes && r.recordType.Some? && r.recordType.value != "" ==> Has(ps, RECORD_TYPE, r.recordType.value))
    && forall q | q in r.infoProps :: Has(ps, q.name, q.value)
  }

  /** What a record has besides the defaults. */
  function OwnProps(p: Push, r: RecordInfo): seq<Prop> {
    (if p.recordTypes && r.recordType.Some? && r.recordType.value != ""
     then [Prop(RECORD_TYPE, p.info.owner, r.recordType.value)] else []) + r.infoProps
  }

  lemma OwnPropsAvoidFixed(p: Push, n: string)
    requires NoClash(p) && n in p.records
    ensures Names(OwnProps(p, p.records[n])) !! FIXED
  {
    TypeIsNotFixed();
    hide FIXED;
    forall q | q in OwnProps(p, p.records[n]) ensures q.name !in FIXED {
      if q in p.records[n].infoProps {
        assert q.name in Names(p.records[n].infoProps);
      }
    }
  }

  lemma NewPropsDescribe(p: Push, n: string)
    requires NoClash(p) && n in p.records
    ensures Describes(NewProps(p, n), p.info, p.recceiverId, p.info.time)
    ensures Carries(NewProps(p, n), p.records[n], p.recordTypes)
  {
    hide FIXED, Describes, IocProps;
    var r := p.records[n];
    var b := IocProps(p.info.owner, p.info.time, p.recceiverId, p.info);
    assert NewProps(p, n) == b + OwnProps(p, r);
    OwnPropsAvoidFixed(p, n);
    DefaultsDescribe(p.info.owner, p.info.time, p.recceiverId, p.info, OwnProps(p, r));
  }

  lemma TypeIsNotFixed()
    ensures RECORD_TYPE !in FIXED
  {
    assert |RECORD_TYPE| == 10;
  }

  /**
   After a complete push a record not found under this IOC before, moved or created, says exactly where it
   is now: host, name, id and address of its IOC, Active, the commit's time, this receiver; and it carries
   its type and every info.
   */
  lemma NewRecordIsDescribed(p: Push, cf: Cf, olds: seq<string>, order: seq<string>, n: string)
    requires Choices(p, cf, olds, order) && NoClash(p) && n in p.records && n !in Tagged(cf, p.info.id)
    ensures var r := Landed(p, cf, olds, order, |Writes(p, cf, olds, order)|);
            && n in r && Describes(r[n].props, p.info, p.recceiverId, p.info.time)
            && Carries(r[n].props, p.records[n], p.recordTypes)
  {
    LandedAt(p, cf, olds, order, |Writes(p, cf, olds, order)|, n);
    hide Landed, Writes, Choices, NoClash, NewProps, Describes;
    NewPropsDescribe(p, n);
    if n in cf {
      MergeDescribes(NewProps(p, n), cf[n].props, p.managed, p.info, p.recceiverId, p.info.time);
    }
  }

  /** On a disconnect a channel with owners left goes to the last of them and says so completely. */
  lemma ReassignedIsDescribed(p: Push, cf: Cf, olds: seq<string>, order: seq<string>, n: string)
    requires Choices(p, cf, olds, order) && p.records == map[] && n in Tagged(cf, p.info.id)
    requires n in p.ix.owners && p.ix.owners[n] != [] && p.ix.owners[n][|p.ix.owners[n]| - 1] in p.ix.iocs
    ensures var r := Landed(p, cf, olds, order, |Writes(p, cf, olds, order)|);
            var last := p.ix.iocs[p.ix.owners[n][|p.ix.owners[n]| - 1]];
            n in r && r[n].owner == last.owner && Describes(r[n].props, last, p.recceiverId, p.info.time)
  {
    LandedAt(p, cf, olds, order, |Writes(p, cf, olds, order)|, n);
    assert cf[n].name == n;
    hide Landed, Writes, Describes;
    var last := p.ix.iocs[p.ix.owners[n][|p.ix.owners[n]| - 1]];
    var b := IocProps(p.info.owner, p.info.time, p.recceiverId, last);
    assert Names([]) == {};
    DefaultsDescribe(p.info.owner, p.info.time, p.recceiverId, last, []);
    assert b + [] == b;
    MergeDescribes(b, cf[n].props, p.managed, last, p.recceiverId, p.info.time);
  }
}
