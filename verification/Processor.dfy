/**
 CFProcessor as the source writes it: the index and the written lists are updated step by step, requests
 to ChannelFinder can fail, and a push is retried (processor.py:292-332, 402-436, 474-664).

 What requests and sets answer, and when a commit is cancelled, comes from a script; see Pushing. Sleeping,
 metrics and logging are not part of the model.
 */
module Processor {
  import opened Wrappers
  import opened CfModel
  import opened Lists
  import opened Properties
  import opened ChannelIndex
  import opened PushDiff
  import opened Pushing
  import NameQuery

  /**
   A ChannelFinder service behind the adapter. Every operation takes the processor's flag and gives it back as it
   is when the answer is there.
   */
  class ChannelFinder {
    var channels: Cf
    var asked: nat
    const script: Script

    constructor (channels: Cf, script: Script)
      ensures this.channels == channels && this.asked == 0 && this.script == script
    {
      this.channels, this.asked, this.script := channels, 0, script;
    }

    function Now(cancelled: bool): World
      reads this
    {
      World(channels, asked, cancelled)
    }

    /** `n` queries one after the other. */
    method Query(n: nat, cancelled: bool) returns (ok: bool, flag: bool)
      modifies `asked
      ensures (Now(flag), ok) == Ask(script, old(Now(cancelled)), n)
    {
      ok, flag := true, cancelled;
      var k := 0;
      while k < n && ok
        invariant k <= n
        invariant if ok then Ask(script, Now(flag), n - k) == Ask(script, old(Now(cancelled)), n)
                  else (Now(flag), false) == Ask(script, old(Now(cancelled)), n)
        decreases n - k
      {
        var a := script.answers(asked);
        ok, flag := a.Works?, flag || a.cancel;
        asked, k := asked + 1, k + 1;
      }
    }

    method FindByIocId(ioc: string, cancelled: bool) returns (r: Option<seq<string>>, flag: bool)
      modifies `asked
      ensures (Now(flag), r.Some?) == Ask(script, old(Now(cancelled)), 1)
      ensures r.Some? ==> r.value == script.listed(old(asked), Tagged(channels, ioc))
    {
      var ok, now := Query(1, cancelled);
      flag := now;
      r := if ok then Some(script.listed(asked - 1, Tagged(channels, ioc))) else None;
    }

    method FindByNames(names: seq<string>, cancelled: bool) returns (r: Option<map<string, Channel>>, flag: bool)
      modifies `asked
      ensures (Now(flag), r.Some?) == Ask(script, old(Now(cancelled)), |NameQuery.Chunks(names)|)
      ensures r.Some? ==> r.value == map n | n in names && n in channels :: channels[n]
    {
      var chunks := NameQuery.PackNames(names);
      var ok, now := Query(|chunks|, cancelled);
      flag := now;
      r := if ok then Some(map n | n in names && n in channels :: channels[n]) else None;
    }

    method SetChannels(ws: seq<Channel>, cancelled: bool) returns (ok: bool, flag: bool)
      modifies `channels, `asked
      ensures var a := script.answers(old(asked));
              && ok == a.Works?
              && Now(flag) == Answered(script, old(Now(cancelled))).(
                   cf := if Lands(a) then Apply(old(channels), ws) else old(channels))
    {
      var a := script.answers(asked);
      ok, flag, asked := a.Works?, cancelled || a.cancel, asked + 1;
      if Lands(a) {
        var k := 0;
        while k < |ws|
          invariant 0 <= k <= |ws| && asked == old(asked) + 1
          invariant channels == Apply(old(channels), ws[..k])
        {
          assert ws[..k + 1][..k] == ws[..k];
          channels := channels[ws[k].name := ws[k]];
          k := k + 1;
        }
        assert ws[..|ws|] == ws;
      }
    }
  }

  /** All names a set of records registers: their own and, when aliases are on, their aliases. */
  function Registered(records: map<string, RecordInfo>, done: set<string>, aliases: bool): set<string>
    requires done <= records.Keys
  {
    done + if aliases then set n, a | n in done && a in records[n].aliases :: a else {}
  }

  function OwnNames(name: string, names: seq<string>, aliases: bool): set<string> {
    if aliases then {name} + SetOf(names) else {name}
  }

  lemma RegisteredSnoc(records: map<string, RecordInfo>, done: set<string>, n: string, aliases: bool)
    requires done <= records.Keys && n in records
    ensures Registered(records, done + {n}, aliases)
         == Registered(records, done, aliases) + OwnNames(n, records[n].aliases, aliases)
  {
  }

  lemma RegisteredNothing(ix: Index, records: map<string, RecordInfo>, ioc: string, aliases: bool)
    ensures Registered(records, {}, aliases) == {} && Link(ix, ioc, {}) == ix
  {
  }

  lemma RegistrationStep(ix: Index, records: map<string, RecordInfo>, done: set<string>, n: string, ioc: string,
                         aliases: bool)
    requires ioc in ix.iocs && done <= records.Keys && n in records
    ensures Link(Link(ix, ioc, Registered(records, done, aliases)), ioc, OwnNames(n, records[n].aliases, aliases))
         == Link(ix, ioc, Registered(records, done + {n}, aliases))
  {
    hide Link;
    LinkUnion(ix, ioc, Registered(records, done, aliases), OwnNames(n, records[n].aliases, aliases));
    RegisteredSnoc(records, done, n, aliases);
  }

  /** remove_channel, for any index. */
  function Removed(ix: Index, name: string, ioc: string): Index
    requires name in ix.owners
  {
    var rest := Drop(ix.owners[name], ioc);
    Index(
      if rest == [] then ix.owners - {name} else ix.owners[name := rest],
      ix.probed,
      ix.channels[ioc := ix.ChannelsOf(ioc) - {name}],
      if ioc in ix.iocs then OneLess(ix.iocs, ioc) else ix.iocs)
  }

  function OneLess(iocs: map<string, IocInfo>, ioc: string): map<string, IocInfo>
    requires ioc in iocs
  {
    var n := iocs[ioc].channelcount - 1;
    if n <= 0 then iocs - {ioc} else iocs[ioc := iocs[ioc].(channelcount := n)]
  }

  lemma RemovedIsUnlink(ix: Index, name: string, ioc: string)
    requires Inv(ix) && name in ix.ChannelsOf(ioc)
    ensures name in ix.owners && ioc in ix.owners[name] && ioc in ix.iocs
    ensures Removed(ix, name, ioc) == Unlink(ix, ioc, {name})
  {
    assert ioc in ix.OwnersOf(name);
    var rest := ix.ChannelsOf(ioc) - {name};
    assert |rest| == |ix.ChannelsOf(ioc)| - 1;
    assert rest == {} <==> |rest| == 0;
    var r, u := Removed(ix, name, ioc), Unlink(ix, ioc, {name});
    assert r.owners == u.owners;
    assert r.iocs == u.iocs;
  }

  lemma LinkOneOwner(owners: Owners, name: string, ioc: string)
    ensures LinkOwners(owners, ioc, {name}) ==
            if ioc in Lookup(owners, name) then owners else owners[name := Lookup(owners, name) + [ioc]]
  {
  }

  lemma FreshOne(owners: Owners, name: string, ioc: string)
    ensures |Fresh(owners, ioc, {name})| == if ioc in Lookup(owners, name) then 0 else 1
  {
    assert Fresh(owners, ioc, {name}) == if ioc in Lookup(owners, name) then {} else {name};
  }

  /** Registering a single name, spelled out. */
  lemma LinkOne(ix: Index, name: string, ioc: string)
    requires ioc in ix.iocs
    ensures var r := Link(ix, ioc, {name});
            && r.owners == (if ioc in ix.OwnersOf(name) then ix.owners
                            else ix.owners[name := ix.OwnersOf(name) + [ioc]])
            && r.probed == ix.probed
            && r.channels == ix.channels[ioc := ix.ChannelsOf(ioc) + {name}]
            && r.iocs == ix.iocs[ioc := ix.iocs[ioc].(channelcount :=
                           ix.iocs[ioc].channelcount + if ioc in ix.OwnersOf(name) then 0 else 1)]
  {
    LinkOneOwner(ix.owners, name, ioc);
    FreshOne(ix.owners, name, ioc);
  }

  datatype CommitResult = Ignored | KeyError | Ended(push: PushResult)

  /** What the scan leaves of the new names is what is not yet tagged. */
  lemma ScanGoodRest(p: Push, cf: Cf, olds: seq<string>)
    requires Proper(p) && WellKeyed(cf) && Enumerates(olds, Tagged(cf, p.info.id))
    ensures forall n | n in olds :: n in cf
    ensures Scan(p, cf, olds).1 == p.records.Keys - Tagged(cf, p.info.id)
  {
    forall n | n in olds ensures n in cf && n in Tagged(cf, p.info.id) {
    }
    ScanShape(p, cf, olds);
    assert Tagged(cf, p.info.id) == set n | n in olds;
  }

  lemma UnknownOwnsNothing(ix: Index, ioc: string)
    requires Inv(ix)
    ensures ioc !in ix.iocs ==> forall n :: ioc !in ix.OwnersOf(n)
  {
    forall n ensures ioc in ix.OwnersOf(n) <==> n in ix.ChannelsOf(ioc) {
    }
  }

  /** Removing one more channel of an IOC. */
  lemma RemovalStep(ix: Index, u: Index, ioc: string, all: set<string>, todo: set<string>, name: string)
    requires Inv(ix) && all == ix.ChannelsOf(ioc) && todo <= all && name in todo
    requires u == Unlink(ix, ioc, all - todo)
    ensures name in u.owners && ioc in u.owners[name]
    ensures Removed(u, name, ioc) == Unlink(ix, ioc, all - (todo - {name}))
  {
    hide Unlink, Removed;
    UnlinkUnion(ix, ioc, all - todo, {name});
    RemovedIsUnlink(u, name, ioc);
    assert all - todo + {name} == all - (todo - {name});
  }

  /** What a commit asks of the index when aliases are off. */
  function ActionOf(initial: bool, connected: bool, info: IocInfo, rids: set<nat>, records: map<string, RecordInfo>)
    : Action
  {
    if connected then Data(initial, info, records.Keys, rids) else Disconnect(info.id)
  }

  lemma UnlinkNothing(ix: Index, ioc: string)
    ensures Unlink(ix, ioc, {}) == ix
  {
  }

  class CfProcessor {
    var channelIocIds: map<string, seq<string>>
    var probedIds: set<nat>
    var iocChannels: map<string, set<string>>
    var iocs: map<string, IocInfo>
    var cancelled: bool

    const client: ChannelFinder
    const managed: set<string>
    const recceiverId: string
    const recordTypes: bool
    const aliasEnabled: bool
    const queryLimit: nat
    const pushMaxRetries: nat
    const pushAlwaysRetry: bool

    constructor (client: ChannelFinder, managed: set<string>, recceiverId: string, recordTypes: bool,
                 aliasEnabled: bool, queryLimit: nat, pushMaxRetries: nat, pushAlwaysRetry: bool)
      ensures View() == EMPTY && this.client == client && this.managed == managed && this.queryLimit == queryLimit
      ensures this.recceiverId == recceiverId && this.recordTypes == recordTypes && this.aliasEnabled == aliasEnabled
    {
      channelIocIds, probedIds, iocChannels, iocs, cancelled := map[], {}, map[], map[], false;
      this.client, this.managed, this.recceiverId := client, managed, recceiverId;
      this.recordTypes, this.aliasEnabled, this.queryLimit := recordTypes, aliasEnabled, queryLimit;
      this.pushMaxRetries, this.pushAlwaysRetry := pushMaxRetries, pushAlwaysRetry;
    }

    ghost function View(): Index
      reads `channelIocIds, `probedIds, `iocChannels, `iocs
    {
      Index(channelIocIds, probedIds, iocChannels, iocs)
    }

    ghost function PushOf(info: IocInfo, records: map<string, RecordInfo>, deleted: set<string>): Push
      reads `channelIocIds, `probedIds, `iocChannels, `iocs
    {
      Push(View(), managed, recceiverId, recordTypes, info, records, deleted)
    }

    // -------------------------------------------------------------- the index

    /** Fails, half done, with a KeyError if the IOC has no record. */
    method RegisterName(name: string, ioc: string) returns (ok: bool)
      requires ioc in iocs || ioc !in View().OwnersOf(name)
      modifies `channelIocIds, `iocChannels, `iocs
      ensures ok <==> ioc in old(iocs)
      ensures ok ==> ioc in iocs && View() == Link(old(View()), ioc, {name})
      ensures !ok ==> View() == Broken(old(View()), ioc, name)
    {
      if ioc in iocs {
        LinkOne(View(), name, ioc);
      }
      LinkOneOwner(channelIocIds, name, ioc);
      var owners := if name in channelIocIds then channelIocIds[name] else [];
      if ioc !in owners {
        channelIocIds := channelIocIds[name := owners + [ioc]];
        if ioc !in iocs {
          return false;
        }
        iocs := iocs[ioc := iocs[ioc].(channelcount := iocs[ioc].channelcount + 1)];
      }
      var mine := if ioc in iocChannels then iocChannels[ioc] else {};
      iocChannels := iocChannels[ioc := mine + {name}];
      ok := true;
    }

    method RemoveChannel(name: string, ioc: string)
      requires name in channelIocIds && ioc in channelIocIds[name]
      modifies `channelIocIds, `iocChannels, `iocs
      ensures View() == Removed(old(View()), name, ioc)
    {
      channelIocIds := channelIocIds[name := Drop(channelIocIds[name], ioc)];
      iocChannels := iocChannels[ioc := (if ioc in iocChannels then iocChannels[ioc] else {}) - {name}];
      if ioc in iocs {
        CountDown(ioc);
      }
      if |channelIocIds[name]| == 0 {
        channelIocIds := channelIocIds - {name};
      }
    }

    /** One channel less for an IOC; without channels it is forgotten. */
    method CountDown(ioc: string)
      requires ioc in iocs
      modifies `iocs
      ensures iocs == OneLess(old(iocs), ioc)
    {
      iocs := iocs[ioc := iocs[ioc].(channelcount := iocs[ioc].channelcount - 1)];
      if iocs[ioc].channelcount <= 0 {
        iocs := iocs - {ioc};
      }
    }

    method RemoveAllChannels(ioc: string)
      requires Inv(View())
      modifies `channelIocIds, `iocChannels, `iocs
      ensures Inv(View())
      ensures View() == Unlink(old(View()), ioc, old(View()).ChannelsOf(ioc))
    {
      ghost var ix := View();
      var all := if ioc in iocChannels then iocChannels[ioc] else {};
      UnlinkKeepsInv(ix, ioc, all);
      var todo := all;
      UnlinkNothing(ix, ioc);
      assert all - todo == {};
      hide Unlink, Removed, Inv;
      while todo != {}
        invariant todo <= all == ix.ChannelsOf(ioc)
        invariant View() == Unlink(ix, ioc, all - todo)
        decreases todo
      {
        var n :| n in todo;
        RemovalStep(ix, View(), ioc, all, todo, n);
        RemoveChannel(n, ioc);
        todo := todo - {n};
      }
      assert all - todo == all;
    }

    method EvictIoc(ioc: string)
      requires Inv(View())
      modifies `channelIocIds, `iocChannels, `iocs
      ensures View() == Step(old(View()), Evict(ioc))
    {
      RemoveAllChannels(ioc);
      iocs := iocs - {ioc};
      iocChannels := iocChannels - {ioc};
    }

    method RegisterNames(names: seq<string>, ioc: string)
      requires ioc in iocs
      modifies `channelIocIds, `iocChannels, `iocs
      ensures ioc in iocs
      ensures View() == Link(old(View()), ioc, SetOf(names))
    {
      for k := 0 to |names|
        invariant ioc in iocs
        invariant View() == Link(old(View()), ioc, SetOf(names[..k]))
      {
        LinkUnion(old(View()), ioc, SetOf(names[..k]), {names[k]});
        SetOfSnoc(names, k);
        var ok := RegisterName(names[k], ioc);
      }
      assert names[..|names|] == names;
    }

    method RegisterRecord(name: string, aliases: seq<string>, ioc: string) returns (ok: bool)
      requires ioc in iocs || ioc !in View().OwnersOf(name)
      modifies `channelIocIds, `iocChannels, `iocs
      ensures ok <==> ioc in old(iocs)
      ensures ok ==> ioc in iocs && View() == Link(old(View()), ioc, OwnNames(name, aliases, aliasEnabled))
      ensures !ok ==> View() == Broken(old(View()), ioc, name)
    {
      ok := RegisterName(name, ioc);
      if ok && aliasEnabled {
        LinkUnion(old(View()), ioc, {name}, SetOf(aliases));
        RegisterNames(aliases, ioc);
      }
    }

    method RegisterRecords(records: map<string, RecordInfo>, ioc: string) returns (ok: bool)
      requires ioc in iocs || forall n | n in records :: ioc !in View().OwnersOf(n)
      modifies `channelIocIds, `iocChannels, `iocs
      ensures ok <==> ioc in old(iocs) || records == map[]
      ensures ok ==> View() == Link(old(View()), ioc, Registered(records, records.Keys, aliasEnabled))
      ensures !ok ==> exists n | n in records :: View() == Broken(old(View()), ioc, n)
    {
      RegisteredNothing(View(), records, ioc, aliasEnabled);
      hide Link, Registered, Broken;
      var todo := records.Keys;
      ghost var done := {};
      while todo != {}
        invariant todo !! done && todo + done == records.Keys
        invariant records == map[] ==> done == {}
        invariant if ioc in old(iocs) then ioc in iocs else done == {} && View() == old(View())
        invariant View() == Link(old(View()), ioc, Registered(records, done, aliasEnabled))
        decreases todo
      {
        var n :| n in todo;
        if ioc in iocs {
          RegistrationStep(old(View()), records, done, n, ioc, aliasEnabled);
        }
        ok := RegisterRecord(n, records[n].aliases, ioc);
        if !ok {
          return;
        }
        todo, done := todo - {n}, done + {n};
      }
      ok := true;
    }

    /**
     The names to delete are returned: none for data commits, all channels of the IOC on disconnect. A data
     commit that is not callable breaks off.
     */
    method UpdateIocInfos(initial: bool, connected: bool, info: IocInfo, rids: set<nat>,
                          records: map<string, RecordInfo>)
      returns (deleted: set<string>, ok: bool)
      requires Inv(View())
      requires !connected ==> records == map[] && !initial && rids == {}
      modifies `channelIocIds, `iocChannels, `iocs, `probedIds
      ensures deleted == if connected then {} else old(View()).ChannelsOf(info.id)
      ensures var a := if connected
                       then Data(initial, info, Registered(records, records.Keys, aliasEnabled), rids)
                       else Disconnect(info.id);
              EndsAs(old(View()), a, View()) && (ok <==> Callable(old(View()), a))
    {
      deleted, ok := {}, true;
      if connected {
        UnknownOwnsNothing(View(), info.id);
        if initial {
          iocs := iocs[info.id := info.(channelcount := 0)];
        }
        ok := RegisterRecords(records, info.id);
        if !ok {
          return;
        }
        probedIds := probedIds + rids;
      } else {
        deleted := if info.id in iocChannels then iocChannels[info.id] else {};
        RemoveAllChannels(info.id);
      }
    }

    // -------------------------------------------------------------- the push

    /** The channels found under this IOC, one after the other, while the set of new names shrinks. */
    method HandleChannels(olds: seq<string>, info: IocInfo, records: map<string, RecordInfo>, deleted: set<string>)
      returns (written: seq<Channel>, news: set<string>)
      requires ListsOk(View()) && forall n | n in olds :: n in client.channels
      ensures (written, news) == Scan(PushOf(info, records, deleted), client.channels, olds)
    {
      written, news := [], records.Keys;
      for k := 0 to |olds|
        invariant (written, news) == Scan(PushOf(info, records, deleted), client.channels, olds[..k])
      {
        assert olds[..k + 1][..k] == olds[..k];
        var c := client.channels[olds[k]];
        if news == {} || c.name in deleted {
          var given := GiveUp(c, info, records, deleted);
          written := written + [given];
        } else if c.name in news {
          var props := MergePropertyLists(StatusProps(info, ACTIVE), c.props, managed);
          written := written + [c.(props := props)];
          news := news - {c.name};
        }
      }
      assert olds[..|olds|] == olds;
    }

    /** Hand a channel to its last known IOC, or mark it inactive. */
    method GiveUp(c: Channel, info: IocInfo, records: map<string, RecordInfo>, deleted: set<string>)
      returns (r: Channel)
      requires ListsOk(View())
      ensures r == OldOnly(PushOf(info, records, deleted), c)
    {
      if c.name in channelIocIds {
        var owners := channelIocIds[c.name];
        var last := owners[|owners| - 1];
        if last in iocs {
          var props := MergePropertyLists(IocProps(info.owner, info.time, recceiverId, iocs[last]), c.props, managed);
          return c.(owner := iocs[last].owner, props := props);
        }
      }
      var props := MergePropertyLists(StatusProps(info, INACTIVE), c.props, {});
      r := c.(props := props);
    }

    /** What a new channel is given, or a known one that moves to this IOC. */
    method PropertiesOf(name: string, info: IocInfo, records: map<string, RecordInfo>, ghost deleted: set<string>)
      returns (props: seq<Prop>)
      requires name in records
      ensures props == NewProps(PushOf(info, records, deleted), name)
    {
      var record := records[name];
      props := IocProps(info.owner, info.time, recceiverId, info);
      if recordTypes && record.recordType.Some? && record.recordType.value != "" {
        props := props + [Prop(RECORD_TYPE, info.owner, record.recordType.value)];
      }
      props := props + record.infoProps;
      ghost var base := IocProps(info.owner, info.time, recceiverId, info);
      assert base + [] == base;
    }

    /** The new names, in the order the set delivers them. */
    method ProcessNewChannels(order: seq<string>, existing: map<string, Channel>, info: IocInfo,
                              records: map<string, RecordInfo>, deleted: set<string>)
      returns (created: seq<Channel>)
      requires forall n | n in order :: n in records
      requires existing == map n | n in order && n in client.channels :: client.channels[n]
      ensures created == Creations(PushOf(info, records, deleted), client.channels, order)
    {
      hide NewProps, IocProps, Merge;
      created := [];
      for k := 0 to |order|
        invariant created == Creations(PushOf(info, records, deleted), client.channels, order[..k])
      {
        var name := order[k];
        assert name in order;
        var props := PropertiesOf(name, info, records, deleted);
        if name in existing {
          props := MergePropertyLists(props, existing[name].props, managed);
          created := created + [existing[name].(props := props)];
        } else {
          created := created + [Channel(name, info.owner, props)];
        }
      }
      assert order[..|order|] == order;
    }

    ghost function Now(): World
      reads this, client
    {
      client.Now(cancelled)
    }

    method CfSetChunked(ws: seq<Channel>) returns (ok: bool)
      requires queryLimit > 0
      modifies client, `cancelled
      ensures (Now(), ok) == Write(client.script, old(Now()), queryLimit, ws)
    {
      hide Apply;
      var i := 0;
      assert ws[0..] == ws;
      while i < |ws|
        invariant 0 <= i <= |ws|
        invariant Write(client.script, Now(), queryLimit, ws[i..])
               == Write(client.script, old(Now()), queryLimit, ws)
      {
        var end := if i + queryLimit <= |ws| then i + queryLimit else |ws|;
        assert ws[i..end] == ws[i..][..end - i] && ws[end..] == ws[i..][end - i..];
        var fine, flag := client.SetChannels(ws[i..end], cancelled);
        cancelled := flag;
        if !fine {
          return false;
        }
        i := end;
      }
      ok := true;
    }

    /** One attempt to bring ChannelFinder in line with a commit. */
    method UpdateChannelFinder(info: IocInfo, records: map<string, RecordInfo>, deleted: set<string>)
      returns (outcome: Outcome)
      requires Ready(client.script, PushOf(info, records, deleted), queryLimit, Now())
      modifies client, `cancelled
      ensures (Now(), outcome) == Attempt(client.script, PushOf(info, records, deleted), queryLimit, old(Now()))
    {
      ghost var p, w := PushOf(info, records, deleted), Now();
      hide Ask, Write, Creations, Scan, Lands, NameQuery.Chunks;
      if cancelled {
        return Cancelled;
      }
      var found, first := client.FindByIocId(info.id, cancelled);
      cancelled := first;
      AskMore(client.script, w, |NameQuery.Chunks(Order(client.script, p, w))|);
      if found.None? {
        return RequestFailed;
      }
      var olds := found.value;
      assert Enumerates(olds, Tagged(w.cf, info.id));
      assert forall n | n in olds :: n in Tagged(w.cf, info.id) && n in w.cf;
      var written, news := HandleChannels(olds, info, records, deleted);
      ScanGoodRest(p, w.cf, olds);
      var order := client.script.listed(client.asked, news);
      assert Enumerates(order, news);
      var existing, second := client.FindByNames(order, cancelled);
      cancelled := second;
      if existing.None? {
        return RequestFailed;
      }
      if cancelled {
        return Cancelled;
      }
      var created := ProcessNewChannels(order, existing.value, info, records, deleted);
      assert written + created == List(client.script, p, w);
      var ok := CfSetChunked(written + created);
      if !ok {
        return RequestFailed;
      }
      outcome := if cancelled then Cancelled else Done;
    }

    /**
     The retry loop. The service is stopped after `stopAfter` attempts at the latest, which is how a push
     configured to retry forever ends.
     */
    method PushToCf(info: IocInfo, records: map<string, RecordInfo>, deleted: set<string>, stopAfter: nat)
      returns (result: PushResult, attempts: nat)
      requires Ready(client.script, PushOf(info, records, deleted), queryLimit, Now())
      modifies client, `cancelled
      ensures Now() == WorldAt(client.script, PushOf(info, records, deleted), queryLimit, old(Now()), attempts)
      ensures Ends(client.script, PushOf(info, records, deleted), queryLimit, old(Now()),
                   Budget(pushAlwaysRetry, pushMaxRetries, stopAfter), result, attempts)
      ensures Promised(PushOf(info, records, deleted), old(client.channels), client.channels, result)
      ensures attempts <= stopAfter && (!pushAlwaysRetry ==> attempts <= pushMaxRetries)
      ensures result == GaveUp ==> attempts == stopAfter || (!pushAlwaysRetry && attempts == pushMaxRetries)
    {
      hide Attempt, Ready, WorldAt, OutcomeAt, AllFailed, Ends, Promised, View, PushOf;
      ghost var sc, p, w := client.script, PushOf(info, records, deleted), Now();
      WorldStarts(sc, p, queryLimit, w);
      attempts := 0;
      while pushAlwaysRetry || attempts < pushMaxRetries
        invariant attempts <= Budget(pushAlwaysRetry, pushMaxRetries, stopAfter)
        invariant Ready(sc, p, queryLimit, w) && PushOf(info, records, deleted) == p
        invariant Now() == WorldAt(sc, p, queryLimit, w, attempts) && AllFailed(sc, p, queryLimit, w, attempts)
        decreases stopAfter - attempts
      {
        if attempts >= stopAfter {
          break;
        }
        attempts := attempts + 1;
        var outcome := UpdateChannelFinder(info, records, deleted);
        NextAttempt(sc, p, queryLimit, w, attempts - 1, Budget(pushAlwaysRetry, pushMaxRetries, stopAfter));
        if outcome == Done {
          return Pushed, attempts;
        }
        if outcome == Cancelled {
          return PushCancelled, attempts;
        }
      }
      GivingUp(sc, p, queryLimit, w, Budget(pushAlwaysRetry, pushMaxRetries, stopAfter));
      result := GaveUp;
    }

    /**
     A whole commit. A disconnect is ignored, whatever state the index is in, if its IOC is not known; an
     exhausted push of a data commit evicts the IOC so that the index forgets what ChannelFinder never got.
     */
    method Commit(initial: bool, connected: bool, info: IocInfo, rids: set<nat>, records: map<string, RecordInfo>,
                  stopAfter: nat)
      returns (result: CommitResult, attempts: nat)
      requires queryLimit > 0 && Orderly(client.script) && WellKeyed(client.channels) && !aliasEnabled
      requires !connected ==> records == map[] && !initial && rids == {}
      requires Inv(View()) || Ignores(View(), ActionOf(initial, connected, info, rids, records))
      requires initial ==> View().ChannelsOf(info.id) == {}
      modifies this, client
      ensures result.Ignored? <==> Ignores(old(View()), ActionOf(initial, connected, info, rids, records))
      ensures !result.Ignored? ==>
                (result.KeyError? <==> !Callable(old(View()), ActionOf(initial, connected, info, rids, records)))
      ensures result.Ignored? ==> View() == old(View())
      ensures result.KeyError? ==> EndsAs(old(View()), ActionOf(initial, connected, info, rids, records), View())
      ensures !result.Ended? ==> Now() == old(Now())
      ensures result.Ended? ==>
                var ix := Step(old(View()), ActionOf(initial, connected, info, rids, records));
                var p := Push(ix, managed, recceiverId, recordTypes, info, records,
                              if connected then {} else old(View()).ChannelsOf(info.id));
                && View() == (if result.push == GaveUp && connected then Step(ix, Evict(info.id)) else ix)
                && Inv(View())
                && Ready(client.script, p, queryLimit, old(Now()))
                && Now() == WorldAt(client.script, p, queryLimit, old(Now()), attempts)
                && Ends(client.script, p, queryLimit, old(Now()),
                        Budget(pushAlwaysRetry, pushMaxRetries, stopAfter), result.push, attempts)
                && Promised(p, old(client.channels), client.channels, result.push)
    {
      hide Link, Unlink, Broken, WorldAt, Ends, Promised;
      attempts := 0;
      if !connected && info.id !in iocs {
        return Ignored, attempts;
      }
      ghost var action := ActionOf(initial, connected, info, rids, records);
      if Callable(View(), action) {
        StepKeepsInv(View(), action);
      }
      assert Registered(records, records.Keys, aliasEnabled) == records.Keys;
      var deleted, ok := UpdateIocInfos(initial, connected, info, rids, records);
      if !ok {
        return KeyError, attempts;
      }
      assert View() == Step(old(View()), action) && ListsOk(View());
      var pushed;
      pushed, attempts := PushToCf(info, records, deleted, stopAfter);
      if pushed == GaveUp && connected {
        StepKeepsInv(View(), Evict(info.id));
        EvictIoc(info.id);
      }
      result := Ended(pushed);
    }
  }
}
