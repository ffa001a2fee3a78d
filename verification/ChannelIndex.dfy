/**
 The processor's three-way index (server/recceiver/cf/processor.py:43-48) and what each commit does to it.

 `channel_ioc_ids` is keyed by channel name, but a data commit also looks up the *record ids* in
 `records_to_delete`, and the dictionary creates an empty list for every key it is asked for.
 Nothing is ever appended under a record id, so `owners` holds the entries of names and `probed`
 the record ids whose entry is an empty list.
 */
module ChannelIndex {
  import opened CfModel
  import opened Lists

  datatype Index = Index(
    owners: map<string, seq<string>>, probed: set<nat>,
    channels: map<string, set<string>>, iocs: map<string, IocInfo>) {

    function OwnersOf(c: string): seq<string> {
      Lookup(owners, c)
    }

    function ChannelsOf(ioc: string): set<string> {
      if ioc in channels then channels[ioc] else {}
    }
  }

  const EMPTY := Index(map[], {}, map[], map[])

  /** An IOC is in a channel's owner list exactly when the channel is in the IOC's channel set. */
  ghost predicate Mirrors(ix: Index) {
    forall c, i :: i in ix.OwnersOf(c) <==> c in ix.ChannelsOf(i)
  }

  /** Owner lists have no duplicates and are never empty. */
  ghost predicate ListsOk(ix: Index) {
    forall k | k in ix.owners :: NoDups(ix.owners[k]) && ix.owners[k] != []
  }

  /** `channelcount` is the size of the channel set, and every IOC is stored under its own id. */
  ghost predicate CountsOk(ix: Index) {
    forall i | i in ix.iocs :: ix.iocs[i].channelcount == |ix.ChannelsOf(i)| && ix.iocs[i].id == i
  }

  /** Every IOC with channels, hence every listed owner, is in `iocs`. */
  ghost predicate Known(ix: Index) {
    forall i | i in ix.channels :: ix.channels[i] != {} ==> i in ix.iocs
  }

  /** The three maps describe one relation between channels and IOCs. */
  ghost predicate Inv(ix: Index) {
    Mirrors(ix) && ListsOk(ix) && CountsOk(ix) && Known(ix)
  }

  /** Python's list.remove: drop the first occurrence. */
  function Drop(s: seq<string>, x: string): seq<string> {
    if s == [] then [] else if s[0] == x then s[1..] else [s[0]] + Drop(s[1..], x)
  }

  type Owners = map<string, seq<string>>

  function Lookup(owners: Owners, c: string): seq<string> {
    if c in owners then owners[c] else []
  }

  function LinkOwners(owners: Owners, ioc: string, names: set<string>): Owners {
    map c | c in owners.Keys + names ::
      if c in names && ioc !in Lookup(owners, c) then Lookup(owners, c) + [ioc] else Lookup(owners, c)
  }

  function UnlinkOwners(owners: Owners, ioc: string, gone: set<string>): Owners {
    map c | c in owners && !(c in gone && Drop(owners[c], ioc) == []) ::
      if c in gone then Drop(owners[c], ioc) else owners[c]
  }

  function Fresh(owners: Owners, ioc: string, names: set<string>): set<string> {
    set n | n in names && ioc !in Lookup(owners, n)
  }

  /** Every name in `names` gains `ioc` as its last owner unless `ioc` owns it already. */
  function Link(ix: Index, ioc: string, names: set<string>): Index
    requires ioc in ix.iocs || names == {}
  {
    if names == {} then ix else
    var info := ix.iocs[ioc];
    Index(
      LinkOwners(ix.owners, ioc, names),
      ix.probed,
      ix.channels[ioc := ix.ChannelsOf(ioc) + names],
      ix.iocs[ioc := info.(channelcount := info.channelcount + |Fresh(ix.owners, ioc, names)|)])
  }

  /** Every name in `gone` loses `ioc`; a channel left without owners and an IOC left without channels disappear. */
  function Unlink(ix: Index, ioc: string, gone: set<string>): Index
    requires ioc in ix.iocs || gone == {}
  {
    if gone == {} then ix else
    var rest := ix.ChannelsOf(ioc) - gone;
    Index(
      UnlinkOwners(ix.owners, ioc, gone),
      ix.probed,
      ix.channels[ioc := rest],
      if rest == {} then ix.iocs - {ioc} else ix.iocs[ioc := ix.iocs[ioc].(channelcount := |rest|)])
  }

  /** Looking up a record id leaves an empty list behind and removes nothing. */
  function Probe(ix: Index, rids: set<nat>): Index {
    ix.(probed := ix.probed + rids)
  }

  /**
   What one commit asks of the index. `names` are the record names, with their aliases when these are enabled.
   Disconnect transactions carry no records, data transactions no names to delete (recast.py:272-282, 342-347).
   */
  datatype Action =
    | Data(initial: bool, info: IocInfo, names: set<string>, rids: set<nat>)
    | Disconnect(ioc: string)
    | Evict(ioc: string)
  {
    function Ioc(): string { if Data? then info.id else ioc }

    predicate Departs(i: string) { !Data? && ioc == i }

    predicate Opens(i: string) { Data? && initial && info.id == i }

    predicate Registers(i: string, c: string) { Data? && info.id == i && c in names }
  }

  function Begin(ix: Index, initial: bool, info: IocInfo): Index {
    if initial then ix.(iocs := ix.iocs[info.id := info.(channelcount := 0)]) else ix
  }

  /**
   A follow-up commit that registers something needs its IOC in `iocs` (processor.py:313).
   The second half is part of the invariant.
   */
  predicate Callable(ix: Index, a: Action) {
    if a.Data? then a.initial || a.info.id in ix.iocs || a.names == {}
    else a.ioc in ix.iocs || ix.ChannelsOf(a.ioc) == {}
  }

  function Step(ix: Index, a: Action): Index
    requires Callable(ix, a)
  {
    match a
    case Data(initial, info, names, rids) => Probe(Link(Begin(ix, initial, info), info.id, names), rids)
    case Disconnect(i) => Unlink(ix, i, ix.ChannelsOf(i))
    case Evict(i) =>
      var u := Unlink(ix, i, ix.ChannelsOf(i));
      u.(iocs := u.iocs - {i}, channels := u.channels - {i})
  }

  // ---------------------------------------------------------------- one step keeps the invariant

  lemma {:induction false} DropProps(s: seq<string>, x: string)
    requires NoDups(s)
    ensures NoDups(Drop(s, x))
    ensures forall y :: y in Drop(s, x) <==> y in s && y != x
    ensures x in s ==> |Drop(s, x)| == |s| - 1
    ensures x !in s ==> Drop(s, x) == s
  {
    if s == [] {
    } else {
      assert s == [s[0]] + s[1..];
      assert s[0] !in s[1..];
      if s[0] != x {
        DropProps(s[1..], x);
        var t := Drop(s[1..], x);
        assert s[0] !in t;
        assert Drop(s, x) == [s[0]] + t;
      }
    }
  }

  /** Appending after dropping: removing the newest owner undoes its registration. */
  lemma {:induction false} DropLast(s: seq<string>, x: string)
    requires x !in s
    ensures Drop(s + [x], x) == s
  {
    if s != [] {
      assert (s + [x])[1..] == s[1..] + [x];
      DropLast(s[1..], x);
    }
  }

  lemma LinkMirrors(ix: Index, ioc: string, names: set<string>)
    requires Mirrors(ix) && ioc in ix.iocs
    ensures Mirrors(Link(ix, ioc, names))
  {
    if names == {} { return; }
    var r := Link(ix, ioc, names);
    forall c, i ensures i in r.OwnersOf(c) <==> c in r.ChannelsOf(i) {
      assert i in ix.OwnersOf(c) <==> c in ix.ChannelsOf(i);
    }
  }

  lemma LinkLists(ix: Index, ioc: string, names: set<string>)
    requires ListsOk(ix) && ioc in ix.iocs
    ensures ListsOk(Link(ix, ioc, names))
  {
    if names == {} { return; }
    var r := Link(ix, ioc, names);
    forall k | k in r.owners ensures NoDups(r.owners[k]) && r.owners[k] != [] {
      assert NoDups(ix.OwnersOf(k));
    }
  }

  lemma LinkCounts(ix: Index, ioc: string, names: set<string>)
    requires CountsOk(ix) && ioc in ix.iocs && names != {}
    requires |ix.ChannelsOf(ioc) + names| == |ix.ChannelsOf(ioc)| + |Fresh(ix.owners, ioc, names)|
    ensures CountsOk(Link(ix, ioc, names))
  {
  }

  lemma LinkKnown(ix: Index, ioc: string, names: set<string>)
    requires Known(ix) && ioc in ix.iocs
    ensures Known(Link(ix, ioc, names))
  {
  }

  lemma LinkKeepsInv(ix: Index, ioc: string, names: set<string>)
    requires Inv(ix) && ioc in ix.iocs
    ensures Inv(Link(ix, ioc, names))
  {
    LinkMirrors(ix, ioc, names);
    LinkLists(ix, ioc, names);
    LinkKnown(ix, ioc, names);
    FreshIsNew(ix, ioc, names);
    assert ix.ChannelsOf(ioc) + names == ix.ChannelsOf(ioc) + Fresh(ix.owners, ioc, names);
    if names != {} {
      LinkCounts(ix, ioc, names);
    }
  }

  lemma FreshIsNew(ix: Index, ioc: string, names: set<string>)
    requires Mirrors(ix)
    ensures Fresh(ix.owners, ioc, names) == names - ix.ChannelsOf(ioc)
  {
    forall n | n in names ensures n in Fresh(ix.owners, ioc, names) <==> n in names - ix.ChannelsOf(ioc) {
      assert ioc in ix.OwnersOf(n) <==> n in ix.ChannelsOf(ioc);
    }
  }

  lemma UnlinkKeepsInv(ix: Index, ioc: string, gone: set<string>)
    requires Inv(ix) && gone <= ix.ChannelsOf(ioc)
    ensures Inv(Unlink(ix, ioc, gone))
  {
    if gone == {} { return; }
    var r := Unlink(ix, ioc, gone);
    forall k | k in ix.owners ensures NoDups(Drop(ix.owners[k], ioc)) {
      DropProps(ix.owners[k], ioc);
    }
    assert Mirrors(r) by {
      forall c, i ensures i in r.OwnersOf(c) <==> c in r.ChannelsOf(i) {
        assert i in ix.OwnersOf(c) <==> c in ix.ChannelsOf(i);
        DropProps(ix.OwnersOf(c), ioc);
      }
    }
  }

  lemma ProbeKeepsInv(ix: Index, rids: set<nat>)
    requires Inv(ix)
    ensures Inv(Probe(ix, rids))
  {
    var r := Probe(ix, rids);
    assert Mirrors(r) by {
      forall c, i ensures i in r.OwnersOf(c) <==> c in r.ChannelsOf(i) {
        assert i in ix.OwnersOf(c) <==> c in ix.ChannelsOf(i);
      }
    }
  }

  lemma BeginKeepsInv(ix: Index, initial: bool, info: IocInfo)
    requires Inv(ix) && (initial ==> ix.ChannelsOf(info.id) == {})
    ensures Inv(Begin(ix, initial, info))
  {
    BeginMirrors(ix, initial, info);
  }

  lemma BeginMirrors(ix: Index, initial: bool, info: IocInfo)
    requires Mirrors(ix)
    ensures Mirrors(Begin(ix, initial, info))
  {
    var r := Begin(ix, initial, info);
    forall c, i ensures i in r.OwnersOf(c) <==> c in r.ChannelsOf(i) {
      assert i in ix.OwnersOf(c) <==> c in ix.ChannelsOf(i);
    }
  }

  /** The guard under which a step is safe: an initial commit must not reuse an IOC id that still has channels. */
  predicate Safe(ix: Index, a: Action) {
    a.Data? && a.initial ==> ix.ChannelsOf(a.info.id) == {}
  }

  lemma StepKeepsInv(ix: Index, a: Action)
    requires Inv(ix) && Callable(ix, a) && Safe(ix, a)
    ensures Inv(Step(ix, a))
  {
    match a
    case Data(initial, info, names, rids) =>
      BeginKeepsInv(ix, initial, info);
      if names != {} {
        LinkKeepsInv(Begin(ix, initial, info), info.id, names);
      }
      ProbeKeepsInv(Link(Begin(ix, initial, info), info.id, names), rids);
    case Disconnect(i) =>
      UnlinkKeepsInv(ix, i, ix.ChannelsOf(i));
    case Evict(i) =>
      UnlinkKeepsInv(ix, i, ix.ChannelsOf(i));
      var u := Unlink(ix, i, ix.ChannelsOf(i));
      assert u.ChannelsOf(i) == {};
      var r := Step(ix, a);
      assert Mirrors(r) by {
        forall c, j ensures j in r.OwnersOf(c) <==> c in r.ChannelsOf(j) {
          assert j in u.OwnersOf(c) <==> c in u.ChannelsOf(j);
        }
      }
  }

  /** The guard is exact: an initial commit that reuses an id with channels always breaks the count. */
  lemma StepKeepsInvIff(ix: Index, a: Action)
    requires Inv(ix) && Callable(ix, a)
    ensures Inv(Step(ix, a)) <==> Safe(ix, a)
  {
    if Safe(ix, a) {
      StepKeepsInv(ix, a);
    } else {
      var i := a.info.id;
      var b := Begin(ix, true, a.info);
      BeginMirrors(ix, true, a.info);
      FreshIsNew(b, i, a.names);
      var added := Fresh(b.owners, i, a.names);
      var r := Step(ix, a);
      assert r.ChannelsOf(i) == ix.ChannelsOf(i) + added;
      assert |r.ChannelsOf(i)| == |ix.ChannelsOf(i)| + |added|;
      assert r.iocs[i].channelcount == |added|;
      assert !CountsOk(r);
    }
  }

  /**
   A follow-up commit of an IOC that is not in `iocs` ends with a KeyError (processor.py:313) once its first
   name has got it as an owner. An IOC gets there by being evicted while its connection goes on.
   */
  function Broken(ix: Index, ioc: string, name: string): Index {
    ix.(owners := LinkOwners(ix.owners, ioc, {name}))
  }

  /** What a commit can leave behind, whichever name comes first. */
  ghost predicate EndsAs(ix: Index, a: Action, r: Index) {
    if Callable(ix, a) then r == Step(ix, a)
    else a.Data? && exists n | n in a.names :: r == Broken(ix, a.info.id, n)
  }

  /** So any commit at all keeps the invariant if and only if it is callable and safe. */
  lemma StepKeepsInvExactly(ix: Index, a: Action, r: Index)
    requires Inv(ix) && EndsAs(ix, a, r)
    ensures Inv(r) <==> Callable(ix, a) && Safe(ix, a)
  {
    if Callable(ix, a) {
      StepKeepsInvIff(ix, a);
    } else {
      var n :| n in a.names && r == Broken(ix, a.info.id, n);
      BrokenLosesInv(ix, a.info.id, n);
    }
  }

  lemma BrokenLosesInv(ix: Index, ioc: string, name: string)
    requires Inv(ix) && ioc !in ix.iocs
    ensures !Inv(Broken(ix, ioc, name))
  {
    var r := Broken(ix, ioc, name);
    assert ix.ChannelsOf(ioc) == {};
    assert ioc in ix.OwnersOf(name) <==> name in ix.ChannelsOf(ioc);
    assert ioc in r.OwnersOf(name) && name !in r.ChannelsOf(ioc);
  }

  /** A disconnect of an IOC that is not in `iocs` is ignored (processor.py:392-398). */
  predicate Ignores(ix: Index, a: Action) {
    a.Disconnect? && a.ioc !in ix.iocs
  }

  /**
   An IOC that was evicted and goes on sending records stays in an owner list without being in `iocs`, and its
   disconnect does not change that.
   */
  lemma EvictedIocComesBack(ix: Index, info: IocInfo, names: set<string>, r: Index)
    requires Inv(ix) && names != {}
    requires EndsAs(Step(ix, Evict(info.id)), Data(false, info, names, {}), r)
    ensures info.id !in r.iocs && exists n | n in names :: info.id in r.OwnersOf(n)
    ensures Ignores(r, Disconnect(info.id))
  {
    var e := Step(ix, Evict(info.id));
    StepKeepsInv(ix, Evict(info.id));
    var n :| n in names && r == Broken(e, info.id, n);
    assert info.id in r.OwnersOf(n);
  }

  // ---------------------------------------------------------------- what the invariant rules out

  /**
   Under the invariant every tracked channel has a last owner whose record is present, so looking up
   `[-1]` cannot fail and the "last IOC not in local state" branch is dead; and removing an owner
   never drives its count below zero.
   */
  lemma NoDeadBranches(ix: Index, c: string)
    requires Inv(ix) && c in ix.owners
    ensures |ix.owners[c]| > 0
    ensures forall i | i in ix.owners[c] :: i in ix.iocs && ix.iocs[i].channelcount > 0
    ensures ix.owners[c][|ix.owners[c]| - 1] in ix.iocs
  {
    forall i | i in ix.owners[c] ensures i in ix.iocs && ix.iocs[i].channelcount > 0 {
      assert i in ix.OwnersOf(c);
      assert c in ix.ChannelsOf(i);
    }
  }

  /** Dropping the owner that was appended last gives back the original lists. */
  lemma LinkThenUnlinkOwners(owners: Owners, ioc: string, names: set<string>)
    requires forall c | c in owners :: owners[c] != []
    requires forall c | c in names :: ioc !in Lookup(owners, c)
    ensures UnlinkOwners(LinkOwners(owners, ioc, names), ioc, names) == owners
  {
    var m := LinkOwners(owners, ioc, names);
    var u := UnlinkOwners(m, ioc, names);
    forall c | c in names ensures Drop(m[c], ioc) == Lookup(owners, c) {
      DropLast(Lookup(owners, c), ioc);
    }
    assert u.Keys == owners.Keys;
  }

  lemma EvictedParts(ix: Index, ioc: string)
    requires ioc in ix.iocs && ix.ChannelsOf(ioc) != {}
    ensures Step(ix, Evict(ioc)) ==
            Index(UnlinkOwners(ix.owners, ioc, ix.ChannelsOf(ioc)), ix.probed, ix.channels - {ioc}, ix.iocs - {ioc})
  {
    hide UnlinkOwners;
    var u := Unlink(ix, ioc, ix.ChannelsOf(ioc));
    assert u.iocs - {ioc} == ix.iocs - {ioc};
    assert u.channels - {ioc} == ix.channels - {ioc};
  }

  lemma EvictUndoes(ix: Index, info: IocInfo, names: set<string>)
    requires info.id !in ix.channels && info.id !in ix.iocs
    requires forall c | c in names :: info.id !in Lookup(ix.owners, c)
    requires forall c | c in ix.owners :: ix.owners[c] != []
    ensures Callable(Step(ix, Data(true, info, names, {})), Evict(info.id))
    ensures Step(Step(ix, Data(true, info, names, {})), Evict(info.id)) == ix
  {
    var m := Step(ix, Data(true, info, names, {}));
    assert m.iocs - {info.id} == ix.iocs;
    assert m.channels - {info.id} == ix.channels;
    assert m.probed == ix.probed;
    if names != {} {
      LinkThenUnlinkOwners(ix.owners, info.id, names);
      hide LinkOwners, UnlinkOwners, Unlink;
      assert m.ChannelsOf(info.id) == names;
      EvictedParts(m, info.id);
    }
  }

  /** Committing an IOC for the first time and evicting it again restores all three maps. */
  lemma RegisterThenEvictIsIdentity(ix: Index, info: IocInfo, names: set<string>)
    requires Inv(ix) && info.id !in ix.iocs && info.id !in ix.channels
    ensures Callable(Step(ix, Data(true, info, names, {})), Evict(info.id))
    ensures Step(Step(ix, Data(true, info, names, {})), Evict(info.id)) == ix
  {
    forall c ensures info.id !in Lookup(ix.owners, c) {
      assert info.id in ix.OwnersOf(c) <==> c in ix.ChannelsOf(info.id);
    }
    EvictUndoes(ix, info, names);
  }

  /** A step made for one IOC leaves every other IOC's channels, record and relative position alone. */
  lemma StepIsolatesIocs(ix: Index, a: Action, j: string)
    requires Inv(ix) && Callable(ix, a) && j != a.Ioc()
    ensures var r := Step(ix, a);
            && r.ChannelsOf(j) == ix.ChannelsOf(j)
            && (j in r.iocs <==> j in ix.iocs)
            && (j in ix.iocs ==> r.iocs[j] == ix.iocs[j])
            && forall c :: Drop(r.OwnersOf(c), a.Ioc()) == Drop(ix.OwnersOf(c), a.Ioc())
  {
    forall c ensures Drop(Step(ix, a).OwnersOf(c), a.Ioc()) == Drop(ix.OwnersOf(c), a.Ioc()) {
      StepKeepsOtherOwners(ix, a, c);
    }
  }

  lemma StepKeepsOtherOwners(ix: Index, a: Action, c: string)
    requires Inv(ix) && Callable(ix, a)
    ensures Drop(Step(ix, a).OwnersOf(c), a.Ioc()) == Drop(ix.OwnersOf(c), a.Ioc())
  {
    var i, s := a.Ioc(), ix.OwnersOf(c);
    StepOnOneChannel(ix, a, c);
    assert NoDups(s);
    DropProps(s, i);
    if i !in s {
      DropLast(s, i);
    }
    DropProps(Drop(s, i), i);
  }

  /** What a step does to the owner list of one channel. */
  lemma StepOnOneChannel(ix: Index, a: Action, c: string)
    requires Inv(ix) && Callable(ix, a)
    ensures Step(ix, a).OwnersOf(c) ==
            var s := ix.OwnersOf(c);
            if a.Data? && c in a.names && a.Ioc() !in s then s + [a.Ioc()]
            else if !a.Data? then Drop(s, a.Ioc())
            else s
  {
    var i := a.Ioc();
    assert i in ix.OwnersOf(c) <==> c in ix.ChannelsOf(i);
    assert NoDups(ix.OwnersOf(c));
    DropProps(ix.OwnersOf(c), i);
  }

  /** What a step does to the record of its own IOC: an opening replaces it, and only its count changes otherwise. */
  lemma StepOnOwnRecord(ix: Index, a: Action)
    requires Callable(ix, a)
    ensures var i, r := a.Ioc(), Step(ix, a);
            && (i in r.iocs <==> a.Opens(i) || (i in ix.iocs && !Forgets(ix, a)))
            && (i in r.iocs ==>
                  var known := if a.Opens(i) then a.info else ix.iocs[i];
                  r.iocs[i] == known.(channelcount := r.iocs[i].channelcount))
  {
  }

  /** An eviction makes the index forget the IOC; a disconnect does so if the IOC had channels. */
  predicate Forgets(ix: Index, a: Action) {
    a.Evict? || (a.Disconnect? && ix.ChannelsOf(a.ioc) != {})
  }

  // ---------------------------------------------------------------- composing one-channel steps

  lemma LinkTwiceOwners(owners: Owners, ioc: string, a: set<string>, b: set<string>)
    ensures LinkOwners(LinkOwners(owners, ioc, a), ioc, b) == LinkOwners(owners, ioc, a + b)
  {
  }

  lemma FreshAddsUp(owners: Owners, ioc: string, a: set<string>, b: set<string>)
    ensures |Fresh(owners, ioc, a + b)|
         == |Fresh(owners, ioc, a)| + |Fresh(LinkOwners(owners, ioc, a), ioc, b)|
  {
    var x, y := Fresh(owners, ioc, a + b), Fresh(owners, ioc, a);
    assert Fresh(LinkOwners(owners, ioc, a), ioc, b) == x - y;
    assert y <= x;
  }

  /** Registering one name after the other adds up to registering them all. */
  lemma LinkUnion(ix: Index, ioc: string, a: set<string>, b: set<string>)
    requires ioc in ix.iocs
    ensures Link(Link(ix, ioc, a), ioc, b) == Link(ix, ioc, a + b)
  {
    if a == {} {
      assert a + b == b;
    } else if b == {} {
      assert a + b == a;
    } else {
      LinkTwiceOwners(ix.owners, ioc, a, b);
      LinkTwiceIocs(ix, ioc, a, b);
      hide LinkOwners, Fresh;
      assert ix.ChannelsOf(ioc) + a + b == ix.ChannelsOf(ioc) + (a + b);
    }
  }

  lemma LinkTwiceIocs(ix: Index, ioc: string, a: set<string>, b: set<string>)
    requires ioc in ix.iocs && a != {} && b != {}
    ensures Link(Link(ix, ioc, a), ioc, b).iocs == Link(ix, ioc, a + b).iocs
  {
    FreshAddsUp(ix.owners, ioc, a, b);
    hide LinkOwners, Fresh;
  }

  lemma UnlinkTwiceOwners(owners: Owners, ioc: string, a: set<string>, b: set<string>)
    requires a !! b
    ensures UnlinkOwners(UnlinkOwners(owners, ioc, a), ioc, b) == UnlinkOwners(owners, ioc, a + b)
  {
  }

  lemma UnlinkTwiceIocs(ix: Index, ioc: string, a: set<string>, b: set<string>)
    requires ioc in ix.iocs && a != {} && b != {} && a !! b && b <= ix.ChannelsOf(ioc)
    ensures ioc in Unlink(ix, ioc, a).iocs
    ensures Unlink(Unlink(ix, ioc, a), ioc, b).iocs == Unlink(ix, ioc, a + b).iocs
    ensures Unlink(Unlink(ix, ioc, a), ioc, b).channels == Unlink(ix, ioc, a + b).channels
  {
    assert b <= ix.ChannelsOf(ioc) - a;
    assert ix.ChannelsOf(ioc) - a - b == ix.ChannelsOf(ioc) - (a + b);
  }

  /** Removing one name after the other adds up to removing them all. */
  lemma UnlinkUnion(ix: Index, ioc: string, a: set<string>, b: set<string>)
    requires Inv(ix) && a <= ix.ChannelsOf(ioc) && b <= ix.ChannelsOf(ioc) && a !! b
    ensures Inv(Unlink(ix, ioc, a))
    ensures b <= Unlink(ix, ioc, a).ChannelsOf(ioc)
    ensures Unlink(Unlink(ix, ioc, a), ioc, b) == Unlink(ix, ioc, a + b)
  {
    UnlinkKeepsInv(ix, ioc, a);
    if a == {} {
      assert a + b == b;
    } else if b == {} {
      assert a + b == a;
    } else {
      UnlinkTwiceOwners(ix.owners, ioc, a, b);
      UnlinkTwiceIocs(ix, ioc, a, b);
    }
  }
}
