/**
 The index and ChannelFinder over whole runs of commits from many IOCs, with aliases off and each
 commit's write landing as a whole. ChannelFinder may hold anything at the start; an IOC must not find
 channels under its own id when it first commits, which is shown to be exactly what agreement needs.
 */
module Agreement {
  import opened CfModel
  import opened Properties
  import opened ChannelIndex
  import opened PushDiff

  datatype Config = Config(managed: set<string>, recceiverId: string, recordTypes: bool)

  datatype State = State(ix: Index, cf: Cf, live: set<string>, used: set<string>)

  /** `olds` and `order` are the orders in which ChannelFinder and the Python set deliver their elements. */
  datatype Event =
    | Commit(initial: bool, info: IocInfo, records: map<string, RecordInfo>, rids: set<nat>,
             olds: seq<string>, order: seq<string>)
    | Leave(info: IocInfo, olds: seq<string>)

  function ActionOf(e: Event): Action {
    match e
    case Commit(initial, info, records, rids, _, _) => Data(initial, info, records.Keys, rids)
    case Leave(info, _) => Disconnect(info.id)
  }

  function PushOf(g: Config, s: State, e: Event): Push
    requires Callable(s.ix, ActionOf(e))
  {
    match e
    case Commit(_, info, records, _, _, _) =>
      Push(Step(s.ix, ActionOf(e)), g.managed, g.recceiverId, g.recordTypes, info, records, {})
    case Leave(info, _) =>
      Push(Step(s.ix, ActionOf(e)), g.managed, g.recceiverId, g.recordTypes, info, map[], s.ix.ChannelsOf(info.id))
  }

  function OrderOf(e: Event): seq<string> {
    if e.Commit? then e.order else []
  }

  /** IOC ids are not reused, only connected IOCs commit more, and a known IOC leaves once. */
  ghost predicate Possible(g: Config, s: State, e: Event) {
    var i := e.info.id;
    && (match e
        case Commit(initial, _, records, _, _, _) =>
          (if initial then i !in s.used else i in s.live)
        case Leave(_, _) => i in s.live)
    && Callable(s.ix, ActionOf(e))
    && FIXED <= g.managed
    && NoClash(PushOf(g, s, e))
    && Choices(PushOf(g, s, e), s.cf, e.olds, OrderOf(e))
  }

  /** ChannelFinder has nothing under the id of an IOC that opens, and an IOC adds no name it already serves. */
  ghost predicate Legal(g: Config, s: State, e: Event) {
    && Possible(g, s, e)
    && (e.Commit? ==>
          if e.initial then Tagged(s.cf, e.info.id) == {} else e.records.Keys !! s.ix.ChannelsOf(e.info.id))
  }

  function Next(g: Config, s: State, e: Event): State
    requires Possible(g, s, e)
  {
    var p := PushOf(g, s, e);
    State(p.ix,
          Landed(p, s.cf, e.olds, OrderOf(e), |Writes(p, s.cf, e.olds, OrderOf(e))|),
          if e.Commit? then s.live + {e.info.id} else s.live - {e.info.id},
          s.used + {e.info.id})
  }

  function Last(s: seq<string>): (r: string)
    requires s != []
    ensures r in s
  {
    s[|s| - 1]
  }

  // ---------------------------------------------------------------- the agreement

  /** A tracked channel is Active under the last of its owners, and under nobody else. */
  ghost predicate Tracked(ix: Index, cf: Cf, n: string) {
    && n in cf && ix.OwnersOf(n) != []
    && Sole(cf[n].props, PV_STATUS, ACTIVE)
    && Sole(cf[n].props, IOC_ID, Last(ix.OwnersOf(n)))
  }

  /** A channel nobody serves is Inactive if it carries the tag of an IOC this processor has seen. */
  ghost predicate Retired(cf: Cf, used: set<string>, n: string) {
    forall i | i in used :: n in cf && IsTagged(cf[n], i) ==> Sole(cf[n].props, PV_STATUS, INACTIVE)
  }

  /** Only tracked channels carry the tag of a connected IOC. */
  ghost predicate NoStrays(ix: Index, cf: Cf, live: set<string>, n: string) {
    forall i | i in live :: n in cf && IsTagged(cf[n], i) ==> n in ix.owners
  }

  ghost predicate ChannelAgrees(s: State, n: string) {
    && (n in s.ix.owners ==> Tracked(s.ix, s.cf, n))
    && (n !in s.ix.owners ==> Retired(s.cf, s.used, n))
    && NoStrays(s.ix, s.cf, s.live, n)
  }

  ghost predicate OnlyLiveOwners(s: State) {
    && s.live <= s.used
    && s.live <= s.ix.iocs.Keys
    && forall i | i in s.ix.channels :: s.ix.channels[i] != {} ==> i in s.live
  }

  ghost predicate Agrees(s: State) {
    && Inv(s.ix) && WellKeyed(s.cf) && OnlyLiveOwners(s)
    && forall n :: ChannelAgrees(s, n)
  }

  /** A fresh IOC id has no channels, so the index step is safe. */
  lemma LegalIsSafe(g: Config, s: State, e: Event)
    requires Legal(g, s, e) && OnlyLiveOwners(s)
    ensures Safe(s.ix, ActionOf(e))
  {
  }

  lemma SoleIsUnique(ps: seq<Prop>, name: string, v: string, w: string)
    requires Sole(ps, name, v) && Has(ps, name, w)
    ensures v == w
  {
  }

  lemma {:induction false} DropKeepsLast(s: seq<string>, x: string)
    requires s != [] && Last(s) != x
    ensures Drop(s, x) != [] && Last(Drop(s, x)) == Last(s)
  {
    if s[0] != x && |s| > 1 {
      DropKeepsLast(s[1..], x);
    }
  }

  /** Among agreed channels, the tag of a connected IOC means being its last owner. */
  lemma TagMeansLast(s: State, n: string, i: string)
    requires ChannelAgrees(s, n) && i in s.live && n in Tagged(s.cf, i)
    ensures n in s.ix.owners && s.ix.OwnersOf(n) != [] && Last(s.ix.OwnersOf(n)) == i
  {
    assert n in s.ix.owners;
    SoleIsUnique(s.cf[n].props, IOC_ID, Last(s.ix.OwnersOf(n)), i);
  }

  // ---------------------------------------------------------------- commits

  /** The names of a legal commit are not yet tagged with its IOC, so each gets the tag. */
  lemma CommitNamesUntagged(g: Config, s: State, e: Event, n: string)
    requires e.Commit? && Legal(g, s, e) && Agrees(s) && n in e.records
    ensures n !in Tagged(s.cf, e.info.id)
    ensures e.info.id !in s.ix.OwnersOf(n)
  {
    var i := e.info.id;
    assert ChannelAgrees(s, n);
    assert i in s.ix.OwnersOf(n) <==> n in s.ix.ChannelsOf(i);
    if n in Tagged(s.cf, i) {
      assert !e.initial;
      TagMeansLast(s, n, i);
    }
  }

  lemma CommitOwners(g: Config, s: State, e: Event, n: string)
    requires e.Commit? && Legal(g, s, e) && Agrees(s)
    ensures var ix := PushOf(g, s, e).ix;
            && Inv(ix)
            && e.info.id in ix.iocs
            && ix.OwnersOf(n) == (if n in e.records then s.ix.OwnersOf(n) + [e.info.id] else s.ix.OwnersOf(n))
            && (n in ix.owners <==> ix.OwnersOf(n) != [])
            && (n in s.ix.owners <==> s.ix.OwnersOf(n) != [])
  {
    var a := ActionOf(e);
    LegalIsSafe(g, s, e);
    StepKeepsInv(s.ix, a);
    StepOnOneChannel(s.ix, a, n);
    if n in e.records {
      CommitNamesUntagged(g, s, e, n);
    }
    assert ListsOk(s.ix) && ListsOk(PushOf(g, s, e).ix);
  }

  lemma CommitRecord(g: Config, s: State, e: Event, n: string)
    requires e.Commit? && Legal(g, s, e) && Agrees(s) && n in e.records
    ensures ChannelAgrees(Next(g, s, e), n)
  {
    var p := PushOf(g, s, e);
    CommitOwners(g, s, e, n);
    LandedAt(p, s.cf, e.olds, e.order, |Writes(p, s.cf, e.olds, e.order)|, n);
    CommitNamesUntagged(g, s, e, n);
    RecordTarget(p, s.cf, n);
  }

  /** What agreement says about a channel under the id of a connected IOC. */
  lemma UnderId(s: State, n: string, i: string)
    requires Agrees(s) && i in s.live && n in Tagged(s.cf, i)
    ensures n in s.cf && n in s.ix.owners && s.ix.OwnersOf(n) != [] && Last(s.ix.OwnersOf(n)) == i
    ensures Sole(s.cf[n].props, IOC_ID, i) && Sole(s.cf[n].props, PV_STATUS, ACTIVE)
  {
    assert ChannelAgrees(s, n);
    TagMeansLast(s, n, i);
  }

  /** A channel this IOC already has and does not mention keeps its owners, this IOC being the last. */
  lemma KeptOwners(g: Config, s: State, e: Event, n: string)
    requires e.Commit? && Legal(g, s, e) && Agrees(s) && n !in e.records && n in Tagged(s.cf, e.info.id)
    ensures e.info.id in s.live
    ensures var ix := PushOf(g, s, e).ix;
            && n in ix.owners && ix.OwnersOf(n) == s.ix.OwnersOf(n) && e.info.id in ix.iocs && CountsOk(ix)
  {
    assert e.info.id in s.live;
    hide Legal, Possible, Agrees;
    UnderId(s, n, e.info.id);
    CommitOwners(g, s, e, n);
  }

  /** It is written back to the same owner, or left alone. */
  lemma CommitKept(g: Config, s: State, e: Event, n: string)
    requires e.Commit? && Legal(g, s, e) && Agrees(s) && n !in e.records && n in Tagged(s.cf, e.info.id)
    ensures ChannelAgrees(Next(g, s, e), n)
  {
    var p, r := PushOf(g, s, e), Next(g, s, e);
    KeptOwners(g, s, e, n);
    UnderId(s, n, e.info.id);
    hide Agrees;
    LandedAt(p, s.cf, e.olds, e.order, |Writes(p, s.cf, e.olds, e.order)|, n);
    GivenUpTarget(p, s.cf, n);
    hide Writes, Choices, Target, Landed, NoClash, Merge;
    assert Tracked(r.ix, r.cf, n);
  }

  lemma CommitOther(g: Config, s: State, e: Event, n: string)
    requires e.Commit? && Legal(g, s, e) && Agrees(s) && n !in e.records && n !in Tagged(s.cf, e.info.id)
    ensures ChannelAgrees(Next(g, s, e), n)
  {
    assert ChannelAgrees(s, n);
    CommitOwners(g, s, e, n);
    OthersUntouched(PushOf(g, s, e), s.cf, e.olds, e.order, |Writes(PushOf(g, s, e), s.cf, e.olds, e.order)|, n);
  }

  lemma CommitChannel(g: Config, s: State, e: Event, n: string)
    requires e.Commit? && Legal(g, s, e) && Agrees(s)
    ensures ChannelAgrees(Next(g, s, e), n)
  {
    if n in e.records {
      CommitRecord(g, s, e, n);
    } else if n in Tagged(s.cf, e.info.id) {
      CommitKept(g, s, e, n);
    } else {
      CommitOther(g, s, e, n);
    }
  }

  lemma CommitKeepsAgreement(g: Config, s: State, e: Event)
    requires e.Commit? && Legal(g, s, e) && Agrees(s)
    ensures Agrees(Next(g, s, e))
  {
    var p := PushOf(g, s, e);
    var r := Next(g, s, e);
    LegalIsSafe(g, s, e);
    StepKeepsInv(s.ix, ActionOf(e));
    LandedIsWellKeyed(p, s.cf, e.olds, e.order, |Writes(p, s.cf, e.olds, e.order)|);
    CommitLive(g, s, e);
    forall n ensures ChannelAgrees(r, n) {
      CommitChannel(g, s, e, n);
    }
  }

  lemma CommitLive(g: Config, s: State, e: Event)
    requires e.Commit? && Legal(g, s, e) && Inv(s.ix) && OnlyLiveOwners(s)
    ensures OnlyLiveOwners(Next(g, s, e))
  {
    var r := Next(g, s, e);
    forall i | i in r.ix.channels && r.ix.channels[i] != {} ensures i in r.live {
      if i != e.info.id {
        StepIsolatesIocs(s.ix, ActionOf(e), i);
        assert s.ix.ChannelsOf(i) != {};
      }
    }
    forall i | i in s.live && i != e.info.id ensures i in r.ix.iocs {
      StepIsolatesIocs(s.ix, ActionOf(e), i);
    }
  }

  // ---------------------------------------------------------------- disconnects

  lemma LeaveOwners(g: Config, s: State, e: Event, n: string)
    requires e.Leave? && Legal(g, s, e) && Agrees(s)
    ensures var ix := PushOf(g, s, e).ix;
            && Inv(ix)
            && ix.OwnersOf(n) == Drop(s.ix.OwnersOf(n), e.info.id)
            && (n in ix.owners <==> ix.OwnersOf(n) != [])
            && (n in s.ix.owners <==> s.ix.OwnersOf(n) != [])
            && (n in ix.owners ==> Last(ix.OwnersOf(n)) in ix.iocs)
  {
    LegalIsSafe(g, s, e);
    StepKeepsInv(s.ix, ActionOf(e));
    StepOnOneChannel(s.ix, ActionOf(e), n);
    assert ListsOk(s.ix) && ListsOk(PushOf(g, s, e).ix);
    if n in PushOf(g, s, e).ix.owners {
      NoDeadBranches(PushOf(g, s, e).ix, n);
    }
  }

  lemma LeaveOther(g: Config, s: State, e: Event, n: string)
    requires e.Leave? && Legal(g, s, e) && Agrees(s) && n !in Tagged(s.cf, e.info.id)
    ensures ChannelAgrees(Next(g, s, e), n)
  {
    var owners := s.ix.OwnersOf(n);
    assert ChannelAgrees(s, n);
    LeaveOwners(g, s, e, n);
    OthersUntouched(PushOf(g, s, e), s.cf, e.olds, [], |Writes(PushOf(g, s, e), s.cf, e.olds, [])|, n);
    if n in s.ix.owners {
      assert Last(owners) != e.info.id;
      DropKeepsLast(owners, e.info.id);
    }
  }

  /** A channel of the leaving IOC goes to the next owner, or is retired with its tag. */
  lemma LeaveWritten(g: Config, s: State, e: Event, n: string)
    requires e.Leave? && Legal(g, s, e) && Agrees(s) && n in Tagged(s.cf, e.info.id)
    ensures n in Next(g, s, e).cf && n in s.ix.owners
    ensures n in Next(g, s, e).ix.owners ==> Tracked(Next(g, s, e).ix, Next(g, s, e).cf, n)
    ensures n !in Next(g, s, e).ix.owners ==>
              && Sole(Next(g, s, e).cf[n].props, PV_STATUS, INACTIVE)
              && forall j :: IsTagged(Next(g, s, e).cf[n], j) <==> IsTagged(s.cf[n], j)
  {
    var p := PushOf(g, s, e);
    assert ChannelAgrees(s, n);
    TagMeansLast(s, n, e.info.id);
    LeaveOwners(g, s, e, n);
    LandedAt(p, s.cf, e.olds, [], |Writes(p, s.cf, e.olds, [])|, n);
    GivenUpTarget(p, s.cf, n);
  }

  lemma LeaveTagged(g: Config, s: State, e: Event, n: string)
    requires e.Leave? && Legal(g, s, e) && Agrees(s) && n in Tagged(s.cf, e.info.id)
    ensures ChannelAgrees(Next(g, s, e), n)
  {
    var r := Next(g, s, e);
    assert ChannelAgrees(s, n);
    TagMeansLast(s, n, e.info.id);
    LeaveWritten(g, s, e, n);
    forall j | j in r.live && IsTagged(r.cf[n], j) ensures n in r.ix.owners {
      if n !in r.ix.owners {
        SoleIsUnique(s.cf[n].props, IOC_ID, e.info.id, j);
      }
    }
  }

  lemma LeaveChannel(g: Config, s: State, e: Event, n: string)
    requires e.Leave? && Legal(g, s, e) && Agrees(s)
    ensures ChannelAgrees(Next(g, s, e), n)
  {
    if n in Tagged(s.cf, e.info.id) {
      LeaveTagged(g, s, e, n);
    } else {
      LeaveOther(g, s, e, n);
    }
  }

  lemma LeaveLive(g: Config, s: State, e: Event)
    requires e.Leave? && Legal(g, s, e) && Inv(s.ix) && OnlyLiveOwners(s)
    ensures OnlyLiveOwners(Next(g, s, e))
  {
    var r := Next(g, s, e);
    assert r.ix.ChannelsOf(e.info.id) == {};
    forall i | i in r.ix.channels && r.ix.channels[i] != {} ensures i in r.live {
      StepIsolatesIocs(s.ix, ActionOf(e), i);
      assert s.ix.ChannelsOf(i) != {};
    }
    forall i | i in r.live ensures i in r.ix.iocs {
      StepIsolatesIocs(s.ix, ActionOf(e), i);
    }
  }

  lemma LeaveKeepsAgreement(g: Config, s: State, e: Event)
    requires e.Leave? && Legal(g, s, e) && Agrees(s)
    ensures Agrees(Next(g, s, e))
  {
    var p := PushOf(g, s, e);
    var r := Next(g, s, e);
    LegalIsSafe(g, s, e);
    StepKeepsInv(s.ix, ActionOf(e));
    LandedIsWellKeyed(p, s.cf, e.olds, [], |Writes(p, s.cf, e.olds, [])|);
    LeaveLive(g, s, e);
    forall n ensures ChannelAgrees(r, n) {
      LeaveChannel(g, s, e, n);
    }
  }

  // ---------------------------------------------------------------- whole runs

  /** A run from an empty processor: the states it passes through, one more than there are events. */
  ghost predicate IsRun(g: Config, states: seq<State>, events: seq<Event>) {
    && |states| == |events| + 1
    && WellKeyed(states[0].cf) && states[0] == State(EMPTY, states[0].cf, {}, {})
    && forall k | 0 <= k < |events| :: Legal(g, states[k], events[k]) && states[k + 1] == Next(g, states[k], events[k])
  }

  lemma StartAgrees(cf: Cf)
    requires WellKeyed(cf)
    ensures Agrees(State(EMPTY, cf, {}, {}))
  {
  }

  /** In every state of every run, index and ChannelFinder agree on every channel. */
  lemma {:induction false} AgreementOverRuns(g: Config, states: seq<State>, events: seq<Event>, k: nat)
    requires IsRun(g, states, events) && k < |states|
    ensures Agrees(states[k])
  {
    if k == 0 {
      StartAgrees(states[0].cf);
    } else {
      AgreementOverRuns(g, states, events, k - 1);
      if events[k - 1].Commit? {
        CommitKeepsAgreement(g, states[k - 1], events[k - 1]);
      } else {
        LeaveKeepsAgreement(g, states[k - 1], events[k - 1]);
      }
    }
  }

  /** Once every IOC has left, no channel under any of their tags is left Active. */
  lemma NothingActiveAtTheEnd(g: Config, states: seq<State>, events: seq<Event>, k: nat, n: string, i: string)
    requires IsRun(g, states, events) && k < |states| && states[k].live == {}
    requires i in states[k].used && n in Tagged(states[k].cf, i)
    ensures Sole(states[k].cf[n].props, PV_STATUS, INACTIVE)
  {
    AgreementOverRuns(g, states, events, k);
    var s := states[k];
    assert ChannelAgrees(s, n);
    forall j ensures j !in s.ix.OwnersOf(n) {
      assert n !in s.ix.ChannelsOf(j);
    }
    assert ListsOk(s.ix);
  }

  // ---------------------------------------------------------------- what an opening IOC may find

  /** A channel already under the id of an IOC that opens belongs to nobody in the index. */
  lemma StaleIsUntracked(s: State, n: string, i: string)
    requires Agrees(s) && i !in s.used && n in Tagged(s.cf, i)
    ensures n !in s.ix.owners && s.ix.OwnersOf(n) == []
  {
    assert ChannelAgrees(s, n);
    forall j | j in s.ix.OwnersOf(n) ensures j != i {
      assert n in s.ix.ChannelsOf(j);
    }
    assert n in s.ix.owners ==> Last(s.ix.OwnersOf(n)) == i;
  }

  lemma OpeningOwners(g: Config, s: State, e: Event, n: string)
    requires e.Commit? && e.initial && Possible(g, s, e) && Agrees(s)
    ensures var ix := PushOf(g, s, e).ix;
            && Inv(ix)
            && (n !in e.records ==> ix.OwnersOf(n) == s.ix.OwnersOf(n))
            && (n in ix.owners <==> ix.OwnersOf(n) != [])
  {
    var a := ActionOf(e);
    assert Safe(s.ix, a);
    StepKeepsInv(s.ix, a);
    StepOnOneChannel(s.ix, a, n);
    assert ListsOk(PushOf(g, s, e).ix);
  }

  /** What becomes of a channel found under the id of an opening IOC: as a record it loses the tag. */
  lemma StaleRecord(g: Config, s: State, e: Event, n: string)
    requires e.Commit? && e.initial && Possible(g, s, e) && Agrees(s)
    requires n in Tagged(s.cf, e.info.id) && n in e.records
    ensures var r := Next(g, s, e);
            n in r.cf && n in r.ix.owners && r.ix.OwnersOf(n) != [] && forall v :: !Has(r.cf[n].props, IOC_ID, v)
  {
    var p := PushOf(g, s, e);
    StaleIsUntracked(s, n, e.info.id);
    OpeningOwners(g, s, e, n);
    StepOnOneChannel(s.ix, ActionOf(e), n);
    LandedAt(p, s.cf, e.olds, e.order, |Writes(p, s.cf, e.olds, e.order)|, n);
    RecordTarget(p, s.cf, n);
  }

  /** Otherwise it keeps the tag and is tracked by nobody; it is made Inactive if there are no records at all. */
  lemma StaleOther(g: Config, s: State, e: Event, n: string)
    requires e.Commit? && e.initial && Possible(g, s, e) && Agrees(s)
    requires n in Tagged(s.cf, e.info.id) && n !in e.records
    ensures var r := Next(g, s, e);
            && n in r.cf && n !in r.ix.owners && IsTagged(r.cf[n], e.info.id)
            && (e.records == map[] ==> Sole(r.cf[n].props, PV_STATUS, INACTIVE))
  {
    var p := PushOf(g, s, e);
    StaleIsUntracked(s, n, e.info.id);
    OpeningOwners(g, s, e, n);
    LandedAt(p, s.cf, e.olds, e.order, |Writes(p, s.cf, e.olds, e.order)|, n);
    GivenUpTarget(p, s.cf, n);
  }

  /**
   The exact condition under which a first commit keeps index and ChannelFinder in agreement, whatever else
   ChannelFinder holds: nothing is there yet under the id of the IOC.
   */
  lemma OpeningAgreesIff(g: Config, s: State, e: Event)
    requires e.Commit? && e.initial && Possible(g, s, e) && Agrees(s)
    ensures Agrees(Next(g, s, e)) <==> Tagged(s.cf, e.info.id) == {}
  {
    if Tagged(s.cf, e.info.id) == {} {
      CommitKeepsAgreement(g, s, e);
    } else {
      var n :| n in Tagged(s.cf, e.info.id);
      StaleDisagrees(g, s, e, n);
    }
  }

  lemma StaleDisagrees(g: Config, s: State, e: Event, n: string)
    requires e.Commit? && e.initial && Possible(g, s, e) && Agrees(s) && n in Tagged(s.cf, e.info.id)
    ensures !ChannelAgrees(Next(g, s, e), n)
  {
    var r := Next(g, s, e);
    if n in e.records {
      StaleRecord(g, s, e, n);
      assert !Has(r.cf[n].props, IOC_ID, Last(r.ix.OwnersOf(n)));
    } else {
      StaleOther(g, s, e, n);
      assert e.info.id in r.live;
    }
  }

  /** What a user of ChannelFinder sees: tracked channels Active under their owner, others Inactive. */
  ghost predicate LooksRight(s: State, n: string) {
    (n in s.ix.owners ==> Tracked(s.ix, s.cf, n)) && (n !in s.ix.owners ==> Retired(s.cf, s.used, n))
  }

  /**
   And the exact condition under which all channels at least look right afterwards: none of the channels
   found is among the records, and they are Inactive already unless the IOC brings no records.
   */
  lemma OpeningLooksRightIff(g: Config, s: State, e: Event)
    requires e.Commit? && e.initial && Possible(g, s, e) && Agrees(s)
    ensures (forall n :: LooksRight(Next(g, s, e), n)) <==>
            forall n | n in Tagged(s.cf, e.info.id) ::
              n !in e.records && (e.records == map[] || Sole(s.cf[n].props, PV_STATUS, INACTIVE))
  {
    hide LooksRight, Next, Agrees, Possible;
    if m :| m in Tagged(s.cf, e.info.id) && m in e.records {
      StaleRecordLooksWrong(g, s, e, m);
    } else {
      forall n ensures LooksRight(Next(g, s, e), n) <==>
        (n in Tagged(s.cf, e.info.id) ==> e.records == map[] || Sole(s.cf[n].props, PV_STATUS, INACTIVE))
      {
        if n in Tagged(s.cf, e.info.id) {
          StaleLooksRightIff(g, s, e, n);
        } else {
          OthersLookRight(g, s, e, n);
        }
      }
    }
  }

  lemma StaleRecordLooksWrong(g: Config, s: State, e: Event, n: string)
    requires e.Commit? && e.initial && Possible(g, s, e) && Agrees(s)
    requires n in Tagged(s.cf, e.info.id) && n in e.records
    ensures !LooksRight(Next(g, s, e), n)
  {
    StaleRecord(g, s, e, n);
    hide Next, Agrees, Possible;
    var r := Next(g, s, e);
    assert !Has(r.cf[n].props, IOC_ID, Last(r.ix.OwnersOf(n)));
  }

  lemma StaleLooksRightIff(g: Config, s: State, e: Event, n: string)
    requires e.Commit? && e.initial && Possible(g, s, e) && Agrees(s) && n in Tagged(s.cf, e.info.id)
    requires forall m | m in Tagged(s.cf, e.info.id) :: m !in e.records
    ensures LooksRight(Next(g, s, e), n) <==> e.records == map[] || Sole(s.cf[n].props, PV_STATUS, INACTIVE)
  {
    var r := Next(g, s, e);
    StaleOther(g, s, e, n);
    if e.records != map[] {
      StrangersAreKept(PushOf(g, s, e), s.cf, e.olds, e.order, n);
    }
    assert e.info.id in r.used;
  }

  lemma OthersLookRight(g: Config, s: State, e: Event, n: string)
    requires e.Commit? && e.initial && Possible(g, s, e) && Agrees(s) && n !in Tagged(s.cf, e.info.id)
    ensures LooksRight(Next(g, s, e), n)
  {
    if n in e.records {
      NewRecordLooksRight(g, s, e, n);
    } else {
      BystanderLooksRight(g, s, e, n);
    }
  }

  lemma NewRecordLooksRight(g: Config, s: State, e: Event, n: string)
    requires e.Commit? && e.initial && Possible(g, s, e) && Agrees(s) && n !in Tagged(s.cf, e.info.id)
    requires n in e.records
    ensures LooksRight(Next(g, s, e), n)
  {
    var p := PushOf(g, s, e);
    RecordOwners(g, s, e, n);
    LandedAt(p, s.cf, e.olds, e.order, |Writes(p, s.cf, e.olds, e.order)|, n);
    RecordTarget(p, s.cf, n);
    hide Agrees, Writes, Choices, Target;
  }

  lemma RecordOwners(g: Config, s: State, e: Event, n: string)
    requires e.Commit? && e.initial && Possible(g, s, e) && Agrees(s) && n in e.records
    ensures var ix := PushOf(g, s, e).ix;
            n in ix.owners && ix.OwnersOf(n) == s.ix.OwnersOf(n) + [e.info.id]
  {
    OpeningOwners(g, s, e, n);
    StepOnOneChannel(s.ix, ActionOf(e), n);
    assert e.info.id in s.ix.OwnersOf(n) <==> n in s.ix.ChannelsOf(e.info.id);
  }

  lemma BystanderLooksRight(g: Config, s: State, e: Event, n: string)
    requires e.Commit? && e.initial && Possible(g, s, e) && Agrees(s) && n !in Tagged(s.cf, e.info.id)
    requires n !in e.records
    ensures LooksRight(Next(g, s, e), n)
  {
    var p := PushOf(g, s, e);
    assert ChannelAgrees(s, n);
    OpeningOwners(g, s, e, n);
    assert ListsOk(s.ix) && (n in s.ix.owners <==> s.ix.OwnersOf(n) != []);
    OthersUntouched(p, s.cf, e.olds, e.order, |Writes(p, s.cf, e.olds, e.order)|, n);
  }

  // ---------------------------------------------------------------- what a connected IOC may add

  /** A name its IOC serves already loses the tag, or gets the tag of an IOC that is not its last owner. */
  lemma AgainDisagrees(g: Config, s: State, e: Event, n: string)
    requires e.Commit? && !e.initial && Possible(g, s, e) && Agrees(s)
    requires n in e.records && n in s.ix.ChannelsOf(e.info.id)
    ensures !ChannelAgrees(Next(g, s, e), n)
  {
    var i, p, r := e.info.id, PushOf(g, s, e), Next(g, s, e);
    AgainOwners(g, s, e, n);
    assert ChannelAgrees(s, n);
    LandedAt(p, s.cf, e.olds, e.order, |Writes(p, s.cf, e.olds, e.order)|, n);
    RecordTarget(p, s.cf, n);
    if n in Tagged(s.cf, i) {
      assert !Has(r.cf[n].props, IOC_ID, Last(r.ix.OwnersOf(n)));
    } else {
      assert Last(s.ix.OwnersOf(n)) != i;
      assert Sole(r.cf[n].props, IOC_ID, i);
      assert !Sole(r.cf[n].props, IOC_ID, Last(r.ix.OwnersOf(n)));
    }
  }

  lemma AgainOwners(g: Config, s: State, e: Event, n: string)
    requires e.Commit? && !e.initial && Possible(g, s, e) && Agrees(s)
    requires n in e.records && n in s.ix.ChannelsOf(e.info.id)
    ensures n in s.ix.owners && n in PushOf(g, s, e).ix.owners
    ensures s.ix.OwnersOf(n) != [] && PushOf(g, s, e).ix.OwnersOf(n) == s.ix.OwnersOf(n)
  {
    assert e.info.id in s.ix.OwnersOf(n) <==> n in s.ix.ChannelsOf(e.info.id);
    StepOnOneChannel(s.ix, ActionOf(e), n);
  }

  /** The exact condition under which a further commit keeps the agreement: it repeats no name of its IOC. */
  lemma FollowUpAgreesIff(g: Config, s: State, e: Event)
    requires e.Commit? && !e.initial && Possible(g, s, e) && Agrees(s)
    ensures Agrees(Next(g, s, e)) <==> e.records.Keys !! s.ix.ChannelsOf(e.info.id)
  {
    if e.records.Keys !! s.ix.ChannelsOf(e.info.id) {
      CommitKeepsAgreement(g, s, e);
    } else {
      var n :| n in e.records.Keys && n in s.ix.ChannelsOf(e.info.id);
      AgainDisagrees(g, s, e, n);
    }
  }

  // ---------------------------------------------------------------- where the code falls short

  /**
   Deleting records does not reach ChannelFinder: the transaction names them by record id, so whatever a
   commit adds and deletes, every channel the IOC had is still tracked and Active.
   */
  lemma DeletedRecordsStayActive(g: Config, s: State, e: Event, n: string)
    requires e.Commit? && Legal(g, s, e) && Agrees(s)
    requires n in s.ix.ChannelsOf(e.info.id)
    ensures var r := Next(g, s, e);
            && n in r.ix.ChannelsOf(e.info.id)
            && n in r.cf && Sole(r.cf[n].props, PV_STATUS, ACTIVE)
  {
    CommitKeepsAgreement(g, s, e);
    var r := Next(g, s, e);
    assert ChannelAgrees(r, n);
    assert e.info.id in s.ix.OwnersOf(n);
    CommitOwners(g, s, e, n);
  }

  /**
   A push that fails between chunks and is retried, and the disconnect of its IOC afterwards. A record ends
   Inactive if and only if the failed attempt had not left the IOC's tag on it: if it had, the retry finds the
   record under its own IOC, refreshes it and thereby drops the tag, and the disconnect does not see it.
   */
  lemma RetiredAfterRetryIff(p: Push, cf: Cf, olds: seq<string>, order: seq<string>, k: nat,
                             olds2: seq<string>, order2: seq<string>, d: Push, olds3: seq<string>, n: string)
    requires Choices(p, cf, olds, order) && k <= |Writes(p, cf, olds, order)|
    requires FIXED <= p.managed && NoClash(p) && n in p.records
    requires CountsOk(d.ix) && n !in d.ix.owners
    requires var cf1 := Landed(p, cf, olds, order, k);
             && Choices(p, cf1, olds2, order2)
             && var cf2 := Landed(p, cf1, olds2, order2, |Writes(p, cf1, olds2, order2)|);
                d.info.id == p.info.id && d.records == map[] && Choices(d, cf2, olds3, [])
    ensures var cf1 := Landed(p, cf, olds, order, k);
            var cf2 := Landed(p, cf1, olds2, order2, |Writes(p, cf1, olds2, order2)|);
            var cf3 := Landed(d, cf2, olds3, [], |Writes(d, cf2, olds3, [])|);
            n in cf3 && (Sole(cf3[n].props, PV_STATUS, INACTIVE) <==> n !in Tagged(cf1, p.info.id))
  {
    var cf1 := Landed(p, cf, olds, order, k);
    var cf2 := Landed(p, cf1, olds2, order2, |Writes(p, cf1, olds2, order2)|);
    PushConverges(p, cf1, olds2, order2, n);
    TagAfterPush(p, cf1, olds2, order2, n);
    DisconnectAfterRetry(d, cf2, olds3, n);
  }

  /** A disconnect makes an Active channel without owners Inactive if and only if it is under the IOC's id. */
  lemma DisconnectAfterRetry(d: Push, cf: Cf, olds: seq<string>, n: string)
    requires Choices(d, cf, olds, []) && d.records == map[] && CountsOk(d.ix) && n !in d.ix.owners
    requires n in cf && Sole(cf[n].props, PV_STATUS, ACTIVE)
    ensures var r := Landed(d, cf, olds, [], |Writes(d, cf, olds, [])|);
            n in r && (Sole(r[n].props, PV_STATUS, INACTIVE) <==> n in Tagged(cf, d.info.id))
  {
    if n in Tagged(cf, d.info.id) {
      LandedAt(d, cf, olds, [], |Writes(d, cf, olds, [])|, n);
      GivenUpTarget(d, cf, n);
    } else {
      OthersUntouched(d, cf, olds, [], |Writes(d, cf, olds, [])|, n);
    }
  }

  /**
   The records such a retry strands stay Active, whoever else owns them.
   */
  lemma RetryStrandsRecord(p: Push, cf: Cf, olds: seq<string>, order: seq<string>, k: nat,
                           olds2: seq<string>, order2: seq<string>, d: Push, olds3: seq<string>, n: string)
    requires Choices(p, cf, olds, order) && k <= |Writes(p, cf, olds, order)|
    requires FIXED <= p.managed && NoClash(p)
    requires n in p.records && n in Tagged(Landed(p, cf, olds, order, k), p.info.id)
    requires var cf1 := Landed(p, cf, olds, order, k);
             && Choices(p, cf1, olds2, order2)
             && var cf2 := Landed(p, cf1, olds2, order2, |Writes(p, cf1, olds2, order2)|);
                d.info.id == p.info.id && d.records == map[] && Choices(d, cf2, olds3, [])
    ensures var cf1 := Landed(p, cf, olds, order, k);
            var cf2 := Landed(p, cf1, olds2, order2, |Writes(p, cf1, olds2, order2)|);
            var cf3 := Landed(d, cf2, olds3, [], |Writes(d, cf2, olds3, [])|);
            n in cf3 && Sole(cf3[n].props, PV_STATUS, ACTIVE) && n !in Tagged(cf3, p.info.id)
  {
    var cf1 := Landed(p, cf, olds, order, k);
    var cf2 := Landed(p, cf1, olds2, order2, |Writes(p, cf1, olds2, order2)|);
    PushConverges(p, cf1, olds2, order2, n);
    TagAfterPush(p, cf1, olds2, order2, n);
    OthersUntouched(d, cf2, olds3, [], |Writes(d, cf2, olds3, [])|, n);
  }
}
