/**
 Where a channel goes when its IOC leaves, told by the history of the index alone
 (server/recceiver/cf/processor.py:292-332, 640-725).
 */
module Failover {
  import opened CfModel
  import opened Properties
  import opened ChannelIndex
  import opened IndexHistory
  import opened PushDiff

  /** No registration of `n` that counts is later than registration q. */
  ghost predicate Newest(acts: seq<Action>, n: string, q: nat) {
    forall j: string, r: nat | Since(acts, j, n, r) :: r <= q
  }

  lemma NewestIsLast(acts: seq<Action>, n: string, i: string, q: nat)
    requires Legal(acts) && Since(acts, i, n, q) && Newest(acts, n, q)
    ensures n in After(acts).owners && var s := After(acts).owners[n]; s != [] && s[|s| - 1] == i
  {
    hide After, Legal;
    OwnedIffRegistered(acts, n, i);
    var s := After(acts).OwnersOf(n);
    assert i in s;
    var last := s[|s| - 1];
    assert last in s;
    OwnedIffRegistered(acts, n, last);
    var r: nat :| Since(acts, last, n, r);
    if last != i {
      LastOwnerIsTheNewest(acts, n, i, q, r);
      assert false;
    }
  }

  /**
   After any legal run, a channel its IOC gives up goes to the IOC whose counting registration is the newest, and
   then says exactly what the latest opening of that IOC said of it: host, name, id and address, under its account.
   */
  lemma FailoverIsToTheNewest(acts: seq<Action>, p: Push, cf: Cf, olds: seq<string>, order: seq<string>, n: string,
                              i: string, q: nat) returns (k: nat)
    requires Legal(acts) && p.ix == After(acts) && p.records == map[]
    requires Choices(p, cf, olds, order) && n in Tagged(cf, p.info.id)
    requires Since(acts, i, n, q) && Newest(acts, n, q)
    ensures OpenedAt(acts, i, k)
    ensures var r := Landed(p, cf, olds, order, |Writes(p, cf, olds, order)|);
            n in r && r[n].owner == acts[k].info.owner
            && Describes(r[n].props, acts[k].info, p.recceiverId, p.info.time)
  {
    hide Since, Newest, Legal, After, Choices, Landed, Writes, Tagged;
    NewestIsLast(acts, n, i, q);
    RunKeepsInv(acts);
    NoDeadBranches(After(acts), n);
    RecordIsFromTheOpening(acts, i);
    k :| OpenedAt(acts, i, k) && StillKnown(acts, i, k);
    ReassignedIsDescribed(p, cf, olds, order, n);
  }

  /** A channel without counting registrations is retired: Inactive, and otherwise as it was. */
  lemma RetiredWithoutRegistrations(acts: seq<Action>, p: Push, cf: Cf, olds: seq<string>, order: seq<string>,
                                      n: string)
    requires Legal(acts) && p.ix == After(acts) && p.records == map[]
    requires Choices(p, cf, olds, order) && n in Tagged(cf, p.info.id)
    requires forall i, q: nat :: !Since(acts, i, n, q)
    ensures var r := Landed(p, cf, olds, order, |Writes(p, cf, olds, order)|);
            && n in r && r[n].owner == cf[n].owner
            && Sole(r[n].props, PV_STATUS, INACTIVE) && Sole(r[n].props, TIME, p.info.time)
            && Without(r[n].props, {PV_STATUS, TIME}) == Without(cf[n].props, {PV_STATUS, TIME})
  {
    NobodyOwns(acts, n);
    LandedAt(p, cf, olds, order, |Writes(p, cf, olds, order)|, n);
    hide Since, Legal, After, Landed, Writes, Target, Without, Sole;
    OrphanKeepsTheRest(p, cf, n);
  }

  lemma NobodyOwns(acts: seq<Action>, n: string)
    requires Legal(acts) && forall i, q: nat :: !Since(acts, i, n, q)
    ensures n !in After(acts).owners
  {
    hide Legal, After, Since;
    RunKeepsInv(acts);
    var ix := After(acts);
    if n in ix.owners {
      assert ix.owners[n] != [];
      OwnedIffRegistered(acts, n, ix.owners[n][0]);
    }
  }
}
